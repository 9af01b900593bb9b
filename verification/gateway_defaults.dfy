/** The product-chain defaults: appended entries for keys that read blank, by deployment mode. The gateway
    applies them twice before it serves. */
module GatewayDefaults {
  import opened Text
  import opened GatewayEnv

  // A condition on lookups other than the key's own.
  datatype Guard =
    | Always
    | IsSet(key: string)
    | IsBlank(key: string)
    | Both(a: Guard, b: Guard)
    | Not(a: Guard)
    | CommandSet(first: string, second: string)

  // strings.TrimSpace(firstNonEmpty(a, b)) != ""
  predicate FirstSet(a: string, b: string)
  {
    !Blank(if a != "" then a else b)
  }

  predicate Holds(g: Guard, env: Env)
  {
    match g
    case Always => true
    case IsSet(key) => !Blank(Lookup(env, key))
    case IsBlank(key) => Blank(Lookup(env, key))
    case Both(a, b) => Holds(a, env) && Holds(b, env)
    case Not(a) => !Holds(a, env)
    case CommandSet(first, second) => FirstSet(Lookup(env, first), Lookup(env, second))
  }

  function Inputs(g: Guard): (keys: set<string>)
  {
    match g
    case Always => {}
    case IsSet(key) => {key}
    case IsBlank(key) => {key}
    case Both(a, b) => Inputs(a) + Inputs(b)
    case Not(a) => Inputs(a)
    case CommandSet(first, second) => {first, second}
  }

  // Append key=value when the key reads blank and the guard holds.
  datatype Rule = Rule(key: string, value: string, when: Guard)

  predicate Fires(r: Rule, env: Env)
  {
    Blank(Lookup(env, r.key)) && Holds(r.when, env)
  }

  function ApplyRule(r: Rule, env: Env): (out: Env)
  {
    if Fires(r, env) then env + [Entry(r.key, r.value)] else env
  }

  function ApplyRules(rules: seq<Rule>, env: Env): (out: Env)
  {
    if rules == [] then env else ApplyRule(rules[|rules| - 1], ApplyRules(rules[..|rules| - 1], env))
  }

  // ---- keys ----

  const ACK_ENABLED := "A21_XIAOZHI_FAST_ACK_ENABLED"
  const ACK_DELAY := "A21_XIAOZHI_FAST_ACK_DELAY_MS"
  const SCREEN_POLICY := "A21_XIAOZHI_STT_SCREEN_POLICY"
  const ASR := "A21_ASR_PROFILE"
  const ASR_CLOUD := "A21_ASR_CLOUD_PROFILE"
  const ASR_LOCAL := "A21_ASR_LOCAL_PROFILE"
  const TEXT_STREAM := "A21_TEXT_STREAM_PROFILE"
  const TTS_FAST := "A21_TTS_FAST_PROFILE"
  const TTS_BALANCED := "A21_TTS_BALANCED_PROFILE"
  const TTS_QUALITY := "A21_TTS_QUALITY_PROFILE"
  const PRIMARY := "A21_PROVIDER_PRIMARY"
  const DASHSCOPE := "A21_DASHSCOPE_API_KEY"
  const STEPFUN := "A21_LAB_STEPFUN_API_KEY"
  const DEEPSEEK := "A21_LAB_DEEPSEEK_API_KEY"
  const CLONE_COMMAND := "A21_VOICE_CLONE_COMMAND"
  const CLONE_CLI := "A21_VOICE_CLONE_CLI"
  const CLONE_AUDIO := "A21_VOICE_CLONE_REF_AUDIO"
  const CHAIN_SHORT := "A21_PRODUCT_CHAIN"

  function TtsUnset(): (g: Guard)
  {
    Both(IsBlank(TTS_BALANCED), IsBlank(TTS_QUALITY))
  }

  // A command-line voice clone is configured.
  function Cloned(): (g: Guard)
  {
    Both(CommandSet(CLONE_COMMAND, CLONE_CLI), IsSet(CLONE_AUDIO))
  }

  function AckEnabled(): (r: Rule)
  {
    Rule(ACK_ENABLED, "true", Always)
  }

  function AckDelay(): (r: Rule)
  {
    Rule(ACK_DELAY, "700", Always)
  }

  function LocalAsr(): (r: Rule)
  {
    Rule(ASR_LOCAL, "sherpa_onnx", Always)
  }

  function ClonedTts(): (r: Rule)
  {
    Rule(TTS_FAST, "voice_clone_cli", Both(TtsUnset(), Cloned()))
  }

  function SherpaTts(): (r: Rule)
  {
    Rule(TTS_FAST, "sherpa_onnx_tts", Both(TtsUnset(), Not(Cloned())))
  }

  function OllamaText(): (r: Rule)
  {
    Rule(TEXT_STREAM, "local_ollama", Both(IsBlank(PRIMARY), Both(IsSet(OLLAMA_URL), IsSet(OLLAMA_MODEL))))
  }

  function Screen(): (r: Rule)
  {
    Rule(SCREEN_POLICY, "status_only", Always)
  }

  function CloudAsr(): (r: Rule)
  {
    Rule(ASR, "cloud", Always)
  }

  function DashscopeAsr(): (r: Rule)
  {
    Rule(ASR_CLOUD, "dashscope_qwen_asr_realtime", IsSet(DASHSCOPE))
  }

  function DoubaoAsr(): (r: Rule)
  {
    Rule(ASR_CLOUD, "doubao_asr_realtime", IsBlank(DASHSCOPE))
  }

  function StepfunText(): (r: Rule)
  {
    Rule(TEXT_STREAM, "stepfun", Both(IsBlank(PRIMARY), IsSet(STEPFUN)))
  }

  function DeepseekText(): (r: Rule)
  {
    Rule(TEXT_STREAM, "deepseek", Both(IsBlank(PRIMARY), IsSet(DEEPSEEK)))
  }

  function DashscopeTts(): (r: Rule)
  {
    Rule(TTS_FAST, "dashscope_qwen_tts_realtime", Both(TtsUnset(), IsSet(DASHSCOPE)))
  }

  function DoubaoTts(): (r: Rule)
  {
    Rule(TTS_FAST, "doubao_tts_realtime", Both(TtsUnset(), IsBlank(DASHSCOPE)))
  }

  function FastAckRules(): (rules: seq<Rule>)
  {
    [AckEnabled(), AckDelay()]
  }

  function HostLocalRules(): (rules: seq<Rule>)
  {
    FastAckRules() + [LocalAsr(), ClonedTts(), SherpaTts(), OllamaText()]
  }

  function CloudEdgeRules(): (rules: seq<Rule>)
  {
    FastAckRules()
    + [Screen(), CloudAsr(), DashscopeAsr(), DoubaoAsr()]
    + [StepfunText(), DeepseekText(), DashscopeTts(), DoubaoTts()]
  }

  datatype Mode = CloudEdge | HostLocal | Other

  // strings.ToLower where it can yield ASCII: two letters outside ASCII have an ASCII lower case.
  function Lower(s: string): (r: string)
    ensures |r| == |s|
  {
    seq(|s|, i requires 0 <= i < |s| => LowerChar(s[i]))
  }

  function LowerChar(ch: char): (r: char)
  {
    if 'A' <= ch <= 'Z' then (ch as int + 32) as char
    else if ch as int == 0x130 then 'i'
    else if ch as int == 0x212A then 'k'
    else ch
  }

  // gatewayProductChainMode, classified as the switch over it does.
  function ModeOf(env: Env): (m: Mode)
  {
    var first := Lookup(env, CHAIN);
    ModeNamed(Lower(Trim(if first != "" then first else Lookup(env, CHAIN_SHORT))))
  }

  function ModeNamed(name: string): (m: Mode)
  {
    if name in {"cloud_edge", "cloud-edge", "public_cloud", "public-cloud"} then CloudEdge
    else if name in {"host_local", "host-local", "product", "real"} then HostLocal
    else Other
  }

  function RulesFor(m: Mode): (rules: seq<Rule>)
  {
    match m
    case CloudEdge => CloudEdgeRules()
    case HostLocal => HostLocalRules()
    case Other => FastAckRules()
  }

  function Defaults(env: Env): (out: Env)
  {
    ApplyRules(RulesFor(ModeOf(env)), env)
  }

  // ---- theory of one pass over a list of rules ----

  // No guard reads a key that some rule sets, and everything is spelled without an equals sign.
  ghost predicate Separated(rules: seq<Rule>)
  {
    && (forall i :: 0 <= i < |rules| ==> WellSpelled(rules[i]))
    && (forall i, j :: 0 <= i < |rules| && 0 <= j < |rules| ==> rules[j].key !in Inputs(rules[i].when))
  }

  predicate WellSpelled(r: Rule)
  {
    Without(r.key, '=') && Without(r.value, '=') && !Blank(r.value)
  }

  lemma OnlyItsKey(r: Rule, key: string)
    requires WellSpelled(r)
    ensures HasKey(Entry(r.key, r.value), key) <==> key == r.key
  {
    hide Blank, Without;
    OneEquals(r.key, r.value);
    if HasKey(Entry(r.key, r.value), key) {
      KeyEnds(Entry(r.key, r.value), key);
      assert Entry(r.key, r.value)[..|r.key|] == r.key;
    }
  }

  lemma OneEquals(key: string, value: string)
    requires Without(key, '=') && Without(value, '=')
    ensures forall i :: 0 <= i < |Entry(key, value)| && Entry(key, value)[i] == '=' ==> i == |key|
  {
  }

  lemma KeyEnds(e: string, key: string)
    requires HasKey(e, key)
    ensures |key| < |e| && e[|key|] == '=' && e[..|key|] == key
  {
    assert (key + "=")[|key|] == '=' && (key + "=")[..|key|] == key;
  }

  // The effect of one rule on every lookup.
  lemma RuleLookup(r: Rule, env: Env, key: string)
    requires WellSpelled(r)
    ensures var out := ApplyRule(r, env);
            && Present(out, key) == (Present(env, key) || (Fires(r, env) && key == r.key))
            && Lookup(out, key) == (if Fires(r, env) && key == r.key && !Present(env, key) then r.value else Lookup(env, key))
  {
    var e := Entry(r.key, r.value);
    LookupAppend(env, [e], key);
    LookupOne(e, key);
    OnlyItsKey(r, key);
    if !Present(env, key) {
      LookupAbsent(env, key);
    }
    assert e[|r.key| + 1..] == r.value;
  }

  ghost predicate SameLookups(a: Env, b: Env, keys: set<string>)
  {
    forall k :: k in keys ==> Lookup(a, k) == Lookup(b, k)
  }

  lemma {:induction false} SameGuard(g: Guard, a: Env, b: Env)
    requires SameLookups(a, b, Inputs(g))
    ensures Holds(g, a) == Holds(g, b)
  {
    match g
    case Always =>
    case IsSet(key) =>
    case IsBlank(key) =>
    case Both(x, y) =>
      assert Inputs(x) <= Inputs(g) && Inputs(y) <= Inputs(g);
      SameGuard(x, a, b);
      SameGuard(y, a, b);
    case Not(x) =>
      SameGuard(x, a, b);
    case CommandSet(first, second) =>
  }

  lemma PassStep(rules: seq<Rule>, n: nat, env: Env)
    requires n <= |rules|
    ensures n == 0 ==> ApplyRules(rules[..n], env) == env
    ensures n > 0 ==> ApplyRules(rules[..n], env) == ApplyRule(rules[n - 1], ApplyRules(rules[..n - 1], env))
  {
    if n > 0 {
      assert rules[..n][..n - 1] == rules[..n - 1];
    }
  }

  // Keys already present keep their value; keys no rule sets are not touched; guards do not change.
  lemma {:induction false} PassKeeps(rules: seq<Rule>, n: nat, env: Env, key: string)
    requires Separated(rules) && n <= |rules|
    ensures var out := ApplyRules(rules[..n], env);
            && (Present(env, key) ==> Present(out, key) && Lookup(out, key) == Lookup(env, key))
            && ((forall i :: 0 <= i < n ==> rules[i].key != key) ==>
                 Present(out, key) == Present(env, key) && Lookup(out, key) == Lookup(env, key))
            && (!Present(env, key) && Present(out, key) ==> !Blank(Lookup(out, key)))
  {
    hide ApplyRules, ApplyRule, Lookup, Present, Blank, Holds;
    PassStep(rules, n, env);
    if n > 0 {
      PassKeeps(rules, n - 1, env, key);
      RuleLookup(rules[n - 1], ApplyRules(rules[..n - 1], env), key);
    }
  }

  lemma GuardKept(rules: seq<Rule>, n: nat, env: Env, i: nat)
    requires Separated(rules) && n <= |rules| && i < |rules|
    ensures Holds(rules[i].when, ApplyRules(rules[..n], env)) == Holds(rules[i].when, env)
  {
    var out := ApplyRules(rules[..n], env);
    forall k | k in Inputs(rules[i].when)
      ensures Lookup(out, k) == Lookup(env, k)
    {
      PassKeeps(rules, n, env, k);
    }
    SameGuard(rules[i].when, out, env);
  }

  lemma {:induction false} LaterKeeps(rules: seq<Rule>, m: nat, n: nat, env: Env, key: string)
    requires Separated(rules) && m <= n <= |rules|
    requires Present(ApplyRules(rules[..m], env), key)
    ensures Present(ApplyRules(rules[..n], env), key)
    ensures Lookup(ApplyRules(rules[..n], env), key) == Lookup(ApplyRules(rules[..m], env), key)
  {
    hide ApplyRules, ApplyRule, Lookup, Present, Blank, Holds, Fires;
    if m < n {
      PassStep(rules, n, env);
      LaterKeeps(rules, m, n - 1, env, key);
      RuleLookup(rules[n - 1], ApplyRules(rules[..n - 1], env), key);
    }
  }

  // The key has entries, and the first of them is blank: the default is wanted but cannot be seen.
  predicate Defeated(r: Rule, env: Env)
  {
    Present(env, r.key) && Blank(Lookup(env, r.key)) && Holds(r.when, env)
  }

  /** After a pass, a rule would fire again exactly when the environment already had a blank first entry for
      its key: otherwise its key now reads as something. */
  lemma FiresAgain(rules: seq<Rule>, env: Env, i: nat)
    requires Separated(rules) && i < |rules|
    ensures Fires(rules[i], ApplyRules(rules, env)) <==> Defeated(rules[i], env)
    ensures Fires(rules[i], ApplyRules(rules, env)) ==> Present(ApplyRules(rules, env), rules[i].key)
  {
    hide ApplyRules, ApplyRule, Lookup, Present, Blank, Holds;
    var r, n := rules[i], |rules|;
    assert rules[..n] == rules;
    PassKeeps(rules, n, env, r.key);
    GuardKept(rules, n, env, i);
    if !Present(env, r.key) && Holds(r.when, env) {
      var before := ApplyRules(rules[..i], env);
      PassKeeps(rules, i, env, r.key);
      GuardKept(rules, i, env, i);
      LookupBlankIfAbsent(before, r.key);
      PassStep(rules, i + 1, env);
      RuleLookup(r, before, r.key);
      LaterKeeps(rules, i + 1, n, env, r.key);
    }
  }

  lemma LookupBlankIfAbsent(env: Env, key: string)
    ensures !Present(env, key) ==> Blank(Lookup(env, key))
  {
    if !Present(env, key) {
      LookupAbsent(env, key);
    }
  }

  // A second pass changes no lookup.
  lemma {:induction false} SecondPass(rules: seq<Rule>, n: nat, once: Env, key: string)
    requires Separated(rules) && n <= |rules|
    requires forall i :: 0 <= i < |rules| && Fires(rules[i], once) ==> Present(once, rules[i].key)
    ensures Lookup(ApplyRules(rules[..n], once), key) == Lookup(once, key)
    ensures Present(ApplyRules(rules[..n], once), key) == Present(once, key)
  {
    hide ApplyRules, ApplyRule, Lookup, Present, Blank, Holds;
    PassStep(rules, n, once);
    if n > 0 {
      var r, before := rules[n - 1], ApplyRules(rules[..n - 1], once);
      SecondPass(rules, n - 1, once, key);
      SecondPass(rules, n - 1, once, r.key);
      GuardKept(rules, n - 1, once, n - 1);
      RuleLookup(r, before, key);
    }
  }

  // The entries of the first n rules that are defeated.
  function Lost(rules: seq<Rule>, n: nat, env: Env): (entries: Env)
    requires n <= |rules|
  {
    if n == 0 then []
    else
      var r := rules[n - 1];
      Lost(rules, n - 1, env) + if Defeated(r, env) then [Entry(r.key, r.value)] else []
  }

  // What a second pass appends is what the first was defeated in.
  lemma {:induction false} PassAppends(rules: seq<Rule>, n: nat, env: Env)
    requires Separated(rules) && n <= |rules|
    ensures var once := ApplyRules(rules, env);
            ApplyRules(rules[..n], once) == once + Lost(rules, n, env)
  {
    hide ApplyRules, Lookup, Present, Blank, Holds, WellSpelled, Entry, Defeated;
    var once := ApplyRules(rules, env);
    PassStep(rules, n, once);
    if n == 0 {
      assert once + [] == once;
    } else {
      var r := rules[n - 1];
      PassAppends(rules, n - 1, env);
      FiresOnceMore(rules, n, env);
      var lost, more := Lost(rules, n - 1, env), if Defeated(r, env) then [Entry(r.key, r.value)] else [];
      assert once + lost + more == once + (lost + more);
    }
  }

  lemma FiresOnceMore(rules: seq<Rule>, n: nat, env: Env)
    requires Separated(rules) && 0 < n <= |rules|
    ensures Fires(rules[n - 1], ApplyRules(rules[..n - 1], ApplyRules(rules, env))) == Defeated(rules[n - 1], env)
  {
    hide ApplyRules, Lookup, Present, Blank, Holds, WellSpelled;
    var once := ApplyRules(rules, env);
    forall i | 0 <= i < |rules|
      ensures Fires(rules[i], once) ==> Present(once, rules[i].key)
    {
      FiresAgain(rules, env, i);
    }
    FiresAgain(rules, env, n - 1);
    SecondPass(rules, n - 1, once, rules[n - 1].key);
    GuardKept(rules, n - 1, once, n - 1);
  }

  // Defeat is for good.
  lemma {:induction false} LostAgain(rules: seq<Rule>, n: nat, env: Env)
    requires Separated(rules) && n <= |rules|
    ensures Lost(rules, n, ApplyRules(rules, env)) == Lost(rules, n, env)
  {
    hide ApplyRules, Entry, Lookup, Present, Blank, Holds;
    if n > 0 {
      LostAgain(rules, n - 1, env);
      FiresAgain(rules, env, n - 1);
    }
  }

  lemma {:induction false} NothingLost(rules: seq<Rule>, n: nat, env: Env)
    requires n <= |rules|
    ensures Lost(rules, n, env) == [] <==> forall i :: 0 <= i < n ==> !Defeated(rules[i], env)
  {
    hide Defeated, Entry;
    if n > 0 {
      NothingLost(rules, n - 1, env);
    }
  }

  // ---- the program's rules are of this kind ----

  lemma Valued(value: string)
    requires value != "" && !IsSpace(value[0]) && !IsSpace(value[|value| - 1])
    ensures !Blank(value)
  {
    TrimFixed(value);
  }

  lemma ScreenKeyFree()
    ensures Without(SCREEN_POLICY, '=')
  {
  }

  lemma LongKeysFree()
    ensures Without(SCREEN_POLICY, '=') && Without(ASR_CLOUD, '=') && Without(TTS_FAST, '=')
  {
    ScreenKeyFree();
  }

  lemma AckEnabledIsSpelled()
    ensures WellSpelled(AckEnabled())
  {
    hide Blank;
    Valued(AckEnabled().value);
  }

  lemma AckDelayIsSpelled()
    ensures WellSpelled(AckDelay())
  {
    hide Blank;
    Valued(AckDelay().value);
  }

  lemma LocalAsrIsSpelled()
    ensures WellSpelled(LocalAsr())
  {
    hide Blank;
    Valued(LocalAsr().value);
  }

  lemma OllamaTextIsSpelled()
    ensures WellSpelled(OllamaText())
  {
    hide Blank;
    Valued(OllamaText().value);
  }

  lemma ClonedTtsIsSpelled()
    ensures WellSpelled(ClonedTts())
  {
    hide Blank;
    Valued(ClonedTts().value);
  }

  lemma SherpaTtsIsSpelled()
    ensures WellSpelled(SherpaTts())
  {
    hide Blank;
    Valued(SherpaTts().value);
  }

  lemma ScreenValue()
    ensures Without(Screen().value, '=') && !Blank(Screen().value)
  {
    hide Blank;
    Valued(Screen().value);
  }

  lemma ScreenIsSpelled()
    ensures WellSpelled(Screen())
  {
    hide Without, Blank;
    ScreenValue();
    LongKeysFree();
  }

  lemma CloudAsrIsSpelled()
    ensures WellSpelled(CloudAsr())
  {
    hide Blank;
    Valued(CloudAsr().value);
  }

  lemma DashscopeAsrValue()
    ensures Without(DashscopeAsr().value, '=') && !Blank(DashscopeAsr().value)
  {
    hide Blank;
    Valued(DashscopeAsr().value);
  }

  lemma DashscopeAsrIsSpelled()
    ensures WellSpelled(DashscopeAsr())
  {
    hide Without, Blank;
    DashscopeAsrValue();
    LongKeysFree();
  }

  lemma DoubaoAsrValue()
    ensures Without(DoubaoAsr().value, '=') && !Blank(DoubaoAsr().value)
  {
    hide Blank;
    Valued(DoubaoAsr().value);
  }

  lemma DoubaoAsrIsSpelled()
    ensures WellSpelled(DoubaoAsr())
  {
    hide Without, Blank;
    DoubaoAsrValue();
    LongKeysFree();
  }

  lemma StepfunTextIsSpelled()
    ensures WellSpelled(StepfunText())
  {
    hide Blank;
    Valued(StepfunText().value);
  }

  lemma DeepseekTextIsSpelled()
    ensures WellSpelled(DeepseekText())
  {
    hide Blank;
    Valued(DeepseekText().value);
  }

  lemma DashscopeTtsValue()
    ensures Without(DashscopeTts().value, '=') && !Blank(DashscopeTts().value)
  {
    hide Blank;
    Valued(DashscopeTts().value);
  }

  lemma DashscopeTtsIsSpelled()
    ensures WellSpelled(DashscopeTts())
  {
    hide Without, Blank;
    DashscopeTtsValue();
    LongKeysFree();
  }

  lemma DoubaoTtsValue()
    ensures Without(DoubaoTts().value, '=') && !Blank(DoubaoTts().value)
  {
    hide Blank;
    Valued(DoubaoTts().value);
  }

  lemma DoubaoTtsIsSpelled()
    ensures WellSpelled(DoubaoTts())
  {
    hide Without, Blank;
    DoubaoTtsValue();
    LongKeysFree();
  }

  lemma AllSpelled()
    ensures WellSpelled(AckEnabled()) && WellSpelled(AckDelay())
    ensures WellSpelled(LocalAsr()) && WellSpelled(OllamaText())
    ensures WellSpelled(ClonedTts()) && WellSpelled(SherpaTts())
    ensures WellSpelled(Screen()) && WellSpelled(CloudAsr())
    ensures WellSpelled(DashscopeAsr()) && WellSpelled(DoubaoAsr())
    ensures WellSpelled(StepfunText()) && WellSpelled(DeepseekText())
    ensures WellSpelled(DashscopeTts()) && WellSpelled(DoubaoTts())
  {
    hide *;
    AckEnabledIsSpelled();
    AckDelayIsSpelled();
    LocalAsrIsSpelled();
    OllamaTextIsSpelled();
    ClonedTtsIsSpelled();
    SherpaTtsIsSpelled();
    ScreenIsSpelled();
    CloudAsrIsSpelled();
    DashscopeAsrIsSpelled();
    DoubaoAsrIsSpelled();
    StepfunTextIsSpelled();
    DeepseekTextIsSpelled();
    DashscopeTtsIsSpelled();
    DoubaoTtsIsSpelled();
  }

  const DEFAULTED: set<string> := {ACK_ENABLED, ACK_DELAY, SCREEN_POLICY, ASR, ASR_CLOUD, ASR_LOCAL, TEXT_STREAM, TTS_FAST}

  const CONSULTED: set<string> := {
    TTS_BALANCED, TTS_QUALITY, PRIMARY, DASHSCOPE, STEPFUN, DEEPSEEK, OLLAMA_URL, OLLAMA_MODEL,
    CLONE_COMMAND, CLONE_CLI, CLONE_AUDIO, CHAIN, CHAIN_SHORT}

  lemma ConsultedNeverDefaulted()
    ensures DEFAULTED !! CONSULTED
  {
  }

  ghost predicate Drawn(rules: seq<Rule>)
  {
    forall i :: 0 <= i < |rules| ==> DrawnRule(rules[i])
  }

  predicate DrawnRule(r: Rule)
  {
    r.key in DEFAULTED && Inputs(r.when) <= CONSULTED
  }

  lemma FirstRulesDrawn()
    ensures DrawnRule(AckEnabled()) && DrawnRule(AckDelay()) && DrawnRule(Screen()) && DrawnRule(CloudAsr())
    ensures DrawnRule(LocalAsr()) && DrawnRule(OllamaText())
  {
  }

  lemma SpeechRulesDrawn()
    ensures DrawnRule(ClonedTts()) && DrawnRule(SherpaTts()) && DrawnRule(DashscopeTts()) && DrawnRule(DoubaoTts())
  {
  }

  lemma CloudRulesDrawn()
    ensures DrawnRule(DashscopeAsr()) && DrawnRule(DoubaoAsr()) && DrawnRule(StepfunText()) && DrawnRule(DeepseekText())
  {
  }

  lemma RulesDrawn(m: Mode)
    ensures Drawn(RulesFor(m))
  {
    hide DrawnRule, AckEnabled, AckDelay, LocalAsr, ClonedTts, SherpaTts, OllamaText, Screen, CloudAsr,
      DashscopeAsr, DoubaoAsr, StepfunText, DeepseekText, DashscopeTts, DoubaoTts;
    FirstRulesDrawn();
    SpeechRulesDrawn();
    CloudRulesDrawn();
  }

  lemma RulesSpelled(m: Mode)
    ensures forall i :: 0 <= i < |RulesFor(m)| ==> WellSpelled(RulesFor(m)[i])
  {
    hide WellSpelled, AckEnabled, AckDelay, LocalAsr, ClonedTts, SherpaTts, OllamaText, Screen, CloudAsr,
      DashscopeAsr, DoubaoAsr, StepfunText, DeepseekText, DashscopeTts, DoubaoTts;
    AllSpelled();
  }

  lemma RulesSeparated(m: Mode)
    ensures Separated(RulesFor(m))
  {
    hide RulesFor, WellSpelled;
    RulesDrawn(m);
    RulesSpelled(m);
    ConsultedNeverDefaulted();
    var rules := RulesFor(m);
    forall i, j | 0 <= i < |rules| && 0 <= j < |rules|
      ensures rules[j].key !in Inputs(rules[i].when)
    {
      assert rules[j].key in DEFAULTED && Inputs(rules[i].when) <= CONSULTED;
    }
  }

  // ---- the defaults in code order ----

  method DefaultAckEnabled(env: Env) returns (out: Env)
    ensures out == ApplyRule(AckEnabled(), env)
  {
    out := env;
    if Blank(Lookup(out, ACK_ENABLED)) {
      out := out + [Entry(ACK_ENABLED, "true")];
    }
  }

  method DefaultAckDelay(env: Env) returns (out: Env)
    ensures out == ApplyRule(AckDelay(), env)
  {
    out := env;
    if Blank(Lookup(out, ACK_DELAY)) {
      out := out + [Entry(ACK_DELAY, "700")];
    }
  }

  method ApplyFastAckDefaults(env: Env) returns (out: Env)
    ensures out == ApplyRules(FastAckRules(), env)
  {
    hide AckEnabled, AckDelay, ApplyRule, ApplyRules;
    UnrollTwo(FastAckRules(), env);
    out := DefaultAckEnabled(env);
    out := DefaultAckDelay(out);
  }

  lemma UnrollTwo(rules: seq<Rule>, env: Env)
    requires |rules| == 2
    ensures ApplyRules(rules, env) == ApplyRule(rules[1], ApplyRule(rules[0], env))
  {
    assert rules[..2] == rules;
    PassStep(rules, 2, env);
    PassStep(rules, 1, env);
    PassStep(rules, 0, env);
  }

  lemma UnrollFour(rules: seq<Rule>, env: Env)
    requires |rules| == 4
    ensures ApplyRules(rules, env) ==
      ApplyRule(rules[3], ApplyRule(rules[2], ApplyRule(rules[1], ApplyRule(rules[0], env))))
  {
    hide ApplyRule;
    RulesAfter(rules[..2], rules[2..], env);
    assert rules[..2] + rules[2..] == rules;
    UnrollTwo(rules[..2], env);
    UnrollTwo(rules[2..], ApplyRules(rules[..2], env));
  }

  // Two rules for one key of which at most one can fire: an if and its else.
  lemma EitherRule(r: Rule, other: Rule, env: Env)
    requires r.key == other.key && WellSpelled(r) && r.key !in Inputs(other.when)
    requires !(Holds(r.when, env) && Holds(other.when, env))
    ensures ApplyRule(other, ApplyRule(r, env)) == if Fires(r, env) then ApplyRule(r, env) else ApplyRule(other, env)
  {
    var once := ApplyRule(r, env);
    forall k | k in Inputs(other.when)
      ensures Lookup(once, k) == Lookup(env, k)
    {
      RuleLookup(r, env, k);
    }
    SameGuard(other.when, once, env);
  }

  method DefaultLocalAsr(env: Env) returns (out: Env)
    ensures out == ApplyRule(LocalAsr(), env)
  {
    out := env;
    if Blank(Lookup(out, ASR_LOCAL)) {
      out := out + [Entry(ASR_LOCAL, "sherpa_onnx")];
    }
  }

  // The guards of the rules, spelled out as the code's conditions.
  predicate NoTts(env: Env)
  {
    Blank(Lookup(env, TTS_FAST)) && Blank(Lookup(env, TTS_BALANCED)) && Blank(Lookup(env, TTS_QUALITY))
  }

  predicate VoiceCloned(env: Env)
  {
    FirstSet(Lookup(env, CLONE_COMMAND), Lookup(env, CLONE_CLI)) && !Blank(Lookup(env, CLONE_AUDIO))
  }

  predicate NoText(env: Env)
  {
    Blank(Lookup(env, TEXT_STREAM)) && Blank(Lookup(env, PRIMARY))
  }

  lemma BothHold(a: Guard, b: Guard, env: Env)
    ensures Holds(Both(a, b), env) == (Holds(a, env) && Holds(b, env))
    ensures Holds(Not(a), env) == !Holds(a, env)
    ensures Inputs(Both(a, b)) == Inputs(a) + Inputs(b) && Inputs(Not(a)) == Inputs(a)
  {
  }

  lemma LocalTtsFires(env: Env)
    ensures Fires(ClonedTts(), env) == (NoTts(env) && VoiceCloned(env))
    ensures Fires(SherpaTts(), env) == (NoTts(env) && !VoiceCloned(env))
    ensures !(Holds(ClonedTts().when, env) && Holds(SherpaTts().when, env))
  {
    hide Blank, Lookup;
    BothHold(TtsUnset(), Cloned(), env);
    BothHold(TtsUnset(), Not(Cloned()), env);
    BothHold(Cloned(), Cloned(), env);
    BothHold(CommandSet(CLONE_COMMAND, CLONE_CLI), IsSet(CLONE_AUDIO), env);
    BothHold(IsBlank(TTS_BALANCED), IsBlank(TTS_QUALITY), env);
  }

  method DefaultLocalTts(env: Env) returns (out: Env)
    ensures out == ApplyRule(SherpaTts(), ApplyRule(ClonedTts(), env))
  {
    hide Lookup, Blank, Entry, Fires, TtsUnset, Cloned;
    LocalTtsFires(env);
    LocalTtsEither(env);
    out := env;
    if Blank(Lookup(out, TTS_FAST)) && Blank(Lookup(out, TTS_BALANCED)) && Blank(Lookup(out, TTS_QUALITY)) {
      if FirstSet(Lookup(out, CLONE_COMMAND), Lookup(out, CLONE_CLI)) && !Blank(Lookup(out, CLONE_AUDIO)) {
        out := out + [Entry(TTS_FAST, "voice_clone_cli")];
      } else {
        out := out + [Entry(TTS_FAST, "sherpa_onnx_tts")];
      }
    }
  }

  // The two rules of an if and its else set one key, which neither guard reads.
  lemma EitherApart()
    ensures ClonedTts().key == SherpaTts().key && ClonedTts().key !in Inputs(SherpaTts().when)
    ensures DashscopeAsr().key == DoubaoAsr().key && DashscopeAsr().key !in Inputs(DoubaoAsr().when)
    ensures DashscopeTts().key == DoubaoTts().key && DashscopeTts().key !in Inputs(DoubaoTts().when)
  {
    hide Holds;
    TtsKeyApart();
    BothHold(TtsUnset(), Not(Cloned()), []);
    BothHold(Cloned(), Cloned(), []);
    BothHold(CommandSet(CLONE_COMMAND, CLONE_CLI), IsSet(CLONE_AUDIO), []);
    BothHold(TtsUnset(), IsBlank(DASHSCOPE), []);
    BothHold(IsBlank(TTS_BALANCED), IsBlank(TTS_QUALITY), []);
  }

  lemma TtsKeyApart()
    ensures TTS_FAST !in {TTS_BALANCED, TTS_QUALITY, CLONE_COMMAND, CLONE_CLI, CLONE_AUDIO, DASHSCOPE}
    ensures ASR_CLOUD != DASHSCOPE
  {
  }

  lemma LocalTtsEither(env: Env)
    ensures ApplyRule(SherpaTts(), ApplyRule(ClonedTts(), env)) ==
      if Fires(ClonedTts(), env) then ApplyRule(ClonedTts(), env) else ApplyRule(SherpaTts(), env)
  {
    hide Holds, WellSpelled, Inputs, ApplyRule, Fires, ClonedTts, SherpaTts;
    LocalTtsFires(env);
    AllSpelled();
    EitherApart();
    EitherRule(ClonedTts(), SherpaTts(), env);
  }

  lemma OllamaFires(env: Env)
    ensures Fires(OllamaText(), env) == (NoText(env) && !Blank(Lookup(env, OLLAMA_URL)) && !Blank(Lookup(env, OLLAMA_MODEL)))
  {
    hide Blank, Lookup;
    BothHold(IsBlank(PRIMARY), Both(IsSet(OLLAMA_URL), IsSet(OLLAMA_MODEL)), env);
    BothHold(IsSet(OLLAMA_URL), IsSet(OLLAMA_MODEL), env);
  }

  method DefaultOllamaText(env: Env) returns (out: Env)
    ensures out == ApplyRule(OllamaText(), env)
  {
    hide Lookup, Blank, Entry, Fires;
    OllamaFires(env);
    out := env;
    if Blank(Lookup(out, TEXT_STREAM)) && Blank(Lookup(out, PRIMARY))
      && !Blank(Lookup(out, OLLAMA_URL)) && !Blank(Lookup(out, OLLAMA_MODEL)) {
      out := out + [Entry(TEXT_STREAM, "local_ollama")];
    }
  }

  method ApplyHostLocalDefaults(env: Env) returns (out: Env)
    ensures out == ApplyRules(HostLocalRules(), env)
  {
    hide LocalAsr, ClonedTts, SherpaTts, OllamaText, FastAckRules, ApplyRule, ApplyRules;
    var own := [LocalAsr(), ClonedTts(), SherpaTts(), OllamaText()];
    out := ApplyFastAckDefaults(env);
    RulesAfter(FastAckRules(), own, env);
    UnrollFour(own, out);
    out := DefaultLocalAsr(out);
    out := DefaultLocalTts(out);
    out := DefaultOllamaText(out);
  }

  method DefaultScreen(env: Env) returns (out: Env)
    ensures out == ApplyRule(Screen(), env)
  {
    out := env;
    if Blank(Lookup(out, SCREEN_POLICY)) {
      out := out + [Entry(SCREEN_POLICY, "status_only")];
    }
  }

  method DefaultCloudAsr(env: Env) returns (out: Env)
    ensures out == ApplyRule(CloudAsr(), env)
  {
    out := env;
    if Blank(Lookup(out, ASR)) {
      out := out + [Entry(ASR, "cloud")];
    }
  }

  method DefaultCloudAsrEngine(env: Env) returns (out: Env)
    ensures out == ApplyRule(DoubaoAsr(), ApplyRule(DashscopeAsr(), env))
  {
    hide Lookup, Blank, Entry;
    CloudAsrEither(env);
    out := env;
    if Blank(Lookup(out, ASR_CLOUD)) {
      if !Blank(Lookup(out, DASHSCOPE)) {
        out := out + [Entry(ASR_CLOUD, "dashscope_qwen_asr_realtime")];
      } else {
        out := out + [Entry(ASR_CLOUD, "doubao_asr_realtime")];
      }
    }
  }

  lemma CloudAsrFires(env: Env)
    ensures !(Holds(DashscopeAsr().when, env) && Holds(DoubaoAsr().when, env))
  {
    hide Blank, Lookup;
  }

  lemma CloudAsrEither(env: Env)
    ensures ApplyRule(DoubaoAsr(), ApplyRule(DashscopeAsr(), env)) ==
      if Fires(DashscopeAsr(), env) then ApplyRule(DashscopeAsr(), env) else ApplyRule(DoubaoAsr(), env)
  {
    hide Holds, WellSpelled, Inputs, ApplyRule, Fires, DashscopeAsr, DoubaoAsr;
    CloudAsrFires(env);
    AllSpelled();
    EitherApart();
    EitherRule(DashscopeAsr(), DoubaoAsr(), env);
  }

  lemma CloudTextFires(env: Env)
    ensures Fires(StepfunText(), env) == (NoText(env) && !Blank(Lookup(env, STEPFUN)))
    ensures Fires(DeepseekText(), env) == (NoText(env) && !Blank(Lookup(env, DEEPSEEK)))
  {
    hide Blank, Lookup;
    BothHold(IsBlank(PRIMARY), IsSet(STEPFUN), env);
    BothHold(IsBlank(PRIMARY), IsSet(DEEPSEEK), env);
  }

  method DefaultStepfunText(env: Env) returns (out: Env)
    ensures out == ApplyRule(StepfunText(), env)
  {
    hide Lookup, Blank, Entry, Fires;
    CloudTextFires(env);
    out := env;
    if Blank(Lookup(out, TEXT_STREAM)) && Blank(Lookup(out, PRIMARY)) && !Blank(Lookup(out, STEPFUN)) {
      out := out + [Entry(TEXT_STREAM, "stepfun")];
    }
  }

  method DefaultDeepseekText(env: Env) returns (out: Env)
    ensures out == ApplyRule(DeepseekText(), env)
  {
    hide Lookup, Blank, Entry, Fires;
    CloudTextFires(env);
    out := env;
    if Blank(Lookup(out, TEXT_STREAM)) && Blank(Lookup(out, PRIMARY)) && !Blank(Lookup(out, DEEPSEEK)) {
      out := out + [Entry(TEXT_STREAM, "deepseek")];
    }
  }

  lemma CloudTtsFires(env: Env)
    ensures Fires(DashscopeTts(), env) == (NoTts(env) && !Blank(Lookup(env, DASHSCOPE)))
    ensures Fires(DoubaoTts(), env) == (NoTts(env) && Blank(Lookup(env, DASHSCOPE)))
    ensures !(Holds(DashscopeTts().when, env) && Holds(DoubaoTts().when, env))
  {
    hide Blank, Lookup;
    BothHold(TtsUnset(), IsSet(DASHSCOPE), env);
    BothHold(TtsUnset(), IsBlank(DASHSCOPE), env);
    BothHold(IsBlank(TTS_BALANCED), IsBlank(TTS_QUALITY), env);
  }

  lemma CloudTtsEither(env: Env)
    ensures ApplyRule(DoubaoTts(), ApplyRule(DashscopeTts(), env)) ==
      if Fires(DashscopeTts(), env) then ApplyRule(DashscopeTts(), env) else ApplyRule(DoubaoTts(), env)
  {
    hide Holds, WellSpelled, Inputs, ApplyRule, Fires, DashscopeTts, DoubaoTts;
    CloudTtsFires(env);
    AllSpelled();
    EitherApart();
    EitherRule(DashscopeTts(), DoubaoTts(), env);
  }

  method DefaultCloudTts(env: Env) returns (out: Env)
    ensures out == ApplyRule(DoubaoTts(), ApplyRule(DashscopeTts(), env))
  {
    hide Lookup, Blank, Entry, Fires, TtsUnset;
    CloudTtsFires(env);
    CloudTtsEither(env);
    out := env;
    if Blank(Lookup(out, TTS_FAST)) && Blank(Lookup(out, TTS_BALANCED)) && Blank(Lookup(out, TTS_QUALITY)) {
      if !Blank(Lookup(out, DASHSCOPE)) {
        out := out + [Entry(TTS_FAST, "dashscope_qwen_tts_realtime")];
      } else {
        out := out + [Entry(TTS_FAST, "doubao_tts_realtime")];
      }
    }
  }

  method ApplyCloudEdgeDefaults(env: Env) returns (out: Env)
    ensures out == ApplyRules(CloudEdgeRules(), env)
  {
    hide Screen, CloudAsr, DashscopeAsr, DoubaoAsr, StepfunText, DeepseekText, DashscopeTts, DoubaoTts,
      FastAckRules, ApplyRule, ApplyRules;
    var recognition := [Screen(), CloudAsr(), DashscopeAsr(), DoubaoAsr()];
    var speech := [StepfunText(), DeepseekText(), DashscopeTts(), DoubaoTts()];
    out := ApplyFastAckDefaults(env);
    RulesAfter(FastAckRules() + recognition, speech, env);
    RulesAfter(FastAckRules(), recognition, env);
    UnrollFour(recognition, out);
    out := DefaultScreen(out);
    out := DefaultCloudAsr(out);
    out := DefaultCloudAsrEngine(out);
    UnrollFour(speech, out);
    out := DefaultStepfunText(out);
    out := DefaultDeepseekText(out);
    out := DefaultCloudTts(out);
  }

  method ApplyProductChainDefaults(env: Env) returns (out: Env)
    ensures out == Defaults(env)
  {
    match ModeOf(env) {
      case CloudEdge => out := ApplyCloudEdgeDefaults(env);
      case HostLocal => out := ApplyHostLocalDefaults(env);
      case Other => out := ApplyFastAckDefaults(env);
    }
  }

  lemma {:induction false} RulesAfter(first: seq<Rule>, second: seq<Rule>, env: Env)
    ensures ApplyRules(first + second, env) == ApplyRules(second, ApplyRules(first, env))
  {
    hide ApplyRule, ApplyRules;
    var all, n := first + second, |second|;
    assert all[..|all|] == all && second[..n] == second;
    PassStep(all, |all|, env);
    PassStep(second, n, ApplyRules(first, env));
    if n == 0 {
      assert all == first;
    } else {
      RulesAfter(first, second[..n - 1], env);
      assert all[..|all| - 1] == first + second[..n - 1];
    }
  }

  // ---- theorems ----

  lemma ModeKept(env: Env)
    ensures ModeOf(Defaults(env)) == ModeOf(env)
  {
    hide RulesFor, Lookup, Trim, Lower;
    var rules := RulesFor(ModeOf(env));
    RulesSeparated(ModeOf(env));
    RulesDrawn(ModeOf(env));
    ConsultedNeverDefaulted();
    assert rules[..|rules|] == rules;
    PassKeeps(rules, |rules|, env, CHAIN);
    PassKeeps(rules, |rules|, env, CHAIN_SHORT);
  }

  /** The defaults never change what a key with an entry reads as, and applying them again changes no lookup
      at all: the gateway may do it twice. */
  lemma TwiceIsOnce(env: Env, key: string)
    ensures Present(env, key) ==> Lookup(Defaults(env), key) == Lookup(env, key)
    ensures Lookup(Defaults(Defaults(env)), key) == Lookup(Defaults(env), key)
  {
    hide RulesFor, ModeOf, Lookup, Present, Fires, Holds, ApplyRules;
    var rules, once := RulesFor(ModeOf(env)), Defaults(env);
    RulesSeparated(ModeOf(env));
    ModeKept(env);
    assert rules[..|rules|] == rules;
    PassKeeps(rules, |rules|, env, key);
    forall i | 0 <= i < |rules| && Fires(rules[i], once)
      ensures Present(once, rules[i].key)
    {
      FiresAgain(rules, env, i);
    }
    SecondPass(rules, |rules|, once, key);
  }

  // The wanted defaults of this environment's mode that a blank first entry defeats.
  function LostDefaults(env: Env): (entries: Env)
  {
    var rules := RulesFor(ModeOf(env));
    Lost(rules, |rules|, env)
  }

  lemma SecondDefaults(env: Env)
    ensures Defaults(Defaults(env)) == Defaults(env) + LostDefaults(env)
    ensures LostDefaults(Defaults(env)) == LostDefaults(env)
  {
    hide RulesFor, ModeOf, ApplyRules, Lost;
    var rules := RulesFor(ModeOf(env));
    RulesSeparated(ModeOf(env));
    ModeKept(env);
    assert rules[..|rules|] == rules;
    PassAppends(rules, |rules|, env);
    LostAgain(rules, |rules|, env);
  }

  /** As a list, the second application is the same exactly when no wanted default was defeated by a blank
      first entry for its key. */
  lemma TwiceIsOnceAsList(env: Env)
    ensures Defaults(Defaults(env)) == Defaults(env)
      <==> forall i :: 0 <= i < |RulesFor(ModeOf(env))| ==> !Defeated(RulesFor(ModeOf(env))[i], env)
  {
    hide Defaults, RulesFor, ModeOf, Lost, Defeated;
    SecondDefaults(env);
    NothingLost(RulesFor(ModeOf(env)), |RulesFor(ModeOf(env))|, env);
    if LostDefaults(env) == [] {
      assert Defaults(env) + [] == Defaults(env);
    }
  }

  function Repeated(env: Env, k: nat): (out: Env)
    decreases k
  {
    if k == 0 then env else Repeated(Defaults(env), k - 1)
  }

  /** Every application after the first appends all defeated defaults once more, so the list grows by their
      number each time; what any key reads as stays the same. */
  lemma {:induction false} GrowsForever(env: Env, k: nat, key: string)
    ensures Repeated(env, k + 2) == Repeated(env, k + 1) + LostDefaults(env)
    ensures |Repeated(env, k + 1)| == |Defaults(env)| + k * |LostDefaults(env)|
    ensures Lookup(Repeated(env, k + 1), key) == Lookup(Defaults(env), key)
    decreases k
  {
    hide Defaults, LostDefaults, Lookup;
    SecondDefaults(env);
    if k == 0 {
      assert Repeated(Defaults(env), 1) == Repeated(Defaults(Defaults(env)), 0);
    } else {
      GrowsForever(Defaults(env), k - 1, key);
      TwiceIsOnce(env, key);
      OneMoreTime(k, |LostDefaults(env)|);
    }
  }

  lemma OneMoreTime(k: nat, n: nat)
    requires k > 0
    ensures n + (k - 1) * n == k * n
  {
  }

  /** One blank entry defeats a default. */
  lemma BlankEntryDefeats()
    ensures LostDefaults([Entry(ACK_ENABLED, "")]) == [Entry(ACK_ENABLED, "true")]
  {
    hide ModeOf, Lookup, Present, Blank, Entry, Without, Lost;
    var env := [Entry(ACK_ENABLED, "")];
    AckKeysFree();
    ChainsFree();
    OnlyAck(ACK_DELAY);
    OnlyAck(CHAIN);
    OnlyAck(CHAIN_SHORT);
    OnlyAck(ACK_ENABLED);
    ModeOfNone(env);
    BlankIsBlank();
    FirstOfTwoLost(FastAckRules(), env);
  }

  lemma FirstOfTwoLost(rules: seq<Rule>, env: Env)
    requires |rules| == 2 && Defeated(rules[0], env) && !Defeated(rules[1], env)
    ensures Lost(rules, 2, env) == [Entry(rules[0].key, rules[0].value)]
  {
    hide Defeated, Entry;
    assert Lost(rules, 0, env) == [];
    assert Lost(rules, 1, env) == [] + [Entry(rules[0].key, rules[0].value)];
    assert Lost(rules, 2, env) == Lost(rules, 1, env) + [];
  }

  lemma BlankIsBlank()
    ensures Blank("")
  {
  }

  lemma ModeOfNone(env: Env)
    requires Lookup(env, CHAIN) == "" && Lookup(env, CHAIN_SHORT) == ""
    ensures ModeOf(env) == Other
  {
    hide Lookup, ModeNamed;
    assert Lower(Trim("")) == "";
    NoModeNamed();
  }

  lemma NoModeNamed()
    ensures ModeNamed("") == Other
  {
  }

  lemma OnlyAck(key: string)
    requires Without(ACK_ENABLED, '=') && Without(key, '=')
    ensures Present([Entry(ACK_ENABLED, "")], key) == (key == ACK_ENABLED)
    ensures Lookup([Entry(ACK_ENABLED, "")], key) == ""
  {
    var e := Entry(ACK_ENABLED, "");
    LookupOne(e, key);
    if key != ACK_ENABLED {
      EqualsFreeApart(ACK_ENABLED, key);
      NotBoth(ACK_ENABLED, key, e);
      hide Entry, Without;
    }
  }

  lemma AckKeysFree()
    ensures Without(ACK_ENABLED, '=') && Without(ACK_DELAY, '=') && ACK_DELAY != ACK_ENABLED
  {
    hide Without, Blank;
    AllSpelled();
    assert |ACK_DELAY| != |ACK_ENABLED|;
  }

  lemma ChainsFree()
    ensures Without(CHAIN, '=') && Without(CHAIN_SHORT, '=') && CHAIN != ACK_ENABLED && CHAIN_SHORT != ACK_ENABLED
  {
    ChainKeysFree();
    assert |CHAIN| != |ACK_ENABLED| && |CHAIN_SHORT| != |ACK_ENABLED|;
  }

  /** A default that is wanted takes effect, so that its key reads as something, exactly when it is not
      defeated. */
  lemma DefaultTakesEffect(env: Env, i: nat)
    requires i < |RulesFor(ModeOf(env))| && Holds(RulesFor(ModeOf(env))[i].when, env)
    ensures !Blank(Lookup(Defaults(env), RulesFor(ModeOf(env))[i].key)) <==> !Defeated(RulesFor(ModeOf(env))[i], env)
  {
    hide RulesFor, ModeOf, Lookup, Present, Holds, ApplyRules, Blank;
    var rules := RulesFor(ModeOf(env));
    RulesSeparated(ModeOf(env));
    assert rules[..|rules|] == rules;
    FiresAgain(rules, env, i);
    GuardKept(rules, |rules|, env, i);
  }

  // ---- what is appended, from the caller's environment alone ----

  // The rule's entry goes in: it is wanted, and no rule before it has made its key read as something.
  predicate Appends(rules: seq<Rule>, i: nat, env: Env)
    requires i < |rules|
  {
    && Fires(rules[i], env)
    && (Present(env, rules[i].key) || forall j :: 0 <= j < i && rules[j].key == rules[i].key ==> !Holds(rules[j].when, env))
  }

  function Fired(rules: seq<Rule>, n: nat, env: Env): (entries: Env)
    requires n <= |rules|
  {
    if n == 0 then []
    else Fired(rules, n - 1, env) + If(Appends(rules, n - 1, env), rules[n - 1].key, rules[n - 1].value)
  }

  function If(wanted: bool, key: string, value: string): (entries: Env)
  {
    if wanted then [Entry(key, value)] else []
  }

  lemma {:induction false} PassIs(rules: seq<Rule>, n: nat, env: Env)
    requires Separated(rules) && n <= |rules|
    ensures ApplyRules(rules[..n], env) == env + Fired(rules, n, env)
  {
    hide ApplyRules, ApplyRule, Appends, Fires, If, WellSpelled, Inputs;
    PassStep(rules, n, env);
    if n > 0 {
      PassIs(rules, n - 1, env);
      FiresWhen(rules, n - 1, env);
      OneRule(rules[n - 1], ApplyRules(rules[..n - 1], env));
      var more := If(Appends(rules, n - 1, env), rules[n - 1].key, rules[n - 1].value);
      assert env + Fired(rules, n - 1, env) + more == env + (Fired(rules, n - 1, env) + more);
    }
  }

  lemma OneRule(r: Rule, env: Env)
    ensures ApplyRule(r, env) == env + If(Fires(r, env), r.key, r.value)
  {
    hide Fires, Entry;
  }

  lemma FiresWhen(rules: seq<Rule>, i: nat, env: Env)
    requires Separated(rules) && i < |rules|
    ensures Fires(rules[i], ApplyRules(rules[..i], env)) == Appends(rules, i, env)
  {
    hide ApplyRules, Lookup, Present, Blank, Holds;
    var r, before := rules[i], ApplyRules(rules[..i], env);
    GuardKept(rules, i, env, i);
    PassKeeps(rules, i, env, r.key);
    if !Present(env, r.key) {
      PresentAfter(rules, i, env, r.key);
      LookupBlankIfAbsent(env, r.key);
      LookupBlankIfAbsent(before, r.key);
    }
  }

  // A key without an entry gets one exactly when some rule for it holds.
  lemma {:induction false} PresentAfter(rules: seq<Rule>, n: nat, env: Env, key: string)
    requires Separated(rules) && n <= |rules| && !Present(env, key)
    ensures Present(ApplyRules(rules[..n], env), key) <==> exists j :: 0 <= j < n && rules[j].key == key && Holds(rules[j].when, env)
  {
    hide ApplyRules, ApplyRule, Lookup, Present, Blank, Holds;
    PassStep(rules, n, env);
    if n > 0 {
      var before := ApplyRules(rules[..n - 1], env);
      PresentAfter(rules, n - 1, env, key);
      GuardKept(rules, n - 1, env, n - 1);
      LookupBlankIfAbsent(before, key);
      RuleLookup(rules[n - 1], before, key);
    }
  }

  predicate Unset(env: Env, key: string)
  {
    Blank(Lookup(env, key))
  }

  predicate NoVoice(env: Env)
  {
    Unset(env, "A21_TTS_FAST_PROFILE") && Unset(env, "A21_TTS_BALANCED_PROFILE") && Unset(env, "A21_TTS_QUALITY_PROFILE")
  }

  predicate NoModel(env: Env)
  {
    Unset(env, "A21_TEXT_STREAM_PROFILE") && Unset(env, "A21_PROVIDER_PRIMARY")
  }

  predicate CloneReady(env: Env)
  {
    var command := Lookup(env, "A21_VOICE_CLONE_COMMAND");
    && !Unset(env, "A21_VOICE_CLONE_REF_AUDIO")
    && (if command != "" then !Blank(command) else !Unset(env, "A21_VOICE_CLONE_CLI"))
  }

  function AckEntries(env: Env): (entries: Env)
  {
    If(Unset(env, "A21_XIAOZHI_FAST_ACK_ENABLED"), "A21_XIAOZHI_FAST_ACK_ENABLED", "true")
    + If(Unset(env, "A21_XIAOZHI_FAST_ACK_DELAY_MS"), "A21_XIAOZHI_FAST_ACK_DELAY_MS", "700")
  }

  function LocalEntries(env: Env): (entries: Env)
  {
    AckEntries(env)
    + If(Unset(env, "A21_ASR_LOCAL_PROFILE"), "A21_ASR_LOCAL_PROFILE", "sherpa_onnx")
    + If(NoVoice(env) && CloneReady(env), "A21_TTS_FAST_PROFILE", "voice_clone_cli")
    + If(NoVoice(env) && !CloneReady(env), "A21_TTS_FAST_PROFILE", "sherpa_onnx_tts")
    + If(NoModel(env) && !Unset(env, "A21_LOCAL_OLLAMA_BASE_URL") && !Unset(env, "A21_LOCAL_OLLAMA_MODEL"),
         "A21_TEXT_STREAM_PROFILE", "local_ollama")
  }

  // With both keys set, the second text default goes in too where a blank entry hides the first.
  function CloudEntries(env: Env): (entries: Env)
  {
    var dashscope := !Unset(env, "A21_DASHSCOPE_API_KEY");
    var stepfun := !Unset(env, "A21_LAB_STEPFUN_API_KEY");
    var hidden := Present(env, "A21_TEXT_STREAM_PROFILE");
    AckEntries(env)
    + If(Unset(env, "A21_XIAOZHI_STT_SCREEN_POLICY"), "A21_XIAOZHI_STT_SCREEN_POLICY", "status_only")
    + If(Unset(env, "A21_ASR_PROFILE"), "A21_ASR_PROFILE", "cloud")
    + If(Unset(env, "A21_ASR_CLOUD_PROFILE") && dashscope, "A21_ASR_CLOUD_PROFILE", "dashscope_qwen_asr_realtime")
    + If(Unset(env, "A21_ASR_CLOUD_PROFILE") && !dashscope, "A21_ASR_CLOUD_PROFILE", "doubao_asr_realtime")
    + If(NoModel(env) && stepfun, "A21_TEXT_STREAM_PROFILE", "stepfun")
    + If(NoModel(env) && !Unset(env, "A21_LAB_DEEPSEEK_API_KEY") && (hidden || !stepfun), "A21_TEXT_STREAM_PROFILE", "deepseek")
    + If(NoVoice(env) && dashscope, "A21_TTS_FAST_PROFILE", "dashscope_qwen_tts_realtime")
    + If(NoVoice(env) && !dashscope, "A21_TTS_FAST_PROFILE", "doubao_tts_realtime")
  }

  /** What the defaults are: the chain is named by the first of two keys that is not empty, and what its chain
      appends is decided by the caller's environment alone, although each append reads what the ones before it
      made. */
  lemma DefaultsAppend(env: Env)
    ensures var first := Lookup(env, "A21_XIAOZHI_PRODUCT_CHAIN");
            var name := Lower(Trim(if first != "" then first else Lookup(env, "A21_PRODUCT_CHAIN")));
            Defaults(env) == env +
              if name == "cloud_edge" || name == "cloud-edge" || name == "public_cloud" || name == "public-cloud" then CloudEntries(env)
              else if name == "host_local" || name == "host-local" || name == "product" || name == "real" then LocalEntries(env)
              else AckEntries(env)
  {
    hide CloudEntries, LocalEntries, AckEntries, Lookup, Trim, Lower, ApplyRules, Fired, CloudEdgeRules, HostLocalRules, FastAckRules;
    AckRulesAre();
    AllPassed(ModeOf(env), env);
    AckFired(FastAckRules(), env);
    LocalFired(env);
    CloudFired(env);
  }

  lemma AllPassed(m: Mode, env: Env)
    ensures ApplyRules(RulesFor(m), env) == env + Fired(RulesFor(m), |RulesFor(m)|, env)
  {
    hide RulesFor, ApplyRules, Fired;
    var rules := RulesFor(m);
    RulesSeparated(m);
    PassIs(rules, |rules|, env);
    assert rules[..|rules|] == rules;
  }

  lemma KeysOf()
    ensures AckEnabled().key == ACK_ENABLED && AckDelay().key == ACK_DELAY && Screen().key == SCREEN_POLICY
    ensures CloudAsr().key == ASR && DashscopeAsr().key == ASR_CLOUD && DoubaoAsr().key == ASR_CLOUD && LocalAsr().key == ASR_LOCAL
    ensures StepfunText().key == TEXT_STREAM && DeepseekText().key == TEXT_STREAM && OllamaText().key == TEXT_STREAM
    ensures ClonedTts().key == TTS_FAST && SherpaTts().key == TTS_FAST && DashscopeTts().key == TTS_FAST && DoubaoTts().key == TTS_FAST
  {
  }

  lemma KeysDiffer()
    ensures |ACK_ENABLED| == 28 && |ACK_DELAY| == 29 && |SCREEN_POLICY| == 29 && |ASR| == 15
    ensures |ASR_CLOUD| == 21 && |ASR_LOCAL| == 21 && |TEXT_STREAM| == 23 && |TTS_FAST| == 20
    ensures ACK_DELAY != SCREEN_POLICY
  {
    assert ACK_DELAY[12] != SCREEN_POLICY[12];
  }

  // No rule before it for the same key holds together with it.
  predicate Alone(rules: seq<Rule>, n: nat, env: Env)
    requires n < |rules|
  {
    forall j :: 0 <= j < n && rules[j].key == rules[n].key ==> !(Holds(rules[j].when, env) && Holds(rules[n].when, env))
  }

  lemma FiredAlone(rules: seq<Rule>, n: nat, env: Env)
    requires n < |rules| && Alone(rules, n, env)
    ensures Fired(rules, n + 1, env) == Fired(rules, n, env) + If(Fires(rules[n], env), rules[n].key, rules[n].value)
  {
    hide Lookup, Blank, Holds, If, Present;
    assert Appends(rules, n, env) == Fires(rules[n], env);
  }

  lemma AckAlone(rules: seq<Rule>, env: Env)
    requires |rules| >= 2 && rules[0] == AckEnabled() && rules[1] == AckDelay()
    ensures Alone(rules, 0, env) && Alone(rules, 1, env)
  {
    hide Holds, AckEnabled, AckDelay, ACK_ENABLED, ACK_DELAY;
    KeysOf();
    KeysDiffer();
  }

  lemma AckFired(rules: seq<Rule>, env: Env)
    requires |rules| >= 2 && rules[0] == AckEnabled() && rules[1] == AckDelay()
    ensures Fired(rules, 2, env) == AckEntries(env)
  {
    hide Fires, Fired, Alone, Lookup, Blank, If;
    AckAlone(rules, env);
    AckFires(env);
    NothingFired(rules, env);
    FiredAlone(rules, 0, env);
    FiredAlone(rules, 1, env);
    AfterNothing(If(Fires(rules[0], env), rules[0].key, rules[0].value));
  }

  lemma NothingFired(rules: seq<Rule>, env: Env)
    ensures Fired(rules, 0, env) == []
  {
  }

  lemma AfterNothing(entries: Env)
    ensures [] + entries == entries
  {
  }

  lemma AckFires(env: Env)
    ensures Fires(AckEnabled(), env) == Unset(env, ACK_ENABLED) && Fires(AckDelay(), env) == Unset(env, ACK_DELAY)
  {
    hide Lookup, Blank;
  }

  lemma AckRulesAre()
    ensures var rules := FastAckRules(); |rules| == 2 && rules[0] == AckEnabled() && rules[1] == AckDelay()
  {
    hide AckEnabled, AckDelay;
  }

  lemma PlainFires(env: Env)
    ensures Fires(Screen(), env) == Unset(env, SCREEN_POLICY) && Fires(CloudAsr(), env) == Unset(env, ASR)
    ensures Fires(LocalAsr(), env) == Unset(env, ASR_LOCAL)
    ensures Fires(DashscopeAsr(), env) == (Unset(env, ASR_CLOUD) && !Unset(env, DASHSCOPE))
    ensures Fires(DoubaoAsr(), env) == (Unset(env, ASR_CLOUD) && Unset(env, DASHSCOPE))
  {
    hide Lookup, Blank;
  }

  lemma SpeechFires(env: Env)
    ensures NoVoice(env) == NoTts(env) && NoModel(env) == NoText(env) && CloneReady(env) == VoiceCloned(env)
  {
    hide Lookup, Blank;
  }

  lemma LocalRulesAre()
    ensures var rules := HostLocalRules();
            && |rules| == 6 && rules[0] == AckEnabled() && rules[1] == AckDelay() && rules[2] == LocalAsr()
            && rules[3] == ClonedTts() && rules[4] == SherpaTts() && rules[5] == OllamaText()
  {
    hide AckEnabled, AckDelay, LocalAsr, ClonedTts, SherpaTts, OllamaText;
  }

  lemma CloudRulesAre()
    ensures var rules := CloudEdgeRules();
            && |rules| == 10 && rules[0] == AckEnabled() && rules[1] == AckDelay() && rules[2] == Screen()
            && rules[3] == CloudAsr() && rules[4] == DashscopeAsr() && rules[5] == DoubaoAsr()
            && rules[6] == StepfunText() && rules[7] == DeepseekText() && rules[8] == DashscopeTts() && rules[9] == DoubaoTts()
  {
    hide AckEnabled, AckDelay, Screen, CloudAsr, DashscopeAsr, DoubaoAsr, StepfunText, DeepseekText, DashscopeTts, DoubaoTts;
  }

  lemma LocalAlone(env: Env)
    ensures var rules := HostLocalRules();
            |rules| == 6 && Alone(rules, 2, env) && Alone(rules, 3, env) && Alone(rules, 4, env) && Alone(rules, 5, env)
  {
    hide HostLocalRules, Holds, Fires, Lookup, Blank, NoTts, VoiceCloned, AckEnabled, AckDelay, LocalAsr, ClonedTts, SherpaTts, OllamaText,
      ACK_ENABLED, ACK_DELAY, ASR_LOCAL, TTS_FAST, TEXT_STREAM;
    LocalRulesAre();
    KeysOf();
    KeysDiffer();
    LocalTtsFires(env);
  }

  lemma LocalFired(env: Env)
    ensures Fired(HostLocalRules(), |HostLocalRules()|, env) == LocalEntries(env)
  {
    hide HostLocalRules, If, Fires, Alone, Lookup, Blank, NoVoice, NoModel, CloneReady, Fired, AckEntries;
    var rules := HostLocalRules();
    LocalRulesAre();
    LocalAlone(env);
    PlainFires(env);
    SpeechFires(env);
    LocalTtsFires(env);
    OllamaFires(env);
    AckFired(rules, env);
    FiredAlone(rules, 2, env);
    FiredAlone(rules, 3, env);
    FiredAlone(rules, 4, env);
    FiredAlone(rules, 5, env);
  }

  lemma CloudAlone(env: Env)
    ensures var rules := CloudEdgeRules();
            && |rules| == 10 && Alone(rules, 2, env) && Alone(rules, 3, env) && Alone(rules, 4, env) && Alone(rules, 5, env)
            && Alone(rules, 6, env) && Alone(rules, 8, env) && Alone(rules, 9, env)
  {
    hide CloudEdgeRules, Holds, Fires, Lookup, Blank, NoTts, AckEnabled, AckDelay, Screen, CloudAsr, DashscopeAsr, DoubaoAsr, StepfunText, DeepseekText,
      DashscopeTts, DoubaoTts, ACK_ENABLED, ACK_DELAY, SCREEN_POLICY, ASR, ASR_CLOUD, TTS_FAST, TEXT_STREAM;
    CloudRulesAre();
    KeysOf();
    KeysDiffer();
    CloudAsrFires(env);
    CloudTtsFires(env);
  }

  // The one rule that may find its key set by the rule before it.
  lemma DeepseekAppends(env: Env)
    ensures var rules := CloudEdgeRules();
            && |rules| == 10
            && Appends(rules, 7, env) ==
                 (NoText(env) && !Blank(Lookup(env, DEEPSEEK)) && (Present(env, TEXT_STREAM) || Blank(Lookup(env, STEPFUN))))
  {
    hide CloudEdgeRules, Lookup, Blank, Present, AckEnabled, AckDelay, Screen, CloudAsr, DashscopeAsr, DoubaoAsr, DashscopeTts, DoubaoTts,
      ACK_ENABLED, ACK_DELAY, SCREEN_POLICY, ASR, ASR_CLOUD, TTS_FAST, TEXT_STREAM;
    CloudRulesAre();
    KeysOf();
    KeysDiffer();
    CloudTextFires(env);
    assert Appends(CloudEdgeRules(), 7, env) == (Fires(DeepseekText(), env) && (Present(env, TEXT_STREAM) || !Holds(StepfunText().when, env)));
  }

  lemma CloudFired(env: Env)
    ensures Fired(CloudEdgeRules(), |CloudEdgeRules()|, env) == CloudEntries(env)
  {
    hide CloudEdgeRules, If, Fires, Alone, Lookup, Blank, NoVoice, NoModel, Fired, AckEntries, Appends, Present;
    var rules := CloudEdgeRules();
    CloudRulesAre();
    CloudAlone(env);
    PlainFires(env);
    SpeechFires(env);
    CloudTextFires(env);
    CloudTtsFires(env);
    AckFired(rules, env);
    FiredAlone(rules, 2, env);
    FiredAlone(rules, 3, env);
    FiredAlone(rules, 4, env);
    FiredAlone(rules, 5, env);
    FiredAlone(rules, 6, env);
    DeepseekAppends(env);
    FiredNext(rules, 7, env);
    FiredAlone(rules, 8, env);
    FiredAlone(rules, 9, env);
  }

  lemma FiredNext(rules: seq<Rule>, n: nat, env: Env)
    requires n < |rules|
    ensures Fired(rules, n + 1, env) == Fired(rules, n, env) + If(Appends(rules, n, env), rules[n].key, rules[n].value)
  {
    hide Appends, If;
  }
}
