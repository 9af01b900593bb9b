/** The planner that routes one request to the native core, an external agent or the V21 adapter, and decides
    what an external agent is told. Texts are sequences of code points. */
module AgentPlanner {
  import opened Wrappers
  import opened Text

  datatype Mode = Unset | Workmate | CoCreation | Roleplay | Professional | Focus | PublicMode | PrivateMode | OtherMode(name: string)

  datatype Privacy = Absent | Default | Public | Private | ProfessionalOnly | OtherPrivacy(name: string)

  datatype Source =
    | TaskWindow | UserPreference | ProjectConvention | Configuration
    | PrivateMemory | Companion | V21Evidence | ExternalRaw | OtherSource(name: string)

  datatype Item = Item(id: string, source: Source, text: string, sensitive: bool)

  datatype Snippet = Snippet(id: string, source: Source, text: string)

  datatype Binding = Binding(enabled: bool, name: string, endpoint: bool)

  datatype Request = Request(
    traceId: string, sessionId: string, deviceId: string, mode: Mode, privacy: Privacy,
    summary: string, transcript: string, expected: string, constraints: seq<string>,
    memory: seq<Item>, preferences: seq<Item>, binding: Binding, v21Requested: bool)

  datatype Path = NativeCore | AgentIO | V21Professional

  datatype Policy = NoMemory | Ephemeral | Candidate | ProfessionalPointerOnly

  datatype Persona = PrivateBoundary | ProfessionalEvidence | CoCreationRewriter | OfficeRoleplay | QuietFocus | WorkmateDefault

  datatype Playbook = UsableLanguage | OfficeRehearsal | EvidenceHandoff | LowInterruption | DefaultWorkmate

  // NativeScreen shows the name of the mode.
  datatype Expression = DraftPending | EvidencePending | LocalOnly | NativeScreen(mode: Mode)

  datatype Marker = PlanStart | PolicySelected | ScenarioSelected | MessageSent | PlanSelected

  datatype Finding =
    | V21BlockedPrivate | V21RequiresProfessional
    | AgentBlockedPrivate | AgentBlockedProfessional | AgentBlockedMode | AgentNotConfigured

  // A text of the planner's own, by its role, or the caller's.
  datatype Wording = RoleplayDraft | CoCreationDraft | MinimalContext | Given(text: string)

  datatype InputSource = TaskSummary | CurrentTurn | Minimal

  // The fixed constraints and the boundary come with every message and are left implicit.
  datatype Message = Message(
    agent: string, traceId: string, sessionId: string, mode: Mode, summary: Wording, expected: Wording,
    constraints: seq<string>, memory: seq<Snippet>, preferences: seq<Snippet>, input: InputSource)

  datatype Plan = Plan(
    traceId: string, sessionId: string, deviceId: string, mode: Mode, privacy: Privacy, path: Path,
    persona: Persona, policy: Policy, playbook: Playbook, v21Allowed: bool, agentAllowed: bool,
    message: Option<Message>, expression: Expression, markers: seq<Marker>, findings: seq<Finding>)

  // ---- text ----

  function WordLength(s: string): (n: nat)
    ensures n <= |s| && (forall i :: 0 <= i < n ==> !IsSpace(s[i])) && (n < |s| ==> IsSpace(s[n]))
  {
    if s == "" || IsSpace(s[0]) then 0 else 1 + WordLength(s[1..])
  }

  // strings.Fields
  function Fields(s: string): (words: seq<string>)
    decreases |s|
  {
    var t := TrimLeft(s);
    if t == "" then [] else [t[..WordLength(t)]] + Fields(t[WordLength(t)..])
  }

  function OneLine(s: string): (r: string)
  {
    Join(Fields(Trim(s)), ' ')
  }

  function Truncate(s: string, limit: nat): (r: string)
    ensures r <= s
    ensures limit > 0 ==> |r| == if |s| <= limit then |s| else limit
  {
    if limit == 0 || |s| <= limit then s else s[..limit]
  }

  predicate Word(w: string)
  {
    w != "" && forall i :: 0 <= i < |w| ==> !IsSpace(w[i])
  }

  predicate Words(ws: seq<string>)
  {
    forall i :: 0 <= i < |ws| ==> Word(ws[i])
  }

  lemma {:induction false} FieldsAreWords(s: string)
    ensures Words(Fields(s))
    decreases |s|
  {
    hide WordLength, Word, Words, IsSpace;
    var t := TrimLeft(s);
    if t == "" {
      MoreWords("", []);
    } else {
      var n := WordLength(t);
      FirstWord(t);
      FieldsAreWords(t[n..]);
      MoreWords(t[..n], Fields(t[n..]));
    }
  }

  lemma MoreWords(w: string, ws: seq<string>)
    ensures Words([])
    ensures Word(w) && Words(ws) ==> Words([w] + ws)
  {
    hide Word;
  }

  lemma FirstWord(t: string)
    requires t != "" && !IsSpace(t[0])
    ensures 0 < WordLength(t) && Word(t[..WordLength(t)])
  {
  }

  lemma {:induction false} WordLengthIs(s: string, n: nat)
    requires n <= |s| && (forall i :: 0 <= i < n ==> !IsSpace(s[i])) && (n < |s| ==> IsSpace(s[n]))
    ensures WordLength(s) == n
  {
    if n > 0 {
      WordLengthIs(s[1..], n - 1);
    }
  }

  lemma OneField(word: string, rest: string)
    requires Word(word) && (rest == "" || IsSpace(rest[0]))
    ensures Fields(word + rest) == [word] + Fields(rest)
  {
    hide TrimLeft, WordLength, Fields;
    hide IsSpace;
    var s := word + rest;
    FirstIsNoSpace(s);
    WordLengthIs(s, |word|);
    FieldsOnce(s, |word|);
    assert s[..|word|] == word && s[|word|..] == rest;
  }

  lemma FieldsOnce(s: string, n: nat)
    requires s != "" && TrimLeft(s) == s && n == WordLength(s)
    ensures Fields(s) == [s[..n]] + Fields(s[n..])
  {
    hide TrimLeft, WordLength;
  }

  lemma FirstIsNoSpace(s: string)
    ensures s != "" && !IsSpace(s[0]) ==> TrimLeft(s) == s
  {
  }

  /** Words joined by single spaces are split into the same words again. */
  lemma {:induction false} FieldsOfJoin(ws: seq<string>)
    requires Words(ws)
    ensures Fields(Join(ws, ' ')) == ws
  {
    hide Fields, WordLength, Word;
    if ws == [] {
      NoFields();
    } else if |ws| == 1 {
      NoFields();
      OneField(ws[0], "");
      assert ws[0] + "" == ws[0] && [ws[0]] + [] == ws;
    } else {
      var tail := Join(ws[1..], ' ');
      FieldsOfJoin(ws[1..]);
      SpaceFirst(tail);
      OneField(ws[0], [' '] + tail);
      assert ws[0] + ([' '] + tail) == ws[0] + [' '] + tail;
      assert [ws[0]] + ws[1..] == ws;
    }
  }

  lemma NoFields()
    ensures Fields("") == []
  {
  }

  lemma SpaceFirst(s: string)
    ensures Fields([' '] + s) == Fields(s)
  {
    SpaceBefore(s, ' ');
  }

  lemma {:induction false} JoinEnds(ws: seq<string>)
    requires Words(ws) && ws != []
    ensures var s := Join(ws, ' '); s != "" && !IsSpace(s[0]) && !IsSpace(s[|s| - 1])
  {
    assert Word(ws[0]);
    if |ws| > 1 {
      JoinEnds(ws[1..]);
      var tail := Join(ws[1..], ' ');
      var s := Join(ws, ' ');
      assert s == ws[0] + [' '] + tail;
      assert s[|s| - 1] == tail[|tail| - 1];
    }
  }

  /** One line has the words of the text and nothing between them but single spaces: folding it again changes
      nothing, and it is empty only for a blank text. */
  lemma OneLineMeans(s: string)
    ensures Fields(OneLine(s)) == Fields(Trim(s))
    ensures OneLine(OneLine(s)) == OneLine(s)
    ensures OneLine(s) == "" <==> Blank(s)
  {
    var ws := Fields(Trim(s));
    FieldsAreWords(Trim(s));
    FieldsOfJoin(ws);
    if ws != [] {
      JoinEnds(ws);
    }
    TrimFixed(OneLine(s));
    hide Words, Join;
  }

  // ---- what is let through ----

  datatype Channel = Memory | Preferences

  predicate Visible(item: Item, channel: Channel)
  {
    && !item.sensitive
    && match channel
       case Memory => item.source == TaskWindow
       case Preferences => item.source == UserPreference || item.source == ProjectConvention || item.source == Configuration
  }

  // What is sent of an item: nothing, or its text on one line, cut to 180 code points.
  function Shown(item: Item, channel: Channel): (r: seq<Snippet>)
    ensures |r| <= 1
  {
    if !Visible(item, channel) || OneLine(item.text) == "" then []
    else [Snippet(item.id, item.source, Truncate(OneLine(item.text), 180))]
  }

  function Allowed(items: seq<Item>, channel: Channel): (r: seq<Snippet>)
  {
    if items == [] then [] else Allowed(items[..|items| - 1], channel) + Shown(items[|items| - 1], channel)
  }

  method AllowedMemory(items: seq<Item>) returns (out: seq<Snippet>)
    ensures out == Allowed(items, Memory)
  {
    out := [];
    for i := 0 to |items|
      invariant out == Allowed(items[..i], Memory)
    {
      assert items[..i + 1][..i] == items[..i];
      var item := items[i];
      if item.sensitive || item.source != TaskWindow {
        continue;
      }
      var text := OneLine(item.text);
      if text == "" {
        continue;
      }
      out := out + [Snippet(item.id, item.source, Truncate(text, 180))];
    }
    assert items[..|items|] == items;
  }

  method AllowedPreferences(items: seq<Item>) returns (out: seq<Snippet>)
    ensures out == Allowed(items, Preferences)
  {
    out := [];
    for i := 0 to |items|
      invariant out == Allowed(items[..i], Preferences)
    {
      assert items[..i + 1][..i] == items[..i];
      var item := items[i];
      if item.sensitive {
        continue;
      }
      if item.source == UserPreference || item.source == ProjectConvention || item.source == Configuration {
        var text := OneLine(item.text);
        if text != "" {
          out := out + [Snippet(item.id, item.source, Truncate(text, 180))];
        }
      }
    }
    assert items[..|items|] == items;
  }

  function Compact(values: seq<string>): (r: seq<string>)
  {
    if values == [] then []
    else
      var last := OneLine(values[|values| - 1]);
      Compact(values[..|values| - 1]) + if last == "" then [] else [last]
  }

  lemma CompactOneMore(values: seq<string>, i: nat)
    requires i < |values|
    ensures Compact(values[..i + 1]) == Compact(values[..i]) + if OneLine(values[i]) == "" then [] else [OneLine(values[i])]
  {
    hide OneLine;
    assert values[..i + 1][..i] == values[..i];
  }

  method CompactStrings(values: seq<string>) returns (out: seq<string>)
    ensures out == Compact(values)
  {
    hide Compact, OneLine;
    CompactNone();
    out := [];
    for i := 0 to |values|
      invariant out == Compact(values[..i])
    {
      CompactOneMore(values, i);
      var clean := OneLine(values[i]);
      if clean != "" {
        out := out + [clean];
      }
    }
    assert values[..|values|] == values;
  }

  lemma CompactNone()
    ensures Compact([]) == []
  {
  }

  // The items of the task window that say something and are not sensitive.
  function TaskItems(items: seq<Item>): (r: seq<Item>)
  {
    if items == [] then []
    else
      var init, last := items[..|items| - 1], items[|items| - 1];
      TaskItems(init) + if !last.sensitive && last.source == TaskWindow && !Blank(last.text) then [last] else []
  }

  // The preferences, conventions and configuration choices that say something and are not sensitive.
  function PreferenceItems(items: seq<Item>): (r: seq<Item>)
  {
    if items == [] then []
    else
      var init, last := items[..|items| - 1], items[|items| - 1];
      PreferenceItems(init)
      + if !last.sensitive && !Blank(last.text) && last.source in {UserPreference, ProjectConvention, Configuration} then [last] else []
  }

  // The snippet has the item's identity and the first 180 code points of its text on one line.
  ghost predicate Of(s: Snippet, item: Item)
  {
    s.id == item.id && s.source == item.source && FirstPart(s.text, OneLine(item.text), 180)
  }

  // The text up to that many code points.
  predicate FirstPart(part: string, text: string, limit: nat)
  {
    part <= text && |part| == if |text| <= limit then |text| else limit
  }

  ghost predicate AllOf(snippets: seq<Snippet>, items: seq<Item>)
  {
    |snippets| == |items| && forall k :: 0 <= k < |items| ==> Of(snippets[k], items[k])
  }

  /** What is shown: each such item and no other, in the order given. */
  lemma {:induction false} ShownExactly(items: seq<Item>)
    ensures AllOf(Allowed(items, Memory), TaskItems(items))
    ensures AllOf(Allowed(items, Preferences), PreferenceItems(items))
  {
    hide OneLine, Blank, Of;
    if items != [] {
      ShownExactly(items[..|items| - 1]);
      ShownOf(items[|items| - 1]);
    }
  }

  lemma ShownOf(item: Item)
    ensures AllOf(Shown(item, Memory), if !item.sensitive && item.source == TaskWindow && !Blank(item.text) then [item] else [])
    ensures AllOf(Shown(item, Preferences),
      if !item.sensitive && !Blank(item.text) && item.source in {UserPreference, ProjectConvention, Configuration} then [item] else [])
  {
    hide OneLine, Blank, Of, Truncate;
    CutOf(item);
  }

  lemma CutOf(item: Item)
    ensures Of(Snippet(item.id, item.source, Truncate(OneLine(item.text), 180)), item)
    ensures OneLine(item.text) == "" <==> Blank(item.text)
  {
    hide OneLine, Blank;
    LineBlank(item.text);
  }

  lemma SameShown(a: seq<Snippet>, b: seq<Snippet>, items: seq<Item>)
    requires AllOf(a, items) && AllOf(b, items)
    ensures a == b
  {
    hide OneLine;
    forall k | 0 <= k < |items|
      ensures a[k] == b[k]
    {
      assert Of(a[k], items[k]) && Of(b[k], items[k]);
    }
  }

  /** Every snippet stands for an item that is not sensitive and comes from a source of its channel, on one line
      and within 180 code points. */
  lemma {:induction false} SnippetFrom(items: seq<Item>, channel: Channel, k: nat) returns (i: nat)
    requires k < |Allowed(items, channel)|
    ensures i < |items| && !items[i].sensitive && Of(Allowed(items, channel)[k], items[i]) && Allowed(items, channel)[k].text != ""
    ensures match channel
            case Memory => items[i].source == TaskWindow
            case Preferences => items[i].source in {UserPreference, ProjectConvention, Configuration}
  {
    hide OneLine;
    var n := |items| - 1;
    if k < |Allowed(items[..n], channel)| {
      i := SnippetFrom(items[..n], channel, k);
    } else {
      i := n;
    }
  }

  /** Every item that is not sensitive, comes from a source of the channel and says something is shown. */
  lemma {:induction false} ItemShown(items: seq<Item>, channel: Channel, i: nat) returns (k: nat)
    requires i < |items| && !items[i].sensitive && !Blank(items[i].text)
    requires match channel
             case Memory => items[i].source == TaskWindow
             case Preferences => items[i].source in {UserPreference, ProjectConvention, Configuration}
    ensures k < |Allowed(items, channel)| && Of(Allowed(items, channel)[k], items[i])
  {
    hide OneLine, Blank, Of, Truncate;
    var n := |items| - 1;
    if i < n {
      k := ItemShown(items[..n], channel, i);
    } else {
      CutOf(items[i]);
      k := |Allowed(items[..n], channel)|;
    }
  }

  // ---- routing ----

  function ModeOf(r: Request): (m: Mode)
  {
    if r.mode == Unset then Workmate else r.mode
  }

  function NormalizePrivacy(mode: Mode, explicit: Privacy): (p: Privacy)
  {
    if explicit != Absent && explicit != Default then explicit
    else match mode
         case PrivateMode => Private
         case PublicMode => Public
         case Professional => ProfessionalOnly
         case _ => Default
  }

  function PrivacyOf(r: Request): (p: Privacy)
  {
    NormalizePrivacy(ModeOf(r), r.privacy)
  }

  predicate IsAgentMode(mode: Mode)
  {
    mode == CoCreation || mode == Roleplay
  }

  predicate CanUseAgent(mode: Mode, privacy: Privacy)
  {
    IsAgentMode(mode) && privacy != Private && privacy != ProfessionalOnly
  }

  predicate Bound(b: Binding)
  {
    b.enabled && b.endpoint && !Blank(b.name)
  }

  predicate HasPreference(r: Request)
  {
    Allowed(r.preferences, Preferences) != []
  }

  function PolicyFor(mode: Mode, privacy: Privacy, hasPreference: bool): (p: Policy)
  {
    if privacy == Private then Ephemeral
    else if mode == Professional then ProfessionalPointerOnly
    else if hasPreference then Candidate
    else if IsAgentMode(mode) then Ephemeral
    else NoMemory
  }

  function PersonaPack(mode: Mode, privacy: Privacy): (p: Persona)
  {
    if privacy == Private then PrivateBoundary
    else match mode
         case Professional => ProfessionalEvidence
         case CoCreation => CoCreationRewriter
         case Roleplay => OfficeRoleplay
         case Focus => QuietFocus
         case _ => WorkmateDefault
  }

  function ScenarioPlaybook(mode: Mode): (p: Playbook)
  {
    match mode
    case CoCreation => UsableLanguage
    case Roleplay => OfficeRehearsal
    case Professional => EvidenceHandoff
    case Focus => LowInterruption
    case _ => DefaultWorkmate
  }

  function ExpressionFor(mode: Mode, path: Path): (e: Expression)
  {
    match path
    case AgentIO => DraftPending
    case V21Professional => EvidencePending
    case NativeCore => if mode == PrivateMode then LocalOnly else NativeScreen(mode)
  }

  function SummaryOf(summary: string, transcript: string): (s: (Wording, InputSource))
  {
    FirstTold(OneLine(summary), OneLine(transcript))
  }

  function FirstTold(told: string, heard: string): (s: (Wording, InputSource))
  {
    if told != "" then (Given(told), TaskSummary)
    else if heard != "" then (Given(Truncate(heard, 240)), CurrentTurn)
    else (MinimalContext, Minimal)
  }

  function MessageOf(r: Request): (m: Message)
  {
    var mode := ModeOf(r);
    var expected := OneLine(r.expected);
    Message(
      Trim(r.binding.name), Trim(r.traceId), Trim(r.sessionId), mode, SummaryOf(r.summary, r.transcript).0,
      if expected != "" then Given(expected) else if mode == Roleplay then RoleplayDraft else CoCreationDraft,
      Compact(r.constraints), Allowed(r.memory, Memory), Allowed(r.preferences, Preferences), SummaryOf(r.summary, r.transcript).1)
  }

  // The plan, field by field, from the request.
  function PlanFor(r: Request): (p: Plan)
  {
    var mode, privacy := ModeOf(r), PrivacyOf(r);
    var sent := CanUseAgent(mode, privacy) && Bound(r.binding);
    var v21 := mode == Professional && privacy != Private;
    var path := if sent then AgentIO else if v21 then V21Professional else NativeCore;
    Plan(
      Trim(r.traceId), Trim(r.sessionId), Trim(r.deviceId), mode, privacy, path,
      PersonaPack(mode, privacy), PolicyFor(mode, privacy, HasPreference(r)), ScenarioPlaybook(mode), v21, sent,
      if sent then Some(MessageOf(r)) else None,
      if mode == Professional && privacy == Private then LocalOnly else ExpressionFor(mode, path),
      [PlanStart, PolicySelected, ScenarioSelected] + (if sent then [MessageSent] else []) + [PlanSelected],
      V21Findings(mode, privacy, r.v21Requested) + AgentFindings(mode, privacy, r.binding))
  }

  function V21Findings(mode: Mode, privacy: Privacy, requested: bool): (f: seq<Finding>)
  {
    if privacy == Private then (if mode == Professional || requested then [V21BlockedPrivate] else [])
    else if requested && mode != Professional then [V21RequiresProfessional] else []
  }

  function AgentFindings(mode: Mode, privacy: Privacy, binding: Binding): (f: seq<Finding>)
  {
    if mode == Professional && privacy != Private then [AgentBlockedProfessional]
    else if CanUseAgent(mode, privacy) then (if Bound(binding) then [] else [AgentNotConfigured])
    else if IsAgentMode(mode) || (mode == Professional && binding.enabled) then [AgentBlockedPrivate]
    else if binding.enabled then [AgentBlockedMode] else []
  }

  method BuildMessage(r: Request, mode: Mode) returns (m: Message)
    requires mode == ModeOf(r)
    ensures m == MessageOf(r)
  {
    hide OneLine, Allowed, Compact;
    var summary, input := MinimalContext, Minimal;
    var clean := OneLine(r.summary);
    if clean != "" {
      summary, input := Given(clean), TaskSummary;
    } else {
      clean := OneLine(r.transcript);
      if clean != "" {
        summary, input := Given(Truncate(clean, 240)), CurrentTurn;
      }
    }
    var expected := OneLine(r.expected);
    var constraints := CompactStrings(r.constraints);
    var memory := AllowedMemory(r.memory);
    var preferences := AllowedPreferences(r.preferences);
    m := Message(
      Trim(r.binding.name), Trim(r.traceId), Trim(r.sessionId), mode, summary,
      if expected != "" then Given(expected) else if mode == Roleplay then RoleplayDraft else CoCreationDraft,
      constraints, memory, preferences, input);
  }

  lemma ProfessionalPolicy(mode: Mode, privacy: Privacy, hasPreference: bool)
    requires mode == Professional && privacy != Private
    ensures PolicyFor(mode, privacy, hasPreference) == ProfessionalPointerOnly
  {
  }

  // The plan's fields are set one by one and put together at its end.
  method BuildPlan(r: Request) returns (plan: Plan)
    ensures plan == PlanFor(r)
  {
    hide Allowed, MessageOf, Trim, PersonaPack, ScenarioPlaybook, OneLine, Compact, NormalizePrivacy, PolicyFor, ExpressionFor;
    var mode := r.mode;
    if mode == Unset {
      mode := Workmate;
    }
    var privacy := NormalizePrivacy(mode, r.privacy);
    var blocked := privacy == Private && (mode == Professional || r.v21Requested);
    var preferences := AllowedPreferences(r.preferences);
    var path, v21Allowed, agentAllowed := NativeCore, false, false;
    var policy := PolicyFor(mode, privacy, |preferences| > 0);
    var message: Option<Message> := None;
    var expression := ExpressionFor(mode, NativeCore);
    var markers, findings := [PlanStart, PolicySelected, ScenarioSelected], [];
    if blocked {
      findings := findings + [V21BlockedPrivate];
    }
    if blocked && mode == Professional {
      expression := LocalOnly;
      if r.binding.enabled {
        findings := findings + [AgentBlockedPrivate];
      }
    } else if mode == Professional {
      ProfessionalPolicy(mode, privacy, |preferences| > 0);
      path, v21Allowed, policy := V21Professional, true, ProfessionalPointerOnly;
      expression := ExpressionFor(mode, path);
      findings := findings + [AgentBlockedProfessional];
    } else {
      if r.v21Requested && !blocked {
        findings := findings + [V21RequiresProfessional];
      }
      assert findings == V21Findings(mode, privacy, r.v21Requested);
      if CanUseAgent(mode, privacy) {
        if r.binding.enabled && r.binding.endpoint && Trim(r.binding.name) != "" {
          path, agentAllowed := AgentIO, true;
          var told := BuildMessage(r, mode);
          message := Some(told);
          expression := ExpressionFor(mode, path);
          markers := markers + [MessageSent];
        } else {
          findings := findings + [AgentNotConfigured];
        }
      } else if IsAgentMode(mode) {
        findings := findings + [AgentBlockedPrivate];
      } else if r.binding.enabled {
        findings := findings + [AgentBlockedMode];
      }
    }
    ghost var sent := CanUseAgent(mode, privacy) && Bound(r.binding);
    assert findings == V21Findings(mode, privacy, r.v21Requested) + AgentFindings(mode, privacy, r.binding);
    assert markers == [PlanStart, PolicySelected, ScenarioSelected] + if sent then [MessageSent] else [];
    assert message == if sent then Some(MessageOf(r)) else None;
    assert v21Allowed == (mode == Professional && privacy != Private) && agentAllowed == sent;
    assert path == if sent then AgentIO else if v21Allowed then V21Professional else NativeCore;
    assert expression == if mode == Professional && privacy == Private then LocalOnly else ExpressionFor(mode, path);
    assert policy == PolicyFor(mode, privacy, HasPreference(r));
    markers := markers + [PlanSelected];
    plan := Plan(
      Trim(r.traceId), Trim(r.sessionId), Trim(r.deviceId), mode, privacy, path, PersonaPack(mode, privacy), policy,
      ScenarioPlaybook(mode), v21Allowed, agentAllowed, message, expression, markers, findings);
  }

  /** Who gets the request, in terms of the request alone: an agent is written to if and only if the mode asks for
      one, the privacy given does not forbid it and the binding is complete; V21 is allowed if and only if the
      mode is professional and the privacy given is not private. A plan never has both, the path, the flags
      and the marker agree, and a request for V21 that is not allowed leaves a finding. */
  lemma RoutingMeans(r: Request)
    ensures var p := PlanFor(r);
            && (p.message.Some? <==>
                 && r.mode in {CoCreation, Roleplay} && r.privacy !in {Private, ProfessionalOnly}
                 && r.binding.enabled && r.binding.endpoint && !Blank(r.binding.name))
            && (p.v21Allowed <==> r.mode == Professional && r.privacy != Private)
            && !(p.message.Some? && p.v21Allowed)
            && (p.path == AgentIO <==> p.message.Some?) && (p.path == V21Professional <==> p.v21Allowed)
            && (p.agentAllowed <==> p.message.Some?) && (MessageSent in p.markers <==> p.message.Some?)
    ensures var p := PlanFor(r);
            && (r.v21Requested && !p.v21Allowed ==> V21BlockedPrivate in p.findings || V21RequiresProfessional in p.findings)
            && |p.findings| <= 2
  {
    hide MessageOf, Trim, Allowed;
  }

  // Private by its own word, or by its mode where it says nothing.
  predicate IsPrivate(r: Request)
  {
    r.privacy == Private || (r.mode == PrivateMode && r.privacy in {Absent, Default})
  }

  // The findings a request leaves, each by its own condition.
  predicate Leaves(r: Request, f: Finding)
  {
    var given := r.privacy in {Private, ProfessionalOnly};
    var agent := r.mode in {CoCreation, Roleplay};
    match f
    case V21BlockedPrivate => IsPrivate(r) && (r.mode == Professional || r.v21Requested)
    case V21RequiresProfessional => !IsPrivate(r) && r.mode != Professional && r.v21Requested
    case AgentBlockedPrivate => (agent && given) || (r.mode == Professional && IsPrivate(r) && r.binding.enabled)
    case AgentBlockedProfessional => r.mode == Professional && !IsPrivate(r)
    case AgentBlockedMode => !agent && r.mode != Professional && r.binding.enabled
    case AgentNotConfigured =>
      agent && !given && !(r.binding.enabled && r.binding.endpoint && !Blank(r.binding.name))
  }

  /** When each finding is left, and none twice. */
  lemma FindingsMean(r: Request)
    ensures forall f: Finding :: f in PlanFor(r).findings <==> Leaves(r, f)
    ensures var f := PlanFor(r).findings; |f| <= 2 && (|f| == 2 ==> f[0] != f[1])
  {
    hide MessageOf, Trim, Allowed, PolicyFor, PersonaPack, ScenarioPlaybook, ExpressionFor;
  }

  /** Which memory policy and persona a request gets: candidate memory only where some preference may be seen and
      the request is neither private nor professional. */
  lemma PolicyMeans(r: Request)
    ensures var p := PlanFor(r);
            && (p.policy == Candidate <==> !IsPrivate(r) && r.mode != Professional && PreferenceItems(r.preferences) != [])
            && (p.policy == ProfessionalPointerOnly <==> !IsPrivate(r) && r.mode == Professional)
            && (p.policy == NoMemory <==>
                 !IsPrivate(r) && r.mode !in {Professional, CoCreation, Roleplay} && PreferenceItems(r.preferences) == [])
            && (p.persona == PrivateBoundary <==> IsPrivate(r)) && (p.privacy == Private <==> IsPrivate(r))
            && (p.expression == LocalOnly <==> r.mode == PrivateMode || (r.mode == Professional && IsPrivate(r)))
  {
    hide MessageOf, Trim, Allowed, ScenarioPlaybook, V21Findings, AgentFindings, Bound, PreferenceItems;
    ShownExactly(r.preferences);
  }

  // The values that say something.
  function Spoken(values: seq<string>): (r: seq<string>)
  {
    if values == [] then []
    else Spoken(values[..|values| - 1]) + if Blank(values[|values| - 1]) then [] else [values[|values| - 1]]
  }

  ghost predicate Lines(lines: seq<string>, values: seq<string>)
  {
    |lines| == |values| && forall k :: 0 <= k < |lines| ==> lines[k] == OneLine(values[k])
  }

  lemma {:induction false} CompactMeans(values: seq<string>)
    ensures Lines(Compact(values), Spoken(values))
  {
    hide OneLine, Blank;
    if values != [] {
      CompactMeans(values[..|values| - 1]);
      LineBlank(values[|values| - 1]);
    }
  }

  lemma LineBlank(s: string)
    ensures OneLine(s) == "" <==> Blank(s)
  {
    hide *;
    OneLineMeans(s);
  }

  // What is told of the request: the summary, or else the first of the transcript, or else a text of the planner's own.
  ghost predicate TellsTask(r: Request, told: Wording, input: InputSource)
  {
    match input
    case TaskSummary => !Blank(r.summary) && told == Given(OneLine(r.summary))
    case CurrentTurn =>
      && Blank(r.summary) && !Blank(r.transcript)
      && told.Given? && FirstPart(told.text, OneLine(r.transcript), 240)
    case Minimal => Blank(r.summary) && Blank(r.transcript) && told == MinimalContext
  }

  ghost predicate AsksFor(r: Request, expected: Wording)
  {
    match expected
    case Given(text) => !Blank(r.expected) && text == OneLine(r.expected)
    case RoleplayDraft => Blank(r.expected) && r.mode == Roleplay
    case CoCreationDraft => Blank(r.expected) && r.mode == CoCreation
    case MinimalContext => false
  }

  /** All an agent is told, from the request. */
  lemma MessageMeans(r: Request)
    requires PlanFor(r).message.Some?
    ensures var m := PlanFor(r).message.value;
            && m.agent == Trim(r.binding.name) && m.traceId == Trim(r.traceId) && m.sessionId == Trim(r.sessionId)
            && m.mode == r.mode && TellsTask(r, m.summary, m.input) && AsksFor(r, m.expected)
            && Lines(m.constraints, Spoken(r.constraints))
            && AllOf(m.memory, TaskItems(r.memory)) && AllOf(m.preferences, PreferenceItems(r.preferences))
  {
    hide OneLine, Trim, Blank, Allowed, Compact, Spoken, Lines, AllOf, TaskItems, PreferenceItems;
    LineBlank(r.summary);
    LineBlank(r.transcript);
    LineBlank(r.expected);
    CompactMeans(r.constraints);
    ShownExactly(r.memory);
    ShownExactly(r.preferences);
  }

  // The same request but for memory and preferences.
  predicate SameButMemory(a: Request, b: Request)
  {
    a == b.(memory := a.memory, preferences := a.preferences)
  }

  /** Two requests that differ only in items that are sensitive, blank or of a source not allowed get the same
      plan, message included. */
  lemma Independence(a: Request, b: Request)
    requires SameButMemory(a, b)
    requires TaskItems(a.memory) == TaskItems(b.memory) && PreferenceItems(a.preferences) == PreferenceItems(b.preferences)
    ensures PlanFor(a) == PlanFor(b)
  {
    hide *;
    ShownExactly(a.memory);
    ShownExactly(b.memory);
    ShownExactly(a.preferences);
    ShownExactly(b.preferences);
    SameShown(Allowed(a.memory, Memory), Allowed(b.memory, Memory), TaskItems(a.memory));
    SameShown(Allowed(a.preferences, Preferences), Allowed(b.preferences, Preferences), PreferenceItems(a.preferences));
    SameTelling(a, b);
    SamePlan(a, b);
  }

  lemma SameTelling(a: Request, b: Request)
    requires SameButMemory(a, b)
    requires Allowed(a.memory, Memory) == Allowed(b.memory, Memory)
    requires Allowed(a.preferences, Preferences) == Allowed(b.preferences, Preferences)
    ensures SameRouting(a, b) && MessageOf(a) == MessageOf(b) && (HasPreference(a) <==> HasPreference(b))
  {
    hide Allowed, Trim, SummaryOf, OneLine, Compact;
  }

  // All a plan depends on besides its routing is the message and whether there is an allowed preference.
  lemma SamePlan(a: Request, b: Request)
    requires SameRouting(a, b) && MessageOf(a) == MessageOf(b) && (HasPreference(a) <==> HasPreference(b))
    ensures PlanFor(a) == PlanFor(b)
  {
    hide MessageOf, HasPreference, Trim, V21Findings, AgentFindings, PolicyFor, PersonaPack, ScenarioPlaybook, ExpressionFor, CanUseAgent, Bound, NormalizePrivacy;
  }

  // The parts of a request that route it.
  predicate SameRouting(a: Request, b: Request)
  {
    && a.traceId == b.traceId && a.sessionId == b.sessionId && a.deviceId == b.deviceId
    && a.mode == b.mode && a.privacy == b.privacy && a.binding == b.binding && a.v21Requested == b.v21Requested
  }

  /** Where no agent is written to, the plan tells nothing of summary, transcript, constraints or memory, except
      whether there is an allowed preference; and not even that in private or professional requests. */
  lemma SilentIndependence(a: Request, b: Request)
    requires SameRouting(a, b) && PlanFor(a).message.None?
    ensures PlanFor(a) == PlanFor(b) <==>
      PrivacyOf(a) == Private || a.mode == Professional || (HasPreference(a) <==> HasPreference(b))
  {
    hide Trim, Allowed, MessageOf, V21Findings, AgentFindings, PersonaPack, ScenarioPlaybook, NormalizePrivacy, HasPreference;
  }

  /** A transcript is not used where there is a summary; without one, nothing past its first 240 code points is. */
  lemma TranscriptIndependence(r: Request, transcript: string)
    requires Blank(r.summary) ==> Truncate(OneLine(transcript), 240) == Truncate(OneLine(r.transcript), 240)
    ensures PlanFor(r.(transcript := transcript)) == PlanFor(r)
  {
    hide *;
    SameSummary(r.summary, transcript, r.transcript);
    SameMessage(r, transcript);
    SameRest(r, transcript);
    SamePlan(r.(transcript := transcript), r);
  }

  lemma SameRest(r: Request, transcript: string)
    ensures SameRouting(r.(transcript := transcript), r)
    ensures HasPreference(r.(transcript := transcript)) <==> HasPreference(r)
  {
    hide Allowed;
  }

  lemma SameMessage(r: Request, transcript: string)
    requires SummaryOf(r.summary, transcript) == SummaryOf(r.summary, r.transcript)
    ensures MessageOf(r.(transcript := transcript)) == MessageOf(r)
  {
    hide Trim, Allowed, OneLine, Compact, SummaryOf;
  }

  lemma SameSummary(summary: string, a: string, b: string)
    requires Blank(summary) ==> Truncate(OneLine(a), 240) == Truncate(OneLine(b), 240)
    ensures SummaryOf(summary, a) == SummaryOf(summary, b)
  {
    hide OneLine, Blank, Truncate, FirstTold;
    OneLineMeans(summary);
    SameTold(OneLine(summary), OneLine(a), OneLine(b));
  }

  lemma SameTold(told: string, a: string, b: string)
    requires told == "" ==> Truncate(a, 240) == Truncate(b, 240)
    ensures FirstTold(told, a) == FirstTold(told, b)
  {
    hide Truncate;
    CutToNothing(a);
    CutToNothing(b);
  }

  lemma CutToNothing(s: string)
    ensures Truncate(s, 240) == "" <==> s == ""
  {
  }
}
