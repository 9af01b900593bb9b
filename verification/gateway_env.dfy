/** The gateway's environment: a list of KEY=value strings read by first match, overlaid by command-line
    options in place and then completed by product-chain defaults, twice. */
module GatewayEnv {
  import opened Text

  type Env = seq<string>

  predicate HasKey(entry: string, key: string)
  {
    key + "=" <= entry
  }

  function Entry(key: string, value: string): (e: string)
    ensures HasKey(e, key)
  {
    key + "=" + value
  }

  predicate Present(env: Env, key: string)
  {
    env != [] && (HasKey(env[0], key) || Present(env[1..], key))
  }

  // appEnvValue: the rest of the first entry with this key, or nothing.
  function Lookup(env: Env, key: string): (value: string)
  {
    if env == [] then "" else if HasKey(env[0], key) then env[0][|key| + 1..] else Lookup(env[1..], key)
  }

  lemma {:induction false} LookupAppend(a: Env, b: Env, key: string)
    ensures Lookup(a + b, key) == if Present(a, key) then Lookup(a, key) else Lookup(b, key)
    ensures Present(a + b, key) == (Present(a, key) || Present(b, key))
  {
    hide HasKey;
    if a == [] {
      assert a + b == b;
    } else {
      LookupAppend(a[1..], b, key);
      assert (a + b)[1..] == a[1..] + b;
    }
  }

  lemma {:induction false} LookupAbsent(env: Env, key: string)
    requires !Present(env, key)
    ensures Lookup(env, key) == ""
  {
    if env != [] {
      LookupAbsent(env[1..], key);
    }
  }

  lemma LookupOne(entry: string, key: string)
    ensures Present([entry], key) == HasKey(entry, key)
    ensures Lookup([entry], key) == if HasKey(entry, key) then entry[|key| + 1..] else ""
  {
    assert [entry][1..] == [];
  }

  lemma {:induction false} NoneIsAbsent(env: Env, key: string)
    requires forall i :: 0 <= i < |env| ==> !HasKey(env[i], key)
    ensures !Present(env, key)
  {
    if env != [] {
      NoneIsAbsent(env[1..], key);
    }
  }

  // ---- the overlay ----

  function Others(env: Env, key: string): (r: Env)
    ensures forall i :: 0 <= i < |r| ==> !HasKey(r[i], key)
    ensures |r| <= |env|
  {
    if env == [] then []
    else
      var r := Others(env[..|env| - 1], key);
      if HasKey(env[|env| - 1], key) then r else r + [env[|env| - 1]]
  }

  // All other entries in order, then the trimmed value.
  function Set(env: Env, key: string, value: string): (r: Env)
  {
    Others(env, key) + [Entry(key, Trim(value))]
  }

  function SetIfNotEmpty(env: Env, key: string, value: string): (r: Env)
  {
    if Blank(value) then env else Set(env, key, value)
  }

  /** The filter works in its argument's own backing array, `env[..n]` being the slice and env.Length its
      capacity; only a last append that does not fit takes a new array. */
  method SetIfNotEmptyInPlace(env: array<string>, n: nat, key: string, value: string) returns (out: array<string>, m: nat)
    requires n <= env.Length
    modifies env
    ensures m <= out.Length && out[..m] == SetIfNotEmpty(old(env[..n]), key, value)
    ensures out == env || fresh(out)
    ensures Blank(value) ==> out == env && m == n && env[..] == old(env[..])
  {
    hide Trim, HasKey, Others, Entry;
    var trimmed := Trim(value);
    if trimmed == "" {
      return env, n;
    }
    m := 0;
    m := FilterInPlace(env, n, key);
    out, m := Append(env, m, Entry(key, trimmed));
  }

  // append(env[:n], entry): in place while the capacity lasts, else in a new array.
  method Append(env: array<string>, n: nat, entry: string) returns (out: array<string>, m: nat)
    requires n <= env.Length
    modifies env
    ensures m <= out.Length && out[..m] == old(env[..n]) + [entry]
    ensures out == env || fresh(out)
  {
    ghost var kept := env[..n];
    out := env;
    if n == env.Length {
      out := Grown(env, n);
    }
    out[n] := entry;
    m := n + 1;
    assert out[..n] == kept;
  }

  // The loop over the slice: it reads entry i and writes at m <= i of the same array.
  method FilterInPlace(env: array<string>, n: nat, key: string) returns (m: nat)
    requires n <= env.Length
    modifies env
    ensures m <= n && env[..m] == Others(old(env[..n]), key)
  {
    hide HasKey;
    ghost var s := env[..n];
    m := 0;
    for i := 0 to n
      invariant m <= i && env[..m] == Others(s[..i], key)
      invariant forall k :: i <= k < n ==> env[k] == s[k]
    {
      assert s[..i + 1][..i] == s[..i];
      var entry := env[i];
      if !HasKey(entry, key) {
        ghost var kept := env[..m];
        env[m] := entry;
        m := m + 1;
        assert env[..m] == kept + [entry];
      }
    }
    assert s[..n] == s;
  }

  // A new backing array with room for at least one entry more.
  method Grown(env: array<string>, n: nat) returns (out: array<string>)
    requires n <= env.Length
    ensures fresh(out) && out.Length > n && out[..n] == env[..n]
  {
    var capacity: nat :| capacity > n;
    out := new string[capacity](_ => "");
    for i := 0 to n
      invariant out[..i] == env[..i]
      modifies out
    {
      out[i] := env[i];
    }
  }

  datatype Options = Options(productChain: string, ollamaUrl: string, ollamaModel: string, maxTokens: string, macGateway: string, publicGateway: string)

  const CHAIN := "A21_XIAOZHI_PRODUCT_CHAIN"
  const OLLAMA_URL := "A21_LOCAL_OLLAMA_BASE_URL"
  const OLLAMA_MODEL := "A21_LOCAL_OLLAMA_MODEL"
  const MAX_TOKENS := "A21_VOICE_TEXT_MAX_TOKENS"
  const MAC_GATEWAY := "A21_MAC_LOCAL_GATEWAY_URL"
  const PUBLIC_GATEWAY := "A21_PUBLIC_GATEWAY_URL"

  datatype Setting = Setting(key: string, value: string)

  function Settings(o: Options): (r: seq<Setting>)
    ensures |r| == 6
  {
    [Setting(CHAIN, o.productChain), Setting(OLLAMA_URL, o.ollamaUrl), Setting(OLLAMA_MODEL, o.ollamaModel),
     Setting(MAX_TOKENS, o.maxTokens), Setting(MAC_GATEWAY, o.macGateway), Setting(PUBLIC_GATEWAY, o.publicGateway)]
  }

  function Overlay(env: Env, settings: seq<Setting>): (r: Env)
    decreases |settings|
  {
    if settings == [] then env
    else Overlay(SetIfNotEmpty(env, settings[0].key, settings[0].value), settings[1..])
  }

  /** The six-option wrapper: it copies first, so the caller's array keeps every entry. */
  method WithCLIOptions(env: array<string>, n: nat, o: Options) returns (out: array<string>, m: nat)
    requires n <= env.Length
    ensures fresh(out) && m <= out.Length
    ensures out[..m] == Overlay(env[..n], Settings(o))
  {
    hide Settings, SetIfNotEmpty;
    out := Grown(env, n);
    m := n;
    var settings := Settings(o);
    assert settings[0..] == settings;
    for i := 0 to 6
      invariant fresh(out) && m <= out.Length
      invariant Overlay(env[..n], settings) == Overlay(out[..m], settings[i..])
    {
      assert settings[i..][1..] == settings[i + 1..];
      out, m := SetIfNotEmptyInPlace(out, m, settings[i].key, settings[i].value);
    }
  }

  // ---- laws of the overlay ----

  // No entry begins with both keys.
  predicate Apart(a: string, b: string)
  {
    !HasKey(b + "=", a) && !HasKey(a + "=", b)
  }

  lemma SharedEntry(a: string, b: string, entry: string)
    requires HasKey(entry, a) && HasKey(entry, b)
    ensures !Apart(a, b)
  {
    var x, y := a + "=", b + "=";
    assert x == entry[..|x|] && y == entry[..|y|];
    if |x| <= |y| {
      assert y[..|x|] == x;
    } else {
      assert x[..|y|] == y;
    }
  }

  lemma NotBoth(a: string, b: string, entry: string)
    requires Apart(a, b) && HasKey(entry, a)
    ensures !HasKey(entry, b)
  {
    if HasKey(entry, b) {
      SharedEntry(a, b, entry);
    }
  }

  lemma PrefixOfEqualsFree(a: string, b: string)
    requires a + "=" <= b + "=" && Without(b, '=')
    ensures a == b
  {
    var x, y := a + "=", b + "=";
    assert x[|a|] == y[|a|] == '=';
    assert forall i :: 0 <= i < |b| ==> y[i] == b[i];
    assert |a| == |b|;
    assert x == y;
    assert x[..|a|] == a && y[..|b|] == b;
  }

  lemma EqualsFreeApart(a: string, b: string)
    requires Without(a, '=') && Without(b, '=') && a != b
    ensures Apart(a, b)
  {
    if a + "=" <= b + "=" {
      PrefixOfEqualsFree(a, b);
    }
    if b + "=" <= a + "=" {
      PrefixOfEqualsFree(b, a);
    }
  }

  lemma {:induction false} LookupOthers(env: Env, key: string, other: string)
    requires Apart(key, other)
    ensures Lookup(Others(env, key), other) == Lookup(env, other)
    ensures Present(Others(env, key), other) == Present(env, other)
  {
    if env != [] {
      var init, last := env[..|env| - 1], env[|env| - 1];
      LookupOthers(init, key, other);
      assert env == init + [last];
      LookupAppend(init, [last], other);
      LookupAppend(Others(init, key), [last], other);
      LookupOne(last, other);
      if HasKey(last, key) {
        NotBoth(key, other, last);
        if !Present(init, other) {
          LookupAbsent(init, other);
        }
      }
    }
  }

  /** After an overlay, the key reads back as the trimmed value, from the only entry it then has. */
  lemma SetThenLookup(env: Env, key: string, value: string)
    requires !Blank(value)
    ensures Lookup(Set(env, key, value), key) == Trim(value)
    ensures var r := Set(env, key, value);
            forall i :: 0 <= i < |r| ==> (HasKey(r[i], key) <==> i == |r| - 1)
  {
    var kept := Others(env, key);
    var entry := Entry(key, Trim(value));
    NoneIsAbsent(kept, key);
    LookupAppend(kept, [entry], key);
    LookupOne(entry, key);
    assert entry[|key| + 1..] == Trim(value);
  }

  /** Another key reads back as before, whatever the environment and value, exactly when no entry could
      begin with both keys; two different keys without an equals sign are always such. */
  lemma SetKeepsOthers(key: string, other: string)
    ensures (forall env: Env, value: string :: !Blank(value) ==> Lookup(Set(env, key, value), other) == Lookup(env, other))
      <==> Apart(key, other)
    ensures Without(key, '=') && Without(other, '=') && key != other ==> Apart(key, other)
  {
    if Apart(key, other) {
      forall env: Env, value: string | !Blank(value)
        ensures Lookup(Set(env, key, value), other) == Lookup(env, other)
      {
        KeptLookup(env, key, value, other);
      }
    } else {
      var env := OverlappingKeys(key, other);
    }
    if Without(key, '=') && Without(other, '=') && key != other {
      EqualsFreeApart(key, other);
    }
  }

  lemma KeptLookup(env: Env, key: string, value: string, other: string)
    requires Apart(key, other)
    ensures Lookup(Set(env, key, value), other) == Lookup(env, other)
  {
    var entry := Entry(key, Trim(value));
    LookupOthers(env, key, other);
    LookupAppend(Others(env, key), [entry], other);
    NotBoth(key, other, entry);
    LookupOne(entry, other);
    if !Present(env, other) {
      LookupAbsent(env, other);
    }
  }

  lemma OverlappingKeys(key: string, other: string) returns (env: Env)
    requires !Apart(key, other)
    ensures !Blank("x") && Lookup(Set(env, key, "x"), other) != Lookup(env, other)
  {
    hide Lookup, Set, HasKey, Trim, Entry;
    TrimFixed("x");
    if HasKey(key + "=", other) {
      env := [];
      ShorterKeySees(key, other, "x", Set([], key, "x"));
      LookupNone(other);
    } else {
      env := [Entry(other, "y")];
      LongerKeyLoses(key, other, "x", "y", Set(env, key, "x"));
    }
  }

  lemma LookupNone(key: string)
    ensures Lookup([], key) == ""
  {
  }

  // Where every entry has the key, only the new one is left.
  lemma AloneAfterSet(env: Env, key: string, value: string)
    requires |env| <= 1 && (env != [] ==> HasKey(env[0], key))
    ensures Set(env, key, value) == [Entry(key, Trim(value))]
  {
    hide HasKey, Entry, Trim;
    if env != [] {
      assert env[..0] == [];
    }
    assert Others(env, key) == [];
  }

  // A key that begins with another brings that one along.
  lemma BothKeys(entry: string, key: string, other: string)
    requires HasKey(entry, key) && HasKey(key + "=", other)
    ensures HasKey(entry, other)
  {
    var a, b := other + "=", key + "=";
    assert a == b[..|a|] == entry[..|b|][..|a|] == entry[..|a|];
  }

  // The new entry also begins with the other key, which had no entry before.
  lemma ShorterKeySees(key: string, other: string, x: string, after: Env)
    requires HasKey(key + "=", other) && after == Set([], key, x) && Trim(x) == x && x != ""
    ensures Lookup(after, other) != ""
  {
    hide *;
    AloneAfterSet([], key, x);
    SomethingBehind(key, other, x);
  }

  lemma SomethingBehind(key: string, other: string, x: string)
    requires HasKey(key + "=", other) && x != ""
    ensures Lookup([Entry(key, x)], other) != ""
  {
    var entry := Entry(key, x);
    BothKeys(entry, key, other);
    LookupOne(entry, other);
    assert |entry| > |other| + 1;
    hide Lookup, HasKey;
  }

  // The other key's only entry begins with the key that is set, and is filtered out.
  lemma LongerKeyLoses(key: string, other: string, x: string, y: string, after: Env)
    requires |x| == 1 && x[0] != '=' && Trim(x) == x && after == Set([Entry(other, y)], key, x)
    requires HasKey(other + "=", key) && !HasKey(key + "=", other)
    ensures Lookup(after, other) == "" && Lookup([Entry(other, y)], other) == y
  {
    hide *;
    var only := Entry(other, y);
    BothKeys(only, other, key);
    AloneAfterSet([only], key, x);
    NotTheLonger(key, other, x);
    NothingThere(Entry(key, x), other);
    ValueOf(other, y);
  }

  lemma NothingThere(entry: string, key: string)
    requires !HasKey(entry, key)
    ensures Lookup([entry], key) == ""
  {
    hide Lookup, HasKey;
    LookupOne(entry, key);
  }

  lemma ValueOf(key: string, value: string)
    ensures Lookup([Entry(key, value)], key) == value
  {
    hide Lookup, HasKey;
    LookupOne(Entry(key, value), key);
  }

  // The new entry is no longer than the other key with its equals sign, and ends otherwise.
  lemma NotTheLonger(key: string, other: string, x: string)
    requires |x| == 1 && x[0] != '='
    requires HasKey(other + "=", key) && !HasKey(key + "=", other)
    ensures !HasKey(Entry(key, x), other)
  {
    var longer, entry := other + "=", Entry(key, x);
    Lengths(key + "=", longer);
    LastIs(entry, x[0]);
    assert longer[|longer| - 1] == '=';
    hide Entry;
  }

  lemma Lengths(a: string, b: string)
    requires a <= b && !(b <= a)
    ensures |a| < |b|
  {
  }

  // No other string of its length or more is a prefix of it, and ends otherwise.
  lemma LastIs(s: string, ch: char)
    requires s != "" && s[|s| - 1] == ch
    ensures forall p: string :: p <= s && |p| >= |s| ==> p != "" && p[|p| - 1] == ch
  {
  }

  predicate DistinctKeys(settings: seq<Setting>)
  {
    && (forall i :: 0 <= i < |settings| ==> Without(settings[i].key, '='))
    && (forall i, j :: 0 <= i < j < |settings| ==> settings[i].key != settings[j].key)
  }

  lemma ChainKeysFree()
    ensures Without(CHAIN, '=') && Without(OLLAMA_URL, '=') && Without(OLLAMA_MODEL, '=')
  {
  }

  lemma GatewayKeysFree()
    ensures Without(MAX_TOKENS, '=') && Without(MAC_GATEWAY, '=') && Without(PUBLIC_GATEWAY, '=')
  {
  }

  lemma SettingsDistinct(o: Options)
    ensures DistinctKeys(Settings(o))
  {
    hide Without;
    ChainKeysFree();
    GatewayKeysFree();
  }

  lemma SetIfLookup(env: Env, key: string, value: string, other: string)
    requires Without(key, '=') && Without(other, '=')
    ensures Lookup(SetIfNotEmpty(env, key, value), other) ==
      if key == other && !Blank(value) then Trim(value) else Lookup(env, other)
  {
    if !Blank(value) {
      if key == other {
        SetThenLookup(env, key, value);
      } else {
        EqualsFreeApart(key, other);
        KeptLookup(env, key, value, other);
      }
    }
  }

  lemma {:induction false} OverlayLookup(env: Env, settings: seq<Setting>, key: string)
    requires DistinctKeys(settings) && Without(key, '=')
    ensures (forall i :: 0 <= i < |settings| ==> settings[i].key != key) ==>
      Lookup(Overlay(env, settings), key) == Lookup(env, key)
    ensures forall i :: 0 <= i < |settings| && settings[i].key == key ==>
      Lookup(Overlay(env, settings), key) == if Blank(settings[i].value) then Lookup(env, key) else Trim(settings[i].value)
    decreases |settings|
  {
    hide SetIfNotEmpty, Lookup, Trim;
    if settings != [] {
      var next := SetIfNotEmpty(env, settings[0].key, settings[0].value);
      SetIfLookup(env, settings[0].key, settings[0].value, key);
      OverlayLookup(next, settings[1..], key);
      if exists i :: 1 <= i < |settings| && settings[i].key == key {
        var i :| 1 <= i < |settings| && settings[i].key == key;
        assert settings[1..][i - 1].key == key;
      }
    }
  }

  // An option reads back trimmed, or as the caller's where it is blank.
  predicate ReadsBack(out: Env, env: Env, key: string, value: string)
  {
    Lookup(out, key) == if Blank(value) then Lookup(env, key) else Trim(value)
  }

  lemma SettingReadsBack(env: Env, o: Options, i: nat)
    requires i < 6
    ensures ReadsBack(Overlay(env, Settings(o)), env, Settings(o)[i].key, Settings(o)[i].value)
  {
    hide Settings, Lookup, Trim, Overlay, Without;
    SettingsDistinct(o);
    OverlayLookup(env, Settings(o), Settings(o)[i].key);
  }

  /** The wrapper as a whole: each of the six options, under its own key, reads back trimmed unless it is blank,
      and every other lookup is the caller's. */
  lemma OptionsLookup(env: Env, o: Options)
    ensures var out := Overlay(env, Settings(o));
            && ReadsBack(out, env, "A21_XIAOZHI_PRODUCT_CHAIN", o.productChain)
            && ReadsBack(out, env, "A21_LOCAL_OLLAMA_BASE_URL", o.ollamaUrl)
            && ReadsBack(out, env, "A21_LOCAL_OLLAMA_MODEL", o.ollamaModel)
            && ReadsBack(out, env, "A21_VOICE_TEXT_MAX_TOKENS", o.maxTokens)
            && ReadsBack(out, env, "A21_MAC_LOCAL_GATEWAY_URL", o.macGateway)
            && ReadsBack(out, env, "A21_PUBLIC_GATEWAY_URL", o.publicGateway)
    ensures forall key :: Without(key, '=') && key !in {CHAIN, OLLAMA_URL, OLLAMA_MODEL, MAX_TOKENS, MAC_GATEWAY, PUBLIC_GATEWAY} ==>
      Lookup(Overlay(env, Settings(o)), key) == Lookup(env, key)
  {
    hide ReadsBack, Overlay, Lookup, Without;
    SettingReadsBack(env, o, 0);
    SettingReadsBack(env, o, 1);
    SettingReadsBack(env, o, 2);
    SettingReadsBack(env, o, 3);
    SettingReadsBack(env, o, 4);
    SettingReadsBack(env, o, 5);
    forall key | Without(key, '=') && key !in {CHAIN, OLLAMA_URL, OLLAMA_MODEL, MAX_TOKENS, MAC_GATEWAY, PUBLIC_GATEWAY}
      ensures Lookup(Overlay(env, Settings(o)), key) == Lookup(env, key)
    {
      OtherReads(env, o, key);
    }
  }

  lemma OtherReads(env: Env, o: Options, key: string)
    requires Without(key, '=') && key !in {CHAIN, OLLAMA_URL, OLLAMA_MODEL, MAX_TOKENS, MAC_GATEWAY, PUBLIC_GATEWAY}
    ensures Lookup(Overlay(env, Settings(o)), key) == Lookup(env, key)
  {
    hide Settings, Lookup, Overlay, Without, CHAIN, OLLAMA_URL, OLLAMA_MODEL, MAX_TOKENS, MAC_GATEWAY, PUBLIC_GATEWAY;
    SettingsDistinct(o);
    OtherKey(o, key);
    OverlayLookup(env, Settings(o), key);
  }

  lemma OtherKey(o: Options, key: string)
    requires key !in {CHAIN, OLLAMA_URL, OLLAMA_MODEL, MAX_TOKENS, MAC_GATEWAY, PUBLIC_GATEWAY}
    ensures forall i :: 0 <= i < 6 ==> Settings(o)[i].key != key
  {
    hide CHAIN, OLLAMA_URL, OLLAMA_MODEL, MAX_TOKENS, MAC_GATEWAY, PUBLIC_GATEWAY;
  }
}
