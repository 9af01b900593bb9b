/** The scan that refuses paths naming the legacy projects: `x21` or `v21` standing alone between
    characters that are no lower-case letters or digits. Strings are the bytes of a cleaned, lowered path. */
module LegacyIdentity {
  import opened Text

  const IDENTITIES: seq<string> := ["x21", "v21"]

  predicate IsTokenChar(ch: char)
  {
    'a' <= ch <= 'z' || '0' <= ch <= '9'
  }

  predicate Occurs(s: string, word: string, pos: nat)
  {
    pos + |word| <= |s| && s[pos..pos + |word|] == word
  }

  // An occurrence with a boundary on either side.
  predicate Delimited(s: string, word: string, pos: nat)
  {
    && Occurs(s, word, pos)
    && (pos == 0 || !IsTokenChar(s[pos - 1]))
    && (pos + |word| == |s| || !IsTokenChar(s[pos + |word|]))
  }

  ghost predicate HasToken(s: string)
  {
    exists k: nat, pos: nat :: k < |IDENTITIES| && Delimited(s, IDENTITIES[k], pos)
  }

  // "x21" or "v21" from here on, no lower-case letter or digit just before or after.
  predicate Alone(s: string, pos: nat)
  {
    && pos + 3 <= |s| && (s[pos] == 'x' || s[pos] == 'v') && s[pos + 1] == '2' && s[pos + 2] == '1'
    && (pos == 0 || Outside(s[pos - 1]))
    && (pos + 3 == |s| || Outside(s[pos + 3]))
  }

  predicate Outside(ch: char)
  {
    ch < '0' || '9' < ch < 'a' || 'z' < ch
  }

  /** A token, by its characters and the two beside it. */
  lemma TokenMeans(s: string)
    ensures HasToken(s) <==> exists pos: nat :: Alone(s, pos)
  {
    forall pos: nat
      ensures Alone(s, pos) <==> Delimited(s, IDENTITIES[0], pos) || Delimited(s, IDENTITIES[1], pos)
    {
      WordAt(s, IDENTITIES[0], pos);
      WordAt(s, IDENTITIES[1], pos);
    }
    hide Alone, Delimited;
  }

  lemma WordAt(s: string, word: string, pos: nat)
    requires |word| == 3
    ensures Occurs(s, word, pos) <==> pos + 3 <= |s| && s[pos] == word[0] && s[pos + 1] == word[1] && s[pos + 2] == word[2]
  {
    if pos + 3 <= |s| {
      assert s[pos..pos + 3] == [s[pos], s[pos + 1], s[pos + 2]];
      assert word == [word[0], word[1], word[2]];
    }
  }

  // strings.Index in s[start..], as a position in s.
  method IndexFrom(s: string, word: string, start: nat) returns (pos: int)
    requires start <= |s|
    ensures pos == -1 || start <= pos
    ensures pos >= 0 ==> Occurs(s, word, pos) && forall p :: start <= p < pos ==> !Occurs(s, word, p)
    ensures pos < 0 ==> forall p :: start <= p ==> !Occurs(s, word, p)
  {
    pos := start;
    while pos + |word| <= |s|
      invariant start <= pos
      invariant forall p :: start <= p < pos ==> !Occurs(s, word, p)
    {
      if s[pos..pos + |word|] == word {
        return;
      }
      pos := pos + 1;
    }
    return -1;
  }

  method ContainsToken(component: string) returns (found: bool)
    ensures found <==> HasToken(component)
  {
    for k := 0 to |IDENTITIES|
      invariant forall j, p: nat :: 0 <= j < k ==> !Delimited(component, IDENTITIES[j], p)
    {
      var identity := IDENTITIES[k];
      var start := 0;
      while start < |component|
        invariant start <= |component|
        invariant forall p: nat :: p < start ==> !Delimited(component, identity, p)
        decreases |component| - start
      {
        var pos := IndexFrom(component, identity, start);
        if pos < 0 {
          break;
        }
        var beforeBoundary := pos == 0 || !IsTokenChar(component[pos - 1]);
        var after := pos + |identity|;
        var afterBoundary := after == |component| || !IsTokenChar(component[after]);
        if beforeBoundary && afterBoundary {
          assert Delimited(component, IDENTITIES[k], pos);
          return true;
        }
        start := pos + 1;
      }
      assert forall p: nat :: !Delimited(component, identity, p);
    }
    return false;
  }

  /** The check applied to paths: each component of the cleaned path on its own. */
  method ContainsPathToken(cleaned: string) returns (found: bool)
    ensures found <==> HasToken(cleaned)
    ensures found <==> exists i :: 0 <= i < |Split(cleaned, '/')| && HasToken(Split(cleaned, '/')[i])
  {
    hide HasToken;
    var components := Split(cleaned, '/');
    ComponentsDecide(cleaned);
    for i := 0 to |components|
      invariant forall j :: 0 <= j < i ==> !HasToken(components[j])
    {
      var one := ContainsToken(components[i]);
      if one {
        assert HasToken(Split(cleaned, '/')[i]);
        return true;
      }
    }
    return false;
  }

  // A slash is a boundary and no part of an identity, so a token lies on one side of it.
  lemma SlashSeparates(a: string, b: string)
    ensures HasToken(a + "/" + b) <==> HasToken(a) || HasToken(b)
  {
    var s := a + "/" + b;
    if HasToken(a) {
      var k: nat, pos: nat :| k < |IDENTITIES| && Delimited(a, IDENTITIES[k], pos);
      SameAtLeft(a, b, IDENTITIES[k], pos);
    }
    if HasToken(b) {
      var k: nat, pos: nat :| k < |IDENTITIES| && Delimited(b, IDENTITIES[k], pos);
      SameAtRight(a, b, IDENTITIES[k], pos);
      assert Delimited(s, IDENTITIES[k], |a| + 1 + pos);
    }
    if HasToken(s) {
      var k: nat, pos: nat :| k < |IDENTITIES| && Delimited(s, IDENTITIES[k], pos);
      NoSlashInside(a, b, IDENTITIES[k], pos);
      if pos + 3 <= |a| {
        SameAtLeft(a, b, IDENTITIES[k], pos);
      } else {
        SameAtRight(a, b, IDENTITIES[k], pos - |a| - 1);
      }
    }
  }

  lemma SameAtLeft(a: string, b: string, word: string, pos: nat)
    requires word in IDENTITIES && pos + 3 <= |a|
    ensures Delimited(a + "/" + b, word, pos) == Delimited(a, word, pos)
  {
    assert (a + "/" + b)[pos..pos + 3] == a[pos..pos + 3];
  }

  lemma SameAtRight(a: string, b: string, word: string, pos: nat)
    requires word in IDENTITIES
    ensures Delimited(a + "/" + b, word, |a| + 1 + pos) == Delimited(b, word, pos)
  {
    var s := a + "/" + b;
    if pos + 3 <= |b| {
      assert s[|a| + 1 + pos..|a| + 1 + pos + 3] == b[pos..pos + 3];
    }
  }

  lemma NoSlashInside(a: string, b: string, word: string, pos: nat)
    requires word in IDENTITIES && Occurs(a + "/" + b, word, pos)
    ensures pos + 3 <= |a| || pos > |a|
  {
    var s := a + "/" + b;
    assert forall j :: 0 <= j < 3 ==> s[pos + j] == word[j];
    assert forall j :: 0 <= j < 3 ==> word[j] != '/';
    assert s[|a|] == '/';
    assert forall i :: pos <= i < pos + 3 ==> s[i] == word[i - pos];
  }

  /** Checking component by component finds a token exactly when the whole path has one. */
  lemma {:induction false} ComponentsDecide(s: string)
    ensures HasToken(s) <==> exists i :: 0 <= i < |Split(s, '/')| && HasToken(Split(s, '/')[i])
  {
    JoinOfSplit(s, '/');
    JoinedDecide(Split(s, '/'));
  }

  lemma {:induction false} JoinedDecide(parts: seq<string>)
    requires parts != []
    ensures HasToken(Join(parts, '/')) <==> exists i :: 0 <= i < |parts| && HasToken(parts[i])
  {
    hide HasToken;
    if |parts| == 1 {
      assert HasToken(parts[0]) ==> exists i :: 0 <= i < |parts| && HasToken(parts[i]);
    } else {
      var rest := parts[1..];
      JoinedDecide(rest);
      SlashSeparates(parts[0], Join(rest, '/'));
      assert Join(parts, '/') == parts[0] + "/" + Join(rest, '/');
      if exists i :: 0 <= i < |rest| && HasToken(rest[i]) {
        var i :| 0 <= i < |rest| && HasToken(rest[i]);
        assert HasToken(parts[i + 1]);
      }
      if exists i :: 0 <= i < |parts| && HasToken(parts[i]) {
        var i :| 0 <= i < |parts| && HasToken(parts[i]);
        assert i > 0 ==> HasToken(rest[i - 1]);
      }
    }
  }
}
