/** The few string operations several components share: trimming, prefixes and splitting at a slash. */
module Text {

  // unicode.IsSpace
  predicate IsSpace(ch: char)
  {
    var c := ch as int;
    || 9 <= c <= 13 || c == 0x20 || c == 0x85 || c == 0xA0 || c == 0x1680
    || 0x2000 <= c <= 0x200A || c == 0x2028 || c == 0x2029 || c == 0x202F || c == 0x205F || c == 0x3000
  }

  // The first position from i on that holds no white space.
  function FirstInk(s: string, i: nat): (k: nat)
    requires i <= |s|
    ensures i <= k <= |s| && (k < |s| ==> !IsSpace(s[k]))
    decreases |s| - i
  {
    if i < |s| && IsSpace(s[i]) then FirstInk(s, i + 1) else i
  }

  // The position behind the last one before i that holds none.
  function LastInk(s: string, i: nat): (k: nat)
    requires i <= |s|
    ensures k <= i && (k > 0 ==> !IsSpace(s[k - 1]))
  {
    if i > 0 && IsSpace(s[i - 1]) then LastInk(s, i - 1) else i
  }

  function TrimLeft(s: string): (r: string)
    ensures |r| <= |s| && r == s[|s| - |r|..]
    ensures r == "" || !IsSpace(r[0])
  {
    s[FirstInk(s, 0)..]
  }

  function TrimRight(s: string): (r: string)
    ensures r <= s
    ensures r == "" || !IsSpace(r[|r| - 1])
  {
    s[..LastInk(s, |s|)]
  }

  // strings.TrimSpace
  function Trim(s: string): (r: string)
    ensures r == "" || (!IsSpace(r[0]) && !IsSpace(r[|r| - 1]))
  {
    TrimRight(TrimLeft(s))
  }

  // Trimming changes exactly the strings with white space at an end.
  lemma TrimFixed(s: string)
    requires s == "" || (!IsSpace(s[0]) && !IsSpace(s[|s| - 1]))
    ensures Trim(s) == s
  {
  }

  /** Trimming takes away white space only. */
  lemma TrimMeans(s: string) returns (front: string, back: string)
    ensures AllSpace(front) && AllSpace(back) && s == front + Trim(s) + back
  {
    hide AllSpace, IsSpace, TrimLeft, TrimRight;
    LeftTaken(s);
    RightTaken(TrimLeft(s));
    front, back := s[..|s| - |TrimLeft(s)|], TrimLeft(s)[|Trim(s)|..];
  }

  predicate AllSpace(s: string)
  {
    forall i :: 0 <= i < |s| ==> IsSpace(s[i])
  }

  lemma {:induction false} SpacesFrom(s: string, i: nat)
    requires i <= |s|
    ensures forall j :: i <= j < FirstInk(s, i) ==> IsSpace(s[j])
    decreases |s| - i
  {
    if i < |s| && IsSpace(s[i]) {
      SpacesFrom(s, i + 1);
    }
  }

  lemma {:induction false} SpacesTo(s: string, i: nat)
    requires i <= |s|
    ensures forall j :: LastInk(s, i) <= j < i ==> IsSpace(s[j])
  {
    if i > 0 && IsSpace(s[i - 1]) {
      SpacesTo(s, i - 1);
    }
  }

  lemma {:induction false} OneBefore(s: string, ch: char, i: nat)
    requires i <= |s|
    ensures FirstInk([ch] + s, i + 1) == FirstInk(s, i) + 1
    decreases |s| - i
  {
    assert i < |s| ==> ([ch] + s)[i + 1] == s[i];
    if i < |s| && IsSpace(s[i]) {
      OneBefore(s, ch, i + 1);
    }
  }

  // White space in front makes no difference.
  lemma SpaceBefore(s: string, ch: char)
    requires IsSpace(ch)
    ensures TrimLeft([ch] + s) == TrimLeft(s) && Trim([ch] + s) == Trim(s)
  {
    OneBefore(s, ch, 0);
    assert ([ch] + s)[0] == ch;
    assert ([ch] + s)[FirstInk(s, 0) + 1..] == s[FirstInk(s, 0)..];
  }

  lemma LeftTaken(s: string)
    ensures AllSpace(s[..|s| - |TrimLeft(s)|])
  {
    SpacesFrom(s, 0);
  }

  lemma RightTaken(s: string)
    ensures AllSpace(s[|TrimRight(s)|..])
  {
    SpacesTo(s, |s|);
  }

  predicate Blank(s: string)
  {
    Trim(s) == ""
  }

  lemma BlankMeans(s: string)
    ensures Blank(s) <==> AllSpace(s)
  {
    LeftTaken(s);
    RightTaken(TrimLeft(s));
    if TrimLeft(s) != "" {
      assert !IsSpace(s[|s| - |TrimLeft(s)|]);
    }
  }

  function Split(s: string, separator: char): (parts: seq<string>)
    ensures parts != []
  {
    if s == "" then [""]
    else
      var rest := Split(s[1..], separator);
      if s[0] == separator then [""] + rest else [[s[0]] + rest[0]] + rest[1..]
  }

  function Join(parts: seq<string>, separator: char): (s: string)
  {
    if parts == [] then "" else if |parts| == 1 then parts[0] else parts[0] + [separator] + Join(parts[1..], separator)
  }

  predicate Without(s: string, ch: char)
  {
    forall i :: 0 <= i < |s| ==> s[i] != ch
  }

  lemma {:induction false} PartsWithout(s: string, separator: char)
    ensures forall i :: 0 <= i < |Split(s, separator)| ==> Without(Split(s, separator)[i], separator)
    ensures Without(s, separator) ==> Split(s, separator) == [s]
  {
    if s != "" {
      PartsWithout(s[1..], separator);
      if Without(s, separator) {
        assert Without(s[1..], separator);
        assert [s[0]] + s[1..] == s;
      }
    }
  }

  lemma {:induction false} JoinOfSplit(s: string, separator: char)
    ensures Join(Split(s, separator), separator) == s
  {
    if s != "" {
      JoinOfSplit(s[1..], separator);
      var rest := Split(s[1..], separator);
      if s[0] == separator {
        assert ([""] + rest)[1..] == rest;
        assert "" + [separator] + Join(rest, separator) == s;
      } else {
        JoinFirst(rest, [s[0]], separator);
        assert [s[0]] + s[1..] == s;
      }
    }
  }

  lemma JoinFirst(parts: seq<string>, front: string, separator: char)
    requires parts != []
    ensures Join([front + parts[0]] + parts[1..], separator) == front + Join(parts, separator)
  {
    var all := [front + parts[0]] + parts[1..];
    assert all[1..] == parts[1..];
    if |parts| > 1 {
      assert front + (parts[0] + [separator] + Join(parts[1..], separator))
          == (front + parts[0]) + [separator] + Join(parts[1..], separator);
    }
  }

  // The order of Go strings, by their first difference.
  predicate Less(a: string, b: string)
  {
    if b == "" then false
    else if a == "" then true
    else a[0] < b[0] || (a[0] == b[0] && Less(a[1..], b[1..]))
  }

  /** The order is by the first difference, a text standing before its extensions. */
  lemma {:induction false} LessMeans(a: string, b: string) returns (k: nat)
    ensures k <= |a| && k <= |b| && a[..k] == b[..k]
    ensures k < |a| && k < |b| ==> a[k] != b[k]
    ensures Less(a, b) <==> k < |b| && (k == |a| || a[k] < b[k])
  {
    k := 0;
    if a != "" && b != "" && a[0] == b[0] {
      var rest := LessMeans(a[1..], b[1..]);
      k := rest + 1;
      assert a[..k] == [a[0]] + a[1..][..rest] && b[..k] == [b[0]] + b[1..][..rest];
    }
  }

  lemma {:induction false} LessTransitive(a: string, b: string, c: string)
    requires Less(a, b) && Less(b, c)
    ensures Less(a, c)
  {
    if a != "" && a[0] == b[0] == c[0] {
      LessTransitive(a[1..], b[1..], c[1..]);
    }
  }

  lemma {:induction false} LessTotal(a: string, b: string)
    ensures Less(a, b) || a == b || Less(b, a)
  {
    if a != "" && b != "" && a[0] == b[0] {
      LessTotal(a[1..], b[1..]);
      assert a == [a[0]] + a[1..] && b == [b[0]] + b[1..];
    }
  }

  lemma {:induction false} LessAsymmetric(a: string, b: string)
    ensures !(Less(a, b) && Less(b, a))
    ensures Less(a, b) ==> a != b
  {
    if a != "" && b != "" && a[0] == b[0] {
      LessAsymmetric(a[1..], b[1..]);
    }
  }
}
