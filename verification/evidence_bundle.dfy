/** Provider evidence: a directory of reports is packaged into a bundle, and a bundle is imported into a
    directory. Both sides use the same name, whitelist, size and redaction filters. The bundle is the list
    of records a tar reader yields; which reports are unsafe is the parameter `unsafe`. */
module EvidenceBundle {
  import opened Wrappers
  import opened Text

  type Bytes = seq<int>

  const MAX_BYTES := 64 * 1024

  // ---- names ----

  // The elements of path.Clean for a path that is not rooted.
  function CleanParts(parts: seq<string>): (r: seq<string>)
  {
    if parts == [] then []
    else
      var r := CleanParts(parts[..|parts| - 1]);
      var last := parts[|parts| - 1];
      if last == "" || last == "." then r
      else if last == ".." && r != [] && r[|r| - 1] != ".." then r[..|r| - 1]
      else r + [last]
  }

  function Clean(name: string): (r: string)
  {
    var parts := CleanParts(Split(name, '/'));
    if parts == [] then "." else Join(parts, '/')
  }

  // The entry's base name, if the name is safe. The base of a name without a slash is the name.
  function EntryName(raw: string): (name: Option<string>)
    ensures name.Some? ==> Without(name.value, '/')
  {
    var trimmed := Trim(raw);
    if trimmed == "" || trimmed[0] == '/' then None
    else
      var clean := Clean(trimmed);
      if clean == "." || !Without(clean, '/') then None else Some(clean)
  }

  // filepath.Match of prefix*suffix: the star matches no slash.
  predicate Matches(prefix: string, suffix: string, name: string)
  {
    && |prefix| + |suffix| <= |name|
    && prefix <= name && name[|name| - |suffix|..] == suffix
    && Without(name[|prefix|..|name| - |suffix|], '/')
  }

  const SMOKE := "a21-provider-smoke-"
  const PREFIXES: seq<string> := [
    SMOKE, "a21-provider-audio-smoke-", "a21-doctor-", "a21-product-readiness-", "a21-server-side-readiness-bundle-"]

  predicate Allowed(name: string)
  {
    exists i :: 0 <= i < |PREFIXES| && Matches(PREFIXES[i], ".json", name)
  }

  lemma AllowedEnds(name: string)
    requires Allowed(name)
    ensures name != "" && name[0] == 'a' && name[|name| - 1] == 'n'
  {
    var i :| 0 <= i < |PREFIXES| && Matches(PREFIXES[i], ".json", name);
    assert name[0] == PREFIXES[i][0];
    assert name[|name| - 1] == name[|name| - 5..][4];
  }

  /** A whitelisted name that passed the name filter passes it again unchanged. */
  lemma NameFixed(raw: string, name: string)
    requires EntryName(raw) == Some(name) && Allowed(name)
    ensures EntryName(name) == Some(name)
  {
    hide Allowed;
    AllowedFixed(name);
  }

  lemma AllowedFixed(name: string)
    requires Allowed(name) && Without(name, '/')
    ensures EntryName(name) == Some(name)
  {
    hide Allowed;
    AllowedEnds(name);
    TrimFixed(name);
    PartsWithout(name, '/');
    assert Split(name, '/') == [name];
    CleanOne(name);
  }

  lemma CleanOne(name: string)
    requires name != "" && name[0] == 'a'
    ensures CleanParts([name]) == [name]
  {
    assert [name][..0] == [];
  }

  // ---- what a name stands for ----

  // One step from a directory, given by the names on the way to it: nowhere, to its parent, or to a child.
  function Step(at: seq<string>, part: string): (r: seq<string>)
  {
    if part == "" || part == "." then at
    else if part == ".." then (if at == [] then [] else at[..|at| - 1])
    else at + [part]
  }

  function Walk(base: seq<string>, parts: seq<string>): (r: seq<string>)
  {
    if parts == [] then base else Step(Walk(base, parts[..|parts| - 1]), parts[|parts| - 1])
  }

  // No step that goes nowhere, and none to a parent after one to a child.
  predicate Normal(parts: seq<string>)
  {
    && (forall i :: 0 <= i < |parts| ==> parts[i] != "" && parts[i] != ".")
    && (forall i :: 0 < i < |parts| && parts[i] == ".." ==> parts[i - 1] == "..")
  }

  lemma WalkMore(base: seq<string>, parts: seq<string>, part: string)
    ensures Walk(base, parts + [part]) == Step(Walk(base, parts), part)
  {
    assert (parts + [part])[..|parts|] == parts;
  }

  lemma {:induction false} CleanNormal(parts: seq<string>)
    ensures Normal(CleanParts(parts))
    ensures forall part :: part in CleanParts(parts) ==> part in parts
  {
    if parts != [] {
      CleanNormal(parts[..|parts| - 1]);
    }
  }

  /** Cleaning a path leads to the same place from every directory. */
  lemma {:induction false} CleanWalks(base: seq<string>, parts: seq<string>)
    ensures Walk(base, CleanParts(parts)) == Walk(base, parts)
  {
    hide Walk;
    if parts != [] {
      var init, last := parts[..|parts| - 1], parts[|parts| - 1];
      var r := CleanParts(init);
      CleanWalks(base, init);
      CleanNormal(init);
      assert parts == init + [last];
      WalkMore(base, init, last);
      WalkMore(base, r, last);
      if r != [] {
        assert r == r[..|r| - 1] + [r[|r| - 1]];
        WalkMore(base, r[..|r| - 1], r[|r| - 1]);
      }
    }
  }

  // A clean path goes up some way, and then down.
  lemma {:induction false} WalkNormal(base: seq<string>, parts: seq<string>) returns (up: nat)
    requires Normal(parts) && |parts| <= |base|
    ensures up <= |parts| && (up < |parts| ==> parts[|parts| - 1] != "..")
    ensures Walk(base, parts) == base[..|base| - up] + parts[up..]
  {
    hide Step;
    if parts == [] {
      up := 0;
    } else {
      var n := |parts| - 1;
      up := WalkNormal(base, parts[..n]);
      StepNormal(base, up, parts[..n], parts[n]);
      assert parts[..n][up..] + [parts[n]] == parts[up..];
      if parts[n] == ".." {
        up := n + 1;
      }
    }
  }

  lemma StepNormal(base: seq<string>, up: nat, parts: seq<string>, part: string)
    requires up <= |parts| < |base| && part != "" && part != "."
    ensures part != ".." ==> Step(base[..|base| - up] + parts[up..], part) == base[..|base| - up] + (parts[up..] + [part])
    ensures part == ".." && up == |parts| ==> Step(base[..|base| - up] + parts[up..], part) == base[..|base| - up - 1]
  {
  }

  // The path leads from every directory to this file in it.
  ghost predicate LeadsTo(path: string, name: string)
  {
    forall base: seq<string> :: Walk(base, Split(path, '/')) == base + [name]
  }

  /** Which names pass the filter, parent directories apart: relative paths that, from whatever directory, lead to
      a file of the filtered name right in it. */
  lemma EntryNameMeans(raw: string, name: string)
    requires name != ".."
    ensures EntryName(raw) == Some(name) <==> Trim(raw) != "" && Trim(raw)[0] != '/' && LeadsTo(Trim(raw), name)
  {
    hide Trim, Split;
    var path := Trim(raw);
    var clean := CleanParts(Split(path, '/'));
    CleanIs(path);
    if EntryName(raw) == Some(name) {
      OneLeft(clean, name);
      forall base: seq<string>
        ensures Walk(base, Split(path, '/')) == base + [name]
      {
        CleanWalks(base, Split(path, '/'));
        assert [name][..0] == [];
      }
    } else if LeadsTo(path, name) {
      OnlyOneLeft(path, name);
    }
  }

  lemma CleanIs(path: string)
    ensures var clean := CleanParts(Split(path, '/'));
            && Normal(clean) && (forall part :: part in clean ==> Without(part, '/'))
            && Clean(path) == if clean == [] then "." else Join(clean, '/')
  {
    hide Split, CleanParts, Join;
    CleanNormal(Split(path, '/'));
    PartsWithout(path, '/');
  }

  // A joined path without a slash has one part.
  lemma OneLeft(clean: seq<string>, name: string)
    requires clean != [] && Join(clean, '/') == name && Without(name, '/')
    ensures clean == [name]
  {
    SlashBetween(clean);
  }

  lemma SlashBetween(parts: seq<string>)
    ensures |parts| > 1 ==> !Without(Join(parts, '/'), '/')
  {
    if |parts| > 1 {
      assert Join(parts, '/')[|parts[0]|] == '/';
    }
  }

  lemma OnlyOneLeft(path: string, name: string)
    requires name != ".." && LeadsTo(path, name)
    ensures CleanParts(Split(path, '/')) == [name]
  {
    hide Split, CleanParts, Walk, Without;
    var clean := CleanParts(Split(path, '/'));
    var base := seq(|clean|, _ => "/");
    CleanIs(path);
    NoSlashPart(clean);
    CleanWalks(base, Split(path, '/'));
    var up := WalkNormal(base, clean);
    OnlyDown(base, up, clean[up..], name);
    assert clean[0..] == clean;
  }

  lemma NoSlashPart(parts: seq<string>)
    requires forall part :: part in parts ==> Without(part, '/')
    ensures "/" !in parts
  {
    assert !Without("/", '/') by {
      assert "/"[0] == '/';
    }
  }

  // From a directory all of whose names are slashes, only what goes up at first can come by one again.
  lemma OnlyDown(base: seq<string>, up: nat, down: seq<string>, name: string)
    requires up <= |base| && (forall i :: 0 <= i < |base| ==> base[i] == "/")
    ensures base[..|base| - up] + down == base + [name] ==> if up > 0 then "/" in down else down == [name]
  {
    var whole := base + [name];
    if base[..|base| - up] + down == whole {
      assert down == whole[|base| - up..];
      if up > 0 {
        assert whole[|base| - up..][0] == "/";
      }
    }
  }

  // ---- reading both sides ----

  // The finding codes without their prefix, which is package_ or bundle_ for those about one entry.
  datatype Code =
    | NameInvalid | NotAllowed | EntryInvalid | Duplicate | TooLarge | Unsafe
    | InputUnreadable | BundleNameInvalid | BundleInvalid | Empty
    | NoTempDir | StagingFailed | SmokeMismatch | SmokeMissing
    | OutputUnavailable | BundleUnavailable | ReportConflict | ReportUnavailable

  datatype Finding = Finding(code: Code, detail: string)

  // A name that may be shown: no backslash, no parent directory, no legacy identity in either case.
  predicate Showable(name: string)
  {
    && Without(name, '/') && Without(name, '\\')
    && (forall i :: 0 <= i < |name| - 1 ==> name[i] == '.' ==> name[i + 1] != '.')
    && (forall i :: 0 <= i < |name| - 2 ==> name[i] in "xXvV" ==> name[i..i + 3][1..] != "21")
  }

  function SafeDetail(name: string): (r: string)
  {
    if Showable(name) then name else "unsafe_entry"
  }

  datatype Gathered = Gathered(byName: map<string, Bytes>, findings: seq<Finding>)

  function Bad(g: Gathered, code: Code, detail: string): (r: Gathered)
  {
    g.(findings := g.findings + [Finding(code, detail)])
  }

  // What a directory listing says of one entry; reading a file goes by name.
  datatype DirEntry = DirEntry(name: string, isDir: bool, regular: bool, size: int)

  datatype Dir = Dir(entries: seq<DirEntry>, readable: map<string, Bytes>)

  function TakeDirEntry(g: Gathered, e: DirEntry, readable: map<string, Bytes>, unsafe: Bytes -> bool): (r: Gathered)
  {
    if e.isDir then g
    else match EntryName(e.name)
         case None => Bad(g, NameInvalid, "")
         case Some(name) =>
           if !Allowed(name) then Bad(g, NotAllowed, SafeDetail(name))
           else if !e.regular then Bad(g, EntryInvalid, SafeDetail(name))
           else if e.size < 0 || e.size > MAX_BYTES then Bad(g, TooLarge, name)
           else if name !in readable || |readable[name]| > MAX_BYTES then Bad(g, TooLarge, name)
           else if unsafe(readable[name]) then Bad(g, Unsafe, name)
           else g.(byName := g.byName[name := readable[name]])
  }

  function GatherDir(d: Dir, n: nat, unsafe: Bytes -> bool): (g: Gathered)
    requires n <= |d.entries|
  {
    if n == 0 then Gathered(map[], [])
    else TakeDirEntry(GatherDir(d, n - 1, unsafe), d.entries[n - 1], d.readable, unsafe)
  }

  datatype Kind = Folder | Regular | Unsupported

  datatype Record = Record(kind: Kind, name: string, size: int, data: Option<Bytes>)

  function TakeRecord(g: Gathered, r: Record, unsafe: Bytes -> bool): (g': Gathered)
  {
    if r.kind == Folder then g
    else if r.kind == Unsupported then Bad(g, EntryInvalid, "")
    else match EntryName(r.name)
         case None => Bad(g, NameInvalid, "")
         case Some(name) =>
           if !Allowed(name) then Bad(g, NotAllowed, SafeDetail(name))
           else if name in g.byName then Bad(g, Duplicate, name)
           else if r.size < 0 || r.size > MAX_BYTES then Bad(g, TooLarge, name)
           else if r.data.None? || |r.data.value| > MAX_BYTES then Bad(g, TooLarge, name)
           else if unsafe(r.data.value) then Bad(g, Unsafe, name)
           else g.(byName := g.byName[name := r.data.value])
  }

  function GatherRecords(records: seq<Record>, n: nat, unsafe: Bytes -> bool): (g: Gathered)
    requires n <= |records|
  {
    if n == 0 then Gathered(map[], [])
    else TakeRecord(GatherRecords(records, n - 1, unsafe), records[n - 1], unsafe)
  }

  // ---- the sorted entry list ----

  datatype Entry = Entry(name: string, data: Bytes)

  predicate Ascending(entries: seq<Entry>)
  {
    forall i, j :: 0 <= i < j < |entries| ==> Less(entries[i].name, entries[j].name)
  }

  ghost predicate Lists(entries: seq<Entry>, byName: map<string, Bytes>)
  {
    && Ascending(entries)
    && (forall i :: 0 <= i < |entries| ==> entries[i].name in byName && byName[entries[i].name] == entries[i].data)
    && (forall name :: name in byName ==> exists i :: 0 <= i < |entries| && entries[i].name == name)
  }

  /** The list of a map is unique: the order the map was walked in cannot be seen in it. */
  lemma ListsUnique(a: seq<Entry>, b: seq<Entry>, byName: map<string, Bytes>)
    requires Lists(a, byName) && Lists(b, byName)
    ensures a == b
  {
    ListedBefore(a, b, byName, |a|);
    ListedBefore(b, a, byName, |b|);
  }

  lemma {:induction false} ListedBefore(a: seq<Entry>, b: seq<Entry>, byName: map<string, Bytes>, n: nat)
    requires Lists(a, byName) && Lists(b, byName) && n <= |a|
    ensures n <= |b| && a[..n] == b[..n]
  {
    if n > 0 {
      var k := n - 1;
      ListedBefore(a, b, byName, k);
      var i := Position(b, byName, a[k].name);
      NotEarlier(a, b, k, i);
      var j := Position(a, byName, b[k].name);
      NotEarlier(b, a, k, j);
      SameRank(a, b, k, i, j);
      hide Ascending;
      assert a[k] == b[k];
      assert a[..n] == a[..k] + [a[k]] && b[..n] == b[..k] + [b[k]];
    }
  }

  lemma Position(entries: seq<Entry>, byName: map<string, Bytes>, name: string) returns (i: nat)
    requires Lists(entries, byName) && name in byName
    ensures i < |entries| && entries[i].name == name
  {
    i :| 0 <= i < |entries| && entries[i].name == name;
  }

  lemma SameRank(a: seq<Entry>, b: seq<Entry>, k: nat, i: nat, j: nat)
    requires Ascending(a) && Ascending(b)
    requires k <= j < |a| && k <= i < |b| && b[i].name == a[k].name && a[j].name == b[k].name
    ensures a[k].name == b[k].name
  {
    LessAsymmetric(a[k].name, b[k].name);
  }

  lemma NotEarlier(a: seq<Entry>, b: seq<Entry>, k: nat, i: nat)
    requires Ascending(a) && k < |a| && i < |b| && b[i].name == a[k].name
    requires k <= |b| && a[..k] == b[..k]
    ensures i >= k
  {
    if i < k {
      assert a[i] == a[..k][i] == b[..k][i] == b[i];
      LessAsymmetric(a[i].name, a[k].name);
    }
  }

  // ---- what has been gathered is fit to be packaged ----

  ghost predicate Fit(name: string, data: Bytes, unsafe: Bytes -> bool)
  {
    Allowed(name) && EntryName(name) == Some(name) && |data| <= 65536 && !unsafe(data)
  }

  ghost predicate AllFit(byName: map<string, Bytes>, unsafe: Bytes -> bool)
  {
    forall name :: name in byName ==> Fit(name, byName[name], unsafe)
  }

  lemma {:induction false} GatheredFit(d: Dir, n: nat, unsafe: Bytes -> bool)
    requires n <= |d.entries|
    ensures AllFit(GatherDir(d, n, unsafe).byName, unsafe)
  {
    if n > 0 {
      GatheredFit(d, n - 1, unsafe);
      TakenFit(GatherDir(d, n - 1, unsafe), d.entries[n - 1], d.readable, unsafe);
      hide TakeDirEntry, AllFit;
    }
  }

  lemma TakenFit(g: Gathered, e: DirEntry, readable: map<string, Bytes>, unsafe: Bytes -> bool)
    requires AllFit(g.byName, unsafe)
    ensures AllFit(TakeDirEntry(g, e, readable, unsafe).byName, unsafe)
  {
    hide Allowed, EntryName;
    match EntryName(e.name) {
      case None =>
      case Some(name) =>
        if Allowed(name) {
          NameFixed(e.name, name);
        }
    }
  }

  // ---- when nothing is found ----

  predicate GoodFile(e: DirEntry, readable: map<string, Bytes>, unsafe: Bytes -> bool)
  {
    var name := EntryName(e.name);
    || e.isDir
    || (name.Some? && Allowed(name.value) && e.regular && 0 <= e.size <= 65536
        && name.value in readable && |readable[name.value]| <= 65536 && !unsafe(readable[name.value]))
  }

  ghost predicate GoodDir(d: Dir, n: nat, unsafe: Bytes -> bool)
    requires n <= |d.entries|
  {
    forall i :: 0 <= i < n ==> GoodFile(d.entries[i], d.readable, unsafe)
  }

  /** A directory is gathered without findings if and only if every file in it is good. */
  lemma {:induction false} DirClean(d: Dir, n: nat, unsafe: Bytes -> bool)
    requires n <= |d.entries|
    ensures GatherDir(d, n, unsafe).findings == [] <==> GoodDir(d, n, unsafe)
  {
    hide GoodFile, TakeDirEntry;
    if n > 0 {
      DirClean(d, n - 1, unsafe);
      FileTaken(GatherDir(d, n - 1, unsafe), d.entries[n - 1], d.readable, unsafe);
      GoodOneMore(d, n - 1, unsafe);
    }
  }

  lemma GoodOneMore(d: Dir, n: nat, unsafe: Bytes -> bool)
    requires n < |d.entries|
    ensures GoodDir(d, n + 1, unsafe) <==> GoodDir(d, n, unsafe) && GoodFile(d.entries[n], d.readable, unsafe)
  {
    hide GoodFile;
  }

  lemma FileTaken(g: Gathered, e: DirEntry, readable: map<string, Bytes>, unsafe: Bytes -> bool)
    ensures TakeDirEntry(g, e, readable, unsafe).findings == [] <==> g.findings == [] && GoodFile(e, readable, unsafe)
  {
    hide Allowed, EntryName, SafeDetail;
  }

  // The finding a bad file leaves: why it is bad, and a name that may be shown.
  ghost predicate Blames(f: Finding, e: DirEntry, readable: map<string, Bytes>, unsafe: Bytes -> bool)
  {
    var raw := EntryName(e.name);
    !e.isDir && if raw.None? then f == Finding(NameInvalid, "")
    else
      var name := raw.value;
      if !Allowed(name) then f.code == NotAllowed && (f.detail == name || f.detail == "unsafe_entry")
      else if !e.regular then f.code == EntryInvalid && (f.detail == name || f.detail == "unsafe_entry")
      else if 0 <= e.size <= 65536 && name in readable && |readable[name]| <= 65536 then f == Finding(Unsafe, name) && unsafe(readable[name])
      else f == Finding(TooLarge, name)
  }

  // Where the bad files stand.
  function BadFiles(d: Dir, n: nat, unsafe: Bytes -> bool): (at: seq<nat>)
    requires n <= |d.entries|
    ensures forall k :: 0 <= k < |at| ==> at[k] < n
  {
    if n == 0 then []
    else BadFiles(d, n - 1, unsafe) + if GoodFile(d.entries[n - 1], d.readable, unsafe) then [] else [n - 1]
  }

  ghost predicate BlamesEach(findings: seq<Finding>, d: Dir, n: nat, unsafe: Bytes -> bool)
    requires n <= |d.entries|
  {
    var bad := BadFiles(d, n, unsafe);
    |findings| == |bad| && forall k :: 0 <= k < |bad| ==> Blames(findings[k], d.entries[bad[k]], d.readable, unsafe)
  }

  /** Every bad file leaves one finding that says why, in the order of the listing. */
  lemma {:induction false} DirFindings(d: Dir, n: nat, unsafe: Bytes -> bool)
    requires n <= |d.entries|
    ensures BlamesEach(GatherDir(d, n, unsafe).findings, d, n, unsafe)
  {
    hide GoodFile, TakeDirEntry, Blames, BlamesEach;
    if n == 0 {
      NothingBlamed(d, unsafe);
    } else {
      var before := GatherDir(d, n - 1, unsafe);
      DirFindings(d, n - 1, unsafe);
      FileBlamed(before, d.entries[n - 1], d.readable, unsafe);
      BlamesOneMore(before.findings, TakeDirEntry(before, d.entries[n - 1], d.readable, unsafe).findings, d, n - 1, unsafe);
    }
  }

  lemma NothingBlamed(d: Dir, unsafe: Bytes -> bool)
    ensures BlamesEach([], d, 0, unsafe)
  {
  }

  lemma BlamesOneMore(findings: seq<Finding>, more: seq<Finding>, d: Dir, n: nat, unsafe: Bytes -> bool)
    requires n < |d.entries| && BlamesEach(findings, d, n, unsafe)
    requires if GoodFile(d.entries[n], d.readable, unsafe) then more == findings
             else |more| == |findings| + 1 && more[..|findings|] == findings && Blames(more[|findings|], d.entries[n], d.readable, unsafe)
    ensures BlamesEach(more, d, n + 1, unsafe)
  {
    hide GoodFile, Blames;
  }

  lemma FileBlamed(g: Gathered, e: DirEntry, readable: map<string, Bytes>, unsafe: Bytes -> bool)
    ensures var more := TakeDirEntry(g, e, readable, unsafe).findings;
            if GoodFile(e, readable, unsafe) then more == g.findings
            else |more| == |g.findings| + 1 && more[..|g.findings|] == g.findings && Blames(more[|g.findings|], e, readable, unsafe)
  {
    hide Allowed, EntryName, Showable;
  }

  predicate GoodRecord(r: Record, unsafe: Bytes -> bool)
  {
    var name := EntryName(r.name);
    || r.kind == Folder
    || (r.kind == Regular && name.Some? && Allowed(name.value) && 0 <= r.size <= 65536
        && r.data.Some? && |r.data.value| <= 65536 && !unsafe(r.data.value))
  }

  // The same for a record; `taken` is what the records before it left.
  ghost predicate BlamesRecord(f: Finding, r: Record, taken: map<string, Bytes>, unsafe: Bytes -> bool)
  {
    var raw := EntryName(r.name);
    r.kind != Folder && if r.kind == Unsupported then f == Finding(EntryInvalid, "")
    else if raw.None? then f == Finding(NameInvalid, "")
    else
      var name := raw.value;
      if !Allowed(name) then f.code == NotAllowed && (f.detail == name || f.detail == "unsafe_entry")
      else if name in taken then f == Finding(Duplicate, name)
      else if 0 <= r.size <= 65536 && r.data.Some? && |r.data.value| <= 65536 then f == Finding(Unsafe, name) && unsafe(r.data.value)
      else f == Finding(TooLarge, name)
  }

  // Good, and the first of its name to be taken.
  predicate Taken(records: seq<Record>, i: nat, unsafe: Bytes -> bool)
    requires i < |records|
  {
    var r := records[i];
    GoodRecord(r, unsafe) && (r.kind == Regular ==> EntryName(r.name).value !in GatherRecords(records, i, unsafe).byName)
  }

  function BadRecords(records: seq<Record>, n: nat, unsafe: Bytes -> bool): (at: seq<nat>)
    requires n <= |records|
    ensures forall k :: 0 <= k < |at| ==> at[k] < n
  {
    if n == 0 then [] else BadRecords(records, n - 1, unsafe) + if Taken(records, n - 1, unsafe) then [] else [n - 1]
  }

  ghost predicate BlamesEachRecord(findings: seq<Finding>, records: seq<Record>, n: nat, unsafe: Bytes -> bool)
    requires n <= |records|
  {
    var bad := BadRecords(records, n, unsafe);
    |findings| == |bad| && forall k :: 0 <= k < |bad| ==> BlamesAt(findings[k], records, bad[k], unsafe)
  }

  ghost predicate BlamesAt(f: Finding, records: seq<Record>, i: nat, unsafe: Bytes -> bool)
    requires i < |records|
  {
    BlamesRecord(f, records[i], GatherRecords(records, i, unsafe).byName, unsafe)
  }

  /** Every bad record of a bundle leaves one finding that says why, in the order of the stream. */
  lemma {:induction false} BundleFindings(records: seq<Record>, n: nat, unsafe: Bytes -> bool)
    requires n <= |records|
    ensures BlamesEachRecord(GatherRecords(records, n, unsafe).findings, records, n, unsafe)
  {
    hide GoodRecord, TakeRecord, BlamesRecord, BlamesEachRecord, EntryName;
    if n == 0 {
      NoRecordBlamed(records, unsafe);
    } else {
      var before := GatherRecords(records, n - 1, unsafe);
      BundleFindings(records, n - 1, unsafe);
      RecordBlamed(before, records[n - 1], unsafe);
      BlamesOneRecordMore(before.findings, TakeRecord(before, records[n - 1], unsafe).findings, records, n - 1, unsafe);
    }
  }

  lemma NoRecordBlamed(records: seq<Record>, unsafe: Bytes -> bool)
    ensures BlamesEachRecord([], records, 0, unsafe)
  {
  }

  lemma BlamesOneRecordMore(findings: seq<Finding>, more: seq<Finding>, records: seq<Record>, n: nat, unsafe: Bytes -> bool)
    requires n < |records| && BlamesEachRecord(findings, records, n, unsafe)
    requires if Taken(records, n, unsafe) then more == findings
             else |more| == |findings| + 1 && more[..|findings|] == findings && BlamesAt(more[|findings|], records, n, unsafe)
    ensures BlamesEachRecord(more, records, n + 1, unsafe)
  {
    hide Taken, BlamesAt;
  }

  lemma RecordBlamed(g: Gathered, r: Record, unsafe: Bytes -> bool)
    ensures var more := TakeRecord(g, r, unsafe).findings;
            if GoodRecord(r, unsafe) && (r.kind == Regular ==> EntryName(r.name).value !in g.byName) then more == g.findings
            else |more| == |g.findings| + 1 && more[..|g.findings|] == g.findings && BlamesRecord(more[|g.findings|], r, g.byName, unsafe)
  {
    hide Allowed, EntryName, Showable;
  }

  ghost predicate Named(records: seq<Record>, n: nat, name: string)
    requires n <= |records|
  {
    exists i :: 0 <= i < n && records[i].kind == Regular && EntryName(records[i].name) == Some(name)
  }

  // Good records, no two of one name.
  ghost predicate GoodBundle(records: seq<Record>, n: nat, unsafe: Bytes -> bool)
    requires n <= |records|
  {
    forall i :: 0 <= i < n ==>
      && GoodRecord(records[i], unsafe)
      && (records[i].kind == Regular ==> !Named(records, i, EntryName(records[i].name).value))
  }

  /** A bundle is gathered without findings if and only if its records are good and no two have one name; the
      names gathered are then those of its files. Nothing unfit is gathered from any bundle. */
  lemma {:induction false} BundleClean(records: seq<Record>, n: nat, unsafe: Bytes -> bool)
    requires n <= |records|
    ensures var g := GatherRecords(records, n, unsafe);
            g.findings == [] <==> GoodBundle(records, n, unsafe)
    ensures var g := GatherRecords(records, n, unsafe);
            g.findings == [] ==> forall name :: name in g.byName <==> Named(records, n, name)
    ensures AllFit(GatherRecords(records, n, unsafe).byName, unsafe)
  {
    hide GoodRecord, TakeRecord, EntryName, AllFit;
    if n == 0 {
      NothingFit(unsafe);
    } else {
      BundleClean(records, n - 1, unsafe);
      RecordTaken(GatherRecords(records, n - 1, unsafe), records[n - 1], unsafe);
      NamedOneMore(records, n - 1);
    }
  }

  lemma NothingFit(unsafe: Bytes -> bool)
    ensures AllFit(map[], unsafe)
  {
  }

  lemma NamedOneMore(records: seq<Record>, n: nat)
    requires n < |records|
    ensures forall name :: Named(records, n + 1, name) <==>
      Named(records, n, name) || (records[n].kind == Regular && EntryName(records[n].name) == Some(name))
  {
    hide EntryName;
  }

  lemma RecordTaken(g: Gathered, r: Record, unsafe: Bytes -> bool)
    requires AllFit(g.byName, unsafe)
    ensures var g' := TakeRecord(g, r, unsafe);
            && AllFit(g'.byName, unsafe)
            && (g'.findings == [] <==>
                  g.findings == [] && GoodRecord(r, unsafe) && (r.kind == Regular ==> EntryName(r.name).value !in g.byName))
    ensures var g' := TakeRecord(g, r, unsafe);
            g'.findings == [] ==> forall name ::
              name in g'.byName <==> (name in g.byName || (r.kind == Regular && EntryName(r.name) == Some(name)))
  {
    hide Allowed, EntryName, SafeDetail;
    if r.kind == Regular && EntryName(r.name).Some? && Allowed(EntryName(r.name).value) {
      NameFixed(r.name, EntryName(r.name).value);
    }
  }

  // The tar records written for a list of entries, as they are read back.
  function Records(entries: seq<Entry>): (r: seq<Record>)
    ensures |r| == |entries|
  {
    seq(|entries|, i requires 0 <= i < |entries| =>
      Record(Regular, entries[i].name, |entries[i].data|, Some(entries[i].data)))
  }

  lemma {:induction false} RecordsGather(entries: seq<Entry>, byName: map<string, Bytes>, n: nat, unsafe: Bytes -> bool)
    requires Lists(entries, byName) && AllFit(byName, unsafe) && n <= |entries|
    ensures var g := GatherRecords(Records(entries), n, unsafe);
            && g.findings == []
            && Lists(entries[..n], g.byName)
  {
    hide TakeRecord, Fit, Lists;
    if n == 0 {
      NothingListed(entries);
    } else {
      var k := n - 1;
      RecordsGather(entries, byName, k, unsafe);
      var g := GatherRecords(Records(entries), k, unsafe);
      ListedFit(entries, byName, k, unsafe);
      NotYetListed(entries, k, g.byName);
      FitTaken(g, entries[k], unsafe);
      ListOneMore(entries, k, g.byName);
    }
  }

  lemma NothingListed(entries: seq<Entry>)
    ensures Lists(entries[..0], map[])
  {
  }

  lemma ListedFit(entries: seq<Entry>, byName: map<string, Bytes>, k: nat, unsafe: Bytes -> bool)
    requires Lists(entries, byName) && AllFit(byName, unsafe) && k < |entries|
    ensures Ascending(entries) && Fit(entries[k].name, entries[k].data, unsafe)
  {
    hide Fit, Ascending;
    assert entries[k].name in byName;
  }

  lemma FitTaken(g: Gathered, e: Entry, unsafe: Bytes -> bool)
    requires Fit(e.name, e.data, unsafe) && e.name !in g.byName
    ensures TakeRecord(g, Record(Regular, e.name, |e.data|, Some(e.data)), unsafe) == g.(byName := g.byName[e.name := e.data])
  {
    hide Allowed, EntryName;
  }

  lemma NotYetListed(entries: seq<Entry>, n: nat, byName: map<string, Bytes>)
    requires Ascending(entries) && n < |entries| && Lists(entries[..n], byName)
    ensures entries[n].name !in byName
  {
    if entries[n].name in byName {
      var i := Position(entries[..n], byName, entries[n].name);
      LessAsymmetric(entries[i].name, entries[n].name);
    }
  }

  lemma ListOneMore(entries: seq<Entry>, n: nat, byName: map<string, Bytes>)
    requires Ascending(entries) && n < |entries| && Lists(entries[..n], byName) && entries[n].name !in byName
    ensures Lists(entries[..n + 1], byName[entries[n].name := entries[n].data])
  {
    var now := byName[entries[n].name := entries[n].data];
    var some := entries[..n + 1];
    forall name | name in now
      ensures exists i :: 0 <= i < |some| && some[i].name == name
    {
      if name == entries[n].name {
        assert some[n].name == name;
      } else {
        var i := Position(entries[..n], byName, name);
        assert some[i].name == name;
      }
    }
    forall i | 0 <= i < |some|
      ensures some[i].name in now && now[some[i].name] == some[i].data
    {
      if i < n {
        assert entries[..n][i] == some[i];
      }
    }
  }

  // ---- choosing the smoke report ----

  datatype Smoke = Smoke(valid: bool, executed: bool, stream: bool, routeEligible: bool, provider: string, family: string)

  datatype Readiness = Readiness(selected: string, routeEligible: bool, family: string)

  const TEXT_FAMILY := "text_stream"

  // What both sides are run with: the selected provider, the report parser and the redaction check.
  datatype Setup = Setup(readiness: Readiness, load: Bytes -> Smoke, unsafe: Bytes -> bool)

  predicate RequiresMatch(r: Readiness)
  {
    r.selected != "" && r.selected != "mock" && r.routeEligible && r.family == TEXT_FAMILY
  }

  predicate MatchesSelected(r: Readiness, s: Smoke)
  {
    && RequiresMatch(r) && s.valid && s.executed && s.routeEligible && s.stream
    && s.provider == r.selected && s.family == r.family
  }

  predicate Executed(e: Entry, u: Setup)
  {
    var s := u.load(e.data);
    Matches(SMOKE, ".json", e.name) && s.valid && s.executed && s.stream
  }

  predicate Mismatched(e: Entry, u: Setup)
  {
    Executed(e, u) && RequiresMatch(u.readiness) && !MatchesSelected(u.readiness, u.load(e.data))
  }

  // An executed report counts for or against the selection.
  datatype Grade = Eligible | Mismatch

  predicate Graded(e: Entry, u: Setup, grade: Grade)
  {
    if grade == Mismatch then Mismatched(e, u) else Executed(e, u) && !Mismatched(e, u)
  }

  // The name of the last entry of that grade; the entries are in name order.
  function Latest(entries: seq<Entry>, u: Setup, grade: Grade): (r: Option<string>)
  {
    if entries == [] then None
    else if Graded(entries[|entries| - 1], u, grade) then Some(entries[|entries| - 1].name)
    else Latest(entries[..|entries| - 1], u, grade)
  }

  // The staging directory: none at all, or one where the files of some names cannot be written.
  datatype Temp = NoTemp | Temp(full: set<string>)

  predicate Stages(temp: Temp, entries: seq<Entry>)
  {
    temp.Temp? && forall i :: 0 <= i < |entries| && Matches(SMOKE, ".json", entries[i].name) ==> entries[i].name !in temp.full
  }

  datatype Selection = Selected(name: string) | NotSelected(finding: Finding)

  // The latest eligible report; if there is none, the latest mismatched one is blamed.
  function Choose(entries: seq<Entry>, u: Setup, temp: Temp): (r: Selection)
  {
    if temp.NoTemp? then NotSelected(Finding(NoTempDir, ""))
    else if !Stages(temp, entries) then NotSelected(Finding(StagingFailed, ""))
    else match Latest(entries, u, Eligible)
         case Some(name) => Selected(name)
         case None =>
           match Latest(entries, u, Mismatch)
           case Some(name) => NotSelected(Finding(SmokeMismatch, name))
           case None => NotSelected(Finding(SmokeMissing, ""))
  }

  ghost predicate IsLatest(entries: seq<Entry>, u: Setup, grade: Grade, i: nat)
    requires i < |entries|
  {
    Graded(entries[i], u, grade) && forall j :: i < j < |entries| ==> !Graded(entries[j], u, grade)
  }

  lemma {:induction false} LatestStop(entries: seq<Entry>, u: Setup, grade: Grade, n: nat)
    requires n <= |entries| && forall j :: n <= j < |entries| ==> !Graded(entries[j], u, grade)
    ensures Latest(entries, u, grade) == Latest(entries[..n], u, grade)
  {
    if n < |entries| {
      var init := entries[..|entries| - 1];
      LatestStop(init, u, grade, n);
      assert init[..n] == entries[..n];
    } else {
      assert entries[..n] == entries;
    }
  }

  lemma LatestAt(entries: seq<Entry>, u: Setup, grade: Grade, i: nat)
    requires i < |entries| && IsLatest(entries, u, grade, i)
    ensures Latest(entries, u, grade) == Some(entries[i].name)
  {
    LatestStop(entries, u, grade, i + 1);
    assert entries[..i + 1][i] == entries[i];
  }

  lemma LatestNone(entries: seq<Entry>, u: Setup, grade: Grade)
    requires forall j :: 0 <= j < |entries| ==> !Graded(entries[j], u, grade)
    ensures Latest(entries, u, grade) == None
  {
    LatestStop(entries, u, grade, 0);
  }

  // A file of one family: its prefix, any text without a slash, ".json".
  ghost predicate FileOf(family: string, name: string)
  {
    exists middle: string :: Without(middle, '/') && name == family + middle + ".json"
  }

  // An executed streaming smoke report.
  ghost predicate Streamed(e: Entry, u: Setup)
  {
    FileOf("a21-provider-smoke-", e.name) && u.load(e.data).valid && u.load(e.data).executed && u.load(e.data).stream
  }

  // A real text provider is selected and may be routed to.
  predicate RealSelected(u: Setup)
  {
    && u.readiness.selected != "" && u.readiness.selected != "mock"
    && u.readiness.routeEligible && u.readiness.family == "text_stream"
  }

  // The report is about the selected provider, and lets it be routed to.
  predicate OfSelected(e: Entry, u: Setup)
  {
    var report := u.load(e.data);
    report.routeEligible && report.provider == u.readiness.selected && report.family == "text_stream"
  }

  // A streamed report is eligible, unless a real provider is selected and the report is not that provider's.
  ghost predicate Counts(e: Entry, u: Setup, grade: Grade)
  {
    Streamed(e, u) && (grade == Mismatch <==> RealSelected(u) && !OfSelected(e, u))
  }

  ghost predicate AnyCounts(entries: seq<Entry>, u: Setup, grade: Grade)
  {
    exists i :: 0 <= i < |entries| && Counts(entries[i], u, grade)
  }

  // The last entry that counts for this grade has this name.
  ghost predicate LastCounts(entries: seq<Entry>, u: Setup, grade: Grade, name: string)
  {
    exists i :: 0 <= i < |entries| && entries[i].name == name && Counts(entries[i], u, grade)
      && forall j :: i < j < |entries| ==> !Counts(entries[j], u, grade)
  }

  // No smoke report is among the files that cannot be staged.
  ghost predicate NoneFull(full: set<string>, entries: seq<Entry>)
  {
    forall i :: 0 <= i < |entries| && FileOf("a21-provider-smoke-", entries[i].name) ==> entries[i].name !in full
  }

  /** What is chosen. A staging directory that is missing or cannot take a smoke report leaves nothing to choose.
      Otherwise it is the last eligible report; without one, the last mismatched report is blamed. */
  lemma ChoiceMeans(entries: seq<Entry>, u: Setup, temp: Temp)
    ensures match Choose(entries, u, temp)
            case Selected(name) => temp.Temp? && NoneFull(temp.full, entries) && LastCounts(entries, u, Eligible, name)
            case NotSelected(Finding(code, name)) =>
              if temp.NoTemp? then code == NoTempDir && name == ""
              else if !NoneFull(temp.full, entries) then code == StagingFailed && name == ""
              else
                && !AnyCounts(entries, u, Eligible)
                && (if AnyCounts(entries, u, Mismatch) then code == SmokeMismatch && LastCounts(entries, u, Mismatch, name)
                    else code == SmokeMissing && name == "")
  {
    hide Latest, Stages, NoneFull, LastCounts, AnyCounts;
    StagesMeans(temp, entries);
    LatestCounts(entries, u, Eligible);
    LatestCounts(entries, u, Mismatch);
  }

  lemma StagesMeans(temp: Temp, entries: seq<Entry>)
    ensures Stages(temp, entries) <==> temp.Temp? && NoneFull(temp.full, entries)
  {
    hide Matches, FileOf;
    forall i | 0 <= i < |entries|
      ensures Matches(SMOKE, ".json", entries[i].name) <==> FileOf("a21-provider-smoke-", entries[i].name)
    {
      MatchesMeans("a21-provider-smoke-", entries[i].name);
    }
  }

  lemma MatchesMeans(family: string, name: string)
    ensures Matches(family, ".json", name) <==> FileOf(family, name)
  {
    if Matches(family, ".json", name) {
      var middle := name[|family|..|name| - 5];
      assert name == family + middle + ".json";
    }
    if FileOf(family, name) {
      var middle :| Without(middle, '/') && name == family + middle + ".json";
      MatchesJoined(family, middle, ".json");
    }
  }

  /** The whitelist: five families of reports. */
  lemma AllowedMeans(name: string)
    ensures Allowed(name) <==>
      || FileOf("a21-provider-smoke-", name)
      || FileOf("a21-provider-audio-smoke-", name)
      || FileOf("a21-doctor-", name)
      || FileOf("a21-product-readiness-", name)
      || FileOf("a21-server-side-readiness-bundle-", name)
  {
    hide Matches, FileOf;
    FiveFamilies(name);
    MatchesMeans("a21-provider-smoke-", name);
    MatchesMeans("a21-provider-audio-smoke-", name);
    MatchesMeans("a21-doctor-", name);
    MatchesMeans("a21-product-readiness-", name);
    MatchesMeans("a21-server-side-readiness-bundle-", name);
  }

  lemma FiveFamilies(name: string)
    ensures Allowed(name) <==>
      || Matches("a21-provider-smoke-", ".json", name)
      || Matches("a21-provider-audio-smoke-", ".json", name)
      || Matches("a21-doctor-", ".json", name)
      || Matches("a21-product-readiness-", ".json", name)
      || Matches("a21-server-side-readiness-bundle-", ".json", name)
  {
    hide Matches;
    assert |PREFIXES| == 5;
    if Matches(PREFIXES[0], ".json", name) || Matches(PREFIXES[1], ".json", name) || Matches(PREFIXES[2], ".json", name)
      || Matches(PREFIXES[3], ".json", name) || Matches(PREFIXES[4], ".json", name) {
      assert Allowed(name);
    }
  }

  lemma GradedMeans(e: Entry, u: Setup, grade: Grade)
    ensures Graded(e, u, grade) <==> Counts(e, u, grade)
  {
    hide Matches, FileOf;
    MatchesMeans("a21-provider-smoke-", e.name);
  }

  lemma LatestCounts(entries: seq<Entry>, u: Setup, grade: Grade)
    ensures Latest(entries, u, grade).Some? <==> AnyCounts(entries, u, grade)
    ensures Latest(entries, u, grade).Some? ==> LastCounts(entries, u, grade, Latest(entries, u, grade).value)
  {
    hide Graded, Counts, Latest;
    forall i | 0 <= i < |entries|
      ensures Graded(entries[i], u, grade) <==> Counts(entries[i], u, grade)
    {
      GradedMeans(entries[i], u, grade);
    }
    LatestMeans(entries, u, grade);
  }

  lemma {:induction false} LatestMeans(entries: seq<Entry>, u: Setup, grade: Grade)
    ensures Latest(entries, u, grade).None? ==> forall i :: 0 <= i < |entries| ==> !Graded(entries[i], u, grade)
    ensures Latest(entries, u, grade).Some? ==>
      exists i :: 0 <= i < |entries| && entries[i].name == Latest(entries, u, grade).value && IsLatest(entries, u, grade, i)
  {
    hide Graded;
    if entries != [] && !Graded(entries[|entries| - 1], u, grade) {
      var init := entries[..|entries| - 1];
      LatestMeans(init, u, grade);
      if Latest(init, u, grade).Some? {
        var i :| 0 <= i < |init| && init[i].name == Latest(init, u, grade).value && IsLatest(init, u, grade, i);
        assert entries[i] == init[i] && forall j :: i < j < |init| ==> entries[j] == init[j];
        assert IsLatest(entries, u, grade, i);
      } else {
        assert forall i :: 0 <= i < |init| ==> entries[i] == init[i];
      }
    }
  }

  method SelectSmoke(entries: seq<Entry>, u: Setup, temp: Temp) returns (r: Selection)
    ensures r == Choose(entries, u, temp)
  {
    if temp.NoTemp? {
      return NotSelected(Finding(NoTempDir, ""));
    }
    for i := 0 to |entries|
      invariant forall j :: 0 <= j < i && Matches(SMOKE, ".json", entries[j].name) ==> entries[j].name !in temp.full
    {
      if Matches(SMOKE, ".json", entries[i].name) && entries[i].name in temp.full {
        return NotSelected(Finding(StagingFailed, ""));
      }
    }
    r := LatestEligible(entries, u);
  }

  method LatestEligible(entries: seq<Entry>, u: Setup) returns (r: Selection)
    ensures r == Choose(entries, u, Temp({}))
  {
    var mismatch: int := -1;
    var i := |entries|;
    while i > 0
      invariant 0 <= i <= |entries|
      invariant forall j :: i <= j < |entries| ==> !Graded(entries[j], u, Eligible)
      invariant mismatch == -1 ==> forall j :: i <= j < |entries| ==> !Graded(entries[j], u, Mismatch)
      invariant mismatch != -1 ==> i <= mismatch < |entries| && IsLatest(entries, u, Mismatch, mismatch)
    {
      i := i - 1;
      var e := entries[i];
      if Matches(SMOKE, ".json", e.name) {
        var evidence := u.load(e.data);
        if evidence.valid && evidence.executed && evidence.stream {
          if RequiresMatch(u.readiness) && !MatchesSelected(u.readiness, evidence) {
            if mismatch == -1 {
              mismatch := i;
            }
          } else {
            LatestAt(entries, u, Eligible, i);
            return Selected(e.name);
          }
        }
      }
    }
    LatestNone(entries, u, Eligible);
    if mismatch != -1 {
      LatestAt(entries, u, Mismatch, mismatch);
      return NotSelected(Finding(SmokeMismatch, entries[mismatch].name));
    }
    LatestNone(entries, u, Mismatch);
    return NotSelected(Finding(SmokeMissing, ""));
  }

  // ---- the output directory ----

  // A file that can be read back, or one that exists but cannot; writing to it does not change which.
  datatype File = Readable(data: Bytes) | Opaque(data: Bytes)

  type Files = map<string, File>

  datatype Written = Written(files: Files, finding: Option<Finding>)

  // os.WriteFile where it succeeds: a new file can be read, an old one keeps its permissions.
  function Laid(files: Files, e: Entry): (file: File)
  {
    if e.name in files && files[e.name].Opaque? then Opaque(e.data) else Readable(e.data)
  }

  function WriteOne(files: Files, e: Entry, refused: set<string>): (w: Written)
  {
    if e.name in files && files[e.name].Readable? then
      Written(files, if files[e.name].data == e.data then None else Some(Finding(ReportConflict, e.name)))
    else if e.name in refused then Written(files, Some(Finding(ReportUnavailable, e.name)))
    else Written(files[e.name := Laid(files, e)], None)
  }

  function WriteAll(files: Files, entries: seq<Entry>, refused: set<string>): (w: Written)
  {
    if entries == [] then Written(files, None)
    else
      var w := WriteAll(files, entries[..|entries| - 1], refused);
      if w.finding.Some? then w else WriteOne(w.files, entries[|entries| - 1], refused)
  }

  class Store {
    var files: Files
    const refused: set<string>
    const reachable: bool

    constructor (files: Files, refused: set<string>, reachable: bool)
      ensures this.files == files && this.refused == refused && this.reachable == reachable
    {
      this.files, this.refused, this.reachable := files, refused, reachable;
    }

    method WriteEntries(entries: seq<Entry>) returns (finding: Option<Finding>)
      modifies this
      ensures !reachable ==> files == old(files) && finding == Some(Finding(OutputUnavailable, ""))
      ensures reachable ==> Written(files, finding) == WriteAll(old(files), entries, refused)
    {
      if !reachable {
        return Some(Finding(OutputUnavailable, ""));
      }
      for i := 0 to |entries|
        invariant Written(files, None) == WriteAll(old(files), entries[..i], refused)
      {
        assert entries[..i + 1][..i] == entries[..i];
        var e := entries[i];
        if e.name in files && files[e.name].Readable? {
          if files[e.name].data != e.data {
            WritingStops(old(files), entries, refused, i + 1);
            return Some(Finding(ReportConflict, e.name));
          }
        } else if e.name in refused {
          WritingStops(old(files), entries, refused, i + 1);
          return Some(Finding(ReportUnavailable, e.name));
        } else {
          files := files[e.name := Laid(files, e)];
        }
      }
      assert entries[..|entries|] == entries;
      return None;
    }
  }

  lemma {:induction false} WritingStops(files: Files, entries: seq<Entry>, refused: set<string>, n: nat)
    requires n <= |entries|
    ensures WriteAll(files, entries[..n], refused).finding.Some? ==>
      WriteAll(files, entries, refused) == WriteAll(files, entries[..n], refused)
  {
    if n < |entries| {
      var init := entries[..|entries| - 1];
      WritingStops(files, init, refused, n);
      assert init[..n] == entries[..n];
    } else {
      assert entries[..n] == entries;
    }
  }

  /** No import changes a file that can be read, or whether a file can, whatever it ends with; every file it
      does write holds an entry of the bundle. */
  lemma {:induction false} NeverOverwrites(files: Files, entries: seq<Entry>, refused: set<string>, name: string)
    ensures var after := WriteAll(files, entries, refused).files;
            && (name in files ==> name in after)
            && (name in files && files[name].Readable? ==> after[name] == files[name])
            && (name in after ==> (after[name].Opaque? <==> name in files && files[name].Opaque?))
            && (name in after && (name !in files || after[name] != files[name]) ==>
                 name !in refused && exists i :: 0 <= i < |entries| && entries[i].name == name && after[name].data == entries[i].data)
  {
    if entries != [] {
      var n := |entries| - 1;
      NeverOverwrites(files, entries[..n], refused, name);
      var w := WriteAll(files, entries[..n], refused);
      var after := WriteAll(files, entries, refused).files;
      if name in after && (name !in files || after[name] != files[name]) {
        if name in w.files && after[name] == w.files[name] {
          var i :| 0 <= i < n && entries[..n][i].name == name && w.files[name].data == entries[..n][i].data;
          assert entries[i].name == name;
        } else {
          assert entries[n].name == name;
        }
      }
    }
  }

  // Every entry is on disk.
  ghost predicate Stored(files: Files, entries: seq<Entry>)
  {
    forall i :: 0 <= i < |entries| ==> entries[i].name in files && files[entries[i].name].data == entries[i].data
  }

  // Every entry can be read back.
  ghost predicate Holds(files: Files, entries: seq<Entry>)
  {
    forall i :: 0 <= i < |entries| ==> entries[i].name in files && files[entries[i].name] == Readable(entries[i].data)
  }

  // No entry has the name of a file that cannot be read.
  ghost predicate Legible(files: Files, entries: seq<Entry>)
  {
    forall i :: 0 <= i < |entries| ==> !(entries[i].name in files && files[entries[i].name].Opaque?)
  }

  // Nothing stands in the way of writing every entry.
  predicate Welcomes(files: Files, entries: seq<Entry>, refused: set<string>)
  {
    forall i :: 0 <= i < |entries| ==>
      var e := entries[i];
      if e.name in files && files[e.name].Readable? then files[e.name].data == e.data else e.name !in refused
  }

  /** Writing succeeds exactly when nothing stands in the way. Every entry is then on disk, and all can be read
      back exactly when none has gone into a file that could not be read before. */
  lemma WritesAll(files: Files, entries: seq<Entry>, refused: set<string>)
    requires Ascending(entries)
    ensures WriteAll(files, entries, refused).finding.None? <==> Welcomes(files, entries, refused)
    ensures Welcomes(files, entries, refused) ==>
      var after := WriteAll(files, entries, refused).files;
      Stored(after, entries) && (Holds(after, entries) <==> Legible(files, entries))
  {
    StoresAll(files, entries, refused);
    var after := WriteAll(files, entries, refused).files;
    if Stored(after, entries) {
      forall i | 0 <= i < |entries|
        ensures after[entries[i].name].Opaque? <==> entries[i].name in files && files[entries[i].name].Opaque?
      {
        NeverOverwrites(files, entries, refused, entries[i].name);
      }
      hide WriteAll, Welcomes, Ascending;
    }
  }

  /** A file that can be written but not read: the write succeeds, and the entry cannot be read back. */
  lemma UnreadableStays(e: Entry)
    ensures var files: Files := map[e.name := Opaque([])];
            && WriteAll(files, [e], {}) == Written(map[e.name := Opaque(e.data)], None)
            && !Holds(WriteAll(files, [e], {}).files, [e])
  {
    var files: Files := map[e.name := Opaque([])];
    assert [e][..0] == [];
    assert files[e.name := Opaque(e.data)] == map[e.name := Opaque(e.data)];
    assert [e][0] == e;
  }

  lemma {:induction false} StoresAll(files: Files, entries: seq<Entry>, refused: set<string>)
    requires Ascending(entries)
    ensures WriteAll(files, entries, refused).finding.None? <==> Welcomes(files, entries, refused)
    ensures Welcomes(files, entries, refused) ==> Stored(WriteAll(files, entries, refused).files, entries)
  {
    if entries != [] {
      hide WriteOne, Ascending, Stored;
      StoresInit(files, entries, refused);
      StoresAll(files, entries[..|entries| - 1], refused);
      if WriteAll(files, entries[..|entries| - 1], refused).finding.None? {
        LastWritten(files, entries, refused);
      }
    } else {
      NothingStored(WriteAll(files, entries, refused).files, entries);
    }
  }

  lemma NothingStored(files: Files, entries: seq<Entry>)
    ensures entries == [] ==> Stored(files, entries)
  {
  }

  lemma StoresInit(files: Files, entries: seq<Entry>, refused: set<string>)
    requires Ascending(entries) && entries != []
    ensures var n := |entries| - 1;
            && Ascending(entries[..n])
            && (Welcomes(files, entries, refused) <==>
                 Welcomes(files, entries[..n], refused) && Welcomes(files, [entries[n]], refused))
  {
    hide Less;
    var n := |entries| - 1;
    assert [entries[n]][0] == entries[n];
    assert forall i :: 0 <= i < n ==> entries[..n][i] == entries[i];
  }

  lemma LastWritten(files: Files, entries: seq<Entry>, refused: set<string>)
    requires Ascending(entries) && entries != []
    requires var w := WriteAll(files, entries[..|entries| - 1], refused);
             w.finding.None? && Stored(w.files, entries[..|entries| - 1])
    ensures var w := WriteAll(files, entries, refused);
            w.finding.None? <==> Welcomes(files, [entries[|entries| - 1]], refused)
    ensures var w := WriteAll(files, entries, refused);
            w.finding.None? ==> Stored(w.files, entries)
  {
    hide Ascending, Stored, WriteOne, Laid, Welcomes;
    var n := |entries| - 1;
    LaterNameUntouched(files, entries, refused);
    NamesDiffer(entries);
    var w := WriteAll(files, entries[..n], refused);
    OneWritten(files, w.files, entries[n], refused);
    StoredMore(w.files, entries, Laid(w.files, entries[n]));
  }

  // Writing one entry where it stands as it did at first.
  lemma OneWritten(files: Files, now: Files, e: Entry, refused: set<string>)
    requires (e.name in now <==> e.name in files) && (e.name in files ==> now[e.name] == files[e.name])
    ensures var w := WriteOne(now, e, refused);
            && (w.finding.None? <==> Welcomes(files, [e], refused))
            && (w.finding.None? ==> w.files == now[e.name := Laid(now, e)] || (w.files == now && e.name in now && now[e.name].data == e.data))
    ensures Laid(now, e).data == e.data
  {
    assert [e][0] == e;
  }

  lemma StoredMore(files: Files, entries: seq<Entry>, file: File)
    requires entries != [] && Stored(files, entries[..|entries| - 1]) && file.data == entries[|entries| - 1].data
    requires forall i :: 0 <= i < |entries| - 1 ==> entries[i].name != entries[|entries| - 1].name
    ensures var e := entries[|entries| - 1];
            && Stored(files[e.name := file], entries)
            && (e.name in files && files[e.name].data == e.data ==> Stored(files, entries))
  {
    assert forall i :: 0 <= i < |entries| - 1 ==> entries[..|entries| - 1][i] == entries[i];
  }

  lemma NamesDiffer(entries: seq<Entry>)
    requires Ascending(entries) && entries != []
    ensures forall i :: 0 <= i < |entries| - 1 ==> entries[i].name != entries[|entries| - 1].name
  {
    forall i | 0 <= i < |entries| - 1
      ensures entries[i].name != entries[|entries| - 1].name
    {
      LessAsymmetric(entries[i].name, entries[|entries| - 1].name);
    }
  }

  lemma LaterNameUntouched(files: Files, entries: seq<Entry>, refused: set<string>)
    requires Ascending(entries) && entries != []
    ensures var n := |entries| - 1;
            var w := WriteAll(files, entries[..n], refused).files;
            var name := entries[n].name;
            (name in w <==> name in files) && (name in files ==> w[name] == files[name])
  {
    var n := |entries| - 1;
    var name := entries[n].name;
    NeverOverwrites(files, entries[..n], refused, name);
    forall i | 0 <= i < n
      ensures entries[..n][i].name != name
    {
      LessAsymmetric(entries[i].name, name);
    }
  }

  // No entry on disk would have to be written again where that fails.
  ghost predicate Settled(files: Files, entries: seq<Entry>, refused: set<string>)
  {
    forall i :: 0 <= i < |entries| ==>
      entries[i].name in files && files[entries[i].name].Opaque? ==> entries[i].name !in refused
  }

  /** Writing the same entries again changes no file; it succeeds exactly when no file that cannot be read
      refuses to be written. */
  lemma {:induction false} SecondWrite(files: Files, entries: seq<Entry>, refused: set<string>)
    requires Stored(files, entries)
    ensures WriteAll(files, entries, refused).files == files
    ensures WriteAll(files, entries, refused).finding.None? <==> Settled(files, entries, refused)
  {
    if entries != [] {
      var n := |entries| - 1;
      assert forall i :: 0 <= i < n ==> entries[..n][i] == entries[i];
      SecondWrite(files, entries[..n], refused);
    }
  }

  /** A failing write has written some first entries, and none after them. */
  lemma {:induction false} PrefixWritten(files: Files, entries: seq<Entry>, refused: set<string>) returns (k: nat)
    requires WriteAll(files, entries, refused).finding.Some?
    ensures k < |entries| && WriteAll(files, entries[..k], refused) == Written(WriteAll(files, entries, refused).files, None)
    ensures WriteAll(files, entries, refused).finding.value.detail == entries[k].name
  {
    var n := |entries| - 1;
    if WriteAll(files, entries[..n], refused).finding.Some? {
      k := PrefixWritten(files, entries[..n], refused);
      assert entries[..n][..k] == entries[..k];
    } else {
      k := n;
    }
  }

  // ---- the two commands ----

  function Insert(entries: seq<Entry>, e: Entry): (r: seq<Entry>)
  {
    if entries == [] then [e]
    else
      var n := |entries| - 1;
      if Less(e.name, entries[n].name) then Insert(entries[..n], e) + [entries[n]] else entries + [e]
  }

  // The map's entries, sorted after a walk in some order.
  ghost function Listed(byName: map<string, Bytes>): (entries: seq<Entry>)
  {
    if byName == map[] then []
    else
      var name :| name in byName;
      Insert(Listed(byName - {name}), Entry(name, byName[name]))
  }

  lemma {:induction false} InsertKeeps(entries: seq<Entry>, e: Entry)
    requires Ascending(entries) && forall i :: 0 <= i < |entries| ==> entries[i].name != e.name
    ensures Ascending(Insert(entries, e))
    ensures forall i :: 0 <= i < |Insert(entries, e)| ==> Insert(entries, e)[i] == e || Insert(entries, e)[i] in entries
    ensures forall x :: x == e || x in entries ==> x in Insert(entries, e)
  {
    if entries != [] {
      var n := |entries| - 1;
      var last := entries[n];
      if Less(e.name, last.name) {
        InsertKeeps(entries[..n], e);
        assert entries == entries[..n] + [last];
      } else {
        LessTotal(e.name, last.name);
        forall i | 0 <= i < |entries|
          ensures Less(entries[i].name, e.name)
        {
          if i < n {
            LessTransitive(entries[i].name, last.name, e.name);
          }
        }
      }
    }
  }

  lemma InsertLists(entries: seq<Entry>, e: Entry, byName: map<string, Bytes>)
    requires Lists(entries, byName) && e.name !in byName
    ensures Lists(Insert(entries, e), byName[e.name := e.data])
  {
    hide Insert, Ascending;
    InsertKeeps(entries, e);
    var r, now := Insert(entries, e), byName[e.name := e.data];
    forall name | name in now
      ensures exists i :: 0 <= i < |r| && r[i].name == name
    {
      if name == e.name {
        assert e in r;
      } else {
        var i := Position(entries, byName, name);
        assert entries[i] in r;
      }
    }
  }

  lemma {:induction false} ListedLists(byName: map<string, Bytes>)
    ensures Lists(Listed(byName), byName)
  {
    if byName != map[] {
      var name :| name in byName && Listed(byName) == Insert(Listed(byName - {name}), Entry(name, byName[name]));
      ListedLists(byName - {name});
      InsertLists(Listed(byName - {name}), Entry(name, byName[name]), byName - {name});
      assert (byName - {name})[name := byName[name]] == byName;
    }
  }

  lemma WalkStep(byName: map<string, Bytes>, walked: map<string, Bytes>, rest: map<string, Bytes>, name: string)
    requires walked.Keys !! rest.Keys && walked + rest == byName && name in rest
    ensures var w, r := walked[name := rest[name]], rest - {name};
            name !in walked && w.Keys !! r.Keys && w + r == byName && |r| < |rest|
  {
    assert rest == (rest - {name})[name := rest[name]];
  }

  method SortEntries(byName: map<string, Bytes>) returns (entries: seq<Entry>)
    ensures entries == Listed(byName)
  {
    hide Lists, Insert, Listed;
    entries := [];
    var rest := byName;
    ghost var walked: map<string, Bytes> := map[];
    NothingListed([]);
    while rest != map[]
      invariant Lists(entries, walked)
      invariant walked.Keys !! rest.Keys && walked + rest == byName
      decreases |rest|
    {
      var name :| name in rest;
      WalkStep(byName, walked, rest, name);
      InsertLists(entries, Entry(name, rest[name]), walked);
      entries := Insert(entries, Entry(name, rest[name]));
      walked := walked[name := rest[name]];
      rest := rest - {name};
    }
    assert walked == byName;
    ListedLists(byName);
    ListsUnique(entries, Listed(byName), byName);
  }

  method ReadPackageEntries(d: Dir, unsafe: Bytes -> bool) returns (g: Gathered)
    ensures g == GatherDir(d, |d.entries|, unsafe)
  {
    hide EntryName, Allowed, SafeDetail;
    var byName: map<string, Bytes>, findings: seq<Finding> := map[], [];
    for i := 0 to |d.entries|
      invariant Gathered(byName, findings) == GatherDir(d, i, unsafe)
    {
      var entry := d.entries[i];
      if entry.isDir {
        continue;
      }
      var checked := EntryName(entry.name);
      if checked.None? {
        findings := findings + [Finding(NameInvalid, "")];
        continue;
      }
      var name := checked.value;
      if !Allowed(name) {
        findings := findings + [Finding(NotAllowed, SafeDetail(name))];
        continue;
      }
      if !entry.regular {
        findings := findings + [Finding(EntryInvalid, SafeDetail(name))];
        continue;
      }
      if entry.size < 0 || entry.size > MAX_BYTES {
        findings := findings + [Finding(TooLarge, name)];
        continue;
      }
      if name !in d.readable || |d.readable[name]| > MAX_BYTES {
        findings := findings + [Finding(TooLarge, name)];
        continue;
      }
      var data := d.readable[name];
      if unsafe(data) {
        findings := findings + [Finding(Unsafe, name)];
        continue;
      }
      byName := byName[name := data];
    }
    g := Gathered(byName, findings);
  }

  // A bundle file: what its tar stream yields, and whether the stream is sound to its end.
  datatype Bundle = NoBundle | Bundle(records: seq<Record>, sound: bool)

  method ReadBundleEntries(b: Bundle, unsafe: Bytes -> bool) returns (g: Gathered)
    ensures g == ReadBundle(b, unsafe)
  {
    hide EntryName, Allowed, SafeDetail;
    if b.NoBundle? {
      return Bad(Gathered(map[], []), InputUnreadable, "");
    }
    var byName: map<string, Bytes>, findings: seq<Finding> := map[], [];
    for i := 0 to |b.records|
      invariant Gathered(byName, findings) == GatherRecords(b.records, i, unsafe)
    {
      var header := b.records[i];
      if header.kind == Folder {
        continue;
      }
      if header.kind != Regular {
        findings := findings + [Finding(EntryInvalid, "")];
        continue;
      }
      var checked := EntryName(header.name);
      if checked.None? {
        findings := findings + [Finding(NameInvalid, "")];
        continue;
      }
      var name := checked.value;
      if !Allowed(name) {
        findings := findings + [Finding(NotAllowed, SafeDetail(name))];
        continue;
      }
      if name in byName {
        findings := findings + [Finding(Duplicate, name)];
        continue;
      }
      if header.size < 0 || header.size > MAX_BYTES {
        findings := findings + [Finding(TooLarge, name)];
        continue;
      }
      if header.data.None? || |header.data.value| > MAX_BYTES {
        findings := findings + [Finding(TooLarge, name)];
        continue;
      }
      if unsafe(header.data.value) {
        findings := findings + [Finding(Unsafe, name)];
        continue;
      }
      byName := byName[name := header.data.value];
    }
    if !b.sound {
      return Bad(Gathered(map[], []), BundleInvalid, "");
    }
    g := Gathered(byName, findings);
  }

  function ReadBundle(b: Bundle, unsafe: Bytes -> bool): (g: Gathered)
  {
    if b.NoBundle? then Bad(Gathered(map[], []), InputUnreadable, "")
    else if !b.sound then Bad(Gathered(map[], []), BundleInvalid, "")
    else GatherRecords(b.records, |b.records|, unsafe)
  }

  function ReadDir(d: Option<Dir>, unsafe: Bytes -> bool): (g: Gathered)
  {
    match d
    case None => Bad(Gathered(map[], []), InputUnreadable, "")
    case Some(dir) => GatherDir(dir, |dir.entries|, unsafe)
  }

  // Both commands stop with findings, or go on with the sorted entries and the smoke report chosen.
  datatype Stage = Stop(findings: seq<Finding>) | Go(entries: seq<Entry>, source: string)

  ghost function Screen(g: Gathered, u: Setup, temp: Temp): (s: Stage)
  {
    if g.findings != [] then Stop(g.findings)
    else
      var entries := Listed(g.byName);
      if entries == [] then Stop([Finding(Empty, "")])
      else match Choose(entries, u, temp)
           case NotSelected(finding) => Stop([finding])
           case Selected(name) => Go(entries, name)
  }

  lemma FindingsStop(g: Gathered, finding: Finding, u: Setup, temp: Temp)
    requires g.findings == []
    ensures Screen(Bad(g, finding.code, finding.detail), u, temp) == Stop([finding])
  {
  }

  method ScreenEntries(g: Gathered, u: Setup, temp: Temp) returns (s: Stage)
    ensures s == Screen(g, u, temp)
  {
    if |g.findings| != 0 {
      return Stop(g.findings);
    }
    var entries := SortEntries(g.byName);
    if |entries| == 0 {
      return Stop([Finding(Empty, "")]);
    }
    var choice := SelectSmoke(entries, u, temp);
    match choice {
      case NotSelected(finding) => s := Stop([finding]);
      case Selected(name) => s := Go(entries, name);
    }
  }

  datatype Report = Rejected(findings: seq<Finding>) | Accepted(source: string, reports: seq<string>)

  function Names(entries: seq<Entry>): (r: seq<string>)
  {
    seq(|entries|, i requires 0 <= i < |entries| => entries[i].name)
  }

  const BUNDLE_PREFIX := "a21-5080lab-provider-evidence-"

  function BundleName(stamp: string): (r: string)
  {
    BUNDLE_PREFIX + stamp + ".tgz"
  }

  predicate ValidBundleName(name: string)
  {
    && BUNDLE_PREFIX <= name
    && |name| >= 4 && name[|name| - 4..] == ".tgz"
  }

  // Where a bundle is written: nowhere, or a directory in which the new file can or cannot be made.
  datatype Sink = NoSink | Sink(free: bool)

  datatype Packaged = Packaged(report: Report, bundle: Bundle)

  ghost function Package(d: Option<Dir>, u: Setup, temp: Temp, sink: Sink): (p: Packaged)
  {
    match Screen(ReadDir(d, u.unsafe), u, temp)
    case Stop(findings) => Packaged(Rejected(findings), NoBundle)
    case Go(entries, source) =>
      if sink.NoSink? then Packaged(Rejected([Finding(OutputUnavailable, "")]), NoBundle)
      else if !sink.free then Packaged(Rejected([Finding(BundleUnavailable, "")]), NoBundle)
      else Packaged(Accepted(source, Names(entries)), Bundle(Records(entries), true))
  }

  method PackageReports(d: Option<Dir>, u: Setup, temp: Temp, sink: Sink) returns (p: Packaged)
    ensures p == Package(d, u, temp, sink)
  {
    hide Screen, GatherDir, TakeDirEntry;
    if d.None? {
      FindingsStop(Gathered(map[], []), Finding(InputUnreadable, ""), u, temp);
      return Packaged(Rejected([Finding(InputUnreadable, "")]), NoBundle);
    }
    var g := ReadPackageEntries(d.value, u.unsafe);
    assert g == ReadDir(d, u.unsafe);
    var s := ScreenEntries(g, u, temp);
    if s.Stop? {
      return Packaged(Rejected(s.findings), NoBundle);
    }
    if sink.NoSink? {
      return Packaged(Rejected([Finding(OutputUnavailable, "")]), NoBundle);
    }
    if !sink.free {
      return Packaged(Rejected([Finding(BundleUnavailable, "")]), NoBundle);
    }
    var records: seq<Record> := [];
    for i := 0 to |s.entries|
      invariant records == Records(s.entries)[..i]
    {
      records := records + [Record(Regular, s.entries[i].name, |s.entries[i].data|, Some(s.entries[i].data))];
    }
    assert records == Records(s.entries);
    p := Packaged(Accepted(s.source, Names(s.entries)), Bundle(records, true));
  }

  datatype Imported = Imported(report: Report, files: Files)

  ghost function Import(name: string, b: Bundle, u: Setup, temp: Temp, files: Files, refused: set<string>, reachable: bool): (r: Imported)
  {
    if !ValidBundleName(name) then Imported(Rejected([Finding(BundleNameInvalid, "")]), files)
    else match Screen(ReadBundle(b, u.unsafe), u, temp)
         case Stop(findings) => Imported(Rejected(findings), files)
         case Go(entries, source) =>
           if !reachable then Imported(Rejected([Finding(OutputUnavailable, "")]), files)
           else
             var w := WriteAll(files, entries, refused);
             match w.finding
             case Some(finding) => Imported(Rejected([finding]), w.files)
             case None => Imported(Accepted(source, Names(entries)), w.files)
  }

  method ImportBundle(name: string, b: Bundle, u: Setup, temp: Temp, store: Store) returns (report: Report)
    modifies store
    ensures Imported(report, store.files) == Import(name, b, u, temp, old(store.files), store.refused, store.reachable)
  {
    if !ValidBundleName(name) {
      return Rejected([Finding(BundleNameInvalid, "")]);
    }
    var g := ReadBundleEntries(b, u.unsafe);
    var s := ScreenEntries(g, u, temp);
    if s.Stop? {
      return Rejected(s.findings);
    }
    var finding := store.WriteEntries(s.entries);
    if finding.Some? {
      return Rejected([finding.value]);
    }
    report := Accepted(s.source, Names(s.entries));
  }

  // ---- the round trip ----

  // What the packager would list.
  ghost function Contents(d: Dir, u: Setup): (entries: seq<Entry>)
  {
    Listed(GatherDir(d, |d.entries|, u.unsafe).byName)
  }

  /** Reading back the records of fit entries gathers the very same map. */
  lemma BundleReadsBack(byName: map<string, Bytes>, unsafe: Bytes -> bool)
    requires AllFit(byName, unsafe)
    ensures ReadBundle(Bundle(Records(Listed(byName)), true), unsafe) == Gathered(byName, [])
  {
    hide Lists, AllFit, TakeRecord, Listed, GatherRecords, Records;
    var entries := Listed(byName);
    ListedLists(byName);
    RecordsGather(entries, byName, |entries|, unsafe);
    assert entries[..|entries|] == entries;
    SameMap(entries, byName, GatherRecords(Records(entries), |entries|, unsafe).byName);
  }

  lemma SameMap(entries: seq<Entry>, a: map<string, Bytes>, b: map<string, Bytes>)
    requires Lists(entries, a) && Lists(entries, b)
    ensures a == b
  {
    hide Ascending;
    forall name | name in a || name in b
      ensures name in a && name in b && a[name] == b[name]
    {
      var i := Position(entries, if name in a then a else b, name);
      assert entries[i].name in a && entries[i].name in b;
    }
  }

  /** Whatever the packager accepts, the importer run with the same setup accepts from the bundle it wrote,
      with the same reports and the same smoke report, if and only if its staging directory works, its output
      directory is there and no file stands in the way. */
  lemma RoundTrip(d: Dir, u: Setup, temp: Temp, sink: Sink, stamp: string, temp': Temp, files: Files, refused: set<string>, reachable: bool)
    requires Package(Some(d), u, temp, sink).report.Accepted?
    ensures var p := Package(Some(d), u, temp, sink);
            var r := Import(BundleName(stamp), p.bundle, u, temp', files, refused, reachable);
            && (r.report.Accepted? <==> Stages(temp', Contents(d, u)) && reachable && Welcomes(files, Contents(d, u), refused))
            && (r.report.Accepted? ==>
                  && r.report == p.report && Stored(r.files, Contents(d, u))
                  && (Holds(r.files, Contents(d, u)) <==> Legible(files, Contents(d, u))))
  {
    hide Package, Contents, Choose, WriteAll, Stored, Holds, Legible, Welcomes, Stages, Records, Names, BundleName, ValidBundleName, ReadBundle;
    PackageMeans(d, u, temp, sink);
    var entries := Contents(d, u);
    ChooseStaged(entries, u, temp, temp');
    WritesAll(files, entries, refused);
    NameOfBundle(stamp);
  }

  lemma PackageMeans(d: Dir, u: Setup, temp: Temp, sink: Sink)
    requires Package(Some(d), u, temp, sink).report.Accepted?
    ensures var p, entries := Package(Some(d), u, temp, sink), Contents(d, u);
            && p == Packaged(Accepted(p.report.source, Names(entries)), Bundle(Records(entries), true))
            && ReadBundle(p.bundle, u.unsafe).findings == [] && Listed(ReadBundle(p.bundle, u.unsafe).byName) == entries
            && entries != [] && Ascending(entries) && Choose(entries, u, temp) == Selected(p.report.source)
            && GatherDir(d, |d.entries|, u.unsafe).findings == []
  {
    hide GatherDir, Listed, Choose, Records, Names, ReadBundle, AllFit, Ascending;
    GatheredFit(d, |d.entries|, u.unsafe);
    var byName := GatherDir(d, |d.entries|, u.unsafe).byName;
    BundleReadsBack(byName, u.unsafe);
    ListedAscending(byName);
  }

  lemma ListedAscending(byName: map<string, Bytes>)
    ensures Ascending(Listed(byName))
  {
    hide Ascending, Listed;
    ListedLists(byName);
  }

  ghost predicate BundleFile(name: string)
  {
    exists stamp: string :: name == "a21-5080lab-provider-evidence-" + stamp + ".tgz"
  }

  lemma BundleNameMeans(name: string)
    ensures ValidBundleName(name) <==> BundleFile(name)
  {
    var head, tail := "a21-5080lab-provider-evidence-", ".tgz";
    if ValidBundleName(name) {
      EndsApart(head, tail, name);
    }
    if stamp: string :| name == head + stamp + tail {
      assert name[..|head|] == head && name[|name| - 4..] == tail;
    }
  }

  // A tail that begins with a character the head has not does not overlap it.
  lemma EndsApart(head: string, tail: string, name: string)
    requires tail != "" && Without(head, tail[0])
    requires head <= name && |tail| <= |name| && name[|name| - |tail|..] == tail
    ensures |head| + |tail| <= |name| && name == head + name[|head|..|name| - |tail|] + tail
  {
    assert name[|name| - |tail|] == tail[0];
    assert forall i :: 0 <= i < |head| ==> name[i] == head[i];
  }

  lemma NameOfBundle(stamp: string)
    ensures ValidBundleName(BundleName(stamp))
  {
  }

  /** The choice does not depend on where the reports were staged. */
  lemma ChooseStaged(entries: seq<Entry>, u: Setup, a: Temp, b: Temp)
    requires Choose(entries, u, a).Selected?
    ensures if Stages(b, entries) then Choose(entries, u, b) == Choose(entries, u, a) else Choose(entries, u, b).NotSelected?
  {
  }

  /** Every file of a directory the packager accepts has a safe name, and the file of that safe name is packaged
      under it. Where the safe name is another one, so is the file: see KeptExactly. */
  lemma NothingDropped(d: Dir, u: Setup, temp: Temp, sink: Sink, i: nat)
    requires Package(Some(d), u, temp, sink).report.Accepted? && i < |d.entries| && !d.entries[i].isDir
    ensures var name := EntryName(d.entries[i].name);
            name.Some? && name.value in d.readable && Entry(name.value, d.readable[name.value]) in Contents(d, u)
  {
    hide GatherDir, Listed, Choose, EntryName, Ascending, Records, Names, Package;
    PackageMeans(d, u, temp, sink);
    Kept(d, |d.entries|, u.unsafe);
    var byName := GatherDir(d, |d.entries|, u.unsafe).byName;
    ListedLists(byName);
    var k := Position(Contents(d, u), byName, EntryName(d.entries[i].name).value);
  }

  // File i's own bytes are packaged under its safe name.
  ghost predicate OwnBytesIn(d: Dir, u: Setup, i: nat)
    requires i < |d.entries|
  {
    var raw := d.entries[i].name;
    EntryName(raw).Some? && raw in d.readable && Entry(EntryName(raw).value, d.readable[raw]) in Contents(d, u)
  }

  // What a listing of a directory can be: names in order, none with a slash, and every readable file listed.
  ghost predicate Listable(d: Dir)
  {
    && (forall i, j :: 0 <= i < j < |d.entries| ==> Less(d.entries[i].name, d.entries[j].name))
    && (forall i :: 0 <= i < |d.entries| ==> FileName(d.entries[i].name))
    && (forall name :: name in d.readable ==> exists i :: 0 <= i < |d.entries| && d.entries[i].name == name && !d.entries[i].isDir)
  }

  predicate FileName(name: string)
  {
    name != "" && name != "." && name != ".." && Without(name, '/')
  }

  // In this setup, a file listed under this name never loses its bytes, whatever else the directory holds.
  ghost predicate AlwaysKept(raw: string, u: Setup)
  {
    forall d: Dir, temp: Temp, sink: Sink, i: nat ::
      (Listable(d) && i < |d.entries| && d.entries[i].name == raw && !d.entries[i].isDir && raw in d.readable
       && Package(Some(d), u, temp, sink).report.Accepted?) ==> OwnBytesIn(d, u, i)
  }

  const PLAIN := SMOKE + "1" + ".json"

  // The setup takes these bytes for an eligible smoke report.
  ghost predicate Serves(u: Setup, good: Bytes)
  {
    |good| <= MAX_BYTES && !u.unsafe(good) && Counts(Entry(PLAIN, good), u, Eligible)
  }

  /** Of the file names that can be packaged, exactly those without white space at an end keep their own bytes in
      every accepted directory, in any setup that can accept one. Any other is listed, and the file of the trimmed
      name read in its place. */
  lemma KeptExactly(raw: string, u: Setup, good: Bytes)
    requires FileName(raw) && EntryName(raw).Some? && Allowed(EntryName(raw).value) && Serves(u, good)
    ensures AlwaysKept(raw, u) <==> Trim(raw) == raw
  {
    hide EntryName, Allowed, Trim, Serves, AlwaysKept, FileName;
    if Trim(raw) == raw {
      KeptIfPlain(raw, u);
    } else {
      NotAlwaysKept(raw, u, good, if good == [] then [0] else []);
    }
  }

  lemma KeptIfPlain(raw: string, u: Setup)
    requires FileName(raw) && EntryName(raw).Some? && Trim(raw) == raw
    ensures AlwaysKept(raw, u)
  {
    hide EntryName, Package, OwnBytesIn, Trim, Listable;
    FilteredIsTrimmed(raw);
    forall d: Dir, temp: Temp, sink: Sink, i: nat
      | Listable(d) && i < |d.entries| && d.entries[i].name == raw && !d.entries[i].isDir && raw in d.readable
        && Package(Some(d), u, temp, sink).report.Accepted?
      ensures OwnBytesIn(d, u, i)
    {
      NothingDropped(d, u, temp, sink, i);
      KeptUnderOwnName(d, u, i);
    }
  }

  lemma NotAlwaysKept(raw: string, u: Setup, good: Bytes, own: Bytes)
    requires FileName(raw) && EntryName(raw).Some? && Allowed(EntryName(raw).value) && Trim(raw) != raw
    requires Serves(u, good) && own != good && |own| <= MAX_BYTES
    ensures !AlwaysKept(raw, u)
  {
    hide EntryName, Allowed, Package, OwnBytesIn, Trim, Serves, Listable, FileName, DropsOne;
    var i := OwnBytesDropped(raw, u, own, good);
    var d := DropsOne(raw, own, good);
    assert d.entries[i].name == raw && Package(Some(d), u, Temp({}), Sink(true)).report.Accepted? && !OwnBytesIn(d, u, i);
  }

  lemma FilteredIsTrimmed(raw: string)
    requires Without(raw, '/') && EntryName(raw).Some?
    ensures EntryName(raw) == Some(Trim(raw))
  {
    hide Split, Trim, CleanParts;
    var t := Trim(raw);
    TrimmedPart(raw, '/');
    PartsWithout(t, '/');
    assert Split(t, '/') == [t];
    OnePart(t);
  }

  lemma TrimmedPart(s: string, ch: char)
    requires Without(s, ch)
    ensures Without(Trim(s), ch)
  {
    hide TrimLeft, TrimRight;
    var left := TrimLeft(s);
    var t := TrimRight(left);
    forall i | 0 <= i < |t|
      ensures t[i] != ch
    {
      assert t[i] == left[i] == s[|s| - |left|..][i] == s[|s| - |left| + i];
    }
  }

  lemma OnePart(t: string)
    ensures CleanParts([t]) == if t == "" || t == "." then [] else [t]
  {
    assert [t][..0] == [];
  }

  lemma KeptUnderOwnName(d: Dir, u: Setup, i: nat)
    requires i < |d.entries| && EntryName(d.entries[i].name) == Some(d.entries[i].name)
    requires d.entries[i].name in d.readable && Entry(d.entries[i].name, d.readable[d.entries[i].name]) in Contents(d, u)
    ensures OwnBytesIn(d, u, i)
  {
    hide EntryName, Contents;
  }

  // The directory that holds exactly these files.
  ghost function DirOf(files: map<string, Bytes>): (d: Dir)
  {
    var entries := Listed(files);
    Dir(seq(|entries|, i requires 0 <= i < |entries| => DirEntry(entries[i].name, false, true, |entries[i].data|)), files)
  }

  lemma DirOfLists(files: map<string, Bytes>)
    requires forall name :: name in files ==> FileName(name)
    ensures Listable(DirOf(files))
    ensures var d := DirOf(files);
            forall i :: 0 <= i < |d.entries| ==> OfFile(d.entries[i], files)
  {
    hide Listed, FileName, Less;
    ListedLists(files);
    var d, entries := DirOf(files), Listed(files);
    forall name | name in files
      ensures exists i :: 0 <= i < |d.entries| && d.entries[i].name == name && !d.entries[i].isDir
    {
      var i := Position(entries, files, name);
      assert d.entries[i].name == name;
    }
  }

  lemma ListedAt(d: Dir, name: string) returns (i: nat)
    requires Listable(d) && name in d.readable
    ensures i < |d.entries| && d.entries[i].name == name && !d.entries[i].isDir
  {
    i :| 0 <= i < |d.entries| && d.entries[i].name == name && !d.entries[i].isDir;
  }

  // A file listed under a name that is trimmed, the file of the trimmed name, and a smoke report.
  ghost function DropsOne(raw: string, own: Bytes, good: Bytes): (d: Dir)
  {
    DirOf(ThreeFiles(raw, Trim(raw), own, good))
  }

  function ThreeFiles(raw: string, name: string, own: Bytes, good: Bytes): (files: map<string, Bytes>)
  {
    map[raw := own][name := good][PLAIN := good]
  }

  /** The directory that shows it, for any contents: it is accepted, and the bytes of the first file are in no
      entry. */
  lemma OwnBytesDropped(raw: string, u: Setup, own: Bytes, good: Bytes) returns (i: nat)
    requires FileName(raw) && EntryName(raw).Some? && Allowed(EntryName(raw).value) && Trim(raw) != raw
    requires Serves(u, good) && own != good && |own| <= MAX_BYTES
    ensures var d := DropsOne(raw, own, good);
            && Listable(d) && i < |d.entries| && d.entries[i] == DirEntry(raw, false, true, |own|)
            && raw in d.readable && d.readable[raw] == own
            && Package(Some(d), u, Temp({}), Sink(true)).report.Accepted?
            && (forall e :: e in Contents(d, u) ==> e.data == good)
            && !OwnBytesIn(d, u, i)
  {
    hide EntryName, Allowed, Contents, Package, Counts, DropsOne, Listable, Trim, OwnBytesIn, PLAIN;
    FilteredIsTrimmed(raw);
    PlainIsFit();
    PlainNames(raw);
    TrimOfPlain();
    TrimDiffers(raw, PLAIN);
    DropsOneIs(raw, own, good);
    i := OwnBytesLost(DropsOne(raw, own, good), raw, Trim(raw), u, own, good);
  }

  lemma OwnBytesLost(d: Dir, raw: string, name: string, u: Setup, own: Bytes, good: Bytes) returns (i: nat)
    requires EntryName(raw) == Some(name) && raw != name && PlainName(name) && PlainName(PLAIN)
    requires Serves(u, good) && own != good && |own| <= MAX_BYTES
    requires Listable(d) && forall i :: 0 <= i < |d.entries| ==> OfFile(d.entries[i], d.readable)
    requires forall n :: n in d.readable <==> n == raw || n == name || n == PLAIN
    requires d.readable[raw] == own && d.readable[name] == good && d.readable[PLAIN] == good
    ensures i < |d.entries| && d.entries[i] == DirEntry(raw, false, true, |own|)
    ensures Package(Some(d), u, Temp({}), Sink(true)).report.Accepted?
    ensures (forall e :: e in Contents(d, u) ==> e.data == good) && !OwnBytesIn(d, u, i)
  {
    hide EntryName, Allowed, Contents, Package, Counts, GoodDir, Listable, OwnBytesIn, PLAIN;
    i := ListedAt(d, raw);
    assert OfFile(d.entries[i], d.readable);
    AllGood(d, raw, name, u, own, good);
    PackagedIfServes(d, u, good);
    OnlyTheOthers(d, u, raw, good, i);
  }

  // An entry as a listing gives it of a plain file.
  predicate OfFile(e: DirEntry, files: map<string, Bytes>)
  {
    e.name in files && e == DirEntry(e.name, false, true, |files[e.name]|)
  }

  lemma DropsOneIs(raw: string, own: Bytes, good: Bytes)
    requires FileName(raw) && FileName(Trim(raw)) && FileName(PLAIN) && raw != Trim(raw) && raw != PLAIN
    ensures var d := DropsOne(raw, own, good);
            && Listable(d) && (forall i :: 0 <= i < |d.entries| ==> OfFile(d.entries[i], d.readable))
            && (forall name :: name in d.readable <==> name == raw || name == Trim(raw) || name == PLAIN)
            && d.readable[raw] == own && d.readable[Trim(raw)] == good && d.readable[PLAIN] == good
  {
    hide Trim, PLAIN, Listable, Without, ThreeFiles;
    var files := ThreeFiles(raw, Trim(raw), own, good);
    ThreeFilesRead(raw, Trim(raw), own, good);
    forall name | name in files
      ensures FileName(name)
    {
      assert name == raw || name == Trim(raw) || name == PLAIN;
    }
    DirOfLists(files);
    assert DropsOne(raw, own, good).readable == files;
  }

  // A name the packager takes as it is.
  predicate PlainName(name: string)
  {
    FileName(name) && EntryName(name) == Some(name) && Allowed(name)
  }

  lemma TrimDiffers(raw: string, plain: string)
    requires Trim(raw) != raw && Trim(plain) == plain
    ensures raw != plain
  {
    hide Trim;
  }

  lemma PlainNames(raw: string)
    requires EntryName(raw) == Some(Trim(raw)) && Allowed(Trim(raw))
    requires EntryName(PLAIN) == Some(PLAIN) && Allowed(PLAIN)
    ensures PlainName(Trim(raw)) && PlainName(PLAIN)
  {
    hide EntryName, Allowed, Trim, FileName;
    NameFixed(raw, Trim(raw));
    FileNames(raw);
    FileNames(PLAIN);
  }

  lemma ThreeFilesRead(raw: string, name: string, own: Bytes, good: Bytes)
    requires raw != name && raw != PLAIN
    ensures var files := ThreeFiles(raw, name, own, good);
            && (forall n :: n in files <==> n == raw || n == name || n == PLAIN)
            && files[raw] == own && files[name] == good && files[PLAIN] == good
  {
    hide PLAIN;
  }

  lemma TrimOfPlain()
    requires EntryName(PLAIN) == Some(PLAIN)
    ensures Trim(PLAIN) == PLAIN
  {
    hide EntryName, Trim;
    FilteredIsTrimmed(PLAIN);
  }

  // Filtered and whitelisted names are file names.
  lemma FileNames(raw: string)
    requires EntryName(raw).Some? && Allowed(EntryName(raw).value)
    ensures FileName(EntryName(raw).value)
  {
    hide EntryName, Allowed;
    AllowedEnds(EntryName(raw).value);
  }

  // A file whose name the filter changes is read by no entry.
  lemma OnlyTheOthers(d: Dir, u: Setup, raw: string, good: Bytes, i: nat)
    requires i < |d.entries| && d.entries[i].name == raw && EntryName(raw) != Some(raw)
    requires raw in d.readable && d.readable[raw] != good
    requires forall name :: name in d.readable && name != raw ==> d.readable[name] == good
    ensures (forall e :: e in Contents(d, u) ==> e.data == good) && !OwnBytesIn(d, u, i)
  {
    hide EntryName, Contents;
    forall e | e in Contents(d, u)
      ensures e.data == good
    {
      var k :| 0 <= k < |Contents(d, u)| && Contents(d, u)[k] == e;
      NothingAdded(d, u, k);
      NamesAreFixed(d, u, k);
    }
  }

  lemma AllGood(d: Dir, raw: string, name: string, u: Setup, own: Bytes, good: Bytes)
    requires |own| <= MAX_BYTES && Serves(u, good)
    requires EntryName(raw) == Some(name) && PlainName(name) && PlainName(PLAIN)
    requires forall n :: n in d.readable <==> n == raw || n == name || n == PLAIN
    requires d.readable[raw] == own && d.readable[name] == good && d.readable[PLAIN] == good
    requires forall i :: 0 <= i < |d.entries| ==> OfFile(d.entries[i], d.readable)
    ensures GoodDir(d, |d.entries|, u.unsafe)
  {
    hide EntryName, Allowed, Counts, FileName, PLAIN;
    forall i | 0 <= i < |d.entries|
      ensures GoodFile(d.entries[i], d.readable, u.unsafe)
    {
      var n := d.entries[i].name;
      assert OfFile(d.entries[i], d.readable);
      assert n == raw || n == name || n == PLAIN;
    }
  }

  // Any good directory with a smoke report in it that the setup accepts is packaged.
  lemma PackagedIfServes(d: Dir, u: Setup, good: Bytes)
    requires GoodDir(d, |d.entries|, u.unsafe) && Listable(d) && PLAIN in d.readable && d.readable[PLAIN] == good && Serves(u, good)
    requires EntryName(PLAIN) == Some(PLAIN)
    ensures Package(Some(d), u, Temp({}), Sink(true)).report.Accepted?
  {
    hide EntryName, Allowed, Package, Contents, Counts, Listable, GoodDir, Reports;
    PackageAccepts(d, u, Temp({}), Sink(true));
    var k := PlainGathered(d, u);
    assert Contents(d, u)[k] == Entry(PLAIN, good);
  }

  lemma PlainGathered(d: Dir, u: Setup) returns (k: nat)
    requires GoodDir(d, |d.entries|, u.unsafe) && Listable(d) && PLAIN in d.readable && EntryName(PLAIN) == Some(PLAIN)
    ensures k < |Contents(d, u)| && Contents(d, u)[k] == Entry(PLAIN, d.readable[PLAIN])
  {
    hide EntryName, Listable, GoodDir, GatherDir, Listed, Ascending;
    var n := |d.entries|;
    var byName := GatherDir(d, n, u.unsafe).byName;
    var i := ListedAt(d, PLAIN);
    DirClean(d, n, u.unsafe);
    Kept(d, n, u.unsafe);
    ListedLists(byName);
    k := Position(Contents(d, u), byName, PLAIN);
  }

  lemma NamesAreFixed(d: Dir, u: Setup, k: nat)
    requires k < |Contents(d, u)|
    ensures EntryName(Contents(d, u)[k].name) == Some(Contents(d, u)[k].name)
  {
    hide EntryName, Allowed, GatherDir, Listed;
    GatheredFit(d, |d.entries|, u.unsafe);
    EntriesFit(GatherDir(d, |d.entries|, u.unsafe).byName, u.unsafe);
  }

  lemma PlainIsFit()
    ensures EntryName(PLAIN) == Some(PLAIN) && Allowed(PLAIN) && Matches(SMOKE, ".json", PLAIN)
  {
    hide Matches, EntryName, Without;
    PlainHasNoSlash();
    MatchesJoined(SMOKE, "1", ".json");
    assert PREFIXES[0] == SMOKE;
    AllowedFixed(PLAIN);
  }

  lemma MatchesJoined(prefix: string, middle: string, suffix: string)
    requires Without(middle, '/')
    ensures Matches(prefix, suffix, prefix + middle + suffix)
  {
    var name := prefix + middle + suffix;
    assert name[|prefix|..|name| - |suffix|] == middle;
  }

  lemma PlainHasNoSlash()
    ensures Without("1", '/') && Without(PLAIN, '/')
  {
    WithoutJoined(SMOKE, "1", '/');
    WithoutJoined(SMOKE + "1", ".json", '/');
  }

  lemma WithoutJoined(a: string, b: string, ch: char)
    requires Without(a, ch) && Without(b, ch)
    ensures Without(a + b, ch)
  {
  }

  /** A padded name is filtered to the plain one. */
  lemma PaddedName(name: string)
    requires Allowed(name) && Without(name, '/')
    ensures EntryName(" " + name) == Some(name)
  {
    hide *;
    AllowedFixed(name);
    TrimPadded(name);
    OnlyTrimmed(" " + name, name);
  }

  lemma TrimPadded(name: string)
    ensures Trim(" " + name) == Trim(name)
  {
    SpaceBefore(name, ' ');
    assert [' '] + name == " " + name;
  }

  lemma OnlyTrimmed(a: string, b: string)
    requires Trim(a) == Trim(b)
    ensures EntryName(a) == EntryName(b)
  {
    hide Trim, Clean;
  }

  /** Nothing is made up: each entry holds the bytes read from the file of its name. */
  lemma NothingAdded(d: Dir, u: Setup, k: nat)
    requires k < |Contents(d, u)|
    ensures var e := Contents(d, u)[k]; e.name in d.readable && d.readable[e.name] == e.data
  {
    hide GatherDir, Listed, EntryName, Ascending;
    Kept(d, |d.entries|, u.unsafe);
    ListedLists(GatherDir(d, |d.entries|, u.unsafe).byName);
  }

  // What has been gathered was read under its name.
  ghost predicate ReadFrom(g: Gathered, readable: map<string, Bytes>)
  {
    forall name :: name in g.byName ==> name in readable && g.byName[name] == readable[name]
  }

  // Without findings, the file is there under its safe name.
  ghost predicate FileIn(e: DirEntry, g: Gathered)
  {
    !e.isDir ==> EntryName(e.name).Some? && EntryName(e.name).value in g.byName
  }

  lemma TakenKept(g: Gathered, e: DirEntry, readable: map<string, Bytes>, unsafe: Bytes -> bool)
    ensures var g' := TakeDirEntry(g, e, readable, unsafe);
            && (ReadFrom(g, readable) ==> ReadFrom(g', readable))
            && (g'.findings == [] ==> g.findings == [] && FileIn(e, g'))
            && (forall other :: FileIn(other, g) ==> FileIn(other, g'))
  {
    hide EntryName, Allowed, SafeDetail;
  }

  lemma {:induction false} Kept(d: Dir, n: nat, unsafe: Bytes -> bool)
    requires n <= |d.entries|
    ensures var g := GatherDir(d, n, unsafe);
            && ReadFrom(g, d.readable)
            && (g.findings == [] ==> forall i :: 0 <= i < n ==> FileIn(d.entries[i], g))
  {
    hide FileIn, TakeDirEntry;
    if n > 0 {
      Kept(d, n - 1, unsafe);
      TakenKept(GatherDir(d, n - 1, unsafe), d.entries[n - 1], d.readable, unsafe);
    }
  }

  /** Which directories are packaged: those with only good files, some eligible report among them, where
      staging works and the bundle can be written. The report names every file and the last eligible one. */
  lemma PackageAccepts(d: Dir, u: Setup, temp: Temp, sink: Sink)
    ensures Package(Some(d), u, temp, sink).report.Accepted? <==>
      && GoodDir(d, |d.entries|, u.unsafe) && AnyCounts(Contents(d, u), u, Eligible)
      && temp.Temp? && NoneFull(temp.full, Contents(d, u)) && sink == Sink(true)
    ensures Package(Some(d), u, temp, sink).report.Accepted? ==> Reports(Package(Some(d), u, temp, sink).report, Contents(d, u), u)
  {
    hide GatherDir, Listed, Choose, GoodDir, Counts, NoneFull, Records, LastCounts, Reports;
    DirClean(d, |d.entries|, u.unsafe);
    ChoiceCounts(Contents(d, u), u, temp);
    ReportsAll(Contents(d, u), u, temp);
  }

  // What an accepting report says of the reports taken.
  ghost predicate Reports(report: Report, entries: seq<Entry>, u: Setup)
    requires report.Accepted?
  {
    && LastCounts(entries, u, Eligible, report.source)
    && |report.reports| == |entries| && forall i :: 0 <= i < |entries| ==> report.reports[i] == entries[i].name
  }

  lemma ChoiceCounts(entries: seq<Entry>, u: Setup, temp: Temp)
    ensures Choose(entries, u, temp).Selected? <==>
      temp.Temp? && NoneFull(temp.full, entries) && AnyCounts(entries, u, Eligible)
  {
    hide Choose, NoneFull, Counts;
    ChoiceMeans(entries, u, temp);
  }

  lemma ReportsAll(entries: seq<Entry>, u: Setup, temp: Temp)
    ensures Choose(entries, u, temp).Selected? ==> Reports(Accepted(Choose(entries, u, temp).name, Names(entries)), entries, u)
  {
    hide Choose, NoneFull, LastCounts;
    ChoiceMeans(entries, u, temp);
  }

  /** Which bundles are imported: properly named, sound to the end, with only good records of different names, some
      eligible report among them, where staging works, the output directory is there and no file stands in the
      way. The report names every entry and the last eligible one. */
  lemma ImportAccepts(name: string, b: Bundle, u: Setup, temp: Temp, files: Files, refused: set<string>, reachable: bool)
    ensures var entries := Listed(ReadBundle(b, u.unsafe).byName);
            Import(name, b, u, temp, files, refused, reachable).report.Accepted? <==>
              && BundleFile(name) && b.Bundle? && b.sound && GoodBundle(b.records, |b.records|, u.unsafe)
              && AnyCounts(entries, u, Eligible) && temp.Temp? && NoneFull(temp.full, entries)
              && reachable && Welcomes(files, entries, refused)
    ensures Import(name, b, u, temp, files, refused, reachable).report.Accepted? ==>
      Reports(Import(name, b, u, temp, files, refused, reachable).report, Listed(ReadBundle(b, u.unsafe).byName), u)
  {
    hide Listed, Choose, GoodBundle, Counts, NoneFull, LastCounts, Reports, GatherRecords, WriteAll, Welcomes, ValidBundleName;
    var entries := Listed(ReadBundle(b, u.unsafe).byName);
    if b.Bundle? {
      BundleClean(b.records, |b.records|, u.unsafe);
    }
    BundleNameMeans(name);
    ListedAscending(ReadBundle(b, u.unsafe).byName);
    ChoiceCounts(entries, u, temp);
    ReportsAll(entries, u, temp);
    WritesAll(files, entries, refused);
  }

  /** Whatever the bundle, a file an import adds or changes has a whitelisted name, a permitted size and
      passed the redaction check. */
  lemma OnlyFitWritten(name: string, b: Bundle, u: Setup, temp: Temp, files: Files, refused: set<string>, reachable: bool, file: string)
    ensures var after := Import(name, b, u, temp, files, refused, reachable).files;
            file in after && (file !in files || after[file] != files[file]) ==>
              Fit(file, after[file].data, u.unsafe)
  {
    hide Import, Listed, ReadBundle, WriteAll, Fit, AllFit, AllEntriesFit;
    var entries := Listed(ReadBundle(b, u.unsafe).byName);
    BundleFit(b, u.unsafe);
    EntriesFit(ReadBundle(b, u.unsafe).byName, u.unsafe);
    FitWritten(files, entries, refused, u.unsafe, file);
    ImportWrites(name, b, u, temp, files, refused, reachable);
  }

  lemma ImportWrites(name: string, b: Bundle, u: Setup, temp: Temp, files: Files, refused: set<string>, reachable: bool)
    ensures var after := Import(name, b, u, temp, files, refused, reachable).files;
            after == files || after == WriteAll(files, Listed(ReadBundle(b, u.unsafe).byName), refused).files
  {
    hide Choose, Listed, ValidBundleName, ReadBundle, Names, WriteAll;
  }

  ghost predicate AllEntriesFit(entries: seq<Entry>, unsafe: Bytes -> bool)
  {
    forall i :: 0 <= i < |entries| ==> Fit(entries[i].name, entries[i].data, unsafe)
  }

  lemma FitWritten(files: Files, entries: seq<Entry>, refused: set<string>, unsafe: Bytes -> bool, file: string)
    requires AllEntriesFit(entries, unsafe)
    ensures var after := WriteAll(files, entries, refused).files;
            file in after && (file !in files || after[file] != files[file]) ==>
              Fit(file, after[file].data, unsafe)
  {
    hide WriteAll, Fit;
    NeverOverwrites(files, entries, refused, file);
  }

  lemma BundleFit(b: Bundle, unsafe: Bytes -> bool)
    ensures AllFit(ReadBundle(b, unsafe).byName, unsafe)
  {
    hide Fit;
    if b.Bundle? {
      BundleClean(b.records, |b.records|, unsafe);
    }
  }

  lemma EntriesFit(byName: map<string, Bytes>, unsafe: Bytes -> bool)
    requires AllFit(byName, unsafe)
    ensures AllEntriesFit(Listed(byName), unsafe)
  {
    hide Fit, Listed, Ascending;
    ListedLists(byName);
  }

  /** Importing again changes no file. It reports the same, even where nothing can be written, exactly when no
      report is in a file that can be neither read nor written. */
  lemma SecondImport(name: string, b: Bundle, u: Setup, temp: Temp, files: Files, refused: set<string>, refused': set<string>)
    requires Import(name, b, u, temp, files, refused, true).report.Accepted?
    ensures var r, r' := Import(name, b, u, temp, files, refused, true), Import(name, b, u, temp, Import(name, b, u, temp, files, refused, true).files, refused', true);
            && r'.files == r.files
            && (r' == r <==> Settled(r.files, Listed(ReadBundle(b, u.unsafe).byName), refused'))
  {
    hide Choose, Listed, ValidBundleName, ReadBundle, Names, Holds, Stored, Legible, Settled, WriteAll, Welcomes;
    var g := ReadBundle(b, u.unsafe);
    var entries := Listed(g.byName);
    ListedLists(g.byName);
    WritesAll(files, entries, refused);
    SecondWrite(WriteAll(files, entries, refused).files, entries, refused');
  }

  ghost predicate StoppedAt(files: Files, entries: seq<Entry>, refused: set<string>, k: nat, r: Imported)
    requires k < |entries|
  {
    && WriteAll(files, entries[..k], refused) == Written(r.files, None)
    && Stored(r.files, entries[..k])
    && r.report.Rejected? && |r.report.findings| == 1 && r.report.findings[0].detail == entries[k].name
  }

  /** An import that is rejected, whatever the bundle, has left every readable file alone; if it was stopped by
      a file of the output directory, it has written the entries before that one and no other. */
  lemma RejectedImport(name: string, b: Bundle, u: Setup, temp: Temp, files: Files, refused: set<string>, reachable: bool)
    returns (k: nat)
    requires Import(name, b, u, temp, files, refused, reachable).report.Rejected?
    ensures var r := Import(name, b, u, temp, files, refused, reachable);
            var entries := Listed(ReadBundle(b, u.unsafe).byName);
            r.files == files || (k < |entries| && StoppedAt(files, entries, refused, k, r))
  {
    hide Choose, Listed, ValidBundleName, ReadBundle, Names, Stored, WriteAll;
    var g := ReadBundle(b, u.unsafe);
    var entries := Listed(g.byName);
    ListedLists(g.byName);
    k := 0;
    if WriteAll(files, entries, refused).finding.Some? {
      k := PrefixWritten(files, entries, refused);
      WritesAll(files, entries[..k], refused);
    }
  }

  lemma ReadableKept(name: string, b: Bundle, u: Setup, temp: Temp, files: Files, refused: set<string>, reachable: bool, file: string)
    requires file in files && files[file].Readable?
    ensures var after := Import(name, b, u, temp, files, refused, reachable).files;
            file in after && after[file] == files[file]
  {
    hide Import, Listed, ReadBundle, WriteAll;
    ImportWrites(name, b, u, temp, files, refused, reachable);
    NeverOverwrites(files, Listed(ReadBundle(b, u.unsafe).byName), refused, file);
  }
}
