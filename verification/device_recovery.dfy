/** The choice of one device among the registry records whose id matches. The match is the predicate
    `named`; everything else about the choice is the order Preferred and the fold over it. */
module DeviceRecovery {
  import opened Wrappers
  import opened Text

  datatype Device = Device(id: string, status: string, lastSeen: int, age: int)

  predicate Online(d: Device)
  {
    Trim(d.status) == "online"
  }

  predicate Preferred(candidate: Device, current: Device)
  {
    if Online(candidate) != Online(current) then Online(candidate)
    else if candidate.lastSeen != current.lastSeen then candidate.lastSeen > current.lastSeen
    else if candidate.age != current.age then candidate.age > 0 && (current.age <= 0 || candidate.age < current.age)
    else Less(Trim(candidate.id), Trim(current.id))
  }

  class Report {
    var device: Option<Device>
    var deviceOnline: bool

    constructor ()
      ensures device == None && !deviceOnline
    {
      device, deviceOnline := None, false;
    }

    // The selection loop.
    method Select(devices: seq<Device>, named: Device -> bool)
      requires device == None && !deviceOnline
      modifies this
      ensures device == Selected(devices, named)
      ensures deviceOnline <==> exists i :: 0 <= i < |devices| && named(devices[i]) && Trim(devices[i].status) == "online"
    {
      for i := 0 to |devices|
        invariant device == Selected(devices[..i], named)
        invariant deviceOnline == (device.Some? && Online(device.value))
      {
        assert devices[..i + 1][..i] == devices[..i];
        if named(devices[i]) {
          if device == None || Preferred(devices[i], device.value) {
            device := Some(devices[i]);
            deviceOnline := Trim(devices[i].status) == "online";
          }
        }
      }
      assert devices[..|devices|] == devices;
      OnlineIfAny(devices, named);
    }
  }

  function Selected(devices: seq<Device>, named: Device -> bool): (r: Option<Device>)
  {
    if devices == [] then None
    else
      var best := Selected(devices[..|devices| - 1], named);
      var last := devices[|devices| - 1];
      if named(last) && (best == None || Preferred(last, best.value)) then Some(last) else best
  }

  // ---- the order, for all ages ----

  /** Preference is a strict partial order whatever the ages. */
  lemma PreferredTransitive(a: Device, b: Device, c: Device)
    requires Preferred(a, b) && Preferred(b, c)
    ensures Preferred(a, c)
  {
    hide Less, Trim;
    if Less(Trim(a.id), Trim(b.id)) && Less(Trim(b.id), Trim(c.id)) {
      LessTransitive(Trim(a.id), Trim(b.id), Trim(c.id));
    }
  }

  lemma PreferredAsymmetric(a: Device, b: Device)
    ensures !(Preferred(a, b) && Preferred(b, a))
  {
    hide Less, Trim;
    LessAsymmetric(Trim(a.id), Trim(b.id));
  }

  ghost predicate Maximal(devices: seq<Device>, named: Device -> bool, best: Device)
  {
    forall i :: 0 <= i < |devices| && named(devices[i]) ==> !Preferred(devices[i], best)
  }

  /** The fold returns a matching record to which no matching record is preferred. */
  lemma {:induction false} SelectedIsMaximal(devices: seq<Device>, named: Device -> bool)
    ensures Selected(devices, named).None? <==> forall i :: 0 <= i < |devices| ==> !named(devices[i])
    ensures Selected(devices, named).Some? ==>
              && named(Selected(devices, named).value)
              && Selected(devices, named).value in devices
              && Maximal(devices, named, Selected(devices, named).value)
  {
    hide Preferred;
    if devices != [] {
      var n := |devices| - 1;
      var before, last := devices[..n], devices[n];
      SelectedIsMaximal(before, named);
      var best := Selected(before, named);
      PreferredAsymmetric(last, last);
      assert forall i :: 0 <= i < n ==> devices[i] == before[i];
      if best.Some? && named(last) && Preferred(last, best.value) {
        forall i | 0 <= i < n && named(before[i])
          ensures !Preferred(before[i], last)
        {
          if Preferred(before[i], last) {
            PreferredTransitive(before[i], last, best.value);
          }
        }
      }
    }
  }

  /** The report says online if and only if some matching record is online. */
  lemma OnlineIfAny(devices: seq<Device>, named: Device -> bool)
    ensures (Selected(devices, named).Some? && Online(Selected(devices, named).value)) <==>
              exists i :: 0 <= i < |devices| && named(devices[i]) && Online(devices[i])
  {
    hide Selected, Online;
    SelectedIsMaximal(devices, named);
    var best := Selected(devices, named);
    if best.Some? && Online(best.value) {
      var i :| 0 <= i < |devices| && devices[i] == best.value;
    }
    if i :| 0 <= i < |devices| && named(devices[i]) && Online(devices[i]) {
      OnlineFirst(devices[i], best.value);
    }
  }

  lemma OnlineFirst(candidate: Device, current: Device)
    requires Online(candidate) && !Preferred(candidate, current)
    ensures Online(current)
  {
  }

  // Nothing is better about the other record: in turn by presence, last sighting, age and id.
  predicate NoWorse(best: Device, other: Device)
  {
    var up, otherUp := Trim(best.status) == "online", Trim(other.status) == "online";
    && (otherUp ==> up)
    && (otherUp == up ==> other.lastSeen <= best.lastSeen)
    && (otherUp == up && other.lastSeen == best.lastSeen && other.age > 0 ==> 0 < best.age <= other.age)
    && (otherUp == up && other.lastSeen == best.lastSeen && other.age == best.age ==> !Less(Trim(other.id), Trim(best.id)))
  }

  /** The selected record is online if any is; of those it is one seen last, of those one of the least
      positive age, and of those one of the least id. */
  lemma SelectedIsBest(devices: seq<Device>, named: Device -> bool, i: nat)
    requires i < |devices| && named(devices[i])
    ensures Selected(devices, named).Some? && NoWorse(Selected(devices, named).value, devices[i])
  {
    hide Selected, Preferred, NoWorse;
    SelectedIsMaximal(devices, named);
    NotPreferred(devices[i], Selected(devices, named).value);
  }

  lemma NotPreferred(a: Device, b: Device)
    ensures !Preferred(a, b) <==> NoWorse(b, a)
  {
    hide Less, Trim;
  }

  // ---- when ties are harmless ----

  // Records that agree on everything the preference looks at.
  predicate SameKey(a: Device, b: Device)
  {
    Online(a) == Online(b) && a.lastSeen == b.lastSeen && a.age == b.age && Trim(a.id) == Trim(b.id)
  }

  predicate Tied(a: Device, b: Device)
  {
    !Preferred(a, b) && !Preferred(b, a)
  }

  // At most one of the ages is not positive. Ages that are never negative satisfy this.
  ghost predicate OneUnknown(ages: iset<int>)
  {
    forall x, y :: x in ages && y in ages && x <= 0 && y <= 0 ==> x == y
  }

  /** Among given ages, ties are exactly the pairs that agree on everything, for all records, if and only if at
      most one of the ages is not positive. */
  lemma TiesAgree(ages: iset<int>)
    ensures OneUnknown(ages) <==>
      forall a: Device, b: Device :: a.age in ages && b.age in ages && Tied(a, b) ==> SameKey(a, b)
  {
    hide SameKey, Tied;
    if OneUnknown(ages) {
      forall a: Device, b: Device | a.age in ages && b.age in ages && Tied(a, b)
        ensures SameKey(a, b)
      {
        TieAgrees(a, b);
      }
    } else {
      var x, y :| x in ages && y in ages && x <= 0 && y <= 0 && x != y;
      var a, b := Device("a", "online", 0, x), Device("a", "online", 0, y);
      TwoUnknownAges(a, b);
    }
  }

  lemma TieAgrees(a: Device, b: Device)
    requires Tied(a, b) && (a.age <= 0 && b.age <= 0 ==> a.age == b.age)
    ensures SameKey(a, b)
  {
    hide Less, Trim;
    LessTotal(Trim(a.id), Trim(b.id));
  }

  lemma TwoUnknownAges(a: Device, b: Device)
    requires a.status == b.status && a.lastSeen == b.lastSeen && a.age <= 0 && b.age <= 0 && a.age != b.age
    ensures Tied(a, b) && !SameKey(a, b)
  {
  }

  // Of these three, ties are transitive.
  predicate TiesPass(a: Device, b: Device, c: Device)
  {
    Tied(a, b) && Tied(b, c) ==> Tied(a, c)
  }

  // What makes a strict partial order a strict weak one.
  ghost predicate WeakOrder(ages: iset<int>)
  {
    forall a: Device, b: Device, c: Device ::
      a.age in ages && b.age in ages && c.age in ages ==> TiesPass(a, b, c)
  }

  /** The preference is a strict weak order on the records with given ages if and only if at most one of the
      ages is not positive. */
  lemma WeakOrderExactly(ages: iset<int>)
    ensures OneUnknown(ages) <==> WeakOrder(ages)
  {
    hide TiesPass;
    if OneUnknown(ages) {
      forall a: Device, b: Device, c: Device | a.age in ages && b.age in ages && c.age in ages
        ensures TiesPass(a, b, c)
      {
        TiesArePassed(a, b, c);
      }
    } else {
      var x, y :| x in ages && y in ages && x <= 0 && y <= 0 && x != y;
      BrokenTie(x, y);
      assert Early(x).age in ages && Early(y).age in ages && Late(x).age in ages;
    }
  }

  lemma TiesArePassed(a: Device, b: Device, c: Device)
    requires a.age <= 0 && b.age <= 0 ==> a.age == b.age
    requires b.age <= 0 && c.age <= 0 ==> b.age == c.age
    ensures TiesPass(a, b, c)
  {
    hide Tied, SameKey;
    if Tied(a, b) && Tied(b, c) {
      TieAgrees(a, b);
      TieAgrees(b, c);
      SameKeyTied(a, b, c);
    }
  }

  function Early(age: int): (d: Device)
  {
    Device("a", "online", 0, age)
  }

  function Late(age: int): (d: Device)
  {
    Device("b", "online", 0, age)
  }

  /** Two records of one unusable age, tied through a record of another: the first is still preferred to the
      second, by its id. */
  lemma BrokenTie(x: int, y: int)
    requires x <= 0 && y <= 0 && x != y
    ensures Preferred(Early(x), Late(x)) && !TiesPass(Early(x), Early(y), Late(x))
  {
    hide Trim, Less;
    TrimmedIds();
    TwoUnknownAges(Early(x), Early(y));
    TwoUnknownAges(Early(y), Late(x));
  }

  lemma TrimmedIds()
    ensures Less(Trim("a"), Trim("b"))
  {
    hide Trim;
    TrimFixed("a");
    TrimFixed("b");
  }

  lemma SameKeyTied(a: Device, b: Device, c: Device)
    requires SameKey(a, b) && SameKey(b, c)
    ensures Tied(a, c)
  {
    hide Less, Trim;
    LessAsymmetric(Trim(a.id), Trim(a.id));
  }

  // ---- the order of the list ----

  ghost predicate SameRecords(xs: seq<Device>, ys: seq<Device>)
  {
    forall d :: d in xs <==> d in ys
  }

  ghost predicate AgesIn(xs: seq<Device>, ages: iset<int>)
  {
    forall i :: 0 <= i < |xs| ==> xs[i].age in ages
  }

  /** Two lists of the same records select tied ones, whatever the ages. */
  lemma OrderOnlyBreaksTies(xs: seq<Device>, ys: seq<Device>, named: Device -> bool)
    requires SameRecords(xs, ys)
    ensures Selected(xs, named).Some? <==> Selected(ys, named).Some?
    ensures Selected(xs, named).Some? ==> Tied(Selected(xs, named).value, Selected(ys, named).value)
  {
    hide Selected, Preferred;
    SelectedIsMaximal(xs, named);
    SelectedIsMaximal(ys, named);
    if Selected(xs, named).Some? {
      assert Selected(xs, named).value in ys;
    }
    if Selected(ys, named).Some? {
      assert Selected(ys, named).value in xs;
    }
  }

  // Whichever list is read, the record selected has the same key.
  ghost predicate SameChoice(xs: seq<Device>, ys: seq<Device>, named: Device -> bool)
  {
    var a, b := Selected(xs, named), Selected(ys, named);
    a.Some? && b.Some? ==> SameKey(a.value, b.value)
  }

  // The order of a list of records with these ages never shows in the selected key.
  ghost predicate OrderHidden(ages: iset<int>)
  {
    forall xs: seq<Device>, ys: seq<Device>, named: Device -> bool ::
      SameRecords(xs, ys) && AgesIn(xs, ages) ==> SameChoice(xs, ys, named)
  }

  /** The order of the list never shows, for all lists of records with given ages, if and only if at most one of
      the ages is not positive. */
  lemma OrderHiddenExactly(ages: iset<int>)
    ensures OneUnknown(ages) <==> OrderHidden(ages)
  {
    hide SameKey, Selected, SameChoice, SameRecords, AgesIn, Tied;
    if OneUnknown(ages) {
      forall xs: seq<Device>, ys: seq<Device>, named: Device -> bool | SameRecords(xs, ys) && AgesIn(xs, ages)
        ensures SameChoice(xs, ys, named)
      {
        SameSelected(xs, ys, named, ages);
      }
    } else {
      var x, y :| x in ages && y in ages && x <= 0 && y <= 0 && x != y;
      TwoUnknownAges(Early(x), Early(y));
      OrderNotHidden(Early(x), Early(y), ages);
    }
  }

  lemma OrderNotHidden(a: Device, b: Device, ages: iset<int>)
    requires a.age in ages && b.age in ages
    ensures Tied(a, b) && !SameKey(a, b) ==> !OrderHidden(ages)
  {
    hide SameKey, Selected, SameChoice, SameRecords, AgesIn, Tied, Early;
    if Tied(a, b) && !SameKey(a, b) {
      var xs, ys, all := [a, b], [b, a], (d: Device) => true;
      OrderShows(a, b, ages, all);
      assert SameRecords(xs, ys) && AgesIn(xs, ages) && !SameChoice(xs, ys, all);
    }
  }

  lemma SameSelected(xs: seq<Device>, ys: seq<Device>, named: Device -> bool, ages: iset<int>)
    requires SameRecords(xs, ys) && AgesIn(xs, ages) && OneUnknown(ages)
    ensures SameChoice(xs, ys, named)
  {
    hide Selected, Tied, SameKey;
    OrderOnlyBreaksTies(xs, ys, named);
    SelectedIsMaximal(xs, named);
    SelectedIsMaximal(ys, named);
    if Selected(xs, named).Some? {
      var a, b := Selected(xs, named).value, Selected(ys, named).value;
      assert a in xs && b in xs;
      TieAgrees(a, b);
    }
  }

  lemma OrderShows(a: Device, b: Device, ages: iset<int>, all: Device -> bool)
    requires a.age in ages && b.age in ages && all(a) && all(b) && Tied(a, b) && !SameKey(a, b)
    ensures SameRecords([a, b], [b, a]) && AgesIn([a, b], ages)
    ensures !SameChoice([a, b], [b, a], all)
  {
    hide *;
    Swapped(a, b, [a, b], [b, a], ages);
    Differ(a, b, [a, b], [b, a], all);
  }

  lemma Differ(a: Device, b: Device, xs: seq<Device>, ys: seq<Device>, all: Device -> bool)
    requires xs == [a, b] && ys == [b, a] && all(a) && all(b) && Tied(a, b) && !SameKey(a, b)
    ensures !SameChoice(xs, ys, all)
  {
    hide Selected, Preferred, SameKey;
    SelectsFirst(a, b, all);
    SelectsFirst(b, a, all);
  }

  lemma Swapped(a: Device, b: Device, xs: seq<Device>, ys: seq<Device>, ages: iset<int>)
    requires xs == [a, b] && ys == [b, a] && a.age in ages && b.age in ages
    ensures SameRecords(xs, ys) && AgesIn(xs, ages)
  {
    forall d
      ensures d in xs <==> d in ys
    {
      assert d in xs <==> d == xs[0] || d == xs[1];
      assert d in ys <==> d == ys[0] || d == ys[1];
    }
  }

  lemma SelectsFirst(a: Device, b: Device, all: Device -> bool)
    requires !Preferred(b, a) && all(a) && all(b)
    ensures Selected([a, b], all) == Some(a)
  {
    hide Preferred;
    var one := [a];
    assert one[..0] == [];
    assert Selected(one, all) == Some(a);
    assert [a, b][..1] == one;
  }

  /** Where ties are harmless, the fold keeps the first of the best records: it is preferred to every matching
      record before it. */
  lemma {:induction false} SelectedIsFirst(devices: seq<Device>, named: Device -> bool, ages: iset<int>) returns (k: nat)
    requires OneUnknown(ages) && AgesIn(devices, ages) && Selected(devices, named).Some?
    ensures k < |devices| && Selected(devices, named) == Some(devices[k])
    ensures forall i :: 0 <= i < k && named(devices[i]) ==> Preferred(devices[k], devices[i])
  {
    hide Preferred, SameKey;
    var n := |devices| - 1;
    var before, last := devices[..n], devices[n];
    var best := Selected(before, named);
    assert forall i :: 0 <= i < n ==> devices[i] == before[i];
    if named(last) && (best == None || Preferred(last, best.value)) {
      k := n;
      SelectedIsMaximal(before, named);
      if best.Some? {
        forall i | 0 <= i < n && named(devices[i])
          ensures Preferred(last, devices[i])
        {
          BeatsTheRest(last, best.value, before[i]);
        }
      }
    } else {
      k := SelectedIsFirst(before, named, ages);
    }
  }

  lemma BeatsTheRest(a: Device, best: Device, c: Device)
    requires Preferred(a, best) && !Preferred(c, best)
    requires best.age <= 0 && c.age <= 0 ==> best.age == c.age
    ensures Preferred(a, c)
  {
    hide Preferred, SameKey;
    if Preferred(best, c) {
      PreferredTransitive(a, best, c);
    } else {
      TieAgrees(best, c);
      PreferredToSameKey(a, best, c);
    }
  }

  lemma PreferredToSameKey(a: Device, b: Device, c: Device)
    requires SameKey(b, c) && Preferred(a, b)
    ensures Preferred(a, c)
  {
    hide Less, Trim, Online;
  }
}
