/** Nearest-rank percentiles, as the latency reports and the virtual-harness gate compute them.
    Quantiles are exact reals; the float64 product quantile * n is not modelled. */
module NearestRank {

  predicate Ascending(s: seq<int>)
  {
    forall i, j :: 0 <= i < j < |s| ==> s[i] <= s[j]
  }

  function Insert(x: int, s: seq<int>): (r: seq<int>)
    requires Ascending(s)
    ensures Ascending(r) && |r| == |s| + 1
    ensures r[0] == if s == [] || x <= s[0] then x else s[0]
  {
    if s == [] || x <= s[0] then [x] + s else [s[0]] + Insert(x, s[1..])
  }

  // sorted(samples), and sort.Slice on a copy.
  function Sort(s: seq<int>): (r: seq<int>)
    ensures Ascending(r) && |r| == |s|
  {
    if s == [] then [] else Insert(s[0], Sort(s[1..]))
  }

  lemma {:induction false} InsertKeeps(x: int, s: seq<int>)
    requires Ascending(s)
    ensures multiset(Insert(x, s)) == multiset(s) + multiset{x}
  {
    if s != [] && x > s[0] {
      InsertKeeps(x, s[1..]);
      HeadAndTail(s);
      OneInFront(s[0], Insert(x, s[1..]));
    } else {
      OneInFront(x, s);
    }
    hide Ascending;
  }

  lemma OneInFront(x: int, s: seq<int>)
    ensures multiset([x] + s) == multiset(s) + multiset{x}
  {
    assert ([x] + s)[1..] == s;
    HeadAndTail([x] + s);
  }

  lemma HeadAndTail(s: seq<int>)
    requires s != []
    ensures multiset(s) == multiset(s[1..]) + multiset{s[0]}
  {
    assert s == [s[0]] + s[1..];
  }

  lemma {:induction false} SortKeeps(s: seq<int>)
    ensures multiset(Sort(s)) == multiset(s)
  {
    if s != [] {
      hide Insert, Ascending;
      SortKeeps(s[1..]);
      InsertKeeps(s[0], Sort(s[1..]));
      HeadAndTail(s);
    }
  }

  function AtMost(s: seq<int>, v: int): (n: nat)
    ensures n <= |s|
  {
    if s == [] then 0 else (if s[0] <= v then 1 else 0) + AtMost(s[1..], v)
  }

  function AtLeast(s: seq<int>, v: int): (n: nat)
    ensures n <= |s|
  {
    if s == [] then 0 else (if s[0] >= v then 1 else 0) + AtLeast(s[1..], v)
  }

  lemma {:induction false} CountsOfInsert(x: int, s: seq<int>, v: int)
    requires Ascending(s)
    ensures AtMost(Insert(x, s), v) == AtMost(s, v) + if x <= v then 1 else 0
    ensures AtLeast(Insert(x, s), v) == AtLeast(s, v) + if x >= v then 1 else 0
  {
    var r := Insert(x, s);
    if s == [] || x <= s[0] {
      assert r[1..] == s;
    } else {
      CountsOfInsert(x, s[1..], v);
      assert r[1..] == Insert(x, s[1..]);
    }
  }

  lemma {:induction false} CountsOfSort(s: seq<int>, v: int)
    ensures AtMost(Sort(s), v) == AtMost(s, v) && AtLeast(Sort(s), v) == AtLeast(s, v)
  {
    if s != [] {
      CountsOfSort(s[1..], v);
      CountsOfInsert(s[0], Sort(s[1..]), v);
    }
  }

  lemma {:induction false} CountsOfAscending(s: seq<int>, k: nat, v: int)
    requires Ascending(s) && k < |s|
    ensures s[k] <= v <==> AtMost(s, v) > k
    ensures s[k] >= v <==> AtLeast(s, v) >= |s| - k
  {
    if s[0] > v {
      NoneAtMost(s, v);
    }
    if k > 0 {
      CountsOfAscending(s[1..], k - 1, v);
    } else {
      if s[0] >= v {
        AllAtLeast(s, v);
      }
    }
  }

  lemma {:induction false} NoneAtMost(s: seq<int>, v: int)
    requires Ascending(s) && s != [] && s[0] > v
    ensures AtMost(s, v) == 0
  {
    if |s| > 1 {
      NoneAtMost(s[1..], v);
    }
  }

  lemma {:induction false} AllAtLeast(s: seq<int>, v: int)
    requires Ascending(s) && s != [] && s[0] >= v
    ensures AtLeast(s, v) == |s|
  {
    if |s| > 1 {
      AllAtLeast(s[1..], v);
    }
  }

  lemma {:induction false} AscendingUnique(a: seq<int>, b: seq<int>)
    requires Ascending(a) && Ascending(b) && multiset(a) == multiset(b)
    ensures a == b
  {
    assert |a| == |multiset(a)| == |multiset(b)| == |b|;
    if a != [] {
      SmallestFirst(a, b);
      SmallestFirst(b, a);
      DropEqualHeads(a, b);
      AscendingUnique(a[1..], b[1..]);
      assert a == [a[0]] + a[1..] && b == [b[0]] + b[1..];
    }
  }

  lemma SmallestFirst(a: seq<int>, b: seq<int>)
    requires Ascending(b) && multiset(a) == multiset(b) && a != []
    ensures b != [] && b[0] <= a[0]
  {
    assert a[0] in multiset(b);
    var i :| 0 <= i < |b| && b[i] == a[0];
  }

  lemma DropEqualHeads(a: seq<int>, b: seq<int>)
    requires a != [] && b != [] && a[0] == b[0] && multiset(a) == multiset(b)
    ensures multiset(a[1..]) == multiset(b[1..])
  {
    HeadAndTail(a);
    HeadAndTail(b);
    assert multiset(a[1..]) == multiset(a) - multiset{a[0]};
    assert multiset(b[1..]) == multiset(b) - multiset{b[0]};
  }

  function Ceiling(x: real): (n: int)
    ensures n as real - 1.0 < x <= n as real
  {
    -((-x).Floor)
  }

  // The position read out of the sorted samples, kept inside the list.
  function RankIndex(n: nat, quantile: real): (i: nat)
    requires n > 0
    ensures i < n
    ensures 0.0 < quantile <= 1.0 ==> i + 1 == Ceiling(quantile * n as real)
  {
    assert quantile <= 1.0 ==> quantile * n as real <= n as real;
    assert 0.0 < quantile ==> 0.0 < quantile * n as real;
    Clamp(n, Ceiling(quantile * n as real) - 1)
  }

  function Clamp(n: nat, rank: int): (i: nat)
    requires n > 0
    ensures i < n
  {
    if rank < 0 then 0 else if rank >= n then n - 1 else rank
  }

  function Percentile(samples: seq<int>, quantile: real): (v: int)
    requires samples != []
  {
    Sort(samples)[RankIndex(|samples|, quantile)]
  }

  /** Which value is returned: the percentile is at most t exactly when at least rank many samples are, and
      at least t exactly when enough are at least t. Being a sample, it is thereby pinned down. */
  lemma PercentileCounts(samples: seq<int>, quantile: real, t: int)
    requires samples != []
    ensures var k := RankIndex(|samples|, quantile) + 1;
            && Percentile(samples, quantile) in samples
            && (Percentile(samples, quantile) <= t <==> AtMost(samples, t) >= k)
            && (Percentile(samples, quantile) >= t <==> AtLeast(samples, t) >= |samples| - k + 1)
  {
    var sorted := Sort(samples);
    var k := RankIndex(|samples|, quantile);
    SortKeeps(samples);
    assert sorted[k] in multiset(samples);
    CountsOfSort(samples, t);
    CountsOfAscending(sorted, k, t);
  }

  lemma PercentileIgnoresOrder(a: seq<int>, b: seq<int>, quantile: real)
    requires a != [] && multiset(a) == multiset(b)
    ensures b != [] && Percentile(a, quantile) == Percentile(b, quantile)
  {
    assert |a| == |multiset(a)| == |multiset(b)| == |b|;
    SortKeeps(a);
    SortKeeps(b);
    AscendingUnique(Sort(a), Sort(b));
  }

  lemma PercentileGrowsWithQuantile(samples: seq<int>, low: real, high: real)
    requires samples != [] && low <= high
    ensures Percentile(samples, low) <= Percentile(samples, high)
  {
    hide RankIndex, Insert, Sort;
    RankGrows(|samples|, low, high);
  }

  lemma RankGrows(n: nat, low: real, high: real)
    requires n > 0 && low <= high
    ensures RankIndex(n, low) <= RankIndex(n, high)
  {
    hide RankIndex, Ceiling, Clamp;
    ProductGrows(low, high, n as real);
    CeilingGrows(low * n as real, high * n as real);
    RankIndexIs(n, low);
    RankIndexIs(n, high);
    ClampGrows(n, Ceiling(low * n as real) - 1, Ceiling(high * n as real) - 1);
  }

  lemma RankIndexIs(n: nat, quantile: real)
    requires n > 0
    ensures RankIndex(n, quantile) == Clamp(n, Ceiling(quantile * n as real) - 1)
  {
    hide Ceiling, Clamp;
  }

  lemma ClampGrows(n: nat, a: int, b: int)
    requires n > 0 && a <= b
    ensures Clamp(n, a) <= Clamp(n, b)
  {
  }

  lemma CeilingGrows(x: real, y: real)
    requires x <= y
    ensures Ceiling(x) <= Ceiling(y)
  {
  }

  lemma ProductGrows(low: real, high: real, n: real)
    requires low <= high && n >= 0.0
    ensures low * n <= high * n
  {
  }

  // ---- durations in nanoseconds, reported in microseconds ----

  // Duration.Microseconds: integer division truncating toward zero.
  function Microseconds(d: int): (us: int)
    ensures d >= 0 ==> us * 1000 <= d < us * 1000 + 1000
    ensures d < 0 ==> us * 1000 - 1000 < d <= us * 1000
  {
    if d >= 0 then d / 1000 else -(-d / 1000)
  }

  function PercentileUS(samples: seq<int>, quantile: real): (us: int)
  {
    if samples == [] then 0 else Microseconds(Percentile(samples, quantile))
  }

  ghost predicate Extremes(samples: seq<int>, lo: int, hi: int)
  {
    lo in samples && hi in samples && forall x :: x in samples ==> lo <= x <= hi
  }

  method JitterUS(samples: seq<int>) returns (us: int)
    ensures samples == [] ==> us == 0
    ensures samples != [] ==> exists lo, hi :: Extremes(samples, lo, hi) && us == Microseconds(hi - lo)
  {
    if samples == [] {
      return 0;
    }
    var minimum, maximum := samples[0], samples[0];
    for i := 1 to |samples|
      invariant Extremes(samples[..i], minimum, maximum)
    {
      var sample := samples[i];
      assert samples[..i + 1] == samples[..i] + [sample];
      if sample < minimum {
        minimum := sample;
      }
      if sample > maximum {
        maximum := sample;
      }
    }
    assert samples[..|samples|] == samples;
    return Microseconds(maximum - minimum);
  }

  /** The spread between any two percentiles is at most the jitter, up to the microsecond lost in rounding;
      the excess of one does occur (see PairExceeds). */
  lemma SpreadWithinJitter(samples: seq<int>, low: real, high: real, lo: int, hi: int)
    requires Extremes(samples, lo, hi)
    ensures PercentileUS(samples, high) - PercentileUS(samples, low) <= Microseconds(hi - lo) + 1
  {
    hide Percentile, RankIndex, AtMost, AtLeast;
    PercentileCounts(samples, low, lo);
    PercentileCounts(samples, high, hi);
    RoundedSpread(Percentile(samples, high), Percentile(samples, low), hi, lo);
  }

  lemma RoundedSpread(b: int, a: int, hi: int, lo: int)
    requires lo <= a <= hi && lo <= b <= hi
    ensures Microseconds(b) - Microseconds(a) <= Microseconds(hi - lo) + 1
  {
  }

  // What is lost when a duration is cut to whole microseconds.
  function Remainder(d: int): (r: int)
    ensures -1000 < r < 1000
  {
    d - 1000 * Microseconds(d)
  }

  predicate Excess(samples: seq<int>, lo: int, hi: int)
  {
    PercentileUS(samples, 0.95) - PercentileUS(samples, 0.5) > Microseconds(hi - lo)
  }

  // Of any two durations, the longer loses no less.
  ghost predicate RemaindersGrow(durations: iset<int>)
  {
    forall a, b :: a in durations && b in durations && a <= b ==> Remainder(a) <= Remainder(b)
  }

  ghost predicate SpreadStays(durations: iset<int>)
  {
    forall samples: seq<int>, lo, hi ::
      Extremes(samples, lo, hi) && (forall x :: x in samples ==> x in durations) ==> !Excess(samples, lo, hi)
  }

  /** For samples drawn from given durations, P95 minus P50 never exceeds the jitter if and only if no shorter
      duration loses more below a microsecond than a longer one. Whole microseconds never do. */
  lemma SpreadStaysExactly(durations: iset<int>)
    ensures SpreadStays(durations) <==> RemaindersGrow(durations)
    ensures (forall d :: d in durations ==> d % 1000 == 0) ==> RemaindersGrow(durations)
  {
    hide Extremes, Excess, Remainder;
    if RemaindersGrow(durations) {
      forall samples: seq<int>, lo, hi | Extremes(samples, lo, hi) && (forall x :: x in samples ==> x in durations)
        ensures !Excess(samples, lo, hi)
      {
        NoExcess(samples, lo, hi, durations);
      }
    } else {
      var a, b :| a in durations && b in durations && a <= b && Remainder(a) > Remainder(b);
      PairExceeds(a, b);
      assert forall x :: x in [a, b] ==> x in durations;
    }
    forall d | d % 1000 == 0
      ensures Remainder(d) == 0
    {
      NothingLost(d);
    }
  }

  lemma NothingLost(d: int)
    requires d % 1000 == 0
    ensures Remainder(d) == 0
  {
  }

  lemma NoExcess(samples: seq<int>, lo: int, hi: int, durations: iset<int>)
    requires Extremes(samples, lo, hi) && RemaindersGrow(durations) && forall x :: x in samples ==> x in durations
    ensures !Excess(samples, lo, hi)
  {
    hide Percentile, RankIndex, AtMost, AtLeast;
    PercentileCounts(samples, 0.5, lo);
    PercentileCounts(samples, 0.95, hi);
    PercentileGrowsWithQuantile(samples, 0.5, 0.95);
    CutSpread(Percentile(samples, 0.5), Percentile(samples, 0.95), lo, hi);
  }

  lemma CutSpread(a: int, b: int, lo: int, hi: int)
    requires lo <= a <= b <= hi && Remainder(a) <= Remainder(b)
    ensures Microseconds(b) - Microseconds(a) <= Microseconds(hi - lo)
  {
  }

  /** Two such samples show the excess. */
  lemma PairExceeds(a: int, b: int)
    requires a <= b && Remainder(a) > Remainder(b)
    ensures Extremes([a, b], a, b) && Excess([a, b], a, b)
  {
    hide Percentile;
    PairRead(a, b);
  }

  lemma PairRead(a: int, b: int)
    requires a <= b
    ensures Percentile([a, b], 0.95) == b && Percentile([a, b], 0.5) == a
  {
    assert [a, b][1..] == [b] && [b][1..] == [];
    assert Sort([b]) == [b];
    assert Sort([a, b]) == [a, b];
    assert RankIndex(2, 0.95) == 1;
    assert RankIndex(2, 0.5) == 0;
  }
}

/** Repeated harness runs and the gate over them. */
module RepeatedRuns {
  import opened Wrappers
  import opened NearestRank
  import opened VirtualHarness

  datatype RunReport = RunReport(firstAudioMs: Option<int>, abortStopMs: Option<int>)

  // [report[field] for report in runs if it is an int]
  function Values(column: seq<Option<int>>): (r: seq<int>)
    ensures |r| <= |column|
    ensures |r| == |column| <==> forall i :: 0 <= i < |column| ==> column[i].Some?
    ensures |r| == |column| ==> forall i :: 0 <= i < |column| ==> r[i] == column[i].value
  {
    if column == [] then []
    else (match column[0] case Some(v) => [v] case None => []) + Values(column[1..])
  }

  function FirstAudio(runs: seq<RunReport>): (r: seq<Option<int>>)
  {
    seq(|runs|, i requires 0 <= i < |runs| => runs[i].firstAudioMs)
  }

  function AbortStops(runs: seq<RunReport>): (r: seq<Option<int>>)
  {
    seq(|runs|, i requires 0 <= i < |runs| => runs[i].abortStopMs)
  }

  function Percentile95(samples: seq<int>): (p: Option<int>)
  {
    if samples == [] then None else Some(Percentile(samples, 0.95))
  }

  predicate Below(p: Option<int>, limit: int)
  {
    p.Some? && p.value < limit
  }

  function HostCandidate(runs: seq<RunReport>, exitCodes: seq<int>, abortMode: bool): (ok: bool)
  {
    var audio := Values(FirstAudio(runs));
    var aborts := Values(AbortStops(runs));
    && |runs| >= 3
    && runs != [] && (forall i :: 0 <= i < |exitCodes| ==> exitCodes[i] == 0)
    && |audio| == |runs|
    && Below(Percentile95(audio), 1500)
    && (abortMode ==> |aborts| == |runs| && Below(Percentile95(aborts), 300))
  }

  // Every run has the figure, and at least 95 in 100 of them are below the limit.
  predicate MostBelow(column: seq<Option<int>>, limit: int)
  {
    && (forall i :: 0 <= i < |column| ==> column[i].Some?)
    && 20 * AtMost(Values(column), limit - 1) >= 19 * |column|
  }

  lemma RankOf95(n: nat)
    requires n > 0
    ensures RankIndex(n, 0.95) + 1 == (19 * n + 19) / 20
    ensures n < 20 ==> RankIndex(n, 0.95) + 1 == n
  {
    var k := Ceiling(0.95 * n as real);
    assert 20.0 * (0.95 * n as real) == (19 * n) as real;
    assert (20 * k - 20) as real < (19 * n) as real <= (20 * k) as real;
  }

  lemma EnoughOf95(n: nat, count: nat)
    ensures count >= (19 * n + 19) / 20 <==> 20 * count >= 19 * n
  {
  }

  lemma ColumnGate(column: seq<Option<int>>, limit: int)
    requires column != []
    ensures |Values(column)| == |column| && Below(Percentile95(Values(column)), limit) <==> MostBelow(column, limit)
  {
    var samples := Values(column);
    if |samples| == |column| {
      PercentileCounts(samples, 0.95, limit - 1);
      RankOf95(|samples|);
      EnoughOf95(|samples|, AtMost(samples, limit - 1));
      hide Percentile, RankIndex, AtMost, Values;
      assert Below(Percentile95(samples), limit) <==> AtMost(samples, limit - 1) >= RankIndex(|samples|, 0.95) + 1;
    }
  }

  // The figures up to a value, by their positions.
  function UpTo(samples: seq<int>, v: int): (at: set<nat>)
  {
    set i: nat | i < |samples| && samples[i] <= v
  }

  lemma {:induction false} AtMostSnoc(samples: seq<int>, x: int, v: int)
    ensures AtMost(samples + [x], v) == AtMost(samples, v) + if x <= v then 1 else 0
  {
    var all := samples + [x];
    if samples == [] {
      assert all[1..] == [];
    } else {
      AtMostSnoc(samples[1..], x, v);
      assert all[1..] == samples[1..] + [x];
    }
  }

  lemma {:induction false} CountUpTo(samples: seq<int>, v: int)
    ensures AtMost(samples, v) == |UpTo(samples, v)|
  {
    hide AtMost;
    if samples == [] {
      NoneUpTo(v);
    } else {
      var n := |samples| - 1;
      CountUpTo(samples[..n], v);
      AtMostSnoc(samples[..n], samples[n], v);
      assert samples[..n] + [samples[n]] == samples;
      assert UpTo(samples, v) == if samples[n] <= v then UpTo(samples[..n], v) + {n} else UpTo(samples[..n], v);
    }
  }

  lemma NoneUpTo(v: int)
    ensures AtMost([], v) == 0 && UpTo([], v) == {}
  {
  }

  predicate Quick(figure: Option<int>, limit: int)
  {
    figure.Some? && figure.value < limit
  }

  lemma MostQuick(column: seq<Option<int>>, limit: int)
    ensures MostBelow(column, limit) <==>
      && (forall i :: 0 <= i < |column| ==> column[i].Some?)
      && 20 * |set i: nat | i < |column| && Quick(column[i], limit)| >= 19 * |column|
  {
    var samples := Values(column);
    CountUpTo(samples, limit - 1);
    hide AtMost, Values;
    if forall i :: 0 <= i < |column| ==> column[i].Some? {
      assert UpTo(samples, limit - 1) == set i: nat | i < |column| && Quick(column[i], limit);
    }
  }

  /** The gate says exactly this: at least three runs, none failed, and at least 95 in 100 of them under
      1500 ms to first audio, and in abort mode under 300 ms to stop, with no run missing the figure. */
  lemma HostCandidateMeans(runs: seq<RunReport>, exitCodes: seq<int>, abortMode: bool)
    ensures HostCandidate(runs, exitCodes, abortMode) <==>
      && |runs| >= 3
      && (forall i :: 0 <= i < |exitCodes| ==> exitCodes[i] == 0)
      && (forall i :: 0 <= i < |runs| ==> runs[i].firstAudioMs.Some?)
      && (abortMode ==> forall i :: 0 <= i < |runs| ==> runs[i].abortStopMs.Some?)
      && 20 * |set i: nat | i < |runs| && Quick(runs[i].firstAudioMs, 1500)| >= 19 * |runs|
      && (abortMode ==> 20 * |set i: nat | i < |runs| && Quick(runs[i].abortStopMs, 300)| >= 19 * |runs|)
  {
    hide MostBelow, Values, Percentile95, Quick;
    if |runs| >= 3 {
      ColumnGate(FirstAudio(runs), 1500);
      ColumnGate(AbortStops(runs), 300);
    }
    var audio, aborts := FirstAudio(runs), AbortStops(runs);
    MostQuick(audio, 1500);
    MostQuick(aborts, 300);
    assert forall i :: 0 <= i < |runs| ==> audio[i] == runs[i].firstAudioMs && aborts[i] == runs[i].abortStopMs;
    assert (forall i :: 0 <= i < |audio| ==> audio[i].Some?) <==> forall i :: 0 <= i < |runs| ==> runs[i].firstAudioMs.Some?;
    assert (forall i :: 0 <= i < |aborts| ==> aborts[i].Some?) <==> forall i :: 0 <= i < |runs| ==> runs[i].abortStopMs.Some?;
    assert (set i: nat | i < |audio| && Quick(audio[i], 1500)) == set i: nat | i < |runs| && Quick(runs[i].firstAudioMs, 1500);
    assert (set i: nat | i < |aborts| && Quick(aborts[i], 300)) == set i: nat | i < |runs| && Quick(runs[i].abortStopMs, 300);
  }

  /** With fewer than twenty runs the 95th percentile is the slowest one: no run may be late. */
  lemma FewRunsAllBelow(column: seq<Option<int>>, limit: int)
    requires |column| < 20
    ensures MostBelow(column, limit) <==> forall i :: 0 <= i < |column| ==> column[i].Some? && column[i].value < limit
  {
    var samples := Values(column);
    if |samples| == |column| {
      AllCounted(samples, limit - 1);
    }
  }

  lemma {:induction false} AllCounted(s: seq<int>, v: int)
    ensures AtMost(s, v) == |s| <==> forall i :: 0 <= i < |s| ==> s[i] <= v
  {
    if s != [] {
      AllCounted(s[1..], v);
      if forall i :: 0 <= i < |s[1..]| ==> s[1..][i] <= v {
        forall i | 1 <= i < |s|
          ensures s[i] <= v
        {
          assert s[1..][i - 1] <= v;
        }
      }
    }
  }

  // The exit code of the whole command: the first run's that is not zero.
  method OverallExitCode(exitCodes: seq<int>) returns (code: int)
    ensures code == 0 <==> forall i :: 0 <= i < |exitCodes| ==> exitCodes[i] == 0
    ensures code != 0 ==>
      exists i :: 0 <= i < |exitCodes| && exitCodes[i] == code && forall j :: 0 <= j < i ==> exitCodes[j] == 0
  {
    code := 0;
    for i := 0 to |exitCodes|
      invariant code == 0 && forall j :: 0 <= j < i ==> exitCodes[j] == 0
    {
      if exitCodes[i] != 0 {
        code := exitCodes[i];
        return;
      }
    }
  }
}
