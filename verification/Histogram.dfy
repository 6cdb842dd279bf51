/**
 The histogram reporter (crates/mysten-metrics/src/histogram.rs): each report sorts a window of points
 per label, sets one gauge per percentile, adds to the sum and count counters, and resets the gauges
 of known labels without data to zero.
 */
module Histogram {
  import opened ChainTypes

  type Label = seq<string>
  type Window = map<Label, seq<nat>>

  /** The exported metrics and the labels seen so far. */
  datatype Metrics = Metrics(gauges: Gauges, sums: map<Label, nat>, counts: map<Label, nat>, known: set<Label>)

  const NOTHING := Metrics(map[], map[], map[], {})

  type Gauges = map<(Label, nat), nat>

  function Gauge(gauges: Gauges, l: Label, pct: nat): Option<nat> {
    if (l, pct) in gauges then Some(gauges[(l, pct)]) else None
  }

  function Counter(counters: map<Label, nat>, l: Label): nat { if l in counters then counters[l] else 0 }

  function Sum(data: seq<nat>): nat { if data == [] then 0 else data[0] + Sum(data[1..]) }

  function Points(w: Window, l: Label): seq<nat> { if l in w then w[l] else [] }

  // ---------------------------------------------------------------- sorting

  predicate Sorted(s: seq<nat>) { forall i, j | 0 <= i < j < |s| :: s[i] <= s[j] }

  function Insert(x: nat, s: seq<nat>): seq<nat> {
    if s == [] || x <= s[0] then [x] + s else [s[0]] + Insert(x, s[1..])
  }

  function Sort(s: seq<nat>): seq<nat> { if s == [] then [] else Insert(s[0], Sort(s[1..])) }

  lemma {:induction false} InsertSorts(x: nat, s: seq<nat>)
    requires Sorted(s)
    ensures Sorted(Insert(x, s)) && forall y | y in Insert(x, s) :: y == x || y in s
  {
    if s != [] && x > s[0] {
      InsertSorts(x, s[1..]);
      var rest := Insert(x, s[1..]);
      forall i | 0 <= i < |rest| ensures s[0] <= rest[i] {
        assert rest[i] in rest;
        if rest[i] in s[1..] {
          var k :| 0 <= k < |s[1..]| && s[1..][k] == rest[i];
          assert s[k + 1] == rest[i];
        }
      }
    }
  }

  lemma {:induction false} InsertKeeps(x: nat, s: seq<nat>)
    ensures multiset(Insert(x, s)) == multiset(s) + multiset{x} && Sum(Insert(x, s)) == x + Sum(s)
  {
    if s == [] || x <= s[0] {
      assert ([x] + s)[1..] == s;
    } else {
      var rest := Insert(x, s[1..]);
      InsertKeeps(x, s[1..]);
      assert s == [s[0]] + s[1..] && ([s[0]] + rest)[1..] == rest;
    }
  }

  /** Sorting orders the points and keeps them, so it keeps their number and their sum. */
  lemma {:induction false} SortOk(s: seq<nat>)
    ensures Sorted(Sort(s)) && multiset(Sort(s)) == multiset(s) && |Sort(s)| == |s| && Sum(Sort(s)) == Sum(s)
  {
    if s != [] {
      SortOk(s[1..]);
      InsertSorts(s[0], Sort(s[1..]));
      InsertKeeps(s[0], Sort(s[1..]));
      assert s == [s[0]] + s[1..];
    }
    assert |multiset(Sort(s))| == |Sort(s)| && |multiset(s)| == |s|;
  }

  // ---------------------------------------------------------------- percentiles

  function PctIndex(len: nat, pct: nat): nat { len * pct / 1000 }

  /** The index is in bounds for every window exactly when the percentile is below 1000. */
  lemma IndexInBoundsIff(len: nat, pct: nat)
    requires len > 0
    ensures PctIndex(len, pct) < len <==> pct < 1000
  {
    if pct < 1000 {
      assert len * pct <= len * 999;
    } else {
      assert len * pct >= len * 1000;
    }
  }

  /** The point a gauge reports. */
  function PointAt(data: seq<nat>, pct: nat): nat
    requires data != [] && pct < 1000
  {
    SortOk(data);
    IndexInBoundsIff(|data|, pct);
    Sort(data)[PctIndex(|data|, pct)]
  }

  function CountBelow(s: seq<nat>, x: nat): nat {
    if s == [] then 0 else (if s[0] < x then 1 else 0) + CountBelow(s[1..], x)
  }

  lemma {:induction false} CountBelowSplit(a: seq<nat>, b: seq<nat>, x: nat)
    ensures CountBelow(a + b, x) == CountBelow(a, x) + CountBelow(b, x)
  {
    if a == [] {
      assert a + b == b;
    } else {
      CountBelowSplit(a[1..], b, x);
      assert a + b == [a[0]] + (a[1..] + b);
    }
  }

  lemma {:induction false} AllBelow(s: seq<nat>, x: nat)
    requires forall i | 0 <= i < |s| :: s[i] < x
    ensures CountBelow(s, x) == |s|
  {
    if s == [] {
    } else {
      AllBelow(s[1..], x);
    }
  }

  lemma {:induction false} NoneBelow(s: seq<nat>, x: nat)
    requires forall i | 0 <= i < |s| :: s[i] >= x
    ensures CountBelow(s, x) == 0
  {
    if s == [] {
    } else {
      NoneBelow(s[1..], x);
    }
  }

  lemma {:induction false} AtMostAll(s: seq<nat>, x: nat)
    ensures CountBelow(s, x) <= |s|
  {
    if s == [] {
    } else {
      AtMostAll(s[1..], x);
    }
  }

  lemma CountOfCons(y: nat, s: seq<nat>, x: nat)
    ensures CountBelow([y] + s, x) == (if y < x then 1 else 0) + CountBelow(s, x)
  {
    assert ([y] + s)[1..] == s;
  }

  lemma {:induction false} CountOfInsert(y: nat, s: seq<nat>, x: nat)
    ensures CountBelow(Insert(y, s), x) == CountBelow(s, x) + if y < x then 1 else 0
  {
    if s == [] || y <= s[0] {
      CountOfCons(y, s, x);
    } else {
      CountOfInsert(y, s[1..], x);
      CountOfCons(s[0], Insert(y, s[1..]), x);
    }
  }

  lemma {:induction false} CountOfSort(s: seq<nat>, x: nat)
    ensures CountBelow(Sort(s), x) == CountBelow(s, x)
  {
    if s == [] {
    } else {
      CountOfSort(s[1..], x);
      CountOfInsert(s[0], Sort(s[1..]), x);
    }
  }

  lemma RankFromBelow(s: seq<nat>, k: nat)
    requires Sorted(s) && k < |s|
    ensures CountBelow(s, s[k]) <= k
  {
    assert s == s[..k] + s[k..];
    CountBelowSplit(s[..k], s[k..], s[k]);
    AtMostAll(s[..k], s[k]);
    NoneBelow(s[k..], s[k]);
  }

  lemma PrefixCount(s: seq<nat>, k: nat, x: nat)
    requires k <= |s|
    ensures CountBelow(s[..k], x) <= CountBelow(s, x)
  {
    assert s == s[..k] + s[k..];
    CountBelowSplit(s[..k], s[k..], x);
  }

  lemma RankFromAbove(s: seq<nat>, k: nat)
    requires Sorted(s) && k < |s|
    ensures k < CountBelow(s, s[k] + 1)
  {
    PrefixCount(s, k + 1, s[k] + 1);
    AllBelow(s[..k + 1], s[k] + 1);
  }

  /** At most k points lie below x, and more than k at or below it. */
  predicate HasRank(data: seq<nat>, x: nat, k: nat) {
    x in data && CountBelow(data, x) <= k < CountBelow(data, x + 1)
  }

  /** The k-th point in order, counted in the points as they came. */
  lemma RankOfPoint(data: seq<nat>, k: nat)
    requires k < |data| == |Sort(data)|
    ensures HasRank(data, Sort(data)[k], k)
  {
    var x := Sort(data)[k];
    SortOk(data);
    assert x in multiset(Sort(data));
    CountOfSort(data, x);
    CountOfSort(data, x + 1);
    RankFromBelow(Sort(data), k);
    RankFromAbove(Sort(data), k);
  }

  /** At most pct out of 1000 of the points lie below x, and more than that at or below it. */
  predicate IsPercentile(data: seq<nat>, x: nat, pct: nat) {
    x in data && 1000 * CountBelow(data, x) <= |data| * pct < 1000 * CountBelow(data, x + 1)
  }

  lemma FloorBetween(total: nat, below: nat, upTo: nat)
    requires below <= total / 1000 < upTo
    ensures 1000 * below <= total < 1000 * upTo
  {
  }

  /** The reported point is the percentile of the points. */
  lemma PointAtIsPercentile(data: seq<nat>, pct: nat)
    requires data != [] && pct < 1000
    ensures IsPercentile(data, PointAt(data, pct), pct)
  {
    var x := PointAt(data, pct);
    SortOk(data);
    IndexInBoundsIff(|data|, pct);
    RankOfPoint(data, PctIndex(|data|, pct));
    FloorBetween(|data| * pct, CountBelow(data, x), CountBelow(data, x + 1));
  }

  lemma {:induction false} CountBelowGrows(s: seq<nat>, x: nat, y: nat)
    requires x <= y
    ensures CountBelow(s, x) <= CountBelow(s, y)
  {
    if s == [] {
    } else {
      CountBelowGrows(s[1..], x, y);
    }
  }

  /** There is only one such point. */
  lemma PercentileIsUnique(data: seq<nat>, x: nat, y: nat, pct: nat)
    requires IsPercentile(data, x, pct) && IsPercentile(data, y, pct)
    ensures x == y
  {
    if x < y { CountBelowGrows(data, x + 1, y); }
    if y < x { CountBelowGrows(data, y + 1, x); }
  }

  // ---------------------------------------------------------------- a report

  predicate GoodWindow(w: Window) { forall l | l in w :: w[l] != [] }

  predicate GoodPercentiles(pcts: seq<nat>) { forall i | 0 <= i < |pcts| :: pcts[i] < 1000 }

  /** A gauge after label l was given a window. */
  function GaugeOfWindow(g: Gauges, pcts: seq<nat>, l: Label, data: seq<nat>, k: Label, pct: nat): Option<nat>
    requires data != [] && GoodPercentiles(pcts)
  {
    if k == l && pct in pcts then Some(PointAt(data, pct)) else Gauge(g, k, pct)
  }

  /** A gauge after label l was reset. */
  function GaugeReset(g: Gauges, pcts: seq<nat>, l: Label, k: Label, pct: nat): Option<nat> {
    if k == l && pct in pcts then Some(0) else Gauge(g, k, pct)
  }

  /** What a gauge holds after a report. */
  function GaugeAfter(m: Metrics, pcts: seq<nat>, w: Window, l: Label, pct: nat): Option<nat>
    requires GoodWindow(w) && GoodPercentiles(pcts)
  {
    if pct !in pcts then Gauge(m.gauges, l, pct)
    else if l in w then Some(PointAt(w[l], pct))
    else if l in m.known then Some(0)
    else Gauge(m.gauges, l, pct)
  }

  predicate GaugesOk(m: Metrics, pcts: seq<nat>, w: Window, m': Metrics, l: Label, pct: nat)
    requires GoodWindow(w) && GoodPercentiles(pcts)
  {
    Gauge(m'.gauges, l, pct) == GaugeAfter(m, pcts, w, l, pct)
  }

  predicate CountersOk(m: Metrics, w: Window, m': Metrics, l: Label) {
    && Counter(m'.sums, l) == Counter(m.sums, l) + Sum(Points(w, l))
    && Counter(m'.counts, l) == Counter(m.counts, l) + |Points(w, l)|
  }

  ghost predicate Reported(m: Metrics, pcts: seq<nat>, w: Window, m': Metrics)
    requires GoodWindow(w) && GoodPercentiles(pcts)
  {
    && m'.known == m.known + w.Keys
    && (forall l, pct :: GaugesOk(m, pcts, w, m', l, pct))
    && (forall l :: CountersOk(m, w, m', l))
  }

  /** A gauge after the labels in `done` were given their windows. */
  function GaugeDone(g: Gauges, pcts: seq<nat>, w: Window, done: set<Label>, k: Label, pct: nat): Option<nat>
    requires GoodWindow(w) && GoodPercentiles(pcts)
  {
    if k in done && k in w && pct in pcts then Some(PointAt(w[k], pct)) else Gauge(g, k, pct)
  }

  /** A gauge after the labels in `reset` were reset. */
  function GaugeCleared(g: Gauges, pcts: seq<nat>, reset: set<Label>, k: Label, pct: nat): Option<nat> {
    if k in reset && pct in pcts then Some(0) else Gauge(g, k, pct)
  }

  predicate Counted(m: Metrics, w: Window, done: set<Label>, m': Metrics, l: Label) {
    if l in done then CountersOk(m, w, m', l)
    else Counter(m'.sums, l) == Counter(m.sums, l) && Counter(m'.counts, l) == Counter(m.counts, l)
  }

  /** The counters of label k after label l was given a window. */
  predicate CountedOne(m: Metrics, l: Label, data: seq<nat>, m': Metrics, k: Label) {
    && Counter(m'.sums, k) == Counter(m.sums, k) + (if k == l then Sum(data) else 0)
    && Counter(m'.counts, k) == Counter(m.counts, k) + (if k == l then |data| else 0)
  }

  lemma GaugesGrow(g0: Gauges, pcts: seq<nat>, w: Window, done: set<Label>, g: Gauges, l: Label, g': Gauges)
    requires GoodWindow(w) && GoodPercentiles(pcts) && l in w
    requires forall k, p :: Gauge(g, k, p) == GaugeDone(g0, pcts, w, done, k, p)
    requires forall k, p :: Gauge(g', k, p) == GaugeOfWindow(g, pcts, l, w[l], k, p)
    ensures forall k, p :: Gauge(g', k, p) == GaugeDone(g0, pcts, w, done + {l}, k, p)
  {
    forall k, p ensures Gauge(g', k, p) == GaugeDone(g0, pcts, w, done + {l}, k, p) {
      assert Gauge(g, k, p) == GaugeDone(g0, pcts, w, done, k, p);
    }
  }

  lemma CountsGrow(m0: Metrics, w: Window, done: set<Label>, m: Metrics, l: Label, m': Metrics)
    requires l in w && l !in done
    requires forall k :: Counted(m0, w, done, m, k)
    requires forall k :: CountedOne(m, l, w[l], m', k)
    ensures forall k :: Counted(m0, w, done + {l}, m', k)
  {
    forall k ensures Counted(m0, w, done + {l}, m', k) {
      assert Counted(m0, w, done, m, k) && CountedOne(m, l, w[l], m', k);
    }
  }

  class HistogramReporter {
    const percentiles: seq<nat>
    var gauges: Gauges
    var sums: map<Label, nat>
    var counts: map<Label, nat>
    var known: set<Label>

    function View(): Metrics
      reads this
    {
      Metrics(gauges, sums, counts, known)
    }

    constructor (percentiles: seq<nat>)
      ensures View() == NOTHING && this.percentiles == percentiles
    {
      this.percentiles := percentiles;
      gauges, sums, counts, known := map[], map[], map[], {};
    }

    method SetGauge(l: Label, pct: nat, point: nat)
      modifies this`gauges
      ensures forall k, p :: Gauge(gauges, k, p) == if k == l && p == pct then Some(point) else Gauge(old(gauges), k, p)
    {
      gauges := gauges[(l, pct) := point];
    }

    /** Set the gauges of one label from its sorted points. */
    method SetGauges(l: Label, data: seq<nat>)
      requires data != [] && GoodPercentiles(percentiles)
      modifies this`gauges
      ensures forall k, p :: Gauge(gauges, k, p) == GaugeOfWindow(old(gauges), percentiles, l, data, k, p)
    {
      var sorted := Sort(data);
      SortOk(data);
      for i := 0 to |percentiles|
        invariant GoodPercentiles(percentiles[..i])
        invariant forall k, p :: Gauge(gauges, k, p) == GaugeOfWindow(old(gauges), percentiles[..i], l, data, k, p)
      {
        var pct := percentiles[i];
        assert pct in percentiles;
        assert forall p :: p in percentiles[..i + 1] <==> p in percentiles[..i] || p == pct;
        IndexInBoundsIff(|data|, pct);
        SetGauge(l, pct, sorted[PctIndex(|data|, pct)]);
      }
      assert percentiles[..|percentiles|] == percentiles;
    }

    method ResetGauges(l: Label)
      modifies this`gauges
      ensures forall k, p :: Gauge(gauges, k, p) == GaugeReset(old(gauges), percentiles, l, k, p)
    {
      for i := 0 to |percentiles|
        invariant forall k, p :: Gauge(gauges, k, p) == GaugeReset(old(gauges), percentiles[..i], l, k, p)
      {
        assert forall p :: p in percentiles[..i + 1] <==> p in percentiles[..i] || p == percentiles[i];
        SetGauge(l, percentiles[i], 0);
      }
      assert percentiles[..|percentiles|] == percentiles;
    }

    method SumPoints(data: seq<nat>) returns (sum: nat)
      ensures sum == Sum(data)
    {
      sum := 0;
      for i := 0 to |data|
        invariant sum + Sum(data[i..]) == Sum(data)
      {
        sum := sum + data[i];
      }
    }

    method Count(l: Label, data: seq<nat>)
      modifies this`sums, this`counts
      ensures forall k :: Counter(sums, k) == Counter(old(sums), k) + if k == l then Sum(data) else 0
      ensures forall k :: Counter(counts, k) == Counter(old(counts), k) + if k == l then |data| else 0
    {
      var sum := SumPoints(Sort(data));
      SortOk(data);
      sums := sums[l := Counter(sums, l) + sum];
      counts := counts[l := Counter(counts, l) + |data|];
    }

    method ReportLabel(l: Label, data: seq<nat>)
      requires data != [] && GoodPercentiles(percentiles)
      modifies this
      ensures known == old(known) + {l}
      ensures forall k, p :: Gauge(gauges, k, p) == GaugeOfWindow(old(gauges), percentiles, l, data, k, p)
      ensures forall k :: CountedOne(old(View()), l, data, View(), k)
    {
      known := known + {l};
      SetGauges(l, data);
      Count(l, data);
    }

    /** The labels that have points, in any order. */
    method ReportLabels(w: Window)
      requires GoodWindow(w) && GoodPercentiles(percentiles)
      modifies this
      ensures known == old(known) + w.Keys
      ensures forall k, p :: Gauge(gauges, k, p) == GaugeDone(old(gauges), percentiles, w, w.Keys, k, p)
      ensures forall l :: Counted(old(View()), w, w.Keys, View(), l)
    {
      var todo := w.Keys;
      ghost var done: set<Label> := {};
      while todo != {}
        invariant done !! todo && done + todo == w.Keys && known == old(known) + done
        invariant forall k, p :: Gauge(gauges, k, p) == GaugeDone(old(gauges), percentiles, w, done, k, p)
        invariant forall l :: Counted(old(View()), w, done, View(), l)
        decreases todo
      {
        var l :| l in todo;
        ghost var before := View();
        ReportLabel(l, w[l]);
        GaugesGrow(old(gauges), percentiles, w, done, before.gauges, l, gauges);
        CountsGrow(old(View()), w, done, before, l, View());
        done, todo := done + {l}, todo - {l};
      }
    }

    /** The labels that have none. */
    method ResetLabels(reset: set<Label>)
      modifies this`gauges
      ensures forall k, p :: Gauge(gauges, k, p) == GaugeCleared(old(gauges), percentiles, reset, k, p)
    {
      var todo := reset;
      while todo != {}
        invariant todo <= reset
        invariant forall k, p :: Gauge(gauges, k, p) == GaugeCleared(old(gauges), percentiles, reset - todo, k, p)
      {
        var l :| l in todo;
        ResetGauges(l);
        todo := todo - {l};
      }
      assert reset - todo == reset;
    }

    method Report(w: Window)
      requires GoodWindow(w) && GoodPercentiles(percentiles)
      modifies this
      ensures Reported(old(View()), percentiles, w, View())
    {
      var reset := known - w.Keys;
      ReportLabels(w);
      ghost var mid := View();
      ResetLabels(reset);
      forall l, pct ensures GaugesOk(old(View()), percentiles, w, View(), l, pct) {
        assert Gauge(gauges, l, pct) == GaugeCleared(mid.gauges, percentiles, reset, l, pct);
        assert Gauge(mid.gauges, l, pct) == GaugeDone(old(gauges), percentiles, w, w.Keys, l, pct);
      }
      forall l ensures CountersOk(old(View()), w, View(), l) {
        assert Counted(old(View()), w, w.Keys, mid, l);
      }
    }
  }

  // ---------------------------------------------------------------- any sequence of reports

  ghost predicate Reports(pcts: seq<nat>, windows: seq<Window>, tr: seq<Metrics>)
    requires GoodPercentiles(pcts) && forall i | 0 <= i < |windows| :: GoodWindow(windows[i])
  {
    && |tr| == |windows| + 1 && tr[0] == NOTHING
    && (forall i | 0 <= i < |windows| :: Reported(tr[i], pcts, windows[i], tr[i + 1]))
  }

  function TotalSum(windows: seq<Window>, n: nat, l: Label): nat
    requires n <= |windows|
  {
    if n == 0 then 0 else TotalSum(windows, n - 1, l) + Sum(Points(windows[n - 1], l))
  }

  function TotalCount(windows: seq<Window>, n: nat, l: Label): nat
    requires n <= |windows|
  {
    if n == 0 then 0 else TotalCount(windows, n - 1, l) + |Points(windows[n - 1], l)|
  }

  predicate Seen(windows: seq<Window>, n: nat, l: Label)
    requires n <= |windows|
  {
    exists i | 0 <= i < n :: l in windows[i]
  }

  /** The counters hold the totals of all points reported for a label. */
  lemma {:induction false} CountersAreTotals(pcts: seq<nat>, windows: seq<Window>, tr: seq<Metrics>, n: nat, l: Label)
    requires GoodPercentiles(pcts) && forall i | 0 <= i < |windows| :: GoodWindow(windows[i])
    requires Reports(pcts, windows, tr) && n <= |windows|
    ensures Counter(tr[n].sums, l) == TotalSum(windows, n, l)
    ensures Counter(tr[n].counts, l) == TotalCount(windows, n, l)
    ensures l in tr[n].known <==> Seen(windows, n, l)
  {
    if n == 0 {
    } else {
      CountersAreTotals(pcts, windows, tr, n - 1, l);
      assert Reported(tr[n - 1], pcts, windows[n - 1], tr[n - 1 + 1]);
      assert CountersOk(tr[n - 1], windows[n - 1], tr[n], l);
    }
  }

  /** A gauge holds the percentile of the latest window, zero if its label had no points there, and does
      not exist before its label first appears. */
  lemma {:induction false} GaugesFollowTheWindow(
    pcts: seq<nat>, windows: seq<Window>, tr: seq<Metrics>, n: nat, l: Label, pct: nat)
    requires GoodPercentiles(pcts) && forall i | 0 <= i < |windows| :: GoodWindow(windows[i])
    requires Reports(pcts, windows, tr) && n <= |windows|
    ensures Gauge(tr[n].gauges, l, pct)
         == if pct !in pcts || !Seen(windows, n, l) then None
            else if l in windows[n - 1] then Some(PointAt(windows[n - 1][l], pct))
            else Some(0)
    ensures n > 0 && l in windows[n - 1] && pct in pcts ==>
              var g := Gauge(tr[n].gauges, l, pct);
              g.Some? && IsPercentile(windows[n - 1][l], g.value, pct)
  {
    if n == 0 {
    } else {
      if l in windows[n - 1] && pct in pcts { PointAtIsPercentile(windows[n - 1][l], pct); }
      GaugesFollowTheWindow(pcts, windows, tr, n - 1, l, pct);
      CountersAreTotals(pcts, windows, tr, n - 1, l);
      assert Reported(tr[n - 1], pcts, windows[n - 1], tr[n - 1 + 1]);
      assert GaugesOk(tr[n - 1], pcts, windows[n - 1], tr[n], l, pct);
      assert Seen(windows, n, l) <==> Seen(windows, n - 1, l) || l in windows[n - 1];
    }
  }
}
