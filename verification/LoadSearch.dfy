/**
 The benchmark parameters generator (crates/sui-aws-orchestrator/src/benchmark.rs): it issues loads,
 takes the measurements back, and searches for the load at which the system breaks by doubling and
 then bisecting.
 */
module LoadSearch {
  import opened ChainTypes

  /** The summary of one benchmark run. */
  datatype Measurement = Measurement(load: nat, latency: nat, tps: nat)

  datatype LoadType = Fixed(loads: seq<nat>) | Search(start: nat, maxIterations: nat)

  datatype Generator = Generator(
    loadType: LoadType, next: Option<nat>, lower: Option<Measurement>, upper: Option<Measurement>, iterations: nat)

  /** Over five times the latency of the last result, or under two thirds of the input rate. */
  predicate OutOfCapacity(last: Measurement, new_: Measurement) {
    new_.latency > last.latency * 5 || new_.tps < 2 * new_.load / 3
  }

  function NewGenerator(loadType: LoadType): Generator {
    match loadType
    case Fixed(loads) =>
      if loads == [] then Generator(loadType, None, None, None, 0)
      else Generator(Fixed(loads[1..]), Some(loads[0]), None, None, 0)
    case Search(start, _) => Generator(loadType, Some(start), None, None, 0)
  }

  function Halfway(g: Generator): Generator
    requires g.lower.Some? && g.upper.Some?
  {
    g.(next := Some((g.lower.value.load + g.upper.value.load) / 2))
  }

  /** `register_result`; None where the search panics. */
  function AfterResult(g: Generator, r: Measurement): Option<Generator> {
    match g.loadType
    case Fixed(loads) =>
      if loads == [] then Some(g.(next := None)) else Some(g.(loadType := Fixed(loads[1..]), next := Some(loads[0])))
    case Search(_, maxIterations) =>
      if g.iterations >= maxIterations then Some(g.(next := None))
      else
        var g1 := g.(iterations := g.iterations + 1);
        match (g.lower, g.upper)
        case (None, None) => Some(g1.(lower := Some(r), next := Some(r.load * 2)))
        case (Some(lower), None) =>
          if OutOfCapacity(lower, r) then Some(Halfway(g1.(upper := Some(r))))
          else Some(g1.(lower := Some(r), next := Some(r.load * 2)))
        case (Some(lower), Some(_)) =>
          Some(Halfway(if OutOfCapacity(lower, r) then g1.(upper := Some(r)) else g1.(lower := Some(r))))
        case (None, Some(_)) => None
  }

  class BenchmarkParametersGenerator {
    var loadType: LoadType
    var nextLoad: Option<nat>
    var lower: Option<Measurement>
    var upper: Option<Measurement>
    var iterations: nat

    function View(): Generator
      reads this
    {
      Generator(loadType, nextLoad, lower, upper, iterations)
    }

    constructor (loadType: LoadType)
      ensures View() == NewGenerator(loadType)
    {
      this.loadType := loadType;
      match loadType {
        case Fixed(loads) =>
          if loads == [] {
            nextLoad := None;
          } else {
            nextLoad := Some(loads[0]);
            this.loadType := Fixed(loads[1..]);
          }
        case Search(start, _) => nextLoad := Some(start);
      }
      lower, upper, iterations := None, None, 0;
    }

    /** The load to run next; taking it changes nothing. */
    method Next() returns (load: Option<nat>)
      ensures load == View().next
    {
      load := nextLoad;
    }

    method RegisterResult(r: Measurement) returns (panicked: bool)
      modifies this
      ensures (if panicked then None else Some(View())) == AfterResult(old(View()), r)
    {
      panicked := false;
      match loadType {
        case Fixed(loads) =>
          if loads == [] {
            nextLoad := None;
          } else {
            nextLoad := Some(loads[0]);
            loadType := Fixed(loads[1..]);
          }
        case Search(_, maxIterations) =>
          if iterations >= maxIterations {
            nextLoad := None;
          } else {
            iterations := iterations + 1;
            if lower.None? && upper.None? {
              lower, nextLoad := Some(r), Some(r.load * 2);
            } else if lower.Some? && upper.None? {
              if OutOfCapacity(lower.value, r) {
                upper, nextLoad := Some(r), Some((lower.value.load + r.load) / 2);
              } else {
                lower, nextLoad := Some(r), Some(r.load * 2);
              }
            } else if lower.Some? {
              if OutOfCapacity(lower.value, r) { upper := Some(r); } else { lower := Some(r); }
              nextLoad := Some((lower.value.load + upper.value.load) / 2);
            } else {
              panicked := true;
            }
          }
      }
    }
  }

  // ---------------------------------------------------------------- whole searches

  /** What the testbed measures at each load. */
  type Testbed = nat -> Measurement

  ghost predicate Reports(bed: Testbed) { forall load: nat :: bed(load).load == load }

  /** Against any baseline below it, the system is out of capacity exactly from the breaking point on. */
  ghost predicate BreaksAt(bed: Testbed, breaking: nat) {
    forall a: nat, b: nat | a < breaking :: OutOfCapacity(bed(a), bed(b)) <==> b >= breaking
  }

  /** The generator after k issued loads came back, or as soon as it issues none; None after a panic. */
  function Play(bed: Testbed, loadType: LoadType, k: nat): Option<Generator> {
    if k == 0 then Some(NewGenerator(loadType))
    else
      var g := Play(bed, loadType, k - 1);
      if g.None? || g.value.next.None? then g else AfterResult(g.value, bed(g.value.next.value))
  }

  /** What every search state keeps: the bounds were measured at their loads, no upper bound without a
      lower one, and the next load is the double of the lower bound or halfway. */
  ghost predicate Searching(bed: Testbed, start: nat, g: Generator) {
    && (g.upper.Some? ==> g.lower.Some?)
    && (g.lower.Some? ==> g.lower.value == bed(g.lower.value.load) && start <= g.lower.value.load)
    && (g.upper.Some? ==> g.upper.value == bed(g.upper.value.load) && g.lower.value.load <= g.upper.value.load)
    && (g.next.Some? ==>
          if g.lower.None? then g.next.value == start
          else if g.upper.None? then g.next.value == 2 * g.lower.value.load
          else g.next.value == (g.lower.value.load + g.upper.value.load) / 2)
  }

  lemma ResultKeepsSearching(bed: Testbed, start: nat, g: Generator)
    requires Reports(bed) && g.loadType.Search? && g.next.Some? && Searching(bed, start, g)
    ensures var r := AfterResult(g, bed(g.next.value));
            && r.Some? && Searching(bed, start, r.value) && r.value.loadType == g.loadType
            && (g.iterations >= g.loadType.maxIterations ==> r.value == g.(next := None))
            && (g.iterations < g.loadType.maxIterations ==>
                  r.value.next.Some? && r.value.iterations == g.iterations + 1 && r.value.lower.Some?)
  {
  }

  /** The panic is unreachable, and exactly maxIterations + 1 loads are issued. */
  lemma {:induction false} SearchIssues(bed: Testbed, start: nat, maxIterations: nat, k: nat)
    requires Reports(bed)
    ensures var g := Play(bed, Search(start, maxIterations), k);
            && g.Some? && Searching(bed, start, g.value) && g.value.loadType == Search(start, maxIterations)
            && (g.value.next.Some? <==> k <= maxIterations)
            && g.value.iterations == (if k <= maxIterations then k else maxIterations)
            && (k > 0 && maxIterations > 0 ==> g.value.lower.Some?)
  {
    if k == 0 {
    } else {
      SearchIssues(bed, start, maxIterations, k - 1);
      var g := Play(bed, Search(start, maxIterations), k - 1).value;
      if g.next.Some? { ResultKeepsSearching(bed, start, g); }
    }
  }

  ghost predicate Brackets(g: Generator, breaking: nat) {
    && (g.lower.Some? ==> g.lower.value.load < breaking)
    && (g.upper.Some? ==> breaking <= g.upper.value.load)
  }

  lemma ResultKeepsBrackets(bed: Testbed, start: nat, breaking: nat, g: Generator)
    requires Reports(bed) && BreaksAt(bed, breaking) && start < breaking
    requires g.loadType.Search? && g.next.Some? && Searching(bed, start, g) && Brackets(g, breaking)
    ensures var r := AfterResult(g, bed(g.next.value)); r.Some? && Brackets(r.value, breaking)
  {
  }

  lemma {:induction false} SearchKeepsBrackets(bed: Testbed, start: nat, maxIterations: nat, breaking: nat, k: nat)
    requires Reports(bed) && BreaksAt(bed, breaking) && start < breaking
    ensures var g := Play(bed, Search(start, maxIterations), k); g.Some? && Brackets(g.value, breaking)
  {
    if k == 0 {
    } else {
      SearchKeepsBrackets(bed, start, maxIterations, breaking, k - 1);
      SearchIssues(bed, start, maxIterations, k - 1);
      var g := Play(bed, Search(start, maxIterations), k - 1).value;
      if g.next.Some? { ResultKeepsBrackets(bed, start, breaking, g); }
    }
  }

  /** Once both bounds exist they bracket the breaking point, exactly when the search started below it. */
  lemma BracketsIffStartedBelow(bed: Testbed, start: nat, maxIterations: nat, breaking: nat, k: nat)
    requires Reports(bed) && BreaksAt(bed, breaking)
    ensures var g := Play(bed, Search(start, maxIterations), k);
            g.Some? && (g.value.lower.Some? && g.value.upper.Some? ==>
              (g.value.lower.value.load < breaking <= g.value.upper.value.load <==> start < breaking))
  {
    SearchIssues(bed, start, maxIterations, k);
    if start < breaking { SearchKeepsBrackets(bed, start, maxIterations, breaking, k); }
  }

  function Width(g: Generator): int
    requires g.lower.Some? && g.upper.Some?
  {
    g.upper.value.load - g.lower.value.load
  }

  /** A bisection leaves at most half of the width, rounded up, and both bounds. */
  lemma BisectionHalves(bed: Testbed, start: nat, g: Generator)
    requires Reports(bed) && g.loadType.Search? && g.iterations < g.loadType.maxIterations
    requires Searching(bed, start, g) && g.next.Some? && g.lower.Some? && g.upper.Some?
    ensures var r := AfterResult(g, bed(g.next.value));
            && r.Some? && r.value.lower.Some? && r.value.upper.Some?
            && 0 <= Width(r.value) <= (Width(g) + 1) / 2
  {
    ResultKeepsSearching(bed, start, g);
  }

  // ---------------------------------------------------------------- convergence

  /** A load doubled n times. */
  function Doubled(load: nat, n: nat): nat { if n == 0 then load else 2 * Doubled(load, n - 1) }

  /** While the doubled loads stay below the breaking point, only the lower bound moves. */
  lemma {:induction false} Doubles(bed: Testbed, start: nat, maxIterations: nat, breaking: nat, j: nat)
    requires Reports(bed) && BreaksAt(bed, breaking)
    requires Doubled(start, j) < breaking && j < maxIterations
    ensures var g := Play(bed, Search(start, maxIterations), 1 + j);
            g.Some? && g.value.lower == Some(bed(Doubled(start, j))) && g.value.upper == None
  {
    SearchIssues(bed, start, maxIterations, j);
    if j > 0 {
      Doubles(bed, start, maxIterations, breaking, j - 1);
    }
  }

  /** The first doubled load at or above the breaking point becomes the upper bound. */
  lemma Overshoots(bed: Testbed, start: nat, maxIterations: nat, breaking: nat, j: nat)
    requires Reports(bed) && BreaksAt(bed, breaking)
    requires Doubled(start, j) < breaking <= Doubled(start, j + 1) && j + 1 < maxIterations
    ensures var g := Play(bed, Search(start, maxIterations), 2 + j);
            && g.Some? && g.value.lower == Some(bed(Doubled(start, j)))
            && g.value.upper == Some(bed(Doubled(start, j + 1)))
  {
    Doubles(bed, start, maxIterations, breaking, j);
    SearchIssues(bed, start, maxIterations, 1 + j);
  }

  lemma {:induction false} DoublingGrows(load: nat, n: nat)
    ensures load <= Doubled(load, n)
  {
    if n == 0 {
    } else {
      DoublingGrows(load, n - 1);
    }
  }

  /** After k results both bounds exist, at most `width` apart. */
  predicate Within(bed: Testbed, start: nat, maxIterations: nat, k: nat, width: nat) {
    var g := Play(bed, Search(start, maxIterations), k);
    g.Some? && g.value.lower.Some? && g.value.upper.Some? && Width(g.value) <= width
  }

  lemma WithinHalf(bed: Testbed, start: nat, maxIterations: nat, k: nat, half: nat)
    requires Reports(bed) && k < maxIterations && Within(bed, start, maxIterations, k, 2 * half)
    ensures Within(bed, start, maxIterations, k + 1, half)
  {
    SearchIssues(bed, start, maxIterations, k);
    BisectionHalves(bed, start, Play(bed, Search(start, maxIterations), k).value);
  }

  lemma {:induction false} Narrows(bed: Testbed, start: nat, maxIterations: nat, k: nat, m: nat)
    requires Reports(bed) && k + m <= maxIterations && Within(bed, start, maxIterations, k, Doubled(1, m))
    ensures Within(bed, start, maxIterations, k + m, 1)
    decreases m
  {
    if m == 0 {
    } else {
      WithinHalf(bed, start, maxIterations, k, Doubled(1, m - 1));
      Narrows(bed, start, maxIterations, k + 1, m - 1);
    }
  }

  /** The search pins the breaking point: with j doublings to pass it and m halvings of the last
      interval, 2 + j + m results leave the bounds one apart around it. */
  lemma SearchConverges(bed: Testbed, start: nat, maxIterations: nat, breaking: nat, j: nat, m: nat)
    requires Reports(bed) && BreaksAt(bed, breaking)
    requires Doubled(start, j) < breaking <= Doubled(start, j + 1)
    requires Doubled(start, j) <= Doubled(1, m) && 2 + j + m <= maxIterations
    ensures var g := Play(bed, Search(start, maxIterations), 2 + j + m);
            && g.Some? && g.value.lower.Some? && g.value.upper.Some?
            && g.value.lower.value.load == breaking - 1 && g.value.upper.value.load == breaking
  {
    assert Within(bed, start, maxIterations, 2 + j, Doubled(1, m)) by {
      Overshoots(bed, start, maxIterations, breaking, j);
    }
    Narrows(bed, start, maxIterations, 2 + j, m);
    DoublingGrows(start, j);
    SearchKeepsBrackets(bed, start, maxIterations, breaking, 2 + j + m);
  }

  /** The bounds are one apart, around the breaking point. */
  predicate Pinned(bed: Testbed, start: nat, maxIterations: nat, breaking: nat, k: nat) {
    var g := Play(bed, Search(start, maxIterations), k);
    && g.Some? && g.value.lower.Some? && g.value.upper.Some?
    && g.value.lower.value.load + 1 == breaking == g.value.upper.value.load
  }

  lemma {:induction false} LastDoublingBelow(load: nat, bound: nat, n: nat) returns (j: nat)
    requires load < bound <= Doubled(load, n)
    ensures Doubled(load, j) < bound <= Doubled(load, j + 1)
  {
    if n == 1 || Doubled(load, n - 1) < bound {
      j := n - 1;
    } else {
      j := LastDoublingBelow(load, bound, n - 1);
    }
  }

  lemma {:induction false} DoublingExceeds(load: nat, n: nat)
    requires load > 0
    ensures Doubled(load, n) > n
  {
    if n == 0 {
    } else {
      DoublingExceeds(load, n - 1);
    }
  }

  ghost predicate AtZero(bed: Testbed, g: Generator) {
    g.upper.None? && (g.lower.Some? ==> g.lower.value == bed(0))
  }

  lemma ZeroNext(bed: Testbed, breaking: nat, g: Generator)
    requires Reports(bed) && BreaksAt(bed, breaking) && breaking > 0
    requires g.loadType.Search? && g.next.Some? && Searching(bed, 0, g) && AtZero(bed, g)
    ensures var r := AfterResult(g, bed(g.next.value)); r.Some? && AtZero(bed, r.value)
  {
    assert g.next.value == 0 by {
      if g.lower.Some? { assert bed(0).load == 0; }
    }
  }

  /** A search from 0 stays at 0. */
  lemma {:induction false} ZeroStays(bed: Testbed, maxIterations: nat, breaking: nat, k: nat)
    requires Reports(bed) && BreaksAt(bed, breaking) && breaking > 0
    ensures var g := Play(bed, Search(0, maxIterations), k);
            g.Some? && g.value.upper.None? && (g.value.lower.Some? ==> g.value.lower.value == bed(0))
  {
    if k == 0 {
    } else {
      ZeroStays(bed, maxIterations, breaking, k - 1);
      SearchIssues(bed, 0, maxIterations, k - 1);
      var g := Play(bed, Search(0, maxIterations), k - 1).value;
      if g.next.Some? { ZeroNext(bed, breaking, g); }
    }
  }

  /** Enough results pin the breaking point, whatever the testbed. */
  lemma SearchPins(bed: Testbed, start: nat, breaking: nat) returns (n: nat)
    requires Reports(bed) && BreaksAt(bed, breaking) && 0 < start < breaking
    ensures forall maxIterations: nat | maxIterations >= n :: Pinned(bed, start, maxIterations, breaking, n)
  {
    DoublingExceeds(start, breaking);
    var j := LastDoublingBelow(start, breaking, breaking);
    var m := Doubled(start, j);
    DoublingExceeds(1, m);
    n := 2 + j + m;
    forall maxIterations: nat | maxIterations >= n ensures Pinned(bed, start, maxIterations, breaking, n) {
      SearchConverges(bed, start, maxIterations, breaking, j, m);
    }
  }

  /** Some search from `start` pins the breaking point exactly when it starts above 0 and below it. */
  lemma PinsIff(bed: Testbed, start: nat, breaking: nat)
    requires Reports(bed) && BreaksAt(bed, breaking)
    ensures (exists maxIterations: nat, k: nat :: Pinned(bed, start, maxIterations, breaking, k))
        <==> 0 < start < breaking
  {
    if 0 < start < breaking {
      var n := SearchPins(bed, start, breaking);
      assert Pinned(bed, start, n, breaking, n);
    }
    if maxIterations: nat, k: nat :| Pinned(bed, start, maxIterations, breaking, k) {
      BracketsIffStartedBelow(bed, start, maxIterations, breaking, k);
      if start == 0 { ZeroStays(bed, maxIterations, breaking, k); }
    }
  }

  /** A search that starts at or above the breaking point can find both bounds, and they miss it. */
  lemma BoundsCanMiss(start: nat) returns (bed: Testbed)
    requires start > 0
    ensures Reports(bed) && BreaksAt(bed, 1)
    ensures var g := Play(bed, Search(start, 2), 2);
            && g.Some? && g.value.lower.Some? && g.value.upper.Some?
            && 1 <= g.value.lower.value.load < g.value.upper.value.load
  {
    bed := (load: nat) => Measurement(load, load, 0);
    assert Play(bed, Search(start, 2), 1)
        == Some(Generator(Search(start, 2), Some(start * 2), Some(bed(start)), None, 1));
  }

  // ---------------------------------------------------------------- what breaking means

  /** Out of capacity, without divisions: more than five times the latency, or short of two thirds of the
      load by a whole transaction. */
  lemma OutOfCapacityIff(last: Measurement, m: Measurement)
    ensures OutOfCapacity(last, m) <==> m.latency > 5 * last.latency || 3 * (m.tps + 1) <= 2 * m.load
  {
  }

  /** A system with steady latency that serves up to `cap` transactions breaks at the first load of which
      it serves less than two thirds. */
  lemma SaturatingBreaksAt(cap: nat, latency: nat) returns (bed: Testbed)
    ensures Reports(bed) && BreaksAt(bed, (3 * cap + 4) / 2)
  {
    bed := (load: nat) => Measurement(load, latency, if load < cap then load else cap);
  }

  /** A system that serves everything but slows down breaks at the load where its latency first exceeds
      five times what it was. */
  lemma SlowingBreaksAt(breaking: nat, latency: nat) returns (bed: Testbed)
    ensures Reports(bed) && BreaksAt(bed, breaking)
    ensures forall load: nat :: bed(load).tps == load
    ensures forall load: nat :: bed(load).latency == if load < breaking then latency else 5 * latency + 1
  {
    bed := (load: nat) => Measurement(load, if load < breaking then latency else 5 * latency + 1, load);
  }

  // ---------------------------------------------------------------- fixed loads

  /** A fixed list is issued in order, each load once. */
  lemma {:induction false} FixedIssuesInOrder(bed: Testbed, loads: seq<nat>, k: nat)
    ensures var g := Play(bed, Fixed(loads), k);
            && g.Some? && g.value.next == (if k < |loads| then Some(loads[k]) else None)
            && g.value.loadType == Fixed(if k < |loads| then loads[k + 1..] else [])
  {
    if k == 0 {
    } else {
      FixedIssuesInOrder(bed, loads, k - 1);
    }
  }
}
