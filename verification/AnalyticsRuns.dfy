/**
 What holds in every run of the analytics indexer, through crashes, panics and restarts: the files a
 process cuts tile what it processed, the remote rows are exactly the rows of a prefix of the
 checkpoints, and the recovered position is the end of that prefix.
 */
module AnalyticsRuns {
  import opened ChainTypes
  import opened Analytics

  // ---------------------------------------------------------------- what a good state is

  function Width(interval: nat): nat { if interval > 1 then interval else 1 }

  /** Consecutive ranges from `from` to `to`, none empty. */
  predicate Tiles(metas: seq<FileMeta>, from: nat, to: nat) {
    && from <= to
    && (metas == [] ==> from == to)
    && (metas != [] ==> metas[0].start == from && metas[|metas| - 1].end == to)
    && (forall i | 0 <= i < |metas| :: metas[i].start < metas[i].end)
    && (forall i | 0 <= i < |metas| - 1 :: metas[i].end == metas[i + 1].start)
  }

  ghost predicate NoRows(w: Stream, a: nat, b: nat) { forall c: nat | a <= c < b :: w.rows(c) == [] }

  /** A range within one epoch, no wider than the configured interval. */
  ghost predicate MetaOk(w: Stream, interval: nat, m: FileMeta) {
    m.start < m.end && m.end - m.start <= Width(interval) && w.SingleEpoch(m.start, m.end, m.epoch)
  }

  ghost predicate AllOk(w: Stream, interval: nat, metas: seq<FileMeta>) {
    forall m | m in metas :: MetaOk(w, interval, m)
  }

  function EndOf(files: seq<File>): nat { if files == [] then 0 else files[|files| - 1].meta.end }

  ghost predicate FileOk(w: Stream, f: File) {
    && f.meta.start < f.meta.end && w.SingleEpoch(f.meta.start, f.meta.end, f.meta.epoch)
    && f.rows == w.RowsOf(f.meta.start, f.meta.end) && f.rows != []
  }

  /** The remote files ascend, and the checkpoints between them contribute no rows. */
  ghost predicate Spans(w: Stream, files: seq<File>) {
    files == []
    || (var init, last := files[..|files| - 1], files[|files| - 1];
        && Spans(w, init) && FileOk(w, last)
        && EndOf(init) <= last.meta.start && NoRows(w, EndOf(init), last.meta.start))
  }

  function Frontier(n: Node): nat { if n.queue == [] then n.start else n.queue[0].start }

  ghost predicate Staged(w: Stream, n: Node, m: FileMeta) {
    && m.start <= m.end <= n.start && m.epoch <= n.epoch
    && m in n.staged && n.staged[m] == w.RowsOf(m.start, m.end)
  }

  ghost predicate QueueOk(w: Stream, interval: nat, n: Node) {
    && Tiles(n.queue, Frontier(n), n.start) && AllOk(w, interval, n.queue)
    && (forall m | m in n.queue :: Staged(w, n, m))
  }

  ghost predicate OpenOk(w: Stream, interval: nat, n: Node) {
    && n.start <= n.end && n.end - n.start <= Width(interval)
    && n.buffer == w.RowsOf(n.start, n.end) && w.SingleEpoch(n.start, n.end, n.epoch)
    && n.epoch <= w.epoch(n.end)
  }

  ghost predicate NodeOk(w: Stream, interval: nat, n: Node) { QueueOk(w, interval, n) && OpenOk(w, interval, n) }

  ghost predicate Behind(w: Stream, remote: seq<File>, frontier: nat) {
    EndOf(remote) <= frontier && NoRows(w, EndOf(remote), frontier)
  }

  /** A process that recovered position 1 is fed checkpoint 0. */
  predicate Misfed(s: System) { s.fetch == 0 && s.node.end == 1 }

  predicate FedOk(s: System) { Misfed(s) || s.fetch == s.node.end }

  ghost predicate EmittedOk(w: Stream, interval: nat, s: System) {
    Tiles(s.emitted, s.from, s.node.start) && AllOk(w, interval, s.emitted)
  }

  ghost predicate Inv(w: Stream, interval: nat, s: System) {
    && Spans(w, s.remote)
    && (s.up ==>
          && NodeOk(w, interval, s.node) && Behind(w, s.remote, Frontier(s.node))
          && FedOk(s) && EmittedOk(w, interval, s))
  }

  // ---------------------------------------------------------------- sequences of ranges

  lemma {:induction false} TilesOrdered(metas: seq<FileMeta>, from: nat, to: nat, i: nat, j: nat)
    requires Tiles(metas, from, to) && i < j < |metas|
    ensures metas[i].end <= metas[j].start
    decreases j
  {
    if i < j - 1 { TilesOrdered(metas, from, to, i, j - 1); }
  }

  /** Ranges that tile reach every number in between. */
  lemma {:induction false} TilesCover(metas: seq<FileMeta>, from: nat, to: nat, c: nat) returns (i: nat)
    requires Tiles(metas, from, to) && from <= c < to
    ensures i < |metas| && metas[i].start <= c < metas[i].end
    decreases |metas|
  {
    if c < metas[0].end {
      i := 0;
    } else {
      var rest := metas[1..];
      i := TilesCover(rest, metas[0].end, to, c);
      i := i + 1;
    }
  }

  lemma TilesAppend(metas: seq<FileMeta>, from: nat, to: nat, m: FileMeta)
    requires Tiles(metas, from, to) && m.start == to < m.end
    ensures Tiles(metas + [m], from, m.end)
  {
  }

  lemma TilesTail(metas: seq<FileMeta>, from: nat, to: nat)
    requires Tiles(metas, from, to) && metas != []
    ensures Tiles(metas[1..], metas[0].end, to)
  {
    var rest := metas[1..];
    if rest != [] {
      assert metas[0].end == metas[0 + 1].start;
      TilesOrdered(metas, from, to, 0, |metas| - 1);
    }
    forall i | 0 <= i < |rest| - 1 ensures rest[i].end == rest[i + 1].start {
      assert metas[i + 1].end == metas[i + 1 + 1].start;
    }
  }

  lemma {:induction false} RowsSplit(w: Stream, a: nat, b: nat, c: nat)
    requires a <= b <= c
    ensures w.RowsOf(a, c) == w.RowsOf(a, b) + w.RowsOf(b, c)
    decreases c
  {
    if b < c { RowsSplit(w, a, b, c - 1); }
  }

  lemma {:induction false} NoRowsInRange(w: Stream, a: nat, b: nat)
    requires a <= b
    ensures w.RowsOf(a, b) == [] <==> NoRows(w, a, b)
    decreases b
  {
    if a < b {
      NoRowsInRange(w, a, b - 1);
      assert NoRows(w, a, b) ==> w.rows(b - 1) == [];
    }
  }

  lemma {:induction false} EpochsAscend(w: Stream, a: nat, b: nat)
    requires w.Good() && a <= b
    ensures w.epoch(a) <= w.epoch(b)
    decreases b
  {
    if a < b {
      EpochsAscend(w, a, b - 1);
      assert w.EpochStep(b - 1);
    }
  }

  // ---------------------------------------------------------------- the remote store

  lemma {:induction false} SpansAt(w: Stream, files: seq<File>, i: nat)
    requires Spans(w, files) && i < |files|
    ensures FileOk(w, files[i]) && files[i].meta.end <= EndOf(files)
    decreases |files|
  {
    if i < |files| - 1 { SpansAt(w, files[..|files| - 1], i); }
  }

  /** Every remote file's range lies before the next one's. */
  lemma {:induction false} SpansOrdered(w: Stream, files: seq<File>, i: nat, j: nat)
    requires Spans(w, files) && i < j < |files|
    ensures files[i].meta.end <= files[j].meta.start
    decreases |files|
  {
    var init := files[..|files| - 1];
    if j < |files| - 1 { SpansOrdered(w, init, i, j); } else { SpansAt(w, init, i); }
  }

  /** Resuming finds the end of the last remote file, whatever the order of the listing. */
  lemma RecoverIsEnd(w: Stream, files: seq<File>, listing: seq<FileMeta>)
    requires w.Good() && Spans(w, files) && Listing(files, listing)
    ensures Recover(listing) == EndOf(files)
  {
    if files == [] {
      assert Metas(files) == [];
      assert forall m :: m in multiset(listing) <==> m in listing;
      assert multiset(listing) == multiset{};
    } else {
      var k := |files| - 1;
      var last := files[k].meta;
      assert Metas(files)[k] == last;
      SpansAt(w, files, k);
      forall m | m in listing ensures m.epoch <= last.epoch && m.end <= last.end {
        var i :| 0 <= i < |files| && Metas(files)[i] == m;
        SpansAt(w, files, i);
        if i < k { SpansOrdered(w, files, i, k); }
        EpochsAscend(w, m.start, if i < k then last.start else m.start);
      }
      MaxEpochIs(listing, last);
      MaxEndIs(listing, last);
    }
  }

  function AllRows(files: seq<File>): seq<Row> {
    if files == [] then [] else AllRows(files[..|files| - 1]) + files[|files| - 1].rows
  }

  /** Rows up to the end of a file after a stretch without rows. */
  lemma RowsAfterGap(w: Stream, a: nat, b: nat, c: nat)
    requires a <= b <= c && NoRows(w, a, b)
    ensures w.RowsOf(0, c) == w.RowsOf(0, a) + w.RowsOf(b, c)
  {
    NoRowsInRange(w, a, b);
    RowsSplit(w, 0, a, b);
    RowsSplit(w, 0, b, c);
  }

  lemma {:induction false} RowsOfSpan(w: Stream, files: seq<File>)
    requires Spans(w, files)
    ensures AllRows(files) == w.RowsOf(0, EndOf(files))
    decreases |files|
  {
    if files == [] {
    } else {
      var init, last := files[..|files| - 1], files[|files| - 1];
      RowsOfSpan(w, init);
      RowsAfterGap(w, EndOf(init), last.meta.start, last.meta.end);
    }
  }

  // ---------------------------------------------------------------- what the operations keep

  lemma CutKeeps(w: Stream, interval: nat, n: Node)
    requires NodeOk(w, interval, n)
    ensures QueueOk(w, interval, AfterReset(AfterCut(n)))
    ensures Frontier(AfterReset(AfterCut(n))) == Frontier(n)
  {
    var n' := AfterReset(AfterCut(n));
    if n.start < n.end {
      var m := FileMeta(n.epoch, n.start, n.end);
      assert n'.queue == n.queue + [m];
      TilesAppend(n.queue, Frontier(n), n.start, m);
      forall x | x in n'.queue ensures Staged(w, n', x) && MetaOk(w, interval, x) {
        if x != m { assert x in n.queue && Staged(w, n, x); }
      }
    } else {
      forall x | x in n'.queue ensures Staged(w, n', x) { assert Staged(w, n, x); }
    }
  }

  /** The open file after a cut holds nothing. */
  lemma CutIsOpen(w: Stream, interval: nat, n: Node)
    requires OpenOk(w, interval, n)
    ensures OpenOk(w, interval, AfterReset(AfterCut(n)))
  {
  }

  /** Entering an epoch removes only that epoch's local files, and none of those is queued. */
  lemma EpochKeeps(w: Stream, interval: nat, n: Node, epoch: nat)
    requires NodeOk(w, interval, n) && n.start == n.end && epoch == w.epoch(n.end) > n.epoch
    ensures NodeOk(w, interval, AfterEpoch(n, epoch)) && Frontier(AfterEpoch(n, epoch)) == Frontier(n)
  {
    var n' := AfterEpoch(n, epoch);
    forall x | x in n'.queue ensures Staged(w, n', x) { assert Staged(w, n, x); }
  }

  lemma AppendKeeps(w: Stream, interval: nat, n: Node)
    requires w.Good() && NodeOk(w, interval, n) && n.epoch == w.epoch(n.end)
    requires n.start < n.end ==> n.end - n.start < interval
    ensures NodeOk(w, interval, AfterAppend(n, w.rows(n.end)))
    ensures Frontier(AfterAppend(n, w.rows(n.end))) == Frontier(n)
  {
    var n' := AfterAppend(n, w.rows(n.end));
    assert w.EpochStep(n.end);
    forall x | x in n'.queue ensures Staged(w, n', x) { assert Staged(w, n, x); }
  }

  /** What one delivery appends to the queue and to the files emitted. */
  ghost predicate Grows(n: Node, n': Node) {
    |n.queue| <= |n'.queue| && n'.queue[..|n.queue|] == n.queue && Tiles(NewlyQueued(n, n'), n.start, n'.start)
  }

  lemma CutGrows(n: Node)
    requires n.start <= n.end
    ensures Grows(n, AfterReset(AfterCut(n)))
  {
    var n' := AfterReset(AfterCut(n));
    if n.start < n.end {
      assert NewlyQueued(n, n') == [FileMeta(n.epoch, n.start, n.end)];
    }
  }

  /** The node as a delivery finds it when its rows are to be written. */
  ghost predicate Ready(w: Stream, interval: nat, n: Node, n': Node) {
    && NodeOk(w, interval, n') && Frontier(n') == Frontier(n) && n'.end == n.end && Grows(n, n')
    && n'.epoch == w.epoch(n.end) && (n'.start < n'.end ==> n'.end - n'.start < interval)
  }

  lemma EpochIsReady(w: Stream, interval: nat, n: Node, cut: Node, n': Node)
    requires NodeOk(w, interval, cut) && Frontier(cut) == Frontier(n) && Grows(n, cut)
    requires cut.start == cut.end == n.end && w.epoch(n.end) > cut.epoch && n' == AfterEpoch(cut, w.epoch(n.end))
    ensures Ready(w, interval, n, n')
  {
    EpochKeeps(w, interval, cut, w.epoch(n.end));
    assert NewlyQueued(n, n') == NewlyQueued(n, cut);
  }

  lemma NewEpochIsReady(w: Stream, interval: nat, n: Node)
    requires NodeOk(w, interval, n) && w.epoch(n.end) > n.epoch
    ensures Ready(w, interval, n, AfterReset(AfterEpoch(AfterCut(n), w.epoch(n.end))))
  {
    CutKeeps(w, interval, n);
    CutIsOpen(w, interval, n);
    CutGrows(n);
    EpochIsReady(
      w, interval, n, AfterReset(AfterCut(n)), AfterReset(AfterEpoch(AfterCut(n), w.epoch(n.end))));
  }

  lemma CutIsReady(w: Stream, interval: nat, n: Node)
    requires NodeOk(w, interval, n) && w.epoch(n.end) == n.epoch
    ensures Ready(w, interval, n, AfterReset(AfterCut(n)))
  {
    CutKeeps(w, interval, n);
    CutIsOpen(w, interval, n);
    CutGrows(n);
  }

  lemma AppendReady(w: Stream, interval: nat, n: Node, n1: Node)
    requires w.Good() && Ready(w, interval, n, n1)
    ensures Processed(w, interval, n, AfterAppend(n1, w.rows(n.end)))
  {
    AppendKeeps(w, interval, n1);
  }

  ghost predicate Processed(w: Stream, interval: nat, n: Node, n': Node) {
    NodeOk(w, interval, n') && Frontier(n') == Frontier(n) && n'.end == n.end + 1 && Grows(n, n')
  }

  /** A delivered checkpoint is taken in, and what is queued still tiles. */
  lemma ProcessKeeps(w: Stream, interval: nat, timedOut: bool, n: Node)
    requires w.Good() && NodeOk(w, interval, n)
    ensures var r := AfterProcess(n, interval, timedOut, w.epoch(n.end), n.end, w.rows(n.end));
            r.Some? && Processed(w, interval, n, r.value)
  {
    if w.epoch(n.end) > n.epoch {
      var n1 := AfterReset(AfterEpoch(AfterCut(n), w.epoch(n.end)));
      NewEpochIsReady(w, interval, n);
      assert AfterReset(AfterCut(n1)) == n1;
      AppendReady(w, interval, n, n1);
    } else if MustCut(n, interval, timedOut) {
      CutIsReady(w, interval, n);
      AppendReady(w, interval, n, AfterReset(AfterCut(n)));
    } else {
      AppendReady(w, interval, n, n);
    }
  }

  lemma TilesJoin(a: seq<FileMeta>, b: seq<FileMeta>, from: nat, mid: nat, to: nat)
    requires Tiles(a, from, mid) && Tiles(b, mid, to)
    ensures Tiles(a + b, from, to)
  {
    var metas := a + b;
    forall i | 0 <= i < |metas| - 1 ensures metas[i].end == metas[i + 1].start {
      if i < |a| - 1 {
        assert metas[i] == a[i] && metas[i + 1] == a[i + 1];
      } else if i >= |a| {
        assert metas[i] == b[i - |a|] && metas[i + 1] == b[i + 1 - |a|];
      }
    }
  }

  lemma EmittedGrows(w: Stream, interval: nat, s: System, n': Node)
    requires EmittedOk(w, interval, s) && Processed(w, interval, s.node, n')
    ensures EmittedOk(w, interval, s.(node := n', emitted := s.emitted + NewlyQueued(s.node, n')))
  {
    var more := NewlyQueued(s.node, n');
    TilesJoin(s.emitted, more, s.from, s.node.start, n'.start);
    forall m | m in s.emitted + more ensures MetaOk(w, interval, m) {
      if m in more { assert m in n'.queue; }
    }
  }

  lemma DeliveryKeeps(w: Stream, interval: nat, timedOut: bool, s: System, s': System)
    requires w.Good() && Inv(w, interval, s) && Step(w, interval, s, Process(timedOut), s')
    ensures Inv(w, interval, s')
    ensures s'.up <==> !Misfed(s)
  {
    if !Misfed(s) {
      ProcessKeeps(w, interval, timedOut, s.node);
      EmittedGrows(w, interval, s, s'.node);
    }
  }

  /** What remains queued after the head is taken. */
  lemma PopKeeps(w: Stream, interval: nat, n: Node)
    requires QueueOk(w, interval, n) && n.queue != []
    ensures var n' := n.(queue := n.queue[1..], staged := n.staged - {n.queue[0]});
            QueueOk(w, interval, n') && Frontier(n') == n.queue[0].end
  {
    TilesTail(n.queue, Frontier(n), n.start);
    var n' := n.(queue := n.queue[1..], staged := n.staged - {n.queue[0]});
    forall m | m in n'.queue ensures Staged(w, n', m) {
      var i :| 0 <= i < |n'.queue| && n'.queue[i] == m;
      assert n.queue[i + 1] == m && Staged(w, n, m);
      TilesOrdered(n.queue, Frontier(n), n.start, 0, i + 1);
    }
  }

  /** The head of the queue is uploaded, or skipped because it has no rows. */
  lemma UploadSpans(w: Stream, remote: seq<File>, m: FileMeta, rows: seq<Row>)
    requires Spans(w, remote) && Behind(w, remote, m.start) && m.start < m.end
    requires w.SingleEpoch(m.start, m.end, m.epoch) && rows == w.RowsOf(m.start, m.end)
    ensures var remote' := if rows == [] then remote else remote + [File(m, rows)];
            Spans(w, remote') && Behind(w, remote', m.end)
  {
    if rows == [] {
      NoRowsInRange(w, m.start, m.end);
    } else {
      var more := remote + [File(m, rows)];
      assert more[..|more| - 1] == remote;
    }
  }

  lemma UploadKeeps(w: Stream, interval: nat, s: System, s': System)
    requires Inv(w, interval, s) && Step(w, interval, s, Upload, s')
    ensures Inv(w, interval, s')
  {
    var m := s.node.queue[0];
    assert MetaOk(w, interval, m) && Staged(w, s.node, m);
    PopKeeps(w, interval, s.node);
    UploadSpans(w, s.remote, m, s.node.staged[m]);
  }

  lemma RestartKeeps(w: Stream, interval: nat, s: System, a: Action, s': System)
    requires w.Good() && Inv(w, interval, s) && a.Restart? && Step(w, interval, s, a, s')
    ensures Inv(w, interval, s') && s'.node.end == EndOf(s.remote) && (Misfed(s') <==> EndOf(s.remote) == 1)
  {
    RecoverIsEnd(w, s.remote, a.listing);
  }

  lemma StepKeeps(w: Stream, interval: nat, s: System, a: Action, s': System)
    requires w.Good() && Inv(w, interval, s) && Step(w, interval, s, a, s')
    ensures Inv(w, interval, s')
  {
    match a
    case Process(timedOut) => DeliveryKeeps(w, interval, timedOut, s, s');
    case Upload => UploadKeeps(w, interval, s, s');
    case Crash =>
    case Restart(_, _) => RestartKeeps(w, interval, s, a, s');
  }

  lemma {:induction false} RunKeeps(w: Stream, interval: nat, tr: seq<System>, i: nat)
    requires w.Good() && Run(w, interval, tr) && i < |tr|
    ensures Inv(w, interval, tr[i])
  {
    if i == 0 {
    } else {
      RunKeeps(w, interval, tr, i - 1);
      assert Next(w, interval, tr[i - 1], tr[i - 1 + 1]);
      var a :| Step(w, interval, tr[i - 1], a, tr[i]);
      StepKeeps(w, interval, tr[i - 1], a, tr[i]);
    }
  }

  // ---------------------------------------------------------------- the theorems

  /** The files a process has cut tile what it processed before the open file: no gap, no overlap, each
      within one epoch and no wider than the interval. */
  lemma CutFilesTile(w: Stream, interval: nat, tr: seq<System>, i: nat)
    requires w.Good() && Run(w, interval, tr) && i < |tr| && tr[i].up
    ensures Tiles(tr[i].emitted, tr[i].from, tr[i].node.start)
    ensures forall m | m in tr[i].emitted :: MetaOk(w, interval, m)
  {
    RunKeeps(w, interval, tr, i);
  }

  /** The uploader finds every file it is told to upload, with the rows of its range. */
  lemma UploadsFindTheirFile(w: Stream, interval: nat, tr: seq<System>, i: nat)
    requires w.Good() && Run(w, interval, tr) && i < |tr| && tr[i].up && tr[i].node.queue != []
    ensures var m, n := tr[i].node.queue[0], tr[i].node;
            m.start < m.end && m in n.staged && n.staged[m] == w.RowsOf(m.start, m.end)
  {
    RunKeeps(w, interval, tr, i);
    assert Staged(w, tr[i].node, tr[i].node.queue[0]);
  }

  /** The remote rows are exactly the rows of the checkpoints before the recovered position: whatever
      crashed, no row was lost or stored twice. */
  lemma RemoteRowsAreAPrefix(w: Stream, interval: nat, tr: seq<System>, i: nat, listing: seq<FileMeta>)
    requires w.Good() && Run(w, interval, tr) && i < |tr| && Listing(tr[i].remote, listing)
    ensures AllRows(tr[i].remote) == w.RowsOf(0, Recover(listing))
  {
    RunKeeps(w, interval, tr, i);
    RecoverIsEnd(w, tr[i].remote, listing);
    RowsOfSpan(w, tr[i].remote);
  }

  /** Remote files have disjoint ranges in upload order, so no upload replaces another; each holds
      exactly the rows of its range. */
  lemma RemoteFilesAreDisjoint(w: Stream, interval: nat, tr: seq<System>, t: nat, i: nat, j: nat)
    requires w.Good() && Run(w, interval, tr) && t < |tr| && i < j < |tr[t].remote|
    ensures tr[t].remote[i].meta.end <= tr[t].remote[j].meta.start
    ensures FileOk(w, tr[t].remote[i]) && FileOk(w, tr[t].remote[j])
  {
    RunKeeps(w, interval, tr, t);
    SpansOrdered(w, tr[t].remote, i, j);
    SpansAt(w, tr[t].remote, i);
    SpansAt(w, tr[t].remote, j);
  }

  /** A process resumes at the end of the remote files and takes its first checkpoint without a panic,
      unless the remote files end at 1: the fetcher then starts over from checkpoint 0. */
  lemma ResumePanicsIffAtOne(w: Stream, interval: nat, tr: seq<System>, i: nat, a: Action, timedOut: bool)
    requires w.Good() && Run(w, interval, tr) && i + 2 < |tr| && a.Restart?
    requires Step(w, interval, tr[i], a, tr[i + 1]) && Step(w, interval, tr[i + 1], Process(timedOut), tr[i + 2])
    ensures tr[i + 1].node.end == EndOf(tr[i].remote)
    ensures !tr[i + 2].up <==> EndOf(tr[i].remote) == 1
  {
    RunKeeps(w, interval, tr, i);
    RestartKeeps(w, interval, tr[i], a, tr[i + 1]);
    DeliveryKeeps(w, interval, timedOut, tr[i + 1], tr[i + 2]);
  }

  // ---------------------------------------------------------------- when files are cut

  /** A delivery cuts the open file exactly when it holds something and a new epoch begins, the interval is
      full or the time is up. */
  lemma DeliveryCutsIff(w: Stream, interval: nat, timedOut: bool, n: Node)
    requires w.Good() && NodeOk(w, interval, n)
    ensures var r := AfterProcess(n, interval, timedOut, w.epoch(n.end), n.end, w.rows(n.end));
            && r.Some? && NewlyQueued(n, r.value)
               == (if n.start < n.end
                      && (w.epoch(n.end) > n.epoch || n.end - n.start == Width(interval) || timedOut)
                   then [FileMeta(n.epoch, n.start, n.end)] else [])
  {
    ProcessKeeps(w, interval, timedOut, n);
    var n' := AfterProcess(n, interval, timedOut, w.epoch(n.end), n.end, w.rows(n.end)).value;
    if n'.queue == n.queue {
      assert NewlyQueued(n, n') == [];
    } else {
      assert n'.queue == n.queue + [FileMeta(n.epoch, n.start, n.end)];
      assert NewlyQueued(n, n') == [FileMeta(n.epoch, n.start, n.end)];
    }
  }

  ghost predicate UntimedNext(w: Stream, interval: nat, s: System, s': System) {
    exists a :: a != Process(true) && Step(w, interval, s, a, s')
  }

  /** A run in which the time interval never passes. */
  ghost predicate UntimedRun(w: Stream, interval: nat, tr: seq<System>) {
    && |tr| > 0 && tr[0] == INITIAL
    && (forall i | 0 <= i < |tr| - 1 :: UntimedNext(w, interval, tr[i], tr[i + 1]))
  }

  lemma UntimedIsRun(w: Stream, interval: nat, tr: seq<System>)
    requires UntimedRun(w, interval, tr)
    ensures Run(w, interval, tr)
  {
    forall i | 0 <= i < |tr| - 1 ensures Next(w, interval, tr[i], tr[i + 1]) {
      assert UntimedNext(w, interval, tr[i], tr[i + 1]);
    }
  }

  /** A file as wide as the interval, or the last of its epoch. */
  predicate Full(w: Stream, interval: nat, m: FileMeta) {
    m.end - m.start == Width(interval) || w.epoch(m.end) > m.epoch
  }

  lemma UntimedStepFull(w: Stream, interval: nat, s: System, a: Action, s': System, m: FileMeta)
    requires w.Good() && Inv(w, interval, s) && Step(w, interval, s, a, s') && a != Process(true)
    requires s'.up && m in s'.emitted
    ensures (s.up && m in s.emitted) || Full(w, interval, m)
  {
    if a == Process(false) {
      DeliveryKeeps(w, interval, false, s, s');
      DeliveryCutsIff(w, interval, false, s.node);
    }
  }

  lemma UntimedNextFull(w: Stream, interval: nat, s: System, s': System, m: FileMeta)
    requires w.Good() && Inv(w, interval, s) && UntimedNext(w, interval, s, s') && s'.up && m in s'.emitted
    ensures (s.up && m in s.emitted) || Full(w, interval, m)
  {
    var a :| a != Process(true) && Step(w, interval, s, a, s');
    UntimedStepFull(w, interval, s, a, s', m);
  }

  /** Without timeouts every file a process cuts is full: the interval is neither exceeded nor cut short,
      except where an epoch ends. */
  lemma {:induction false} UntimedFilesAreFull(w: Stream, interval: nat, tr: seq<System>, i: nat, m: FileMeta)
    requires w.Good() && UntimedRun(w, interval, tr) && i < |tr| && tr[i].up && m in tr[i].emitted
    ensures Full(w, interval, m)
  {
    if i == 0 {
    } else {
      UntimedIsRun(w, interval, tr);
      RunKeeps(w, interval, tr, i - 1);
      assert UntimedNext(w, interval, tr[i - 1], tr[i - 1 + 1]);
      UntimedNextFull(w, interval, tr[i - 1], tr[i], m);
      if tr[i - 1].up && m in tr[i - 1].emitted { UntimedFilesAreFull(w, interval, tr, i - 1, m); }
    }
  }

  // ---------------------------------------------------------------- leftovers of earlier processes

  /** In the directory of its epoch, from epoch 1 on, a process has only files it has cut and not yet
      uploaded. */
  ghost predicate NoLeftovers(n: Node) {
    n.epoch > 0 ==> forall m | m in n.staged && m.epoch == n.epoch :: m in n.queue
  }

  lemma ProcessClears(w: Stream, interval: nat, timedOut: bool, n: Node)
    requires w.Good() && NodeOk(w, interval, n) && NoLeftovers(n)
    ensures var r := AfterProcess(n, interval, timedOut, w.epoch(n.end), n.end, w.rows(n.end));
            r.Some? ==> NoLeftovers(r.value)
  {
  }

  lemma UploadClears(w: Stream, interval: nat, n: Node)
    requires QueueOk(w, interval, n) && n.queue != [] && NoLeftovers(n)
    ensures NoLeftovers(n.(queue := n.queue[1..], staged := n.staged - {n.queue[0]}))
  {
    forall m | m in n.staged && m in n.queue && m != n.queue[0] ensures m in n.queue[1..] {
      var i :| 0 <= i < |n.queue| && n.queue[i] == m;
      assert n.queue[1..][i - 1] == m;
    }
  }

  lemma {:induction false} RunClearsLeftovers(w: Stream, interval: nat, tr: seq<System>, i: nat)
    requires w.Good() && Run(w, interval, tr) && i < |tr|
    ensures tr[i].up ==> NoLeftovers(tr[i].node)
  {
    if i == 0 {
    } else {
      RunClearsLeftovers(w, interval, tr, i - 1);
      RunKeeps(w, interval, tr, i - 1);
      assert Next(w, interval, tr[i - 1], tr[i - 1 + 1]);
      var s := tr[i - 1];
      var a :| Step(w, interval, s, a, tr[i]);
      match a
      case Process(timedOut) =>
        DeliveryKeeps(w, interval, timedOut, s, tr[i]);
        if !Misfed(s) { ProcessClears(w, interval, timedOut, s.node); }
      case Upload => UploadClears(w, interval, s.node);
      case Crash =>
      case Restart(_, _) =>
    }
  }
}
