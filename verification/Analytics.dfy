/**
 The analytics indexer's file cutter (crates/sui-analytics-indexer/src/analytics_processor.rs and
 lib.rs): it turns a stream of checkpoints into one file per range, uploads the files in order
 and, after a crash, resumes from the remote listing.  A file without rows is empty, and the upload
 (`copy_file`, crates/sui-storage/src/object_store/util.rs) does not copy empty files.
 */
module Analytics {
  import opened ChainTypes

  type Row = int

  /** The checkpoints being indexed: their epochs and the rows each contributes to the table. */
  datatype Stream = Stream(epoch: nat -> nat, rows: nat -> seq<Row>)
  {
    predicate EpochStep(n: nat) { epoch(n) <= epoch(n + 1) }

    ghost predicate Good() { forall n: nat :: EpochStep(n) }

    /** The rows of checkpoints start .. end. */
    function RowsOf(start: nat, end: nat): seq<Row>
      requires start <= end
      decreases end
    {
      if start == end then [] else RowsOf(start, end - 1) + rows(end - 1)
    }

    ghost predicate SingleEpoch(start: nat, end: nat, e: nat) { forall c: nat | start <= c < end :: epoch(c) == e }
  }

  /** A file's name: its epoch directory and its range. */
  datatype FileMeta = FileMeta(epoch: nat, start: nat, end: nat)

  datatype File = File(meta: FileMeta, rows: seq<Row>)

  /** The processor, its writer's open file, the local directory and the upload channel. */
  datatype Node = Node(
    epoch: nat, start: nat, end: nat, buffer: seq<Row>,
    staged: map<FileMeta, seq<Row>>, queue: seq<FileMeta>)

  // ---------------------------------------------------------------- the operations

  function NewNode(position: nat, staged: map<FileMeta, seq<Row>>): Node {
    Node(0, position, position, [], staged, [])
  }

  function AfterCut(n: Node): Node {
    if n.start >= n.end then n
    else
      var meta := FileMeta(n.epoch, n.start, n.end);
      n.(staged := n.staged[meta := n.buffer], queue := n.queue + [meta])
  }

  function AfterReset(n: Node): Node { n.(start := n.end, buffer := []) }

  /** Moving into an epoch clears its local directory. */
  function AfterEpoch(n: Node, epoch: nat): Node {
    n.(epoch := epoch, staged := map m | m in n.staged && m.epoch != epoch :: n.staged[m])
  }

  function AfterAppend(n: Node, rows: seq<Row>): Node { n.(buffer := n.buffer + rows, end := n.end + 1) }

  predicate MustCut(n: Node, interval: nat, timedOut: bool) { n.end - n.start >= interval || timedOut }

  /** `process_checkpoint`; None where an assertion fires. */
  function AfterProcess(n: Node, interval: nat, timedOut: bool, epoch: nat, number: nat, rows: seq<Row>): Option<Node> {
    var n1 := if epoch > n.epoch then AfterReset(AfterEpoch(AfterCut(n), epoch)) else n;
    if epoch != n1.epoch || number != n1.end then None
    else Some(AfterAppend(if MustCut(n1, interval, timedOut) then AfterReset(AfterCut(n1)) else n1, rows))
  }

  class AnalyticsProcessor {
    const interval: nat
    var epoch: nat
    var start: nat
    var end: nat
    var buffer: seq<Row>
    var staged: map<FileMeta, seq<Row>>
    var queue: seq<FileMeta>

    function View(): Node
      reads this
    {
      Node(epoch, start, end, buffer, staged, queue)
    }

    constructor (interval: nat, position: nat, staged: map<FileMeta, seq<Row>>)
      ensures View() == NewNode(position, staged) && this.interval == interval
    {
      this.interval := interval;
      epoch, start, end := 0, position, position;
      buffer, this.staged, queue := [], staged, [];
    }

    method Cut()
      modifies this
      ensures View() == AfterCut(old(View()))
    {
      if start < end {
        var meta := FileMeta(epoch, start, end);
        staged := staged[meta := buffer];
        queue := queue + [meta];
      }
    }

    method Reset()
      modifies this
      ensures View() == AfterReset(old(View()))
    {
      start := end;
      buffer := [];
    }

    /** One of the two assertions fires exactly for a past epoch or for another checkpoint than the next. */
    method ProcessCheckpoint(timedOut: bool, checkpointEpoch: nat, number: nat, rows: seq<Row>) returns (panicked: bool)
      modifies this
      ensures panicked <==> checkpointEpoch < old(epoch) || number != old(end)
      ensures (if panicked then None else Some(View()))
           == AfterProcess(old(View()), interval, timedOut, checkpointEpoch, number, rows)
    {
      if checkpointEpoch > epoch {
        Cut();
        epoch := checkpointEpoch;
        staged := map m | m in staged && m.epoch != epoch :: staged[m];
        Reset();
      }
      if checkpointEpoch != epoch || number != end { return true; }
      if end - start >= interval || timedOut {
        Cut();
        Reset();
      }
      buffer := buffer + rows;
      end := end + 1;
      return false;
    }
  }

  // ---------------------------------------------------------------- resuming

  function MaxEpoch(listing: seq<FileMeta>): nat {
    if listing == [] then 0
    else
      var m := MaxEpoch(listing[1..]);
      if listing[0].epoch > m then listing[0].epoch else m
  }

  function MaxEnd(listing: seq<FileMeta>, epoch: nat): nat {
    if listing == [] then 0
    else
      var m := MaxEnd(listing[1..], epoch);
      if listing[0].epoch == epoch && listing[0].end > m then listing[0].end else m
  }

  /** `read_store_for_checkpoint`: the highest end in the highest epoch directory. */
  function Recover(listing: seq<FileMeta>): nat { MaxEnd(listing, MaxEpoch(listing)) }

  lemma {:induction false} MaxEpochIs(listing: seq<FileMeta>, m: FileMeta)
    requires m in listing && forall x | x in listing :: x.epoch <= m.epoch
    ensures MaxEpoch(listing) == m.epoch
  {
    if listing[0] == m {
      MaxEpochAtMost(listing[1..], m.epoch);
    } else {
      MaxEpochIs(listing[1..], m);
    }
  }

  lemma {:induction false} MaxEpochAtMost(listing: seq<FileMeta>, e: nat)
    requires forall x | x in listing :: x.epoch <= e
    ensures MaxEpoch(listing) <= e
  {
    if listing == [] {
    } else {
      MaxEpochAtMost(listing[1..], e);
    }
  }

  lemma {:induction false} MaxEndIs(listing: seq<FileMeta>, m: FileMeta)
    requires m in listing && forall x | x in listing && x.epoch == m.epoch :: x.end <= m.end
    ensures MaxEnd(listing, m.epoch) == m.end
  {
    if listing[0] == m {
      MaxEndAtMost(listing[1..], m.epoch, m.end);
    } else {
      MaxEndIs(listing[1..], m);
    }
  }

  lemma {:induction false} MaxEndAtMost(listing: seq<FileMeta>, epoch: nat, e: nat)
    requires forall x | x in listing && x.epoch == epoch :: x.end <= e
    ensures MaxEnd(listing, epoch) <= e
  {
    if listing == [] {
    } else {
      MaxEndAtMost(listing[1..], epoch, e);
    }
  }

  // ---------------------------------------------------------------- the system

  /** `fetch` is the next checkpoint the fetcher delivers; `remote` lists the uploaded files in upload
      order.  `emitted` and `from` record what the current process has cut and where it began. */
  datatype System = System(up: bool, node: Node, fetch: nat, remote: seq<File>, emitted: seq<FileMeta>, from: nat)

  /** A restarted process finds some local files and some listing of the remote store. */
  datatype Action =
    | Process(timedOut: bool)
    | Upload
    | Crash
    | Restart(listing: seq<FileMeta>, staged: map<FileMeta, seq<Row>>)

  const INITIAL := System(false, NewNode(0, map[]), 0, [], [], 0)

  /** Where the fetcher starts: after `last_committed_checkpoint`, which drops a committed checkpoint 0. */
  function FetchFrom(position: nat): nat {
    var last := if position >= 1 then position - 1 else 0;
    if last > 0 then last + 1 else 0
  }

  function Metas(files: seq<File>): seq<FileMeta> { seq(|files|, i requires 0 <= i < |files| => files[i].meta) }

  function Crashed(s: System): System { s.(up := false, node := s.node.(queue := [])) }

  function AfterDelivery(w: Stream, interval: nat, timedOut: bool, s: System): Option<Node> {
    AfterProcess(s.node, interval, timedOut, w.epoch(s.fetch), s.fetch, w.rows(s.fetch))
  }

  /** What the cuts of one call appended to the queue. */
  function NewlyQueued(before: Node, after: Node): seq<FileMeta> {
    if |after.queue| >= |before.queue| then after.queue[|before.queue|..] else []
  }

  ghost predicate Listing(remote: seq<File>, listing: seq<FileMeta>) {
    forall m :: m in listing <==> m in Metas(remote)
  }

  ghost predicate Step(w: Stream, interval: nat, s: System, a: Action, s': System) {
    match a
    case Process(timedOut) =>
      && s.up
      && var r := AfterDelivery(w, interval, timedOut, s);
      s' == (match r
             case Some(n) => s.(node := n, fetch := s.fetch + 1, emitted := s.emitted + NewlyQueued(s.node, n))
             case None => Crashed(s))
    case Upload =>
      && s.up && s.node.queue != [] && s.node.queue[0] in s.node.staged
      && var meta := s.node.queue[0];
         var rows := s.node.staged[meta];
         s' == s.(node := s.node.(queue := s.node.queue[1..], staged := s.node.staged - {meta}),
                  remote := if rows == [] then s.remote else s.remote + [File(meta, rows)])
    case Crash => s' == Crashed(s)
    case Restart(listing, staged) =>
      && !s.up && Listing(s.remote, listing)
      && var p := Recover(listing);
         s' == System(true, NewNode(p, staged), FetchFrom(p), s.remote, [], p)
  }

  ghost predicate Next(w: Stream, interval: nat, s: System, s': System) {
    exists a :: Step(w, interval, s, a, s')
  }

  ghost predicate Run(w: Stream, interval: nat, tr: seq<System>) {
    && |tr| > 0 && tr[0] == INITIAL
    && (forall i | 0 <= i < |tr| - 1 :: Next(w, interval, tr[i], tr[i + 1]))
  }
}
