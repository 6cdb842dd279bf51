/**
 Which streams lead the analytics indexer into its two bad ends.  An upload skips a file without rows,
 so the remote listing can have a hole: every run leaves a listing without holes exactly when the stream
 never returns to producing rows after a checkpoint without any.  And a process that resumes at
 checkpoint 1 panics: some run comes to that exactly when checkpoint 0 has rows.
 */
module AnalyticsGaps {
  import opened ChainTypes
  import opened Analytics
  import opened AnalyticsRuns

  ghost predicate Gapless(remote: seq<File>) { Tiles(Metas(remote), 0, EndOf(remote)) }

  ghost predicate Returns(w: Stream, c: nat, d: nat) { c < d && w.rows(c) == [] && w.rows(d) != [] }

  /** No checkpoint with rows follows one without. */
  ghost predicate NeverReturns(w: Stream) { forall c: nat, d: nat :: !Returns(w, c, d) }

  ghost predicate Reaches(w: Stream, interval: nat, s: System) {
    exists tr: seq<System> :: Run(w, interval, tr) && tr[|tr| - 1] == s
  }

  // ---------------------------------------------------------------- a stream that never returns

  lemma SomeRow(w: Stream, f: File) returns (d: nat)
    requires FileOk(w, f)
    ensures f.meta.start <= d < f.meta.end && w.rows(d) != []
  {
    NoRowsInRange(w, f.meta.start, f.meta.end);
    d :| f.meta.start <= d < f.meta.end && w.rows(d) != [];
  }

  lemma {:induction false} SpansGapless(w: Stream, files: seq<File>)
    requires NeverReturns(w) && Spans(w, files)
    ensures Gapless(files)
    decreases |files|
  {
    if files == [] {
    } else {
      var init, last := files[..|files| - 1], files[|files| - 1];
      SpansGapless(w, init);
      var d := SomeRow(w, last);
      assert !Returns(w, EndOf(init), d);
      TilesAppend(Metas(init), 0, EndOf(init), last.meta);
      assert Metas(files) == Metas(init) + [last.meta];
    }
  }

  // ---------------------------------------------------------------- a run of one-checkpoint files

  function SingleMeta(w: Stream, c: nat): FileMeta { FileMeta(w.epoch(c), c, c + 1) }

  function SingleFiles(w: Stream, n: nat): seq<File> {
    if n == 0 then []
    else SingleFiles(w, n - 1)
         + if w.rows(n - 1) == [] then [] else [File(SingleMeta(w, n - 1), w.rows(n - 1))]
  }

  function SingleMetas(w: Stream, n: nat): seq<FileMeta> {
    if n == 0 then [] else SingleMetas(w, n - 1) + [SingleMeta(w, n - 1)]
  }

  /** Checkpoint c is in the open file, all earlier ones are cut one by one and uploaded. */
  function Singly(w: Stream, c: nat): System {
    System(true, Node(w.epoch(c), c, c + 1, w.rows(c), map[], []), c + 1, SingleFiles(w, c), SingleMetas(w, c), 0)
  }

  lemma Extend(w: Stream, interval: nat, s: System, a: Action, s': System)
    requires Reaches(w, interval, s) && Step(w, interval, s, a, s')
    ensures Reaches(w, interval, s')
  {
    var tr: seq<System> :| Run(w, interval, tr) && tr[|tr| - 1] == s;
    var tr' := tr + [s'];
    forall i | 0 <= i < |tr'| - 1 ensures Next(w, interval, tr'[i], tr'[i + 1]) {
      if i < |tr| - 1 { assert Next(w, interval, tr[i], tr[i + 1]); }
    }
    assert Run(w, interval, tr') && tr'[|tr'| - 1] == s';
  }

  lemma KeepsOtherEpochs(n: Node, epoch: nat)
    requires forall m | m in n.staged :: m.epoch != epoch
    ensures AfterEpoch(n, epoch) == n.(epoch := epoch)
  {
    assert AfterEpoch(n, epoch).staged == n.staged;
  }

  lemma FirstSingly(w: Stream, interval: nat)
    ensures Reaches(w, interval, Singly(w, 0))
  {
    var s0 := System(true, NewNode(0, map[]), 0, [], [], 0);
    assert Run(w, interval, [INITIAL]) && [INITIAL][|[INITIAL]| - 1] == INITIAL;
    assert Listing([], []);
    Extend(w, interval, INITIAL, Restart([], map[]), s0);
    assert [] + w.rows(0) == w.rows(0);
    KeepsOtherEpochs(s0.node, w.epoch(0));
    assert AfterDelivery(w, interval, true, s0) == Some(Singly(w, 0).node);
    Extend(w, interval, s0, Process(true), Singly(w, 0));
  }

  /** The next checkpoint cuts the open file. */
  function Cutting(w: Stream, c: nat): Node {
    var m := SingleMeta(w, c);
    Node(w.epoch(c + 1), c + 1, c + 2, w.rows(c + 1), map[m := w.rows(c)], [m])
  }

  lemma SinglyCuts(w: Stream, interval: nat, c: nat)
    requires w.EpochStep(c)
    ensures AfterDelivery(w, interval, true, Singly(w, c)) == Some(Cutting(w, c))
  {
    var n, m := Singly(w, c).node, SingleMeta(w, c);
    assert [] + w.rows(c + 1) == w.rows(c + 1);
    assert AfterCut(n) == n.(staged := map[m := w.rows(c)], queue := [m]);
    if w.epoch(c + 1) > w.epoch(c) { KeepsOtherEpochs(AfterCut(n), w.epoch(c + 1)); }
  }

  lemma NextSingly(w: Stream, interval: nat, c: nat)
    requires w.EpochStep(c) && Reaches(w, interval, Singly(w, c))
    ensures Reaches(w, interval, Singly(w, c + 1))
  {
    var s, m := Singly(w, c), SingleMeta(w, c);
    SinglyCuts(w, interval, c);
    var s1 := s.(node := Cutting(w, c), fetch := c + 2, emitted := s.emitted + [m]);
    Extend(w, interval, s, Process(true), s1);
    assert map[m := w.rows(c)] - {m} == map[];
    Extend(w, interval, s1, Upload, Singly(w, c + 1));
  }

  lemma {:induction false} ReachesSingly(w: Stream, interval: nat, c: nat)
    requires w.Good()
    ensures Reaches(w, interval, Singly(w, c))
  {
    if c == 0 {
      FirstSingly(w, interval);
    } else {
      ReachesSingly(w, interval, c - 1);
      assert w.EpochStep(c - 1);
      NextSingly(w, interval, c - 1);
    }
  }

  lemma {:induction false} SingleFileAt(w: Stream, n: nat, i: nat)
    requires i < |SingleFiles(w, n)|
    ensures var m := SingleFiles(w, n)[i].meta; m.end == m.start + 1 && w.rows(m.start) != []
    decreases n
  {
    if i < |SingleFiles(w, n - 1)| { SingleFileAt(w, n - 1, i); }
  }

  /** A checkpoint without rows before one with rows leaves a hole. */
  lemma SinglyHasAGap(w: Stream, c: nat, d: nat)
    requires Returns(w, c, d)
    ensures !Gapless(SingleFiles(w, d + 1))
  {
    var files := SingleFiles(w, d + 1);
    if Gapless(files) {
      var i := TilesCover(Metas(files), 0, EndOf(files), c);
      SingleFileAt(w, d + 1, i);
    }
  }

  /** Every run leaves a listing without holes exactly when the stream never returns to having rows. */
  lemma GaplessIffNeverReturns(w: Stream, interval: nat)
    requires w.Good()
    ensures (forall s | Reaches(w, interval, s) :: Gapless(s.remote)) <==> NeverReturns(w)
  {
    if NeverReturns(w) {
      forall s | Reaches(w, interval, s) ensures Gapless(s.remote) {
        ReachableIsGood(w, interval, s);
        SpansGapless(w, s.remote);
      }
    } else {
      var c: nat, d: nat :| Returns(w, c, d);
      ReachesSingly(w, interval, d + 1);
      SinglyHasAGap(w, c, d);
    }
  }

  // ---------------------------------------------------------------- resuming at checkpoint 1

  lemma ReachableIsGood(w: Stream, interval: nat, s: System)
    requires w.Good() && Reaches(w, interval, s)
    ensures Inv(w, interval, s)
  {
    var tr: seq<System> :| Run(w, interval, tr) && tr[|tr| - 1] == s;
    RunKeeps(w, interval, tr, |tr| - 1);
  }

  /** With rows in checkpoint 0 there is a run that uploads its file alone, crashes, restarts and panics
      on the first checkpoint it is fed. */
  lemma ResumeAtOnePanics(w: Stream, interval: nat, timedOut: bool)
    returns (s: System, restarted: System, panicked: System)
    requires w.Good() && w.rows(0) != []
    ensures Reaches(w, interval, s) && EndOf(s.remote) == 1
    ensures Step(w, interval, s, Restart(Metas(s.remote), map[]), restarted) && restarted.up
    ensures Step(w, interval, restarted, Process(timedOut), panicked) && !panicked.up
  {
    ReachesSingly(w, interval, 1);
    s := Crashed(Singly(w, 1));
    Extend(w, interval, Singly(w, 1), Crash, s);
    ReachableIsGood(w, interval, s);
    assert SingleFiles(w, 1) == SingleFiles(w, 0) + [File(SingleMeta(w, 0), w.rows(0))];
    RecoverIsEnd(w, s.remote, Metas(s.remote));
    restarted := System(true, NewNode(1, map[]), 0, s.remote, [], 1);
    panicked := Crashed(restarted);
  }

  /** Some run stands before that restart exactly when checkpoint 0 has rows. */
  lemma ResumesAtOneIff(w: Stream, interval: nat)
    requires w.Good()
    ensures (exists s :: Reaches(w, interval, s) && EndOf(s.remote) == 1) <==> w.rows(0) != []
  {
    if w.rows(0) != [] {
      var s, _, _ := ResumeAtOnePanics(w, interval, true);
    }
    if s :| Reaches(w, interval, s) && EndOf(s.remote) == 1 {
      ReachableIsGood(w, interval, s);
      var d := SomeRow(w, s.remote[|s.remote| - 1]);
    }
  }
}
