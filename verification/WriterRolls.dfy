/**
 When the checkpoint writer rolls to new files (crates/sui-archival/src/writer.rs, `write_as_blob`), how
 large the files of an archive get, and what else stays in the staging directory and the channel.
 */
module WriterRolls {
  import opened ChainTypes
  import opened Manifests
  import opened CheckpointWriters
  import opened WriterInvariant
  import opened ArchiveProtocol

  /** The encoded size of the contents of checkpoints start .. end - 1. */
  function BlobBytes(w: World, start: nat, end: nat): nat {
    if start >= end then 0 else BlobBytes(w, start, end - 1) + w.blobSize(w.chain(end - 1).contents)
  }

  /** What the writer counts for the open file besides its blobs. */
  function Head(w: World, c: Core): int { c.bufOffset - BlobBytes(w, c.start, c.end) }

  /** The writer counts its blobs and four bytes of magic, except in the first file after a start, where it
      may count from 0; with two checkpoints or more it is within the limit. */
  ghost predicate Sized(w: World, size: nat, starts: iset<nat>, c: Core) {
    && Head(w, c) in {0, 4} && (Head(w, c) == 0 ==> c.start as nat in starts)
    && (c.end - c.start >= 2 ==> c.bufOffset <= size)
  }

  /** A file of two or more checkpoints is within the limit, the magic counted unless it was the first after
      a start. */
  ghost predicate SegmentSized(w: World, size: nat, starts: iset<nat>, seg: Segment) {
    seg.end - seg.start >= 2 ==>
      || 4 + BlobBytes(w, seg.start, seg.end) <= size
      || (seg.start as nat in starts && BlobBytes(w, seg.start, seg.end) <= size)
  }

  /** The open range is cut before the next checkpoint goes in: it is not empty, and the epoch moves, the
      time is up, or the next blob does not fit. */
  predicate Rolls(w: World, size: nat, c: Core, timedOut: bool) {
    && c.start < c.end
    && (w.Epoch(c.end) != c.epochNum || timedOut || Head(w, c) + BlobBytes(w, c.start, c.end + 1) > size)
  }

  // ---------------------------------------------------------------- one write

  lemma ResetSized(w: World, size: nat, starts: iset<nat>, n: Node)
    ensures Sized(w, size, starts, AfterReset(n).core)
  {
  }

  lemma AppendSized(w: World, size: nat, starts: iset<nat>, n: Node, summary: CertifiedSummary)
    requires Sized(w, size, starts, n.core) && n.core.start <= n.core.end
    requires n.core.start < n.core.end ==> n.core.bufOffset + w.blobSize(w.chain(n.core.end).contents) <= size
    ensures var r := AfterAppend(n, w.chain(n.core.end).contents, summary, w.blobSize(w.chain(n.core.end).contents));
      r.error.None? ==> Sized(w, size, starts, r.node.core)
  {
  }

  /** What a cut followed by a reset does to the manifest and the open range. */
  lemma CutSegments(w: World, n: Node, open: bool)
    requires CoreOk(w, n.core)
    ensures var r := AfterCut(w.sha3, n, open);
      && (r.error.None? <==> open || n.core.start >= n.core.end)
      && Segs(r.node.core) == Segs(n.core) + (if n.core.start < n.core.end then [OpenSegment(n.core)] else [])
      && r.node.core.start == n.core.start && r.node.core.end == n.core.end
  {
    if n.core.start < n.core.end {
      CutManifest(w, n, open);
    } else {
      assert Segs(n.core) + [] == Segs(n.core);
    }
  }

  /** The outcome of a write: which segments it adds to the manifest, and that the count stays right. */
  ghost predicate Rolled(w: World, size: nat, starts: iset<nat>, n: Node, rolls: bool, r: WriteResult) {
    && (r.error.None? ==>
          && Sized(w, size, starts, r.node.core)
          && Segs(r.node.core) == Segs(n.core) + (if rolls then [OpenSegment(n.core)] else []))
    && Segs(r.node.core) in {Segs(n.core), Segs(n.core) + [OpenSegment(n.core)]}
    && (Segs(r.node.core) != Segs(n.core) ==> n.core.start < n.core.end)
  }

  lemma StoreRolls(w: World, size: nat, starts: iset<nat>, n: Node, at: Circumstances)
    requires CoreOk(w, n.core) && Sized(w, size, starts, n.core) && w.Epoch(n.core.end) == n.core.epochNum
    requires at.blobSize == w.blobSize(w.chain(n.core.end).contents)
    ensures var cp, rolls := w.chain(n.core.end), Rolls(w, size, n.core, at.timedOut);
      var r := AfterStore(w.sha3, size, n, cp.contents, cp.summary, at);
      && Rolled(w, size, starts, n, rolls, r)
      && (r.error.None? <==> n.core.end < U64_MAX && (at.open || !rolls))
  {
    CutSegments(w, n, at.open);
    var cp := w.chain(n.core.end);
    var r := AfterCut(w.sha3, n, at.open);
    if n.core.bufOffset + at.blobSize > size || at.timedOut {
      if r.error.None? {
        ResetSized(w, size, starts, r.node);
        AppendSized(w, size, starts, AfterReset(r.node), cp.summary);
      }
    } else {
      AppendSized(w, size, starts, n, cp.summary);
      assert Segs(n.core) + [] == Segs(n.core);
    }
  }

  /** A write adds the open range to the manifest exactly when it rolls, and succeeds exactly when no counter
      is exhausted and the upload task listens if there is something to cut. */
  lemma WriteRolls(w: World, size: nat, starts: iset<nat>, n: Node, at: Circumstances)
    requires w.GoodChain() && CoreOk(w, n.core) && n.core.epochNum == w.EpochBefore(n.core.end)
    requires Sized(w, size, starts, n.core) && at.blobSize == w.blobSize(w.chain(n.core.end).contents)
    ensures var cp, rolls := w.chain(n.core.end), Rolls(w, size, n.core, at.timedOut);
      var r := AfterWrite(w.sha3, size, n, cp.contents, cp.summary, at);
      && Rolled(w, size, starts, n, rolls, r)
      && (r.error.None? <==> n.core.epochNum < U64_MAX && n.core.end < U64_MAX && (at.open || !rolls))
  {
    var c := n.core;
    assert w.GoodEntry(c.end);
    if c.end > 0 { assert w.EpochStep(c.end - 1); }
    if c.epochNum < U64_MAX {
      if w.Epoch(c.end) == c.epochNum + 1 {
        NewEpochRolls(w, size, starts, n, at);
      } else {
        StoreRolls(w, size, starts, n, at);
      }
    }
  }

  /** The node with which a write goes on after an epoch change. */
  ghost predicate InNextEpoch(w: World, n: Node, open: bool, r: WriteResult) {
    && (r.error.None? <==> open || n.core.start >= n.core.end)
    && Segs(r.node.core) == Segs(n.core) + (if n.core.start < n.core.end then [OpenSegment(n.core)] else [])
    && (r.error.None? ==>
          && CoreOk(w, r.node.core) && r.node.core.start == r.node.core.end == n.core.end
          && r.node.core.epochNum == n.core.epochNum + 1 && r.node.core.bufOffset == 4)
  }

  /** The core a cut leaves, moved into the next epoch. */
  lemma NextEpochCore(w: World, n: Node, open: bool)
    requires n.core.epochNum < U64_MAX
    ensures var cut, r := AfterCut(w.sha3, n, open), AfterNextEpoch(w.sha3, n, open);
      && r.error == cut.error
      && r.node.core == if cut.error.Some? then cut.node.core else
           cut.node.core.(epochNum := cut.node.core.epochNum + 1, start := cut.node.core.end,
                          wbuf := [], summaryWbuf := [], bufOffset := 4)
  {
  }

  lemma NextEpochSegments(w: World, n: Node, open: bool)
    requires w.GoodChain() && CoreOk(w, n.core) && n.core.epochNum < U64_MAX
    ensures InNextEpoch(w, n, open, AfterNextEpoch(w.sha3, n, open))
  {
    NextEpochCore(w, n, open);
    CutSegments(w, n, open);
    if n.core.start < n.core.end { CutManifest(w, n, open); }
  }

  lemma NewEpochRolls(w: World, size: nat, starts: iset<nat>, n: Node, at: Circumstances)
    requires w.GoodChain() && CoreOk(w, n.core) && n.core.epochNum < U64_MAX
    requires w.Epoch(n.core.end) == n.core.epochNum + 1
    requires at.blobSize == w.blobSize(w.chain(n.core.end).contents)
    ensures var cp, rolls := w.chain(n.core.end), n.core.start < n.core.end;
      var r := AfterWrite(w.sha3, size, n, cp.contents, cp.summary, at);
      && Rolled(w, size, starts, n, rolls, r)
      && (r.error.None? <==> n.core.end < U64_MAX && (at.open || !rolls))
  {
    var cp, r1 := w.chain(n.core.end), AfterNextEpoch(w.sha3, n, at.open);
    assert w.GoodEntry(n.core.end);
    NextEpochSegments(w, n, at.open);
    if r1.error.None? {
      StoreRolls(w, size, starts, r1.node, at);
      EmptyRangeAdds(w, size, starts, n, r1.node, AfterStore(w.sha3, size, r1.node, cp.contents, cp.summary, at));
    }
  }

  /** A store into an empty range adds no segment of its own. */
  lemma EmptyRangeAdds(w: World, size: nat, starts: iset<nat>, n: Node, n1: Node, r: WriteResult)
    requires n1.core.start == n1.core.end && Rolled(w, size, starts, n1, false, r)
    requires Segs(n1.core) == Segs(n.core) + (if n.core.start < n.core.end then [OpenSegment(n.core)] else [])
    ensures Rolled(w, size, starts, n, n.core.start < n.core.end, r)
  {
    assert Segs(r.node.core) == Segs(n1.core);
    assert Segs(n1.core) + [] == Segs(n1.core) && Segs(n.core) + [] == Segs(n.core);
  }

  // ---------------------------------------------------------------- runs

  ghost predicate StartedAt(w: World, size: nat, tr: seq<System>, i: nat, n: nat) {
    exists j | 0 <= j < i && j + 1 < |tr| :: Step(w, size, tr[j], Start, tr[j + 1]) && tr[j + 1].tail == n
  }

  /** The positions the archive was started at before moment i of a run. */
  ghost function Starts(w: World, size: nat, tr: seq<System>, i: nat): iset<nat> {
    iset n: nat | StartedAt(w, size, tr, i, n)
  }

  ghost predicate AllSized(w: World, size: nat, starts: iset<nat>, segs: seq<Segment>) {
    forall k | 0 <= k < |segs| :: SegmentSized(w, size, starts, segs[k])
  }

  ghost predicate SizesOk(w: World, size: nat, starts: iset<nat>, s: System) {
    && AllSized(w, size, starts, Published(s))
    && (s.writerUp ==> Sized(w, size, starts, s.node.core))
    && (s.writerUp || s.uploaderUp ==> AllSized(w, size, starts, Segs(s.node.core)))
  }

  lemma MoreStarts(w: World, size: nat, starts: iset<nat>, more: iset<nat>, s: System)
    requires SizesOk(w, size, starts, s) && starts <= more
    ensures SizesOk(w, size, more, s)
  {
    forall k | 0 <= k < |Published(s)| ensures SegmentSized(w, size, more, Published(s)[k]) {
      assert SegmentSized(w, size, starts, Published(s)[k]);
    }
    if s.writerUp || s.uploaderUp {
      forall k | 0 <= k < |Segs(s.node.core)| ensures SegmentSized(w, size, more, Segs(s.node.core)[k]) {
        assert SegmentSized(w, size, starts, Segs(s.node.core)[k]);
      }
    }
  }

  lemma TailSizes(w: World, size: nat, starts: iset<nat>, s: System, timedOut: bool, s': System)
    requires w.GoodChain() && Inv(w, s) && SizesOk(w, size, starts, s) && Step(w, size, s, Tail(timedOut), s')
    ensures SizesOk(w, size, starts, s')
  {
    WriteRolls(w, size, starts, s.node, At(w, s, timedOut));
    var segs, segs', open := Segs(s.node.core), Segs(s'.node.core), OpenSegment(s.node.core);
    forall k | 0 <= k < |segs'| ensures SegmentSized(w, size, starts, segs'[k]) {
      if k < |segs| {
        assert segs'[k] == segs[k] && SegmentSized(w, size, starts, segs[k]);
      } else {
        assert segs'[k] == open;
      }
    }
  }

  lemma PublishSizes(w: World, size: nat, starts: iset<nat>, s: System, s': System)
    requires Inv(w, s) && SizesOk(w, size, starts, s) && Step(w, size, s, PublishManifest, s')
    ensures SizesOk(w, size, starts, s')
  {
    var segs, k := Segs(s.node.core), |Published(s)|;
    assert segs[..k] == Published(s);
    PublishedGrows(w, s, segs, k, s');
    forall i | 0 <= i < |Published(s')| ensures SegmentSized(w, size, starts, Published(s')[i]) {
      assert Published(s')[i] == segs[i] && SegmentSized(w, size, starts, segs[i]);
    }
  }

  lemma StartSizes(w: World, size: nat, starts: iset<nat>, s: System, s': System)
    requires Inv(w, s) && SizesOk(w, size, starts, s) && Step(w, size, s, Start, s') && s'.tail in starts
    ensures SizesOk(w, size, starts, s')
  {
    if s.remote == map[] {
      assert Segs(s'.node.core) == [];
    } else {
      assert Segs(s'.node.core) == Published(s);
    }
  }

  lemma StepSizes(w: World, size: nat, starts: iset<nat>, s: System, a: Action, s': System)
    requires w.GoodChain() && Inv(w, s) && SizesOk(w, size, starts, s) && Step(w, size, s, a, s')
    requires a.Start? ==> s'.tail in starts
    ensures SizesOk(w, size, starts, s')
  {
    match a
    case Tail(timedOut) => TailSizes(w, size, starts, s, timedOut, s');
    case PublishManifest => PublishSizes(w, size, starts, s, s');
    case Start => StartSizes(w, size, starts, s, s');
    case _ => assert Published(s') == Published(s) && Segs(s'.node.core) == Segs(s.node.core);
  }

  lemma {:induction false} RunSizes(w: World, size: nat, tr: seq<System>, i: nat)
    requires w.GoodChain() && Run(w, size, tr) && i < |tr|
    ensures SizesOk(w, size, Starts(w, size, tr, i), tr[i])
  {
    if i == 0 {
      assert Published(tr[0]) == [];
    } else {
      var starts := Starts(w, size, tr, i);
      RunSizes(w, size, tr, i - 1);
      RunKeeps(w, size, tr, i - 1);
      assert Starts(w, size, tr, i - 1) <= starts;
      MoreStarts(w, size, Starts(w, size, tr, i - 1), starts, tr[i - 1]);
      assert Next(w, size, tr[i - 1], tr[i - 1 + 1]);
      var a :| Step(w, size, tr[i - 1], a, tr[i]);
      assert a.Start? ==> StartedAt(w, size, tr, i, tr[i].tail) by {
        if a.Start? { assert Step(w, size, tr[i - 1], Start, tr[i - 1 + 1]); }
      }
      StepSizes(w, size, starts, tr[i - 1], a, tr[i]);
    }
  }

  // ---------------------------------------------------------------- what follows

  /** Every published file of two or more checkpoints holds at most `size` bytes of magic and blobs; the
      magic is not counted in a file that was the first after a start. */
  lemma PublishedFilesKeepTheLimit(w: World, size: nat, tr: seq<System>, i: nat, k: nat)
    requires w.GoodChain() && Run(w, size, tr) && i < |tr| && tr[i].remoteManifest.Some?
    requires 2 * k < |tr[i].remoteManifest.value.fileMetadata|
    ensures var f := tr[i].remoteManifest.value.fileMetadata[2 * k];
      && f.fileType == CheckpointContent
      && (f.end - f.start >= 2 ==>
            || 4 + BlobBytes(w, f.start, f.end) <= size
            || (StartedAt(w, size, tr, i, f.start) && BlobBytes(w, f.start, f.end) <= size))
  {
    RunKeeps(w, size, tr, i);
    RunSizes(w, size, tr, i);
    var segs := Published(tr[i]);
    SegsOfFilesOf(w, segs);
    FilesAt(w, segs, k);
    assert SegmentSized(w, size, Starts(w, size, tr, i), segs[k]);
  }

  /** In every reachable state: the next write adds the open range to the manifest exactly when the range is
      not empty and the epoch moves, the time is up, or its blobs and the next one exceed the limit,
      counting four bytes of magic unless this may be the first file after a start.  It succeeds exactly
      when no counter is exhausted and, if it cuts, the upload task listens. */
  lemma WritesRollExactlyWhen(w: World, size: nat, tr: seq<System>, i: nat, timedOut: bool) returns (magic: nat)
    requires w.GoodChain() && Run(w, size, tr) && i < |tr| && tr[i].writerUp
    ensures var c, r := tr[i].node.core, TailResult(w, size, tr[i], timedOut);
      var rolls := c.start < c.end
        && (w.Epoch(c.end) != c.epochNum || timedOut || magic + BlobBytes(w, c.start, c.end + 1) > size);
      && (magic == 4 || (magic == 0 && StartedAt(w, size, tr, i, c.start)))
      && (r.error.None? <==> c.epochNum < U64_MAX && c.end < U64_MAX && (tr[i].uploaderUp || !rolls))
      && (r.error.None? ==> Segs(r.node.core) == Segs(c) + (if rolls then [OpenSegment(c)] else []))
  {
    RunKeeps(w, size, tr, i);
    RunSizes(w, size, tr, i);
    magic := Head(w, tr[i].node.core);
    WriteRolls(w, size, Starts(w, size, tr, i), tr[i].node, At(w, tr[i], timedOut));
  }

  /** The first file after a start really counts from 0: the first two checkpoints of an archive share a file
      exactly when their blobs alone fit, so with the magic that file may exceed the limit. */
  lemma FirstFileCountsFromZero(w: World, size: nat) returns (tr: seq<System>)
    requires w.GoodChain() && w.Epoch(1) == 0
    ensures Run(w, size, tr) && tr[|tr| - 1].writerUp
    ensures var c := tr[|tr| - 1].node.core;
      c.end == 2 && (c.start == 0 <==> BlobBytes(w, 0, 2) <= size)
  {
    assert w.GoodEntry(0) && w.GoodEntry(1);
    var s1 := INITIAL.(node := Open(NewManifest(0, 0), map[]), writerUp := true, uploaderUp := true);
    var r1 := TailResult(w, size, s1, false);
    FirstWrite(w, size, s1, r1);
    var s2 := s1.(node := r1.node, tail := 1);
    var r2 := TailResult(w, size, s2, false);
    SecondWrite(w, size, s2, r2);
    var s3 := s2.(node := r2.node, tail := 2);
    tr := [INITIAL, s1, s2, s3];
    assert Step(w, size, INITIAL, Start, s1);
    assert Step(w, size, s1, Tail(false), s2) && Step(w, size, s2, Tail(false), s3);
    assert Next(w, size, tr[0], tr[1]) && Next(w, size, tr[1], tr[2]) && Next(w, size, tr[2], tr[3]);
  }

  lemma FirstWrite(w: World, size: nat, s: System, r: WriteResult)
    requires w.GoodEntry(0) && w.Epoch(0) == 0 && s.tail == 0 && s.uploaderUp
    requires s.node == Open(NewManifest(0, 0), s.node.staged) && s.node.queue == []
    requires r == TailResult(w, size, s, false)
    ensures r.error.None? && r.node.core.start == 0 && r.node.core.end == 1 && r.node.core.epochNum == 0
    ensures r.node.queue == []
    ensures var b := w.blobSize(w.chain(0).contents); r.node.core.bufOffset == if b > size then 4 + b else b
  {
  }

  lemma SecondWrite(w: World, size: nat, s: System, r: WriteResult)
    requires w.GoodEntry(1) && w.Epoch(1) == 0 && s.tail == 1 && s.uploaderUp && s.node.queue == []
    requires s.node.core.start == 0 && s.node.core.end == 1 && s.node.core.epochNum == 0
    requires var b := w.blobSize(w.chain(0).contents); s.node.core.bufOffset == if b > size then 4 + b else b
    requires r == TailResult(w, size, s, false)
    ensures r.error.None? && r.node.core.end == 2 && |r.node.queue| <= 1
    ensures r.node.core.start == 0 <==> BlobBytes(w, 0, 2) <= size
  {
    assert BlobBytes(w, 0, 2) == w.blobSize(w.chain(0).contents) + w.blobSize(w.chain(1).contents) by {
      assert BlobBytes(w, 0, 1) == w.blobSize(w.chain(0).contents);
    }
  }

  // ---------------------------------------------------------------- the staging directory and the channel

  ghost predicate BeginsSegment(segs: seq<Segment>, start: nat) { exists seg | seg in segs :: seg.start == start }

  /** A staged file of the current epoch is the writer's own: held open, or of a segment in its manifest. */
  ghost predicate Owned(n: Node, p: Path) {
    p in n.staged && p.epochNum == n.core.epochNum ==>
      p.start == n.core.start || BeginsSegment(Segs(n.core), p.start)
  }

  /** In the directory of its epoch a writer has only files of its own. */
  ghost predicate NoLeftovers(n: Node) { forall p :: Owned(n, p) }

  lemma StillBegins(segs: seq<Segment>, seg: Segment, start: nat)
    requires BeginsSegment(segs, start)
    ensures BeginsSegment(segs + [seg], start)
  {
    var x :| x in segs && x.start == start;
    assert x in segs + [seg];
  }

  lemma CutAndResetOwns(w: World, n: Node, open: bool)
    requires CoreOk(w, n.core) && NoLeftovers(n)
    ensures var r := AfterCutAndReset(w.sha3, n, open); r.error.None? ==> NoLeftovers(r.node)
  {
    CutSegments(w, n, open);
    var r := AfterCut(w.sha3, n, open);
    if r.error.None? {
      var n' := AfterReset(r.node);
      forall p ensures Owned(n', p) {
        assert Owned(n, p);
        if n.core.start < n.core.end {
          if BeginsSegment(Segs(n.core), p.start) { StillBegins(Segs(n.core), OpenSegment(n.core), p.start); }
          assert OpenSegment(n.core) in Segs(n'.core);
        }
      }
    }
  }

  lemma NextEpochOwns(w: World, n: Node, open: bool)
    requires n.core.epochNum < U64_MAX
    ensures var r := AfterNextEpoch(w.sha3, n, open); r.error.None? ==> NoLeftovers(r.node)
  {
  }

  lemma AppendOwns(n: Node, contents: Contents, summary: CertifiedSummary, blobSize: nat)
    requires NoLeftovers(n)
    ensures NoLeftovers(AfterAppend(n, contents, summary, blobSize).node)
  {
    var n' := AfterAppend(n, contents, summary, blobSize).node;
    forall p ensures Owned(n', p) { assert Owned(n, p); }
  }

  lemma StoreOwns(w: World, size: nat, n: Node, at: Circumstances)
    requires CoreOk(w, n.core) && NoLeftovers(n)
    ensures var cp := w.chain(n.core.end);
      var r := AfterStore(w.sha3, size, n, cp.contents, cp.summary, at); r.error.None? ==> NoLeftovers(r.node)
  {
    var cp := w.chain(n.core.end);
    if n.core.bufOffset + at.blobSize > size || at.timedOut {
      CutAndResetOwns(w, n, at.open);
      var r := AfterCutAndReset(w.sha3, n, at.open);
      if r.error.None? { AppendOwns(r.node, cp.contents, cp.summary, at.blobSize); }
    } else {
      AppendOwns(n, cp.contents, cp.summary, at.blobSize);
    }
  }

  lemma WriteOwns(w: World, size: nat, n: Node, at: Circumstances)
    requires w.GoodChain() && CoreOk(w, n.core) && NoLeftovers(n)
    ensures var cp := w.chain(n.core.end);
      var r := AfterWrite(w.sha3, size, n, cp.contents, cp.summary, at); r.error.None? ==> NoLeftovers(r.node)
  {
    if n.core.epochNum < U64_MAX {
      if w.Epoch(n.core.end) == n.core.epochNum + 1 {
        NewEpochWriteOwns(w, size, n, at);
      } else {
        StoreOwns(w, size, n, at);
      }
    }
  }

  lemma NewEpochWriteOwns(w: World, size: nat, n: Node, at: Circumstances)
    requires w.GoodChain() && CoreOk(w, n.core) && n.core.epochNum < U64_MAX
    requires w.Epoch(n.core.end) == n.core.epochNum + 1
    ensures var cp := w.chain(n.core.end);
      var r := AfterWrite(w.sha3, size, n, cp.contents, cp.summary, at); r.error.None? ==> NoLeftovers(r.node)
  {
    var r := AfterNextEpoch(w.sha3, n, at.open);
    NextEpochOwns(w, n, at.open);
    NextEpochSegments(w, n, at.open);
    NewEpochWrite(w, size, n, at);
    if r.error.None? { StoreOwns(w, size, r.node, at); }
  }

  /** A write into the next epoch is the epoch change and then the store. */
  lemma NewEpochWrite(w: World, size: nat, n: Node, at: Circumstances)
    requires w.GoodEntry(n.core.end) && n.core.epochNum < U64_MAX && w.Epoch(n.core.end) == n.core.epochNum + 1
    ensures var cp, r1 := w.chain(n.core.end), AfterNextEpoch(w.sha3, n, at.open);
      AfterWrite(w.sha3, size, n, cp.contents, cp.summary, at)
      == if r1.error.Some? then r1 else AfterStore(w.sha3, size, r1.node, cp.contents, cp.summary, at)
  {
  }

  lemma StepOwns(w: World, size: nat, s: System, a: Action, s': System)
    requires w.GoodChain() && Inv(w, s) && (s.writerUp ==> NoLeftovers(s.node)) && Step(w, size, s, a, s')
    ensures s'.writerUp ==> NoLeftovers(s'.node)
  {
    if a.Tail? {
      WriteOwns(w, size, s.node, At(w, s, a.timedOut));
    } else if s.writerUp && s'.writerUp {
      forall p ensures Owned(s'.node, p) { assert Owned(s.node, p); }
    }
  }

  /** In every reachable state a running writer has nothing but files of its own in the directory of its epoch,
      whatever earlier processes left there, and the channel holds at most 100 updates. */
  lemma {:induction false} NothingIsLeftOver(w: World, size: nat, tr: seq<System>, i: nat)
    requires w.GoodChain() && Run(w, size, tr) && i < |tr|
    ensures tr[i].writerUp ==> NoLeftovers(tr[i].node)
    ensures |tr[i].node.queue| <= 100
  {
    if i == 0 {
    } else {
      NothingIsLeftOver(w, size, tr, i - 1);
      RunKeeps(w, size, tr, i - 1);
      assert Next(w, size, tr[i - 1], tr[i - 1 + 1]);
      var a :| Step(w, size, tr[i - 1], a, tr[i]);
      StepOwns(w, size, tr[i - 1], a, tr[i]);
    }
  }
}
