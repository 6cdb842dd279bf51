/**
 What the checkpoint writer keeps: its manifest describes the chain it has cut, its open range
 starts where the manifest ends, and every queued update finds its two files staged.
 */
module WriterInvariant {
  import opened ChainTypes
  import opened Manifests
  import opened CheckpointWriters

  ghost function Segs(c: Core): seq<Segment> { SegsOf(c.manifest.fileMetadata) }

  ghost predicate ManifestOk(w: World, m: Manifest) {
    var segs := SegsOf(m.fileMetadata);
    Tiles(w, segs) && m == ManifestOf(w, segs)
  }

  /** The writer between two writes, or between two steps of one write. */
  ghost predicate CoreOk(w: World, c: Core) {
    && ManifestOk(w, c.manifest)
    && c.start == c.manifest.nextCheckpointSeqNum <= c.end
    && c.manifest.epoch <= c.epochNum
    && c.wbuf == w.Contents(c.start, c.end)
    && c.summaryWbuf == w.Summaries(c.start, c.end)
    && w.SingleEpoch(c.start, c.end, c.epochNum)
  }

  /** `files` holds the content file of `seg` as the chain determines it. */
  ghost predicate HasContent(w: World, files: map<Path, FileData>, seg: Segment) {
    var p := Path(CheckpointContent, seg.epoch, seg.start);
    seg.start <= seg.end && p in files && files[p] == ContentData(w, seg)
  }

  ghost predicate HasSummary(w: World, files: map<Path, FileData>, seg: Segment) {
    var p := Path(CheckpointSummaryFile, seg.epoch, seg.start);
    seg.start <= seg.end && p in files && files[p] == SummaryData(w, seg)
  }

  /** The update that announces segment k. */
  ghost function UpdateFor(w: World, segs: seq<Segment>, k: nat): CheckpointUpdates
    requires Tiles(w, segs) && k < |segs|
  {
    TileAt(w, segs, k);
    TilesPrefix(w, segs, k + 1);
    CheckpointUpdates(ContentMeta(w, segs[k]), SummaryMeta(w, segs[k]), ManifestOf(w, segs[..k + 1]))
  }

  /** Queue entry i announces segment from + i, whose files are staged. */
  ghost predicate QueuedAt(
    w: World, queue: seq<CheckpointUpdates>, staged: map<Path, FileData>, segs: seq<Segment>, from: nat, i: nat)
  {
    && Tiles(w, segs) && i < |queue| && from + i < |segs|
    && queue[i] == UpdateFor(w, segs, from + i)
    && HasContent(w, staged, segs[from + i]) && HasSummary(w, staged, segs[from + i])
  }

  /** The queue announces, in order, every segment from `from` on, and all their files are staged. */
  ghost predicate QueueOk(
    w: World, queue: seq<CheckpointUpdates>, staged: map<Path, FileData>, segs: seq<Segment>, from: nat)
  {
    && Tiles(w, segs)
    && from + |queue| == |segs|
    && (forall i | 0 <= i < |queue| :: QueuedAt(w, queue, staged, segs, from, i))
  }

  /** Files of earlier segments are not touched. */
  ghost predicate KeepsOlder(before: map<Path, FileData>, after: map<Path, FileData>, epoch: u64, start: u64) {
    forall p | p in before && p.epochNum <= epoch && p.start < start :: p in after && after[p] == before[p]
  }

  lemma SegmentIsOlder(w: World, segs: seq<Segment>, k: nat)
    requires w.GoodChain() && Tiles(w, segs) && k < |segs|
    ensures segs[k].epoch <= LastEpoch(segs) && segs[k].start < EndOf(segs)
  {
    TileAt(w, segs, k);
    TileAt(w, segs, |segs| - 1);
    if k < |segs| - 1 {
      TilesOrdered(w, segs, k, |segs| - 1);
    }
    w.EpochsAscend(segs[k].start, Last(segs).start);
  }

  lemma QueueFrame(w: World, queue: seq<CheckpointUpdates>, staged: map<Path, FileData>, staged': map<Path, FileData>,
                   segs: seq<Segment>, from: nat, epoch: u64)
    requires w.GoodChain()
    requires QueueOk(w, queue, staged, segs, from)
    requires LastEpoch(segs) <= epoch && KeepsOlder(staged, staged', epoch, EndOf(segs))
    ensures QueueOk(w, queue, staged', segs, from)
  {
    forall i | 0 <= i < |queue| ensures QueuedAt(w, queue, staged', segs, from, i) {
      assert QueuedAt(w, queue, staged, segs, from, i);
      SegmentIsOlder(w, segs, from + i);
    }
  }

  ghost function OpenSegment(c: Core): Segment { Segment(c.epochNum, c.start, c.end) }

  /** Cutting a non-empty range appends exactly that range to the manifest. */
  lemma CutManifest(w: World, n: Node, open: bool)
    requires CoreOk(w, n.core) && n.core.start < n.core.end
    ensures var c := AfterCut(w.sha3, n, open).node.core;
      && ManifestOk(w, c.manifest)
      && Segs(c) == Segs(n.core) + [OpenSegment(n.core)]
      && c.manifest.nextCheckpointSeqNum == n.core.end
      && c.manifest.epoch == n.core.epochNum
  {
    var segs, seg := Segs(n.core), OpenSegment(n.core);
    TilesAppend(w, segs, seg);
    SegsOfFilesOf(w, segs + [seg]);
    assert AfterCut(w.sha3, n, open).node.core.manifest == ManifestOf(w, segs + [seg]);
  }

  lemma CutQueue(w: World, n: Node, from: nat)
    requires w.GoodChain() && CoreOk(w, n.core) && n.core.start < n.core.end
    requires QueueOk(w, n.queue, n.staged, Segs(n.core), from)
    ensures var n' := AfterCut(w.sha3, n, true).node;
      QueueOk(w, n'.queue, n'.staged, Segs(n'.core), from)
  {
    var n' := AfterCut(w.sha3, n, true).node;
    var segs, segs', seg := Segs(n.core), Segs(n'.core), OpenSegment(n.core);
    CutManifest(w, n, true);
    QueueFrame(w, n.queue, n.staged, n'.staged, segs, from, n.core.epochNum);
    forall i | 0 <= i < |n'.queue| ensures QueuedAt(w, n'.queue, n'.staged, segs', from, i) {
      if i < |n.queue| {
        assert QueuedAt(w, n.queue, n'.staged, segs, from, i);
        assert segs'[..from + i + 1] == segs[..from + i + 1];
      } else {
        assert segs'[from + i] == seg;
        assert segs'[..from + i + 1] == segs';
      }
    }
  }

  /** The writer's invariant with its queue; without a listening upload task the queue is not constrained. */
  ghost predicate NodeOk(w: World, n: Node, from: nat, open: bool) {
    && CoreOk(w, n.core)
    && (open ==> QueueOk(w, n.queue, n.staged, Segs(n.core), from))
  }

  /** What a step of the writer may do to a node: extend the manifest, and only touch newer files. */
  ghost predicate Extends(n: Node, n': Node) {
    && Segs(n.core) <= Segs(n'.core)
    && KeepsOlder(n.staged, n'.staged, n.core.epochNum, n.core.start)
  }

  lemma ResetOk(w: World, n: Node, from: nat, open: bool)
    requires w.GoodChain()
    requires ManifestOk(w, n.core.manifest) && n.core.end == n.core.manifest.nextCheckpointSeqNum
    requires n.core.manifest.epoch <= n.core.epochNum
    requires open ==> QueueOk(w, n.queue, n.staged, Segs(n.core), from)
    ensures NodeOk(w, AfterReset(n), from, open)
    ensures KeepsOlder(n.staged, AfterReset(n).staged, n.core.epochNum, n.core.end)
  {
    var n' := AfterReset(n);
    if open {
      QueueFrame(w, n.queue, n.staged, n'.staged, Segs(n.core), from, n.core.epochNum);
    }
  }

  /** The queue and the manifest after a cut, whether or not there was something to cut. */
  lemma CutOk(w: World, n: Node, from: nat, open: bool)
    requires w.GoodChain() && NodeOk(w, n, from, open)
    ensures var r := AfterCut(w.sha3, n, open);
      && (r.error.Some? ==> r.error.value == ChannelClosed && !open)
      && (r.error.None? ==>
            && ManifestOk(w, r.node.core.manifest) && r.node.core.end == n.core.end
            && r.node.core.manifest.nextCheckpointSeqNum == n.core.end && r.node.core.epochNum == n.core.epochNum
            && r.node.core.manifest.epoch <= n.core.epochNum && Extends(n, r.node)
            && (open ==> QueueOk(w, r.node.queue, r.node.staged, Segs(r.node.core), from)))
  {
    if n.core.start < n.core.end {
      CutManifest(w, n, open);
      if open { CutQueue(w, n, from); }
    }
  }

  lemma CutAndResetOk(w: World, n: Node, from: nat, open: bool)
    requires w.GoodChain() && NodeOk(w, n, from, open)
    ensures var r := AfterCutAndReset(w.sha3, n, open);
      && (r.error.None? ==> NodeOk(w, r.node, from, open) && r.node.core.start == r.node.core.end == n.core.end
                            && r.node.core.epochNum == n.core.epochNum && Extends(n, r.node))
      && (r.error.Some? ==> r.error.value == ChannelClosed && !open)
  {
    CutOk(w, n, from, open);
    var r := AfterCut(w.sha3, n, open);
    if r.error.None? {
      ResetOk(w, r.node, from, open);
    }
  }

  /** Moving into the next epoch clears only the directory of that epoch. */
  lemma MoveOk(w: World, n: Node, from: nat, open: bool, moved: Node)
    requires w.GoodChain() && ManifestOk(w, n.core.manifest) && n.core.epochNum < U64_MAX
    requires n.core.end == n.core.manifest.nextCheckpointSeqNum && n.core.manifest.epoch <= n.core.epochNum
    requires open ==> QueueOk(w, n.queue, n.staged, Segs(n.core), from)
    requires moved == n.(core := n.core.(epochNum := n.core.epochNum + 1),
                         staged := RemoveEpochDir(n.staged, n.core.epochNum + 1))
    ensures NodeOk(w, AfterReset(moved), from, open)
    ensures KeepsOlder(n.staged, AfterReset(moved).staged, n.core.epochNum, n.core.end)
  {
    if open { QueueFrame(w, n.queue, n.staged, moved.staged, Segs(n.core), from, n.core.epochNum); }
    ResetOk(w, moved, from, open);
  }

  lemma ExtendsFurther(n: Node, n1: Node, n2: Node)
    requires Extends(n, n1) && Segs(n2.core) == Segs(n1.core) && n.core.start <= n.core.end
    requires KeepsOlder(n1.staged, n2.staged, n.core.epochNum, n.core.end)
    ensures Extends(n, n2)
  {
  }

  /** An epoch change after a cut that went through. */
  lemma CutThenMove(w: World, n: Node, from: nat, open: bool, cut: Node, n': Node)
    requires w.GoodChain() && NodeOk(w, n, from, open) && n.core.epochNum < U64_MAX
    requires AfterCut(w.sha3, n, open) == WriteResult(cut, None)
    requires n' == AfterReset(cut.(core := cut.core.(epochNum := n.core.epochNum + 1),
                                   staged := RemoveEpochDir(cut.staged, n.core.epochNum + 1)))
    ensures NodeOk(w, n', from, open) && Extends(n, n')
    ensures n'.core.start == n'.core.end == n.core.end && n'.core.epochNum == n.core.epochNum + 1
  {
    CutOk(w, n, from, open);
    var moved := cut.(core := cut.core.(epochNum := n.core.epochNum + 1),
                      staged := RemoveEpochDir(cut.staged, n.core.epochNum + 1));
    MoveOk(w, cut, from, open, moved);
    ExtendsFurther(n, cut, n');
  }

  lemma NextEpochOk(w: World, n: Node, from: nat, open: bool)
    requires w.GoodChain() && NodeOk(w, n, from, open) && n.core.epochNum < U64_MAX
    ensures var r := AfterNextEpoch(w.sha3, n, open);
      && (r.error.None? ==> NodeOk(w, r.node, from, open) && r.node.core.start == r.node.core.end == n.core.end
                            && r.node.core.epochNum == n.core.epochNum + 1 && Extends(n, r.node))
      && (r.error.Some? ==> r.error.value == ChannelClosed && !open)
  {
    var cut, r := AfterCut(w.sha3, n, open), AfterNextEpoch(w.sha3, n, open);
    if cut.error.None? { CutThenMove(w, n, from, open, cut.node, r.node); }
  }

  lemma BuffersGrow(w: World, start: nat, end: nat)
    requires start <= end
    ensures w.Contents(start, end + 1) == w.Contents(start, end) + [w.chain(end).contents]
    ensures w.Summaries(start, end + 1) == w.Summaries(start, end) + [w.chain(end).summary]
  {
  }

  /** The core with one more checkpoint in its buffers. */
  lemma AppendCoreOk(w: World, c: Core, c': Core)
    requires CoreOk(w, c) && w.Epoch(c.end) == c.epochNum
    requires c'.manifest == c.manifest && c'.start == c.start && c'.epochNum == c.epochNum
    requires c'.wbuf == c.wbuf + [w.chain(c.end).contents] && c'.summaryWbuf == c.summaryWbuf + [w.chain(c.end).summary]
    ensures c'.end == c.end + 1 ==> CoreOk(w, c')
  {
    BuffersGrow(w, c.start, c.end);
  }

  lemma AppendOk(w: World, n: Node, from: nat, open: bool, blobSize: nat)
    requires w.GoodChain() && NodeOk(w, n, from, open) && w.Epoch(n.core.end) == n.core.epochNum
    ensures var cp := w.chain(n.core.end);
      var r := AfterAppend(n, cp.contents, cp.summary, blobSize);
      && r.node.queue == n.queue && r.node.staged == n.staged && r.node.core.manifest == n.core.manifest
      && (r.error.None? ==> NodeOk(w, r.node, from, open) && r.node.core.end == n.core.end + 1
                            && r.node.core.epochNum == n.core.epochNum)
      && (r.error.Some? ==> r.error.value == SequenceOverflow)
  {
    var cp := w.chain(n.core.end);
    AppendCoreOk(w, n.core, AfterAppend(n, cp.contents, cp.summary, blobSize).node.core);
  }

  lemma ExtendsTransitive(n: Node, n': Node, n'': Node)
    requires Extends(n, n') && Extends(n', n'')
    requires n.core.epochNum <= n'.core.epochNum && n.core.start <= n'.core.start
    ensures Extends(n, n'')
  {
  }

  /** The result of a write step that began in node `n`. */
  ghost predicate WriteStep(w: World, n: Node, from: nat, open: bool, r: WriteResult) {
    && (r.error.None? ==>
          && NodeOk(w, r.node, from, open)
          && r.node.core.end == n.core.end + 1
          && r.node.core.epochNum == w.EpochBefore(r.node.core.end))
    && (r.error.Some? ==>
          r.error.value in {EpochOverflow, SequenceOverflow} || (r.error.value == ChannelClosed && !open))
    && (open ==>
          && ManifestOk(w, r.node.core.manifest)
          && QueueOk(w, r.node.queue, r.node.staged, Segs(r.node.core), from)
          && Extends(n, r.node))
  }

  lemma StoreOk(w: World, commitFileSize: nat, n: Node, from: nat, at: Circumstances)
    requires w.GoodChain() && NodeOk(w, n, from, at.open)
    requires n.core.epochNum == w.Epoch(n.core.end)
    ensures var cp := w.chain(n.core.end);
      WriteStep(w, n, from, at.open, AfterStore(w.sha3, commitFileSize, n, cp.contents, cp.summary, at))
  {
    CutAndResetOk(w, n, from, at.open);
    var r := if n.core.bufOffset + at.blobSize > commitFileSize || at.timedOut
             then AfterCutAndReset(w.sha3, n, at.open) else WriteResult(n, None);
    if r.error.None? {
      AppendOk(w, r.node, from, at.open, at.blobSize);
    }
  }

  /** Writing the next checkpoint of the chain keeps the invariant, and only the channel or an
      exhausted counter can make it fail: no assertion of the writer fires. */
  lemma WriteOk(w: World, commitFileSize: nat, n: Node, from: nat, at: Circumstances)
    requires w.GoodChain() && NodeOk(w, n, from, at.open)
    requires n.core.epochNum == w.EpochBefore(n.core.end)
    ensures var cp := w.chain(n.core.end);
      WriteStep(w, n, from, at.open, AfterWrite(w.sha3, commitFileSize, n, cp.contents, cp.summary, at))
  {
    var c := n.core;
    assert w.GoodEntry(c.end);
    if c.end > 0 { assert w.EpochStep(c.end - 1); }
    if c.epochNum < U64_MAX {
      if w.Epoch(c.end) == c.epochNum + 1 {
        var r := AfterNextEpoch(w.sha3, n, at.open);
        NextEpochOk(w, n, from, at.open);
        if r.error.None? {
          StoreOk(w, commitFileSize, r.node, from, at);
          var cp := w.chain(c.end);
          if at.open {
            ExtendsTransitive(n, r.node, AfterStore(w.sha3, commitFileSize, r.node, cp.contents, cp.summary, at).node);
          }
        }
      } else {
        StoreOk(w, commitFileSize, n, from, at);
      }
    }
  }

  // ---------------------------------------------------------------- any write at all

  /** Whatever is offered, a write that succeeds took exactly the next checkpoint of this epoch or the next,
      with contents that are what its digest says, and put it last into the open files. */
  lemma WriteTakesOnlyItsNext(
    sha3: FileData -> Digest, size: nat, n: Node, contents: Contents, summary: CertifiedSummary, at: Circumstances)
    ensures var r := AfterWrite(sha3, size, n, contents, summary, at);
      r.error.None? ==>
        && summary.data.sequenceNumber == n.core.end && r.node.core.end == n.core.end + 1
        && n.core.epochNum <= summary.data.epoch == r.node.core.epochNum <= n.core.epochNum + 1
        && |summary.data.contentDigest.of| == |contents|
        && (forall i | 0 <= i < |contents| :: summary.data.contentDigest.of[i] == contents[i].digests)
        && r.node.core.wbuf != [] && Last(r.node.core.wbuf) == contents
        && r.node.core.summaryWbuf != [] && Last(r.node.core.summaryWbuf) == summary
  {
    var r := AfterWrite(sha3, size, n, contents, summary, at);
    if r.error.None? { assert summary.data.contentDigest.of == DigestsOf(contents); }
  }
}
