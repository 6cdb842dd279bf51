/**
 `Manifest::next_checkpoint_after_epoch` (crates/sui-archival/src/lib.rs).
 */
module EpochLookup {
  import opened ChainTypes
  import opened Manifests
  import opened ArchiveProtocol
  import opened ArchiveReader

  /** The start of the first file after epoch `e`. */
  function FirstAfter(summaries: seq<FileMetadata>, e: nat): u64 {
    if summaries == [] then U64_MAX
    else if summaries[0].epochNum > e then summaries[0].start
    else FirstAfter(summaries[1..], e)
  }

  /** None where the code panics: a gap between files, no file, or a first file that is not at 0. */
  function NextCheckpointAfterEpoch(m: Manifest, e: nat): Option<u64> {
    var summaries := SortByStart(OfType(m.fileMetadata, CheckpointSummaryFile));
    if !Contiguous(summaries) || summaries == [] || summaries[0].start != 0 then None
    else Some(FirstAfter(summaries, e))
  }

  lemma {:induction false} FirstAfterAt(summaries: seq<FileMetadata>, e: nat) returns (k: nat)
    ensures k <= |summaries|
    ensures forall i | 0 <= i < k :: summaries[i].epochNum <= e
    ensures k < |summaries| ==> summaries[k].epochNum > e
    ensures FirstAfter(summaries, e) == if k < |summaries| then summaries[k].start else U64_MAX
  {
    if summaries == [] || summaries[0].epochNum > e {
      k := 0;
    } else {
      var j := FirstAfterAt(summaries[1..], e);
      k := j + 1;
      forall i | 0 <= i < k ensures summaries[i].epochNum <= e {
        if i > 0 { assert summaries[i] == summaries[1..][i - 1]; }
      }
    }
  }

  /** An answer on any manifest: its summary files follow each other from 0, and the answer is the start of
      the first one of a later epoch, or the maximum when there is none. */
  lemma AnswerIsFirstLater(m: Manifest, e: nat) returns (part: seq<FileMetadata>, k: nat)
    requires NextCheckpointAfterEpoch(m, e).Some?
    ensures ListsInOrder(m.fileMetadata, CheckpointSummaryFile, part) && part != [] && part[0].start == 0
    ensures k <= |part| && (forall i | 0 <= i < k :: part[i].epochNum <= e)
    ensures k < |part| ==> part[k].epochNum > e
    ensures NextCheckpointAfterEpoch(m, e).value == if k < |part| then part[k].start else U64_MAX
  {
    part := SortByStart(OfType(m.fileMetadata, CheckpointSummaryFile));
    SortLists(m.fileMetadata, CheckpointSummaryFile);
    k := FirstAfterAt(part, e);
  }

  /** And every manifest whose summary files follow each other from 0, none empty, is answered. */
  lemma ChainsAreAnswered(m: Manifest, e: nat, part: seq<FileMetadata>)
    requires ListsInOrder(m.fileMetadata, CheckpointSummaryFile, part) && StrictByStart(part)
    requires part != [] && part[0].start == 0
    ensures NextCheckpointAfterEpoch(m, e).Some?
  {
    SortIs(m.fileMetadata, CheckpointSummaryFile, part);
  }

  lemma {:induction false} SegmentHolding(w: World, segs: seq<Segment>, c: nat) returns (k: nat)
    requires Tiles(w, segs) && c < EndOf(segs)
    ensures k < |segs| && segs[k].start <= c < segs[k].end
  {
    if c >= Last(segs).start {
      k := |segs| - 1;
    } else {
      k := SegmentHolding(w, Init(segs), c);
    }
  }

  /** `n` is the smallest archived checkpoint of an epoch after `e`, or u64::MAX when there is none. */
  ghost predicate IsNextAfterEpoch(w: World, end: nat, e: nat, n: nat) {
    && (forall c: nat | c < end && c < n :: w.Epoch(c) <= e)
    && (n < end ==> w.Epoch(n) > e)
    && (n >= end ==> n == U64_MAX)
  }

  lemma FirstAfterOfTiling(w: World, segs: seq<Segment>, summaries: seq<FileMetadata>, e: nat)
    requires Tiles(w, segs) && |summaries| == |segs|
    requires forall k | 0 <= k < |segs| :: summaries[k].epochNum == segs[k].epoch && summaries[k].start == segs[k].start
    ensures IsNextAfterEpoch(w, EndOf(segs), e, FirstAfter(summaries, e))
  {
    var k := FirstAfterAt(summaries, e);
    if k < |segs| { TileAt(w, segs, k); }
    forall c: nat | c < EndOf(segs) && c < FirstAfter(summaries, e) ensures w.Epoch(c) <= e {
      var j := SegmentHolding(w, segs, c);
      TileAt(w, segs, j);
      if k < j { TilesOrdered(w, segs, k, j); }
      assert summaries[j].epochNum == segs[j].epoch;
    }
  }

  lemma NextAfterEpochOfTiling(w: World, segs: seq<Segment>, e: nat)
    requires Tiles(w, segs) && segs != []
    ensures var r := NextCheckpointAfterEpoch(ManifestOf(w, segs), e);
      r.Some? && IsNextAfterEpoch(w, EndOf(segs), e, r.value)
  {
    var summaries := Firsts(SegPairs(w, segs));
    OfTypeFilesOf(w, segs);
    SegPairsAt(w, segs);
    SegPairsIncrease(w, segs);
    SortOfSorted(summaries);
    TileAt(w, segs, 0);
    FirstAfterOfTiling(w, segs, summaries, e);
  }

  /** In every run, on every published manifest. */
  lemma NextAfterEpochInRun(w: World, size: nat, tr: seq<System>, i: nat, e: nat)
    requires w.GoodChain() && Run(w, size, tr) && i < |tr| && tr[i].remoteManifest.Some?
    ensures var m := tr[i].remoteManifest.value;
      var r := NextCheckpointAfterEpoch(m, e);
      r.Some? && IsNextAfterEpoch(w, m.nextCheckpointSeqNum, e, r.value)
  {
    RunKeeps(w, size, tr, i);
    NextAfterEpochOfTiling(w, Published(tr[i]), e);
  }
}
