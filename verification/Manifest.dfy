/**
 The archive MANIFEST (crates/sui-archival/src/lib.rs): file metadata, file names, the
 manifest itself, and what it means for a manifest to describe a chain.

 A `World` fixes the chain being archived and the checksum function.  A manifest written for
 a world is determined by its segments: the half-open checkpoint ranges of its file pairs.
 */
module Manifests {
  import opened ChainTypes

  const MAGIC_BYTES: nat := 4

  datatype FileType = CheckpointContent | CheckpointSummaryFile

  datatype FileMetadata = FileMetadata(
    fileType: FileType, epochNum: u64, start: u64, end: u64, sha3Digest: Digest)
  {
    function FilePath(): Path { Path(fileType, epochNum, start) }
  }

  /** The location of an archive file; `Render` spells it as a name. */
  datatype Path = Path(fileType: FileType, epochNum: u64, start: u64)

  /** What a blob file holds, behind its magic bytes: contents or summaries, in order. */
  datatype FileData = ContentFile(contents: seq<Contents>) | SummaryFile(summaries: seq<CertifiedSummary>)

  datatype Manifest = ManifestV1(
    archiveVersion: byte, nextCheckpointSeqNum: u64, fileMetadata: seq<FileMetadata>, epoch: u64)
  {
    function Update(epochNum: u64, next: u64, content: FileMetadata, summary: FileMetadata): Manifest {
      this.(fileMetadata := fileMetadata + [content, summary], epoch := epochNum, nextCheckpointSeqNum := next)
    }
  }

  function NewManifest(epoch: u64, next: u64): Manifest {
    ManifestV1(1, next, [], epoch)
  }

  datatype CheckpointUpdates = CheckpointUpdates(content: FileMetadata, summary: FileMetadata, manifest: Manifest)

  // ---------------------------------------------------------------- file names

  function Decimal(n: nat): (s: string)
    ensures |s| > 0 && forall c | c in s :: '0' <= c <= '9'
  {
    var digit := ['0' + (n % 10) as char];
    if n < 10 then digit else Decimal(n / 10) + digit
  }

  function Suffix(t: FileType): string {
    match t
    case CheckpointContent => "chk"
    case CheckpointSummaryFile => "sum"
  }

  function Render(p: Path): string {
    "epoch_" + Decimal(p.epochNum) + "/" + (Decimal(p.start) + "." + Suffix(p.fileType))
  }

  lemma {:induction false} DecimalInjective(m: nat, n: nat)
    requires Decimal(m) == Decimal(n)
    ensures m == n
  {
    var s := Decimal(m);
    assert s[|s| - 1] == '0' + (m % 10) as char == '0' + (n % 10) as char;
    if m >= 10 && n >= 10 {
      assert Decimal(m / 10) == s[..|s| - 1] == Decimal(n / 10);
      DecimalInjective(m / 10, n / 10);
    }
  }

  lemma SplitAt(a: string, b: string, c: string, d: string, sep: char)
    requires a + [sep] + b == c + [sep] + d
    requires sep !in a && sep !in c
    ensures a == c && b == d
  {
    var s := a + [sep] + b;
    assert s[|a|] == sep && s[|c|] == sep;
    assert |a| == |c|;
    assert a == s[..|a|] && c == s[..|c|];
    assert b == s[|a| + 1..] && d == s[|c| + 1..];
  }

  /** Two archive files share a name only when they are the same file. */
  lemma RenderInjective(p: Path, q: Path)
    requires Render(p) == Render(q)
    ensures p == q
  {
    var pe, qe := "epoch_" + Decimal(p.epochNum), "epoch_" + Decimal(q.epochNum);
    var pt, qt := Decimal(p.start) + "." + Suffix(p.fileType), Decimal(q.start) + "." + Suffix(q.fileType);
    SplitAt(pe, pt, qe, qt, '/');
    assert pe[6..] == Decimal(p.epochNum) && qe[6..] == Decimal(q.epochNum);
    SplitAt(Decimal(p.start), Suffix(p.fileType), Decimal(q.start), Suffix(q.fileType), '.');
    DecimalInjective(p.epochNum, q.epochNum);
    DecimalInjective(p.start, q.start);
    assert "chk"[0] != "sum"[0];
  }

  // ---------------------------------------------------------------- the archived world

  /** The chain the archive follows, by sequence number, the file checksum, and the size contents have
      as an encoded blob. */
  datatype World = World(chain: nat -> Checkpoint, sha3: FileData -> Digest, blobSize: Contents -> nat)
  {
    function Epoch(i: nat): nat { chain(i).summary.data.epoch }

    /** The epoch a writer that has taken checkpoints 0 .. end is in. */
    function EpochBefore(end: nat): nat { if end == 0 then 0 else Epoch(end - 1) }

    predicate EpochStep(i: nat) { Epoch(i) <= Epoch(i + 1) <= Epoch(i) + 1 }

    predicate GoodEntry(i: nat) {
      var c := chain(i);
      && c.summary.data.sequenceNumber == i
      && c.summary.data.contentDigest == ContentsDigest(DigestsOf(c.contents))
    }

    /** Consecutive numbers from 0, contents under their own digests, epochs that start at 0
        and step by 0 or 1. */
    ghost predicate GoodChain() {
      && Epoch(0) == 0
      && (forall i: nat :: GoodEntry(i))
      && (forall i: nat :: EpochStep(i))
    }

    function Contents(start: nat, end: nat): seq<Contents>
      requires start <= end
    {
      seq(end - start, i requires 0 <= i => chain(start + i).contents)
    }

    function Summaries(start: nat, end: nat): seq<CertifiedSummary>
      requires start <= end
    {
      seq(end - start, i requires 0 <= i => chain(start + i).summary)
    }

    ghost predicate SingleEpoch(start: nat, end: nat, epoch: nat) {
      forall c: nat | start <= c < end :: Epoch(c) == epoch
    }

    lemma {:induction false} EpochsAscend(i: nat, j: nat)
      requires GoodChain() && i <= j
      ensures Epoch(i) <= Epoch(j)
      decreases j
    {
      if i < j {
        EpochsAscend(i, j - 1);
        assert EpochStep(j - 1);
      }
    }
  }

  // ---------------------------------------------------------------- segments

  /** The range of one content/summary file pair. */
  datatype Segment = Segment(epoch: u64, start: u64, end: u64)

  function EndOf(segs: seq<Segment>): u64 {
    if segs == [] then 0 else Last(segs).end
  }

  function LastEpoch(segs: seq<Segment>): u64 {
    if segs == [] then 0 else Last(segs).epoch
  }

  /** Non-empty, single-epoch ranges that follow each other from 0 without gap or overlap. */
  ghost predicate Tiles(w: World, segs: seq<Segment>) {
    segs != [] ==>
      && Tiles(w, Init(segs))
      && Last(segs).start == EndOf(Init(segs))
      && Last(segs).start < Last(segs).end
      && w.SingleEpoch(Last(segs).start, Last(segs).end, Last(segs).epoch)
  }

  ghost function ContentData(w: World, seg: Segment): FileData
    requires seg.start <= seg.end
  {
    ContentFile(w.Contents(seg.start, seg.end))
  }

  ghost function SummaryData(w: World, seg: Segment): FileData
    requires seg.start <= seg.end
  {
    SummaryFile(w.Summaries(seg.start, seg.end))
  }

  ghost function ContentMeta(w: World, seg: Segment): FileMetadata
    requires seg.start <= seg.end
  {
    FileMetadata(CheckpointContent, seg.epoch, seg.start, seg.end, w.sha3(ContentData(w, seg)))
  }

  ghost function SummaryMeta(w: World, seg: Segment): FileMetadata
    requires seg.start <= seg.end
  {
    FileMetadata(CheckpointSummaryFile, seg.epoch, seg.start, seg.end, w.sha3(SummaryData(w, seg)))
  }

  /** The manifest entries of a tiling: for each segment its content file, then its summary file. */
  ghost function FilesOf(w: World, segs: seq<Segment>): seq<FileMetadata>
    requires Tiles(w, segs)
  {
    if segs == [] then []
    else FilesOf(w, Init(segs)) + [ContentMeta(w, Last(segs)), SummaryMeta(w, Last(segs))]
  }

  /** The one manifest that describes a tiling. */
  ghost function ManifestOf(w: World, segs: seq<Segment>): Manifest
    requires Tiles(w, segs)
  {
    ManifestV1(1, EndOf(segs), FilesOf(w, segs), LastEpoch(segs))
  }

  /** Reads the segments back from the manifest entries. */
  ghost function SegsOf(files: seq<FileMetadata>): seq<Segment> {
    if |files| < 2 then []
    else
      var f := files[|files| - 2];
      SegsOf(files[..|files| - 2]) + [Segment(f.epochNum, f.start, f.end)]
  }

  lemma {:induction false} SegsOfFilesOf(w: World, segs: seq<Segment>)
    requires Tiles(w, segs)
    ensures |FilesOf(w, segs)| == 2 * |segs|
    ensures SegsOf(FilesOf(w, segs)) == segs
  {
    if segs == [] {
    } else {
      SegsOfFilesOf(w, Init(segs));
      var files := FilesOf(w, segs);
      assert files[..|files| - 2] == FilesOf(w, Init(segs));
      assert segs == Init(segs) + [Last(segs)];
    }
  }

  lemma {:induction false} TilesPrefix(w: World, segs: seq<Segment>, k: nat)
    requires Tiles(w, segs) && k <= |segs|
    ensures Tiles(w, segs[..k])
    ensures FilesOf(w, segs[..k]) <= FilesOf(w, segs)
    ensures EndOf(segs[..k]) <= EndOf(segs)
    decreases |segs|
  {
    if k == |segs| {
      assert segs[..k] == segs;
    } else {
      TilesPrefix(w, Init(segs), k);
      assert Init(segs)[..k] == segs[..k];
    }
  }

  lemma TilesAppend(w: World, segs: seq<Segment>, seg: Segment)
    requires Tiles(w, segs)
    requires seg.start == EndOf(segs) && seg.start < seg.end
    requires w.SingleEpoch(seg.start, seg.end, seg.epoch)
    ensures Tiles(w, segs + [seg])
    ensures FilesOf(w, segs + [seg]) == FilesOf(w, segs) + [ContentMeta(w, seg), SummaryMeta(w, seg)]
  {
    assert Init(segs + [seg]) == segs;
  }

  /** What tiling says about one segment. */
  lemma {:induction false} TileAt(w: World, segs: seq<Segment>, k: nat)
    requires Tiles(w, segs) && k < |segs|
    ensures segs[k].start == EndOf(segs[..k])
    ensures segs[k].start < segs[k].end <= EndOf(segs)
    ensures w.SingleEpoch(segs[k].start, segs[k].end, segs[k].epoch)
    decreases |segs|
  {
    if k == |segs| - 1 {
      assert segs[..k] == Init(segs);
    } else {
      TileAt(w, Init(segs), k);
      assert Init(segs)[..k] == segs[..k];
    }
  }

  lemma TilesOrdered(w: World, segs: seq<Segment>, i: nat, j: nat)
    requires Tiles(w, segs) && i < j < |segs|
    ensures segs[i].end <= segs[j].start
  {
    TilesPrefix(w, segs, j);
    TileAt(w, segs, j);
    TileAt(w, segs[..j], i);
  }

  /** Where the entries of segment k sit in the manifest. */
  lemma {:induction false} FilesAt(w: World, segs: seq<Segment>, k: nat)
    requires Tiles(w, segs) && k < |segs|
    ensures segs[k].start <= segs[k].end
    ensures |FilesOf(w, segs)| == 2 * |segs|
    ensures FilesOf(w, segs)[2 * k] == ContentMeta(w, segs[k])
    ensures FilesOf(w, segs)[2 * k + 1] == SummaryMeta(w, segs[k])
    decreases |segs|
  {
    SegsOfFilesOf(w, segs);
    SegsOfFilesOf(w, Init(segs));
    if k < |segs| - 1 {
      FilesAt(w, Init(segs), k);
    }
  }

  /** Every manifest entry is the content or the summary entry of a segment. */
  lemma {:induction false} EntryOfSegment(w: World, segs: seq<Segment>, f: FileMetadata) returns (k: nat)
    requires Tiles(w, segs) && f in FilesOf(w, segs)
    ensures k < |segs| && segs[k].start <= segs[k].end
    ensures f == ContentMeta(w, segs[k]) || f == SummaryMeta(w, segs[k])
  {
    if f in FilesOf(w, Init(segs)) {
      k := EntryOfSegment(w, Init(segs), f);
    } else {
      k := |segs| - 1;
    }
  }
}
