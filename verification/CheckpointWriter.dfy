/**
 The checkpoint writer (crates/sui-archival/src/writer.rs, `CheckpointWriter`): it buffers
 checkpoints, cuts them into file pairs in the local staging directory, extends its manifest
 and queues one update per cut for the upload task.

 `Node` is what the writer holds, with the staging directory and the channel it shares with the
 upload task.  The functions say what each operation does to a node, failing calls included;
 the class `CheckpointWriter` is proved to do exactly that.
 */
module CheckpointWriters {
  import opened ChainTypes
  import opened Manifests

  datatype Core = Core(
    epochNum: u64,
    start: u64,
    end: u64,
    wbuf: seq<Contents>,
    summaryWbuf: seq<CertifiedSummary>,
    bufOffset: nat,
    manifest: Manifest)

  datatype Node = Node(core: Core, staged: map<Path, FileData>, queue: seq<CheckpointUpdates>)

  datatype WriteError =
    | SequenceAssert      // the summary is not the next checkpoint
    | EpochAssert         // the summary is neither in this epoch nor in the next
    | DigestAssert        // the contents do not hash to the summary's content digest
    | EpochOverflow
    | SequenceOverflow
    | ChannelClosed       // the upload task is gone

  datatype WriteResult = WriteResult(node: Node, error: Option<WriteError>)

  // ---------------------------------------------------------------- the staging directory

  function RemoveEpochDir(staged: map<Path, FileData>, epoch: u64): map<Path, FileData> {
    map p | p in staged && p.epochNum != epoch :: staged[p]
  }

  /** Creating a file truncates what was there. */
  function CreateFiles(staged: map<Path, FileData>, epoch: u64, start: u64): map<Path, FileData> {
    staged[Path(CheckpointContent, epoch, start) := ContentFile([])]
          [Path(CheckpointSummaryFile, epoch, start) := SummaryFile([])]
  }

  // ---------------------------------------------------------------- the operations

  /** Opening a writer on a manifest, over whatever the staging directory still holds. */
  function Open(m: Manifest, staged: map<Path, FileData>): Node {
    var next := m.nextCheckpointSeqNum;
    Node(
      Core(m.epoch, next, next, [], [], 0, m),
      CreateFiles(RemoveEpochDir(staged, m.epoch), m.epoch, next),
      [])
  }

  function AfterCut(sha3: FileData -> Digest, n: Node, open: bool): WriteResult {
    var c := n.core;
    if c.start >= c.end then WriteResult(n, None)
    else
      var contentData, summaryData := ContentFile(c.wbuf), SummaryFile(c.summaryWbuf);
      var content := FileMetadata(CheckpointContent, c.epochNum, c.start, c.end, sha3(contentData));
      var summary := FileMetadata(CheckpointSummaryFile, c.epochNum, c.start, c.end, sha3(summaryData));
      var staged := n.staged[content.FilePath() := contentData][summary.FilePath() := summaryData];
      var manifest := c.manifest.Update(c.epochNum, c.end, content, summary);
      var update := CheckpointUpdates(content, summary, manifest);
      if open then
        WriteResult(Node(c.(manifest := manifest), staged, n.queue + [update]), None)
      else
        WriteResult(Node(c.(manifest := manifest), staged, n.queue), Some(ChannelClosed))
  }

  function AfterReset(n: Node): Node {
    var c := n.core;
    Node(
      c.(start := c.end, wbuf := [], summaryWbuf := [], bufOffset := MAGIC_BYTES),
      CreateFiles(n.staged, c.epochNum, c.end),
      n.queue)
  }

  function AfterCutAndReset(sha3: FileData -> Digest, n: Node, open: bool): WriteResult {
    var r := AfterCut(sha3, n, open);
    if r.error.Some? then r else WriteResult(AfterReset(r.node), None)
  }

  function AfterNextEpoch(sha3: FileData -> Digest, n: Node, open: bool): WriteResult
    requires n.core.epochNum < U64_MAX
  {
    var r := AfterCut(sha3, n, open);
    if r.error.Some? then r
    else
      var epoch := r.node.core.epochNum + 1;
      var moved := r.node.(core := r.node.core.(epochNum := epoch), staged := RemoveEpochDir(r.node.staged, epoch));
      WriteResult(AfterReset(moved), None)
  }

  function AfterAppend(n: Node, contents: Contents, summary: CertifiedSummary, blobSize: nat): WriteResult {
    var c := n.core;
    var filled := c.(
      wbuf := c.wbuf + [contents],
      summaryWbuf := c.summaryWbuf + [summary],
      bufOffset := c.bufOffset + blobSize);
    if c.end == U64_MAX then WriteResult(n.(core := filled), Some(SequenceOverflow))
    else WriteResult(n.(core := filled.(end := c.end + 1)), None)
  }

  /** The circumstances of one write: the encoded size of the contents, whether the commit
      interval has passed, and whether the upload task still listens. */
  datatype Circumstances = Circumstances(blobSize: nat, timedOut: bool, open: bool)

  function AfterWrite(
      sha3: FileData -> Digest, commitFileSize: nat, n: Node,
      contents: Contents, summary: CertifiedSummary, at: Circumstances): WriteResult
  {
    var data := summary.data;
    if data.sequenceNumber != n.core.end then WriteResult(n, Some(SequenceAssert))
    else if n.core.epochNum == U64_MAX then WriteResult(n, Some(EpochOverflow))
    else
      var r1 := if data.epoch == n.core.epochNum + 1 then AfterNextEpoch(sha3, n, at.open) else WriteResult(n, None);
      if r1.error.Some? then r1
      else if data.epoch != r1.node.core.epochNum then WriteResult(r1.node, Some(EpochAssert))
      else if data.contentDigest != ContentsDigest(DigestsOf(contents)) then WriteResult(r1.node, Some(DigestAssert))
      else AfterStore(sha3, commitFileSize, r1.node, contents, summary, at)
  }

  /** The second half of a write: roll to new files when the current ones are full or old, then append. */
  function AfterStore(
      sha3: FileData -> Digest, commitFileSize: nat, n: Node,
      contents: Contents, summary: CertifiedSummary, at: Circumstances): WriteResult
  {
    var r :=
      if n.core.bufOffset + at.blobSize > commitFileSize || at.timedOut
      then AfterCutAndReset(sha3, n, at.open) else WriteResult(n, None);
    if r.error.Some? then r else AfterAppend(r.node, contents, summary, at.blobSize)
  }

  // ---------------------------------------------------------------- the class

  class CheckpointWriter {
    const sha3: FileData -> Digest
    const commitFileSize: nat
    var epochNum: u64
    var start: u64
    var end: u64
    var wbuf: seq<Contents>
    var summaryWbuf: seq<CertifiedSummary>
    var bufOffset: nat
    var manifest: Manifest
    var staged: map<Path, FileData>
    var queue: seq<CheckpointUpdates>

    function View(): Node
      reads this
    {
      Node(Core(epochNum, start, end, wbuf, summaryWbuf, bufOffset, manifest), staged, queue)
    }

    constructor (sha3: FileData -> Digest, commitFileSize: nat, manifest: Manifest, staged: map<Path, FileData>)
      ensures View() == Open(manifest, staged)
      ensures this.sha3 == sha3 && this.commitFileSize == commitFileSize
    {
      this.sha3, this.commitFileSize := sha3, commitFileSize;
      this.epochNum := manifest.epoch;
      this.start, this.end := manifest.nextCheckpointSeqNum, manifest.nextCheckpointSeqNum;
      this.wbuf, this.summaryWbuf, this.bufOffset := [], [], 0;
      this.manifest := manifest;
      this.staged := CreateFiles(RemoveEpochDir(staged, manifest.epoch), manifest.epoch, manifest.nextCheckpointSeqNum);
      this.queue := [];
    }

    method Cut(open: bool) returns (error: Option<WriteError>)
      modifies this
      ensures WriteResult(View(), error) == AfterCut(sha3, old(View()), open)
    {
      error := None;
      if start < end {
        var content := FileMetadata(CheckpointContent, epochNum, start, end, sha3(ContentFile(wbuf)));
        staged := staged[content.FilePath() := ContentFile(wbuf)];
        var summary := FileMetadata(CheckpointSummaryFile, epochNum, start, end, sha3(SummaryFile(summaryWbuf)));
        staged := staged[summary.FilePath() := SummaryFile(summaryWbuf)];
        manifest := manifest.Update(epochNum, end, content, summary);
        if open {
          queue := queue + [CheckpointUpdates(content, summary, manifest)];
        } else {
          error := Some(ChannelClosed);
        }
      }
    }

    method Reset()
      modifies this
      ensures View() == AfterReset(old(View()))
    {
      start := end;
      staged := CreateFiles(staged, epochNum, start);
      bufOffset := MAGIC_BYTES;
      wbuf, summaryWbuf := [], [];
    }

    method CutAndReset(open: bool) returns (error: Option<WriteError>)
      modifies this
      ensures WriteResult(View(), error) == AfterCutAndReset(sha3, old(View()), open)
    {
      error := Cut(open);
      if error.None? { Reset(); }
    }

    method NextEpoch(open: bool) returns (error: Option<WriteError>)
      requires epochNum < U64_MAX
      modifies this
      ensures WriteResult(View(), error) == AfterNextEpoch(sha3, old(View()), open)
    {
      error := Cut(open);
      if error.None? {
        epochNum := epochNum + 1;
        staged := RemoveEpochDir(staged, epochNum);
        Reset();
      }
    }

    method Append(contents: Contents, summary: CertifiedSummary, blobSize: nat) returns (error: Option<WriteError>)
      modifies this
      ensures WriteResult(View(), error) == AfterAppend(old(View()), contents, summary, blobSize)
    {
      wbuf, bufOffset := wbuf + [contents], bufOffset + blobSize;
      summaryWbuf := summaryWbuf + [summary];
      if end == U64_MAX { return Some(SequenceOverflow); }
      end := end + 1;
      error := None;
    }

    /** A failing write leaves the node as far as it got; the caller stops tailing. */
    method WriteAsBlob(contents: Contents, summary: CertifiedSummary, at: Circumstances)
      returns (error: Option<WriteError>)
      modifies this
      ensures WriteResult(View(), error)
           == AfterWrite(sha3, commitFileSize, old(View()), contents, summary, at)
    {
      if summary.data.sequenceNumber != end { return Some(SequenceAssert); }
      if epochNum == U64_MAX { return Some(EpochOverflow); }
      if summary.data.epoch == epochNum + 1 {
        error := NextEpoch(at.open);
        if error.Some? { return; }
      }
      if summary.data.epoch != epochNum { return Some(EpochAssert); }
      if summary.data.contentDigest != ContentsDigest(DigestsOf(contents)) { return Some(DigestAssert); }
      if bufOffset + at.blobSize > commitFileSize || at.timedOut {
        error := CutAndReset(at.open);
        if error.Some? { return; }
      }
      error := Append(contents, summary, at.blobSize);
    }
  }
}
