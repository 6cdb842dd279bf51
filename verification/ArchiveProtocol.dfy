/**
 The archive as a step system (crates/sui-archival/src/writer.rs, `ArchiveWriter`): one task
 tails the chain into the checkpoint writer, another uploads each update as three remote
 writes, and either may stop at any point.  A start resumes from the remote MANIFEST.
 */
module ArchiveProtocol {
  import opened ChainTypes
  import opened Manifests
  import opened CheckpointWriters
  import opened WriterInvariant

  const CHANNEL_CAPACITY: nat := 100

  /** How far the upload task is with the update it took from the channel.  A file is copied first and
      removed locally afterwards. */
  datatype Phase =
    | Idle
    | Received(update: CheckpointUpdates)
    | SummaryCopied(update: CheckpointUpdates)
    | SummarySent(update: CheckpointUpdates)
    | ContentCopied(update: CheckpointUpdates)
    | ContentSent(update: CheckpointUpdates)
  {
    predicate SummaryIsLocal() { Received? || SummaryCopied? }
    predicate SummaryIsRemote() { !Idle? && !Received? }
    predicate ContentIsLocal() { !Idle? && !ContentSent? }
    predicate ContentIsRemote() { ContentCopied? || ContentSent? }
  }

  datatype System = System(
    node: Node,
    tail: nat,
    writerUp: bool,
    uploaderUp: bool,
    phase: Phase,
    remote: map<Path, FileData>,
    remoteManifest: Option<Manifest>)

  datatype Action =
    | Tail(timedOut: bool)
    | StopWriter
    | Receive
    | CopySummary
    | RemoveSummary
    | CopyContent
    | RemoveContent
    | PublishManifest
    | StopUploader
    | Start

  const EMPTY_CORE := Core(0, 0, 0, [], [], 0, NewManifest(0, 0))
  const INITIAL := System(Node(EMPTY_CORE, map[], []), 0, false, false, Idle, map[], None)

  /** Copies a staged file to the remote store. */
  function CopyFile(s: System, p: Path, next: Phase): System
    requires p in s.node.staged
  {
    s.(remote := s.remote[p := s.node.staged[p]], phase := next)
  }

  function RemoveFile(s: System, p: Path, next: Phase): System {
    s.(node := s.node.(staged := s.node.staged - {p}), phase := next)
  }

  /** The circumstances under which checkpoint `tail` is written. */
  function At(w: World, s: System, timedOut: bool): Circumstances {
    Circumstances(w.blobSize(w.chain(s.tail).contents), timedOut, s.uploaderUp)
  }

  /** The result of the tailing task writing checkpoint `tail`; a failing write stops the tailing. */
  function TailResult(w: World, size: nat, s: System, timedOut: bool): WriteResult {
    var cp := w.chain(s.tail);
    AfterWrite(w.sha3, size, s.node, cp.contents, cp.summary, At(w, s, timedOut))
  }

  /** The manifest a start resumes from; none when files are there but no MANIFEST. */
  function ResumeManifest(s: System): Option<Manifest> {
    if s.remote == map[] then Some(NewManifest(0, 0)) else s.remoteManifest
  }

  ghost predicate Step(w: World, size: nat, s: System, a: Action, s': System) {
    match a
    case Tail(timedOut) =>
      var r := TailResult(w, size, s, timedOut);
      && s.writerUp
      && |r.node.queue| <= CHANNEL_CAPACITY
      && s' == s.(node := r.node, writerUp := r.error.None?, tail := if r.error.None? then s.tail + 1 else s.tail)
    case StopWriter =>
      s' == s.(writerUp := false)
    case Receive =>
      && s.uploaderUp && s.phase.Idle? && s.node.queue != []
      && s' == s.(phase := Received(s.node.queue[0]), node := s.node.(queue := s.node.queue[1..]))
    case CopySummary =>
      && s.uploaderUp && s.phase.Received?
      && var p := s.phase.update.summary.FilePath();
      && p in s.node.staged && s' == CopyFile(s, p, SummaryCopied(s.phase.update))
    case RemoveSummary =>
      && s.uploaderUp && s.phase.SummaryCopied?
      && var p := s.phase.update.summary.FilePath();
      && p in s.node.staged && s' == RemoveFile(s, p, SummarySent(s.phase.update))
    case CopyContent =>
      && s.uploaderUp && s.phase.SummarySent?
      && var p := s.phase.update.content.FilePath();
      && p in s.node.staged && s' == CopyFile(s, p, ContentCopied(s.phase.update))
    case RemoveContent =>
      && s.uploaderUp && s.phase.ContentCopied?
      && var p := s.phase.update.content.FilePath();
      && p in s.node.staged && s' == RemoveFile(s, p, ContentSent(s.phase.update))
    case PublishManifest =>
      && s.uploaderUp && s.phase.ContentSent?
      && s' == s.(remoteManifest := Some(s.phase.update.manifest), phase := Idle)
    case StopUploader =>
      s' == s.(uploaderUp := false, phase := Idle, node := s.node.(queue := []))
    case Start =>
      && !s.writerUp && !s.uploaderUp
      && ResumeManifest(s).Some?
      && var m := ResumeManifest(s).value;
      s' == s.(node := Open(m, s.node.staged), tail := m.nextCheckpointSeqNum,
               writerUp := true, uploaderUp := true, phase := Idle)
  }

  ghost predicate Next(w: World, size: nat, s: System, s': System) {
    exists a :: Step(w, size, s, a, s')
  }

  /** A run from the empty archive, with stops and restarts anywhere. */
  ghost predicate Run(w: World, size: nat, tr: seq<System>) {
    && |tr| > 0
    && tr[0] == INITIAL
    && (forall i | 0 <= i < |tr| - 1 :: Next(w, size, tr[i], tr[i + 1]))
  }

  // ---------------------------------------------------------------- the invariant

  ghost function Published(s: System): seq<Segment> {
    if s.remoteManifest.None? then [] else SegsOf(s.remoteManifest.value.fileMetadata)
  }

  ghost predicate AllPresent(w: World, files: map<Path, FileData>, segs: seq<Segment>) {
    forall k | 0 <= k < |segs| :: HasContent(w, files, segs[k]) && HasSummary(w, files, segs[k])
  }

  ghost predicate RemoteOk(w: World, s: System) {
    && Tiles(w, Published(s))
    && AllPresent(w, s.remote, Published(s))
    && (s.remoteManifest.Some? ==> Published(s) != [] && s.remoteManifest.value == ManifestOf(w, Published(s)))
  }

  ghost predicate WriterOk(w: World, s: System) {
    && CoreOk(w, s.node.core)
    && s.tail == s.node.core.end
    && s.node.core.epochNum == w.EpochBefore(s.tail)
  }

  ghost function Taken(s: System): nat { if s.phase.Idle? then 0 else 1 }

  /** The update in hand announces the first unpublished segment, and each of its files is
      where its phase says. */
  ghost predicate PhaseOk(w: World, s: System, segs: seq<Segment>, k: nat)
    requires Tiles(w, segs)
  {
    !s.phase.Idle? ==>
      && k < |segs|
      && s.phase.update == UpdateFor(w, segs, k)
      && (s.phase.SummaryIsLocal() ==> HasSummary(w, s.node.staged, segs[k]))
      && (s.phase.SummaryIsRemote() ==> HasSummary(w, s.remote, segs[k]))
      && (s.phase.ContentIsLocal() ==> HasContent(w, s.node.staged, segs[k]))
      && (s.phase.ContentIsRemote() ==> HasContent(w, s.remote, segs[k]))
  }

  ghost predicate UploaderOk(w: World, s: System) {
    var segs := Segs(s.node.core);
    && ManifestOk(w, s.node.core.manifest)
    && Published(s) <= segs
    && QueueOk(w, s.node.queue, s.node.staged, segs, |Published(s)| + Taken(s))
    && PhaseOk(w, s, segs, |Published(s)|)
  }

  ghost predicate Inv(w: World, s: System) {
    && RemoteOk(w, s)
    && (s.writerUp ==> WriterOk(w, s))
    && (s.uploaderUp ==> UploaderOk(w, s))
  }

  // ---------------------------------------------------------------- every step keeps it

  /** A write step leaves the update in hand and its files alone. */
  lemma WriteKeepsPhase(w: World, s: System, r: WriteResult, s': System)
    requires w.GoodChain() && CoreOk(w, s.node.core) && UploaderOk(w, s)
    requires Extends(s.node, r.node) && ManifestOk(w, r.node.core.manifest)
    requires s'.phase == s.phase && s'.remote == s.remote && s'.node == r.node
    ensures PhaseOk(w, s', Segs(r.node.core), |Published(s)|)
  {
    var segs, segs', k := Segs(s.node.core), Segs(r.node.core), |Published(s)|;
    if !s.phase.Idle? {
      SegmentIsOlder(w, segs, k);
      assert segs'[..k + 1] == segs[..k + 1];
    }
  }

  lemma WriteKeepsUploader(w: World, s: System, r: WriteResult, s': System)
    requires w.GoodChain() && CoreOk(w, s.node.core) && UploaderOk(w, s)
    requires Extends(s.node, r.node) && ManifestOk(w, r.node.core.manifest)
    requires QueueOk(w, r.node.queue, r.node.staged, Segs(r.node.core), |Published(s)| + Taken(s))
    requires s'.phase == s.phase && s'.remote == s.remote && s'.remoteManifest == s.remoteManifest && s'.node == r.node
    ensures UploaderOk(w, s')
  {
    WriteKeepsPhase(w, s, r, s');
    assert Published(s') == Published(s);
    PrefixOfExtension(Published(s), Segs(s.node.core), Segs(r.node.core));
  }

  lemma PrefixOfExtension(a: seq<Segment>, b: seq<Segment>, c: seq<Segment>)
    requires a <= b <= c
    ensures a <= c
  {
  }

  /** A write step, seen from the system. */
  lemma WriteStepKeeps(w: World, s: System, r: WriteResult, tail: nat)
    requires w.GoodChain() && Inv(w, s) && s.writerUp
    requires WriteStep(w, s.node, |Published(s)| + Taken(s), s.uploaderUp, r)
    requires r.error.None? ==> tail == r.node.core.end
    ensures Inv(w, s.(node := r.node, writerUp := r.error.None?, tail := tail))
  {
    var s' := s.(node := r.node, writerUp := r.error.None?, tail := tail);
    if s.uploaderUp { WriteKeepsUploader(w, s, r, s'); }
  }

  lemma TailKeeps(w: World, size: nat, s: System, timedOut: bool, s': System)
    requires w.GoodChain() && Inv(w, s) && Step(w, size, s, Tail(timedOut), s')
    ensures Inv(w, s')
  {
    WriteOk(w, size, s.node, |Published(s)| + Taken(s), At(w, s, timedOut));
    WriteStepKeeps(w, s, TailResult(w, size, s, timedOut), s'.tail);
  }

  lemma QueuePop(w: World, queue: seq<CheckpointUpdates>, staged: map<Path, FileData>, segs: seq<Segment>, k: nat)
    requires QueueOk(w, queue, staged, segs, k) && queue != []
    ensures queue[0] == UpdateFor(w, segs, k)
    ensures HasContent(w, staged, segs[k]) && HasSummary(w, staged, segs[k])
    ensures QueueOk(w, queue[1..], staged, segs, k + 1)
  {
    assert QueuedAt(w, queue, staged, segs, k, 0);
    var rest, next := queue[1..], k + 1;
    forall i | 0 <= i < |rest| ensures QueuedAt(w, rest, staged, segs, next, i) {
      assert QueuedAt(w, queue, staged, segs, k, i + 1);
    }
  }

  lemma ReceiveKeeps(w: World, size: nat, s: System, s': System)
    requires Inv(w, s) && Step(w, size, s, Receive, s')
    ensures Inv(w, s')
  {
    QueuePop(w, s.node.queue, s.node.staged, Segs(s.node.core), |Published(s)|);
  }

  /** Copying a file of segment k: older files stay remote. */
  lemma CopyKeepsOlder(w: World, s: System, p: Path, next: Phase, segs: seq<Segment>, k: nat)
    requires Tiles(w, segs) && k < |segs| && p in s.node.staged && p.start == segs[k].start
    requires AllPresent(w, s.remote, segs[..k])
    ensures AllPresent(w, CopyFile(s, p, next).remote, segs[..k])
  {
    var s' := CopyFile(s, p, next);
    TileAt(w, segs, k);
    forall i | 0 <= i < k
      ensures HasContent(w, s'.remote, segs[..k][i]) && HasSummary(w, s'.remote, segs[..k][i])
    {
      TilesOrdered(w, segs, i, k);
      TileAt(w, segs, i);
    }
  }

  /** Removing a staged file of segment k: newer files stay staged. */
  lemma RemoveKeepsNewer(w: World, s: System, p: Path, next: Phase, segs: seq<Segment>, k: nat)
    requires Tiles(w, segs) && k < |segs| && p.start == segs[k].start
    requires QueueOk(w, s.node.queue, s.node.staged, segs, k + 1)
    ensures QueueOk(w, s.node.queue, RemoveFile(s, p, next).node.staged, segs, k + 1)
  {
    var s', from := RemoveFile(s, p, next), k + 1;
    TileAt(w, segs, k);
    forall i | 0 <= i < |s.node.queue| ensures QueuedAt(w, s.node.queue, s'.node.staged, segs, from, i) {
      assert QueuedAt(w, s.node.queue, s.node.staged, segs, from, i);
      TilesOrdered(w, segs, k, k + 1 + i);
    }
  }

  /** The phase is right after each of the four file operations. */
  lemma UploadPhases(w: World, s: System, segs: seq<Segment>, k: nat)
    requires Tiles(w, segs) && PhaseOk(w, s, segs, k) && !s.phase.Idle?
    ensures var u := s.phase.update;
      var sum, con := u.summary.FilePath(), u.content.FilePath();
      && sum.start == con.start == segs[k].start
      && (s.phase.Received? ==> sum in s.node.staged && PhaseOk(w, CopyFile(s, sum, SummaryCopied(u)), segs, k))
      && (s.phase.SummaryCopied? ==> sum in s.node.staged && PhaseOk(w, RemoveFile(s, sum, SummarySent(u)), segs, k))
      && (s.phase.SummarySent? ==> con in s.node.staged && PhaseOk(w, CopyFile(s, con, ContentCopied(u)), segs, k))
      && (s.phase.ContentCopied? ==> con in s.node.staged && PhaseOk(w, RemoveFile(s, con, ContentSent(u)), segs, k))
  {
  }

  lemma CopyKeepsUploader(w: World, s: System, p: Path, next: Phase)
    requires UploaderOk(w, s) && !s.phase.Idle? && !next.Idle? && p in s.node.staged
    requires PhaseOk(w, CopyFile(s, p, next), Segs(s.node.core), |Published(s)|)
    ensures UploaderOk(w, CopyFile(s, p, next))
  {
    assert Published(CopyFile(s, p, next)) == Published(s);
  }

  lemma CopyKeeps(w: World, s: System, p: Path, next: Phase)
    requires Inv(w, s) && s.uploaderUp && !s.phase.Idle? && !next.Idle? && p in s.node.staged
    requires p.start == Segs(s.node.core)[|Published(s)|].start
    requires PhaseOk(w, CopyFile(s, p, next), Segs(s.node.core), |Published(s)|)
    ensures Inv(w, CopyFile(s, p, next))
  {
    var segs, k := Segs(s.node.core), |Published(s)|;
    assert segs[..k] == Published(s);
    CopyKeepsOlder(w, s, p, next, segs, k);
    CopyKeepsUploader(w, s, p, next);
  }

  lemma RemoveKeeps(w: World, s: System, p: Path, next: Phase)
    requires Inv(w, s) && s.uploaderUp && !s.phase.Idle? && !next.Idle?
    requires p.start == Segs(s.node.core)[|Published(s)|].start
    requires PhaseOk(w, RemoveFile(s, p, next), Segs(s.node.core), |Published(s)|)
    ensures Inv(w, RemoveFile(s, p, next))
  {
    RemoveKeepsUploader(w, s, p, next);
  }

  lemma RemoveKeepsUploader(w: World, s: System, p: Path, next: Phase)
    requires UploaderOk(w, s) && !s.phase.Idle? && !next.Idle?
    requires p.start == Segs(s.node.core)[|Published(s)|].start
    requires PhaseOk(w, RemoveFile(s, p, next), Segs(s.node.core), |Published(s)|)
    ensures UploaderOk(w, RemoveFile(s, p, next))
  {
    assert Published(RemoveFile(s, p, next)) == Published(s);
    RemoveKeepsNewer(w, s, p, next, Segs(s.node.core), |Published(s)|);
  }

  predicate IsCopy(a: Action) { a.CopySummary? || a.CopyContent? }

  predicate IsRemoval(a: Action) { a.RemoveSummary? || a.RemoveContent? }

  /** Copying or removing a file of the update in hand. */
  lemma FileStepKeeps(w: World, size: nat, s: System, a: Action, s': System)
    requires Inv(w, s) && (IsCopy(a) || IsRemoval(a)) && Step(w, size, s, a, s')
    ensures Inv(w, s')
  {
    UploadPhases(w, s, Segs(s.node.core), |Published(s)|);
    var u := s.phase.update;
    match a
    case CopySummary => CopyKeeps(w, s, u.summary.FilePath(), s'.phase);
    case RemoveSummary => RemoveKeeps(w, s, u.summary.FilePath(), s'.phase);
    case CopyContent => CopyKeeps(w, s, u.content.FilePath(), s'.phase);
    case RemoveContent => RemoveKeeps(w, s, u.content.FilePath(), s'.phase);
  }

  /** Publishing the update for segment k, once both its files are remote. */
  lemma PublishedGrows(w: World, s: System, segs: seq<Segment>, k: nat, s': System)
    requires Tiles(w, segs) && k < |segs|
    requires AllPresent(w, s.remote, segs[..k])
    requires HasContent(w, s.remote, segs[k]) && HasSummary(w, s.remote, segs[k])
    requires s'.remote == s.remote && s'.remoteManifest == Some(UpdateFor(w, segs, k).manifest)
    ensures Published(s') == segs[..k + 1]
    ensures RemoteOk(w, s')
  {
    var next := segs[..k + 1];
    TilesPrefix(w, segs, k + 1);
    SegsOfFilesOf(w, next);
    forall i | 0 <= i < |next| ensures HasContent(w, s'.remote, next[i]) && HasSummary(w, s'.remote, next[i]) {
      if i < k { assert segs[..k][i] == next[i]; }
    }
  }

  lemma PublishKeeps(w: World, size: nat, s: System, s': System)
    requires Inv(w, s) && Step(w, size, s, PublishManifest, s')
    ensures Inv(w, s') && Published(s) <= Published(s')
  {
    var segs, k := Segs(s.node.core), |Published(s)|;
    assert segs[..k] == Published(s);
    PublishedGrows(w, s, segs, k, s');
    PublishKeepsUploader(w, s, s');
  }

  lemma PublishKeepsUploader(w: World, s: System, s': System)
    requires UploaderOk(w, s) && !s.phase.Idle? && s'.node == s.node && s'.phase.Idle?
    requires |Published(s)| < |Segs(s.node.core)| && Published(s') == Segs(s.node.core)[..|Published(s)| + 1]
    ensures UploaderOk(w, s')
  {
  }

  /** A writer opened on what is published, or on nothing. */
  lemma OpenOk(w: World, s: System, m: Manifest)
    requires RemoteOk(w, s) && ResumeManifest(s) == Some(m)
    ensures SegsOf(m.fileMetadata) == Published(s) && ManifestOk(w, m)
    ensures m.epoch == w.EpochBefore(m.nextCheckpointSeqNum)
  {
    var segs := Published(s);
    if s.remoteManifest.Some? {
      assert HasContent(w, s.remote, segs[0]);
      SegsOfFilesOf(w, segs);
      TileAt(w, segs, |segs| - 1);
    }
  }

  lemma StartKeeps(w: World, size: nat, s: System, s': System)
    requires Inv(w, s) && Step(w, size, s, Start, s')
    ensures Inv(w, s')
  {
    OpenOk(w, s, ResumeManifest(s).value);
  }

  /** Every step of every task, every stop and every start keeps the invariant. */
  lemma StepKeeps(w: World, size: nat, s: System, a: Action, s': System)
    requires w.GoodChain() && Inv(w, s) && Step(w, size, s, a, s')
    ensures Inv(w, s')
  {
    match a
    case Tail(timedOut) => TailKeeps(w, size, s, timedOut, s');
    case Receive => ReceiveKeeps(w, size, s, s');
    case PublishManifest => PublishKeeps(w, size, s, s');
    case StopWriter =>
    case StopUploader =>
    case Start => StartKeeps(w, size, s, s');
    case _ => FileStepKeeps(w, size, s, a, s');
  }

  lemma {:induction false} RunKeeps(w: World, size: nat, tr: seq<System>, i: nat)
    requires w.GoodChain() && Run(w, size, tr) && i < |tr|
    ensures Inv(w, tr[i])
  {
    if i == 0 {
    } else {
      RunKeeps(w, size, tr, i - 1);
      assert Next(w, size, tr[i - 1], tr[i - 1 + 1]);
      var a :| Step(w, size, tr[i - 1], a, tr[i]);
      StepKeeps(w, size, tr[i - 1], a, tr[i]);
    }
  }

  // ---------------------------------------------------------------- what follows for the remote archive

  /** Whatever the tasks are doing, a file named by the remote MANIFEST is in the remote store
      and hashes to the recorded digest. */
  lemma ManifestFilesExist(w: World, size: nat, tr: seq<System>, i: nat, f: FileMetadata)
    requires w.GoodChain() && Run(w, size, tr) && i < |tr|
    requires tr[i].remoteManifest.Some? && f in tr[i].remoteManifest.value.fileMetadata
    ensures f.FilePath() in tr[i].remote && w.sha3(tr[i].remote[f.FilePath()]) == f.sha3Digest
  {
    RunKeeps(w, size, tr, i);
    var k := EntryOfSegment(w, Published(tr[i]), f);
  }

  /** One step only appends to the published segments and writes no published file. */
  ghost predicate OnlyAppends(w: World, s: System, s': System) {
    && Published(s) <= Published(s')
    && (forall p | p in s.remote && p.start < EndOf(Published(s)) :: p in s'.remote && s'.remote[p] == s.remote[p])
  }

  lemma UploadOnlyAppends(w: World, size: nat, s: System, a: Action, s': System)
    requires Inv(w, s) && IsCopy(a) && Step(w, size, s, a, s')
    ensures OnlyAppends(w, s, s')
  {
    var segs, k := Segs(s.node.core), |Published(s)|;
    TileAt(w, segs, k);
    assert segs[..k] == Published(s);
  }

  lemma StepOnlyAppends(w: World, size: nat, s: System, a: Action, s': System)
    requires Inv(w, s) && Step(w, size, s, a, s')
    ensures OnlyAppends(w, s, s')
  {
    match a
    case CopySummary => UploadOnlyAppends(w, size, s, a, s');
    case CopyContent => UploadOnlyAppends(w, size, s, a, s');
    case PublishManifest => PublishKeeps(w, size, s, s');
    case _ =>
  }

  lemma OnlyAppendsTransitive(w: World, s: System, s': System, s'': System)
    requires Tiles(w, Published(s')) && OnlyAppends(w, s, s') && OnlyAppends(w, s', s'')
    ensures OnlyAppends(w, s, s'')
  {
    TilesPrefix(w, Published(s'), |Published(s)|);
    assert Published(s')[..|Published(s)|] == Published(s);
  }

  lemma {:induction false} RunOnlyAppends(w: World, size: nat, tr: seq<System>, i: nat, j: nat)
    requires w.GoodChain() && Run(w, size, tr) && i <= j < |tr|
    ensures OnlyAppends(w, tr[i], tr[j])
    decreases j
  {
    if i < j {
      RunOnlyAppends(w, size, tr, i, j - 1);
      RunKeeps(w, size, tr, j - 1);
      assert Next(w, size, tr[j - 1], tr[j - 1 + 1]);
      var a :| Step(w, size, tr[j - 1], a, tr[j]);
      StepOnlyAppends(w, size, tr[j - 1], a, tr[j]);
      OnlyAppendsTransitive(w, tr[i], tr[j - 1], tr[j]);
    }
  }

  /** Later manifests extend earlier ones entry by entry, and a file once named by the MANIFEST
      is never written again, by this run of the tasks or by a resumed one. */
  lemma PublishedFilesAreFinal(w: World, size: nat, tr: seq<System>, i: nat, j: nat)
    requires w.GoodChain() && Run(w, size, tr) && i <= j < |tr| && tr[i].remoteManifest.Some?
    ensures tr[j].remoteManifest.Some?
    ensures tr[i].remoteManifest.value.fileMetadata <= tr[j].remoteManifest.value.fileMetadata
    ensures tr[i].remoteManifest.value.nextCheckpointSeqNum <= tr[j].remoteManifest.value.nextCheckpointSeqNum
    ensures forall f | f in tr[i].remoteManifest.value.fileMetadata ::
              f.FilePath() in tr[i].remote && f.FilePath() in tr[j].remote
              && tr[j].remote[f.FilePath()] == tr[i].remote[f.FilePath()]
  {
    RunKeeps(w, size, tr, i);
    RunKeeps(w, size, tr, j);
    RunOnlyAppends(w, size, tr, i, j);
    var segs, segs' := Published(tr[i]), Published(tr[j]);
    TilesPrefix(w, segs', |segs|);
    assert segs'[..|segs|] == segs;
    forall f | f in tr[i].remoteManifest.value.fileMetadata
      ensures f.FilePath() in tr[i].remote && f.FilePath() in tr[j].remote
      ensures tr[j].remote[f.FilePath()] == tr[i].remote[f.FilePath()]
    {
      var k := EntryOfSegment(w, segs, f);
      TileAt(w, segs, k);
    }
  }

  /** The remote manifest, entry by entry: segment k contributes its content entry and then its
      summary entry, both over the same non-empty range, which starts where segment k - 1 ended
      and lies in one epoch of the chain. */
  lemma PublishedManifestTiles(w: World, size: nat, tr: seq<System>, i: nat, k: nat)
    requires w.GoodChain() && Run(w, size, tr) && i < |tr| && tr[i].remoteManifest.Some?
    requires 2 * k < |tr[i].remoteManifest.value.fileMetadata|
    ensures var m := tr[i].remoteManifest.value;
      var files := m.fileMetadata;
      && 2 * k + 1 < |files|
      && var c, s := files[2 * k], files[2 * k + 1];
      && c.fileType == CheckpointContent && s.fileType == CheckpointSummaryFile
      && c.epochNum == s.epochNum && c.start == s.start && c.end == s.end
      && c.start < c.end && w.SingleEpoch(c.start, c.end, c.epochNum)
      && c.start == (if k == 0 then 0 else files[2 * k - 2].end)
      && (2 * k + 2 == |files| ==> c.end == m.nextCheckpointSeqNum && c.epochNum == m.epoch)
  {
    RunKeeps(w, size, tr, i);
    var segs := Published(tr[i]);
    SegsOfFilesOf(w, segs);
    FilesAt(w, segs, k);
    TileAt(w, segs, k);
    if k > 0 {
      FilesAt(w, segs, k - 1);
    }
  }

  /** In every reachable state the writer's open range starts where its manifest ends and none of
      its assertions fires on the next write; a write finds the channel closed only when the
      upload task has stopped. */
  lemma NoAssertionFires(w: World, size: nat, tr: seq<System>, i: nat, timedOut: bool)
    requires w.GoodChain() && Run(w, size, tr) && i < |tr| && tr[i].writerUp
    ensures tr[i].node.core.start == tr[i].node.core.manifest.nextCheckpointSeqNum
    ensures var error := TailResult(w, size, tr[i], timedOut).error;
      || error in {None, Some(EpochOverflow), Some(SequenceOverflow)}
      || (error == Some(ChannelClosed) && !tr[i].uploaderUp)
  {
    var s := tr[i];
    RunKeeps(w, size, tr, i);
    WriteOk(w, size, s.node, |Published(s)| + Taken(s), At(w, s, timedOut));
  }

  /** The upload task finds the file it is about to copy, and the copied file it is about to remove. */
  lemma UploadsFindTheirFiles(w: World, size: nat, tr: seq<System>, i: nat)
    requires w.GoodChain() && Run(w, size, tr) && i < |tr| && tr[i].uploaderUp
    ensures tr[i].phase.SummaryIsLocal() ==> tr[i].phase.update.summary.FilePath() in tr[i].node.staged
    ensures tr[i].phase.ContentIsLocal() ==> tr[i].phase.update.content.FilePath() in tr[i].node.staged
  {
    RunKeeps(w, size, tr, i);
  }
}
