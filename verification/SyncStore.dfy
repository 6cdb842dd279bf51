/**
 Loading checkpoints into a verified store (crates/sui-archival/src/reader.rs,
 `get_or_insert_verified_checkpoint` and the verifying loops; `verify_checkpoint` in
 crates/sui-storage/src/lib.rs; the in-memory store in crates/sui-types/src/storage.rs).

 The data handed in is arbitrary: whatever a remote store may return.
 */
module SyncStore {
  import opened ChainTypes
  import opened Manifests
  import opened ArchiveProtocol
  import opened ArchiveReader

  datatype Store = Store(
    checkpoints: map<nat, CertifiedSummary>,
    contents: map<nat, Contents>,
    committees: seq<Committee>,
    highestVerified: Option<nat>,
    highestSynced: Option<nat>)

  datatype Outcome = Ok(checkpoint: CertifiedSummary) | Err | Panic

  datatype StoreResult = StoreResult(store: Store, outcome: Outcome)

  /** Watermarks only move up. */
  function Raise(mark: Option<nat>, n: nat): Option<nat> {
    if mark.Some? && mark.value >= n then mark else Some(n)
  }

  function NextCommittee(s: CheckpointSummary): Committee
    requires s.endOfEpochData.Some?
  {
    Committee(s.epoch + 1, s.endOfEpochData.value.nextEpochCommittee)
  }

  function InsertCheckpoint(st: Store, c: CertifiedSummary): StoreResult {
    var n := c.data.sequenceNumber;
    var committees :=
      if c.data.endOfEpochData.Some? then InsertCommittee(st.committees, NextCommittee(c.data))
      else Some(st.committees);
    if committees.None? then StoreResult(st, Panic)
    else
      StoreResult(
        st.(checkpoints := st.checkpoints[n := c], committees := committees.value,
            highestVerified := Raise(st.highestVerified, n)),
        Ok(c))
  }

  /** `verify_checkpoint`: whether `c` may follow `current`. */
  function VerifyAfter(st: Store, current: CertifiedSummary, c: CertifiedSummary): Outcome {
    if c.data.sequenceNumber != current.data.sequenceNumber + 1 then Panic
    else if c.data.previousDigest != Some(SummaryDigest(current.data)) then Err
    else if c.data.epoch != current.data.epoch && c.data.epoch != current.data.epoch + 1 then Err
    else if c.data.epoch == current.data.epoch + 1 && current.data.endOfEpochData.None? then Err
    else if c.data.epoch >= |st.committees| then Panic
    else if c.signedBy != st.committees[c.data.epoch] then Err
    else Ok(c)
  }

  function GetOrInsert(st: Store, c: CertifiedSummary): StoreResult {
    var n := c.data.sequenceNumber;
    if n in st.checkpoints then StoreResult(st, Ok(st.checkpoints[n]))
    else if n == 0 || n - 1 !in st.checkpoints then StoreResult(st, Err)
    else
      var verdict := VerifyAfter(st, st.checkpoints[n - 1], c);
      if verdict.Ok? then InsertCheckpoint(st, c) else StoreResult(st, verdict)
  }

  /** `verify_digests`: the contents hash to `digest` and each effects names its transaction. */
  predicate MatchesDigest(contents: Contents, digest: ContentsDigest) {
    && digest == ContentsDigest(DigestsOf(contents))
    && forall i | 0 <= i < |contents| :: contents[i].effectsTransaction == contents[i].digests.transaction
  }

  /** One summary/contents pair of `read`. */
  function Process(st: Store, item: Item): StoreResult {
    var r := GetOrInsert(st, item.summary);
    if !r.outcome.Ok? then r
    else
      var cp := r.outcome.checkpoint;
      if !MatchesDigest(item.contents, cp.data.contentDigest) then StoreResult(r.store, Err)
      else
        var n := cp.data.sequenceNumber;
        StoreResult(
          r.store.(contents := r.store.contents[n := item.contents], highestSynced := Raise(r.store.highestSynced, n)),
          r.outcome)
  }

  datatype Status = Going | Stopped | Panicked

  /** How far a read got: the store, the counters, and whether something stopped it. */
  datatype Progress = Progress(store: Store, status: Status, txns: nat, checkpoints: nat)

  function StatusAfter(outcome: Outcome): Status {
    match outcome
    case Ok(_) => Going
    case Err => Stopped
    case Panic => Panicked
  }

  function Advance(p: Progress, item: Item): Progress {
    if !p.status.Going? then p
    else
      var r := Process(p.store, item);
      match r.outcome
      case Ok(_) => Progress(r.store, Going, p.txns + |item.contents|, p.checkpoints + 1)
      case Err => Progress(r.store, Stopped, p.txns, p.checkpoints)
      case Panic => Progress(r.store, Panicked, p.txns, p.checkpoints)
  }

  /** The pairs of a read, in order, up to the first error. */
  function ProcessAll(st: Store, items: seq<Item>): Progress {
    if items == [] then Progress(st, Going, 0, 0)
    else Advance(ProcessAll(st, Init(items)), Last(items))
  }

  /** `read`: every archived checkpoint of [a, b) into the store, until something stops it. */
  function Read(search: Searcher, st: Store, m: Manifest, remote: map<Path, FileData>, a: nat, b: nat): Progress {
    match Select(search, m, a, b)
    case Selected(files) =>
      var delivery := Deliver(remote, files, a, b);
      var p := ProcessAll(st, delivery.items);
      if p.status.Going? && !delivery.complete then p.(status := Stopped) else p
    case Refused => Progress(st, Stopped, 0, 0)
    case Crashed => Progress(st, Panicked, 0, 0)
  }

  // ---------------------------------------------------------------- summaries only

  /** The summaries of the files in order, clipped to [a, b), up to the first file that cannot be fetched
      or has the wrong magic, and whether there was none. */
  function DeliverSummaries(
    remote: map<Path, FileData>, pairs: seq<FilePair>, a: nat, b: nat): (seq<CertifiedSummary>, bool)
  {
    if pairs == [] then ([], true)
    else
      var (before, complete) := DeliverSummaries(remote, Init(pairs), a, b);
      var path := Last(pairs).0.FilePath();
      if !complete then (before, false)
      else if path !in remote || !remote[path].SummaryFile? then (before, false)
      else (before + ClipSummaries(remote[path].summaries, a, b), true)
  }

  function ClipSummaries(summaries: seq<CertifiedSummary>, a: nat, b: nat): seq<CertifiedSummary> {
    if summaries == [] then []
    else ClipSummaries(Init(summaries), a, b)
         + (if a <= Last(summaries).data.sequenceNumber < b then [Last(summaries)] else [])
  }

  /** One summary of `read_summaries`: the watermark is raised whether or not the summary was new. */
  function AdvanceSummary(p: Progress, c: CertifiedSummary): Progress {
    if !p.status.Going? then p
    else
      var r := GetOrInsert(p.store, c);
      match r.outcome
      case Ok(cp) =>
        Progress(r.store.(highestVerified := Raise(r.store.highestVerified, cp.data.sequenceNumber)),
                 Going, p.txns, p.checkpoints + 1)
      case Err => Progress(r.store, Stopped, p.txns, p.checkpoints)
      case Panic => Progress(r.store, Panicked, p.txns, p.checkpoints)
  }

  function ProcessSummaries(st: Store, summaries: seq<CertifiedSummary>): Progress {
    if summaries == [] then Progress(st, Going, 0, 0)
    else AdvanceSummary(ProcessSummaries(st, Init(summaries)), Last(summaries))
  }

  /** The verifying branch of `read_summaries`. */
  function ReadSummaries(
    search: Searcher, st: Store, m: Manifest, remote: map<Path, FileData>, a: nat, b: nat): Progress
  {
    match Select(search, m, a, b)
    case Selected(files) =>
      var (summaries, complete) := DeliverSummaries(remote, files, a, b);
      var p := ProcessSummaries(st, summaries);
      if p.status.Going? && !complete then p.(status := Stopped) else p
    case Refused => Progress(st, Stopped, 0, 0)
    case Crashed => Progress(st, Panicked, 0, 0)
  }

  // ---------------------------------------------------------------- the verified prefix

  /** Checkpoint n is there, under its own number, and follows its predecessor: linked by digest, in
      the same or the announced next epoch, signed by that epoch's committee. */
  ghost predicate Verified(st: Store, n: nat) {
    && n in st.checkpoints
    && var c := st.checkpoints[n].data;
    && c.sequenceNumber == n
    && c.epoch < |st.committees|
    && (c.endOfEpochData.Some? ==> c.epoch + 1 < |st.committees|)
    && (n > 0 ==>
          && n - 1 in st.checkpoints
          && var p := st.checkpoints[n - 1].data;
          && c.previousDigest == Some(SummaryDigest(p))
          && (c.epoch == p.epoch || (c.epoch == p.epoch + 1 && p.endOfEpochData.Some?))
          && st.checkpoints[n].signedBy == st.committees[c.epoch])
  }

  ghost predicate MarkOk(st: Store, mark: Option<nat>) {
    mark.Some? ==> mark.value in st.checkpoints
  }

  /** Each effects names the transaction it is filed with. */
  /** The digest is that of these contents, one by one, and each effects names its transaction. */
  predicate Carries(contents: Contents, digest: ContentsDigest) {
    && |digest.of| == |contents|
    && forall i | 0 <= i < |contents| ::
         digest.of[i] == contents[i].digests && contents[i].effectsTransaction == digest.of[i].transaction
  }

  /** The store holds checkpoints 0 .. k for some k, each verified, and contents only under a verified
      summary with their digest, each transaction with its own effects. */
  ghost predicate StoreOk(st: Store) {
    && (forall n | n in st.checkpoints :: n < |st.checkpoints|)
    && (forall n: nat | n < |st.checkpoints| :: Verified(st, n))
    && (forall n | n in st.contents ::
          n in st.checkpoints && Carries(st.contents[n], st.checkpoints[n].data.contentDigest))
    && MarkOk(st, st.highestVerified) && MarkOk(st, st.highestSynced)
  }

  /** A checkpoint that verifies after the last stored one extends the verified prefix. */
  lemma InsertKeeps(st: Store, c: CertifiedSummary)
    requires StoreOk(st) && c.data.sequenceNumber == |st.checkpoints| > 0 && c.data.sequenceNumber - 1 in st.checkpoints
    requires VerifyAfter(st, st.checkpoints[c.data.sequenceNumber - 1], c).Ok?
    ensures InsertCheckpoint(st, c).outcome.Ok? && StoreOk(InsertCheckpoint(st, c).store)
  {
    var n, st' := c.data.sequenceNumber, InsertCheckpoint(st, c).store;
    assert Verified(st, n - 1);
    forall i: nat | i < |st'.checkpoints| ensures Verified(st', i) {
      if i < n { assert Verified(st, i); }
    }
  }

  lemma GetOrInsertKeeps(st: Store, c: CertifiedSummary)
    requires StoreOk(st)
    ensures var r := GetOrInsert(st, c);
      && StoreOk(r.store)
      && !r.outcome.Panic?
      && (r.outcome.Err? ==> r.store == st)
      && (r.outcome.Ok? ==> c.data.sequenceNumber in r.store.checkpoints
                            && r.outcome.checkpoint == r.store.checkpoints[c.data.sequenceNumber])
  {
    var n := c.data.sequenceNumber;
    if n in st.checkpoints {
      assert Verified(st, n);
    } else if n > 0 && n - 1 in st.checkpoints {
      assert Verified(st, n - 1);
      assert n == |st.checkpoints| by { assert !Verified(st, n); }
      if VerifyAfter(st, st.checkpoints[n - 1], c).Ok? { InsertKeeps(st, c); }
    }
  }

  /** One pair, whatever it holds: the verified prefix stays one, and nothing panics. */
  lemma ProcessKeeps(st: Store, item: Item)
    requires StoreOk(st)
    ensures StoreOk(Process(st, item).store) && !Process(st, item).outcome.Panic?
  {
    GetOrInsertKeeps(st, item.summary);
    var r := GetOrInsert(st, item.summary);
    if r.outcome.Ok? {
      var n := item.summary.data.sequenceNumber;
      assert Verified(r.store, n);
      var st' := Process(st, item).store;
      forall i: nat | i < |st'.checkpoints| ensures Verified(st', i) { assert Verified(r.store, i); }
    }
  }

  /** Any pairs, whatever they hold, up to any error: the store still holds a contiguous
      verified prefix, and nothing panics. */
  lemma {:induction false} ProcessAllKeeps(st: Store, items: seq<Item>)
    requires StoreOk(st)
    ensures StoreOk(ProcessAll(st, items).store) && !ProcessAll(st, items).status.Panicked?
    decreases |items|
  {
    if items == [] {
    } else {
      ProcessAllKeeps(st, Init(items));
      ProcessKeeps(ProcessAll(st, Init(items)).store, Last(items));
    }
  }

  /** Any read of any manifest over any remote data, with any search, successful or stopped at any
      point, leaves a contiguous verified prefix behind. */
  lemma ReadKeepsVerifiedPrefix(
    search: Searcher, st: Store, m: Manifest, remote: map<Path, FileData>, a: nat, b: nat)
    requires StoreOk(st)
    ensures var p := Read(search, st, m, remote, a, b);
      && StoreOk(p.store)
      && (p.status.Panicked? <==> Select(search, m, a, b).Crashed?)
  {
    var r := Select(search, m, a, b);
    if r.Selected? { ProcessAllKeeps(st, Deliver(remote, r.files, a, b).items); }
  }

  lemma AdvanceSummaryKeeps(p: Progress, c: CertifiedSummary)
    requires StoreOk(p.store) && !p.status.Panicked?
    ensures StoreOk(AdvanceSummary(p, c).store) && !AdvanceSummary(p, c).status.Panicked?
    ensures AdvanceSummary(p, c).store.contents == p.store.contents
  {
    GetOrInsertKeeps(p.store, c);
    var r := GetOrInsert(p.store, c);
    if p.status.Going? && r.outcome.Ok? {
      var st' := AdvanceSummary(p, c).store;
      assert Verified(r.store, c.data.sequenceNumber);
      forall i: nat | i < |st'.checkpoints| ensures Verified(st', i) { assert Verified(r.store, i); }
    }
  }

  lemma {:induction false} ProcessSummariesKeep(st: Store, summaries: seq<CertifiedSummary>)
    requires StoreOk(st)
    ensures var p := ProcessSummaries(st, summaries);
      StoreOk(p.store) && !p.status.Panicked? && p.store.contents == st.contents
    decreases |summaries|
  {
    if summaries == [] {
    } else {
      ProcessSummariesKeep(st, Init(summaries));
      AdvanceSummaryKeeps(ProcessSummaries(st, Init(summaries)), Last(summaries));
    }
  }

  /** So does any verifying `read_summaries`, which touches no contents. */
  lemma SummariesKeepVerifiedPrefix(
    search: Searcher, st: Store, m: Manifest, remote: map<Path, FileData>, a: nat, b: nat)
    requires StoreOk(st)
    ensures var p := ReadSummaries(search, st, m, remote, a, b);
      && StoreOk(p.store) && p.store.contents == st.contents
      && (p.status.Panicked? <==> Select(search, m, a, b).Crashed?)
  {
    var r := Select(search, m, a, b);
    if r.Selected? { ProcessSummariesKeep(st, DeliverSummaries(remote, r.files, a, b).0); }
  }

  /** A watermark that was set stays set and never falls. */
  predicate Rises(mark: Option<nat>, mark': Option<nat>) {
    mark.Some? ==> mark'.Some? && mark'.value >= mark.value
  }

  predicate MarksRise(st: Store, st': Store) {
    Rises(st.highestVerified, st'.highestVerified) && Rises(st.highestSynced, st'.highestSynced)
  }

  lemma {:induction false} ProcessAllRises(st: Store, items: seq<Item>)
    ensures MarksRise(st, ProcessAll(st, items).store)
    decreases |items|
  {
    if items == [] {
    } else {
      ProcessAllRises(st, Init(items));
    }
  }

  lemma {:induction false} ProcessSummariesRise(st: Store, summaries: seq<CertifiedSummary>)
    ensures MarksRise(st, ProcessSummaries(st, summaries).store)
    decreases |summaries|
  {
    if summaries == [] {
    } else {
      ProcessSummariesRise(st, Init(summaries));
    }
  }

  /** Whatever the data, neither reader lowers a watermark. */
  lemma ReadersRaiseWatermarks(
    search: Searcher, st: Store, m: Manifest, remote: map<Path, FileData>, a: nat, b: nat)
    ensures MarksRise(st, Read(search, st, m, remote, a, b).store)
    ensures MarksRise(st, ReadSummaries(search, st, m, remote, a, b).store)
  {
    var r := Select(search, m, a, b);
    if r.Selected? {
      ProcessAllRises(st, Deliver(remote, r.files, a, b).items);
      ProcessSummariesRise(st, DeliverSummaries(remote, r.files, a, b).0);
    }
  }

  /** Both readers panic exactly when an assertion on the manifest fires, which happens only for a range
      the manifest claims to reach; nothing in the files makes them panic. */
  lemma ReadersPanicIff(search: Searcher, st: Store, m: Manifest, remote: map<Path, FileData>, a: nat, b: nat)
    requires IsSearch(search) && StoreOk(st)
    ensures var asserted := a < m.nextCheckpointSeqNum && VerifyManifest(m).AssertFailed?;
      && (Read(search, st, m, remote, a, b).status.Panicked? <==> asserted)
      && (ReadSummaries(search, st, m, remote, a, b).status.Panicked? <==> asserted)
  {
    ReadKeepsVerifiedPrefix(search, st, m, remote, a, b);
    SummariesKeepVerifiedPrefix(search, st, m, remote, a, b);
    SelectCrashesIff(search, m, a, b);
  }

  // ---------------------------------------------------------------- reading the chain itself

  /** The chain verifies: linked by digest, contents consistent, epochs handed over by
      end-of-epoch data, each summary signed by the committee `com` gives its epoch. */
  ghost predicate Follows(w: World, com: nat -> Committee, n: nat) {
    var c, d := w.chain(n).summary, w.chain(n + 1).summary.data;
    && c.signedBy == com(c.data.epoch)
    && (c.data.endOfEpochData.Some? ==>
          com(c.data.epoch + 1) == Committee(c.data.epoch + 1, c.data.endOfEpochData.value.nextEpochCommittee))
    && d.previousDigest == Some(SummaryDigest(c.data))
    && (d.epoch == c.data.epoch + 1 ==> c.data.endOfEpochData.Some?)
    && Carries(w.chain(n).contents, w.chain(n).summary.data.contentDigest)
  }

  ghost predicate Certifiable(w: World, com: nat -> Committee) {
    w.GoodChain() && forall n: nat :: Follows(w, com, n)
  }

  ghost predicate SummaryAt(w: World, st: Store, n: nat) {
    n in st.checkpoints && st.checkpoints[n] == w.chain(n).summary
  }

  ghost predicate ContentsAt(w: World, st: Store, n: nat) {
    n in st.contents && st.contents[n] == w.chain(n).contents
  }

  /** The store holds exactly the first k checkpoints of the chain. */
  ghost predicate HoldsChain(w: World, com: nat -> Committee, st: Store, k: nat) {
    && StoreOk(st) && k == |st.checkpoints| > 0
    && (forall n: nat | n < k :: SummaryAt(w, st, n))
    && (forall e: nat | e < |st.committees| :: st.committees[e] == com(e))
  }

  lemma NextVerifies(w: World, com: nat -> Committee, st: Store, k: nat)
    requires Certifiable(w, com) && HoldsChain(w, com, st, k)
    ensures k !in st.checkpoints && k - 1 in st.checkpoints
    ensures VerifyAfter(st, st.checkpoints[k - 1], w.chain(k).summary).Ok?
  {
    assert w.GoodEntry(k) && w.EpochStep(k - 1);
    assert Follows(w, com, k - 1) && Follows(w, com, k);
    assert Verified(st, k - 1) && SummaryAt(w, st, k - 1);
  }

  lemma InsertNext(w: World, com: nat -> Committee, st: Store, k: nat)
    requires Certifiable(w, com) && HoldsChain(w, com, st, k)
    ensures var r := GetOrInsert(st, w.chain(k).summary);
      r.outcome == Ok(w.chain(k).summary) && HoldsChain(w, com, r.store, k + 1)
      && r.store.contents == st.contents && r.store.highestSynced == st.highestSynced
      && r.store.highestVerified == Raise(st.highestVerified, k)
  {
    NextVerifies(w, com, st, k);
    assert w.GoodEntry(k) && Follows(w, com, k);
    GetOrInsertKeeps(st, w.chain(k).summary);
    var st' := GetOrInsert(st, w.chain(k).summary).store;
    forall n: nat | n < k + 1 ensures SummaryAt(w, st', n) { if n < k { assert SummaryAt(w, st, n); } }
  }

  lemma ProcessNext(w: World, com: nat -> Committee, st: Store, k: nat, n: nat)
    requires Certifiable(w, com) && HoldsChain(w, com, st, k) && n <= k
    ensures var r := Process(st, ItemAt(w, n));
      && r.outcome.Ok?
      && HoldsChain(w, com, r.store, Max(k, n + 1))
      && r.store.contents == st.contents[n := w.chain(n).contents]
      && r.store.highestSynced == Raise(st.highestSynced, n)
      && r.store.highestVerified == (if n == k then Raise(st.highestVerified, n) else st.highestVerified)
  {
    assert w.GoodEntry(n) && Follows(w, com, n);
    var item := ItemAt(w, n);
    if n == k {
      InsertNext(w, com, st, k);
    } else {
      assert SummaryAt(w, st, n);
    }
    ProcessKeeps(st, item);
    var st1, st2 := GetOrInsert(st, item.summary).store, Process(st, item).store;
    forall i: nat | i < Max(k, n + 1) ensures SummaryAt(w, st2, i) { assert SummaryAt(w, st1, i); }
  }

  /** A watermark after the numbers a .. b - 1 have come by. */
  function Topped(mark: Option<nat>, a: nat, b: nat): Option<nat> {
    if a >= b || (mark.Some? && mark.value >= b - 1) then mark else Some(b - 1)
  }

  /** The transactions of checkpoints a .. b - 1. */
  function TxnCount(w: World, a: nat, b: nat): nat {
    if a >= b then 0 else TxnCount(w, a, b - 1) + |w.chain(b - 1).contents|
  }

  /** A read of [a, b) into a store st that held the first k checkpoints has gone through: the store holds
      the chain up to the end of the range with the contents of the whole range, both watermarks have
      risen to what came by, and everything is counted. */
  ghost predicate Loaded(w: World, com: nat -> Committee, st: Store, p: Progress, k: nat, a: nat, b: nat) {
    && a <= b && p.status.Going? && p.checkpoints == b - a && p.txns == TxnCount(w, a, b)
    && HoldsChain(w, com, p.store, Max(k, b))
    && (forall n: nat | a <= n < b :: ContentsAt(w, p.store, n))
    && p.store.highestSynced == Topped(st.highestSynced, a, b)
    && p.store.highestVerified == Topped(st.highestVerified, k, b)
  }

  lemma LoadedGrows(
    w: World, com: nat -> Committee, st: Store, p: Progress, k: nat, a: nat, b: nat, st': Store, txns: nat)
    requires a <= k && a < b && Loaded(w, com, st, p, k, a, b - 1)
    requires HoldsChain(w, com, st', Max(Max(k, b - 1), b))
    requires st'.contents == p.store.contents[b - 1 := w.chain(b - 1).contents]
    requires st'.highestSynced == Raise(p.store.highestSynced, b - 1)
    requires st'.highestVerified
          == if k <= b - 1 then Raise(p.store.highestVerified, b - 1) else p.store.highestVerified
    requires txns == p.txns + |w.chain(b - 1).contents|
    ensures Loaded(w, com, st, Progress(st', Going, txns, p.checkpoints + 1), k, a, b)
  {
    assert Max(Max(k, b - 1), b) == Max(k, b);
    forall n: nat | a <= n < b ensures ContentsAt(w, st', n) { if n < b - 1 { assert ContentsAt(w, p.store, n); } }
  }

  lemma AdvanceOk(p: Progress, item: Item)
    requires p.status.Going? && Process(p.store, item).outcome.Ok?
    ensures var p' := Advance(p, item);
      p' == Progress(Process(p.store, item).store, Going, p.txns + |item.contents|, p.checkpoints + 1)
  {
  }

  lemma LoadedNext(w: World, com: nat -> Committee, st: Store, p: Progress, p': Progress, k: nat, a: nat, b: nat)
    requires Certifiable(w, com) && a <= k && a < b && Loaded(w, com, st, p, k, a, b - 1)
    requires p' == Advance(p, ItemAt(w, b - 1))
    ensures Loaded(w, com, st, p', k, a, b)
  {
    ProcessNext(w, com, p.store, Max(k, b - 1), b - 1);
    AdvanceOk(p, ItemAt(w, b - 1));
    LoadedGrows(w, com, st, p, k, a, b, p'.store, p'.txns);
  }

  lemma ProcessOneMore(w: World, st: Store, a: nat, b: nat)
    requires a < b
    ensures ProcessAll(st, ChainItems(w, a, b)) == Advance(ProcessAll(st, ChainItems(w, a, b - 1)), ItemAt(w, b - 1))
  {
    ChainItemsSnoc(w, a, b);
  }

  lemma LoadedNothing(w: World, com: nat -> Committee, st: Store, k: nat, a: nat)
    requires HoldsChain(w, com, st, k) && a <= k
    ensures Loaded(w, com, st, ProcessAll(st, ChainItems(w, a, a)), k, a, a)
  {
    assert Max(k, a) == k;
    assert ChainItems(w, a, a) == [];
  }

  lemma LoadedMore(w: World, com: nat -> Committee, st: Store, k: nat, a: nat, b: nat)
    requires Certifiable(w, com) && a <= k && a < b
    requires Loaded(w, com, st, ProcessAll(st, ChainItems(w, a, b - 1)), k, a, b - 1)
    ensures Loaded(w, com, st, ProcessAll(st, ChainItems(w, a, b)), k, a, b)
  {
    var p, p' := ProcessAll(st, ChainItems(w, a, b - 1)), ProcessAll(st, ChainItems(w, a, b));
    assert p' == Advance(p, ItemAt(w, b - 1)) by { ProcessOneMore(w, st, a, b); }
    LoadedNext(w, com, st, p, p', k, a, b);
  }

  lemma {:induction false} ProcessChain(w: World, com: nat -> Committee, st: Store, k: nat, a: nat, b: nat)
    requires Certifiable(w, com) && HoldsChain(w, com, st, k) && a <= k && a <= b
    ensures Loaded(w, com, st, ProcessAll(st, ChainItems(w, a, b)), k, a, b)
    decreases b
  {
    if a == b {
      LoadedNothing(w, com, st, k, a);
    } else {
      ProcessChain(w, com, st, k, a, b - 1);
      LoadedMore(w, com, st, k, a, b);
    }
  }

  lemma ChainPrefix(w: World, a: nat, b: nat, items: seq<Item>) returns (c: nat)
    requires items <= ChainItems(w, a, b)
    ensures a <= c <= Max(a, b) && items == ChainItems(w, a, c)
    ensures items == ChainItems(w, a, b) ==> c == Max(a, b)
  {
    c := a + |items|;
    assert ChainItems(w, a, c) == ChainItems(w, a, b)[..|items|];
  }

  /** A read of a delivery that begins with the chain, complete or not, has loaded what was delivered. */
  lemma DeliveryLoads(
    search: Searcher, w: World, com: nat -> Committee, st: Store, k: nat, m: Manifest, got: map<Path, FileData>,
    a: nat, b: nat, end: nat) returns (c: nat)
    requires Certifiable(w, com) && HoldsChain(w, com, st, k) && a <= k && Select(search, m, a, b).Selected?
    requires HandsOver(got, Select(search, m, a, b).files, a, b, ChainItems(w, a, end))
    ensures var p := Read(search, st, m, got, a, b);
      && a <= c <= Max(a, end) && Loaded(w, com, st, p.(status := Going), k, a, c)
      && !p.status.Panicked? && (p.status.Going? <==> AllFetched(got, Select(search, m, a, b).files))
      && (p.status.Going? ==> c == Max(a, end))
  {
    var d := Deliver(got, Select(search, m, a, b).files, a, b);
    c := ChainPrefix(w, a, end, d.items);
    ProcessChain(w, com, st, k, a, c);
  }

  /** End to end: a node that holds the first k checkpoints and reads [a, b), a at most k, with a manifest
      it took at time i of a run of the archive and files each fetched at any later moment or not at all.
      It ends up holding the chain up to some c, with the contents from a to c.  It does not panic; it
      goes through exactly when every file came, and then c is the end of the archived part of the range. */
  lemma ReadLoadsDuringRun(
    search: Searcher, w: World, com: nat -> Committee, size: nat, tr: seq<System>, i: nat, got: map<Path, FileData>,
    st: Store, k: nat, a: nat, b: nat) returns (c: nat)
    requires IsSearch(search) && Certifiable(w, com) && Run(w, size, tr) && i < |tr| && FetchedFrom(tr, i, got)
    requires tr[i].remoteManifest.Some? && a < tr[i].remoteManifest.value.nextCheckpointSeqNum
    requires HoldsChain(w, com, st, k) && a <= k
    ensures var m := tr[i].remoteManifest.value;
      var end := Max(a, Min(b, m.nextCheckpointSeqNum));
      var p := Read(search, st, m, got, a, b);
      && Select(search, m, a, b).Selected?
      && a <= c <= end && Loaded(w, com, st, p.(status := Going), k, a, c)
      && !p.status.Panicked? && (p.status.Going? <==> AllFetched(got, Select(search, m, a, b).files))
      && (p.status.Going? ==> c == end)
  {
    var m := tr[i].remoteManifest.value;
    ReadDuringRun(search, w, size, tr, i, got, a, b);
    c := DeliveryLoads(search, w, com, st, k, m, got, a, b, Min(b, m.nextCheckpointSeqNum));
  }

  // ---------------------------------------------------------------- the class

  /** A checkpoint store being loaded, with the counters of the running read. */
  class LoadingStore {
    var checkpoints: map<nat, CertifiedSummary>
    var contents: map<nat, Contents>
    var committees: seq<Committee>
    var highestVerified: Option<nat>
    var highestSynced: Option<nat>
    var txnCounter: nat
    var checkpointCounter: nat

    function View(): Store
      reads this
    {
      Store(checkpoints, contents, committees, highestVerified, highestSynced)
    }

    method InsertVerified(c: CertifiedSummary) returns (outcome: Outcome)
      modifies this
      ensures StoreResult(View(), outcome) == InsertCheckpoint(old(View()), c)
      ensures unchanged(`txnCounter, `checkpointCounter)
    {
      if c.data.endOfEpochData.Some? {
        var committee := NextCommittee(c.data);
        if committee.epoch > |committees| { return Panic; }
        if committee.epoch == |committees| { committees := committees + [committee]; }
      }
      checkpoints := checkpoints[c.data.sequenceNumber := c];
      highestVerified := Raise(highestVerified, c.data.sequenceNumber);
      outcome := Ok(c);
    }

    method GetOrInsertVerified(c: CertifiedSummary) returns (outcome: Outcome)
      modifies this
      ensures StoreResult(View(), outcome) == GetOrInsert(old(View()), c)
      ensures unchanged(`txnCounter, `checkpointCounter)
    {
      var n := c.data.sequenceNumber;
      if n in checkpoints { return Ok(checkpoints[n]); }
      if n == 0 || n - 1 !in checkpoints { return Err; }
      outcome := VerifyAfter(View(), checkpoints[n - 1], c);
      if outcome.Ok? { outcome := InsertVerified(c); }
    }

    method Load(item: Item) returns (outcome: Outcome)
      modifies this
      ensures StoreResult(View(), outcome) == Process(old(View()), item)
      ensures txnCounter == old(txnCounter) + if outcome.Ok? then |item.contents| else 0
      ensures checkpointCounter == old(checkpointCounter) + if outcome.Ok? then 1 else 0
    {
      outcome := GetOrInsertVerified(item.summary);
      if outcome.Ok? {
        var cp := outcome.checkpoint;
        if !MatchesDigest(item.contents, cp.data.contentDigest) { return Err; }
        contents := contents[cp.data.sequenceNumber := item.contents];
        highestSynced := Raise(highestSynced, cp.data.sequenceNumber);
        txnCounter := txnCounter + |item.contents|;
        checkpointCounter := checkpointCounter + 1;
      }
    }

    /** One summary of a verifying `read_summaries`. */
    method LoadSummary(c: CertifiedSummary) returns (outcome: Outcome)
      modifies this
      ensures Progress(View(), StatusAfter(outcome), txnCounter, checkpointCounter)
           == AdvanceSummary(Progress(old(View()), Going, old(txnCounter), old(checkpointCounter)), c)
    {
      outcome := GetOrInsertVerified(c);
      if outcome.Ok? {
        highestVerified := Raise(highestVerified, outcome.checkpoint.data.sequenceNumber);
        checkpointCounter := checkpointCounter + 1;
      }
    }

    /** The counters run on from where they stand. */
    method LoadAll(items: seq<Item>) returns (status: Status)
      modifies this
      ensures var p := ProcessAll(old(View()), items);
        && View() == p.store && status == p.status
        && txnCounter == old(txnCounter) + p.txns && checkpointCounter == old(checkpointCounter) + p.checkpoints
    {
      status := Going;
      var i := 0;
      while i < |items| && status.Going?
        invariant i <= |items|
        invariant var p := ProcessAll(old(View()), items[..i]);
          && View() == p.store && status == p.status
          && txnCounter == old(txnCounter) + p.txns && checkpointCounter == old(checkpointCounter) + p.checkpoints
        decreases |items| - i
      {
        assert Init(items[..i + 1]) == items[..i];
        var outcome := Load(items[i]);
        status := StatusAfter(outcome);
        i := i + 1;
      }
      StoppedStays(old(View()), items, i);
      assert items[..|items|] == items;
    }
  }

  /** Once a read has stopped, later pairs change nothing. */
  lemma {:induction false} StoppedStays(st: Store, items: seq<Item>, i: nat)
    requires i <= |items| && (i == |items| || !ProcessAll(st, items[..i]).status.Going?)
    ensures ProcessAll(st, items) == ProcessAll(st, items[..i])
    decreases |items|
  {
    if i < |items| {
      assert Init(items)[..i] == items[..i];
      StoppedStays(st, Init(items), i);
    } else {
      assert items[..i] == items;
    }
  }
}
