/**
 Where everything on the simulated chain comes from: which operation asked for each executed
 transaction, at which moment the clock and the system state it quotes were read, when each
 checkpoint was stamped, and what the store returns for a transaction digest.
 */
module SimulacrumHistory {
  import opened ChainTypes
  import opened ObjectIndexes
  import opened Simulacra
  import opened SimulacrumInvariant

  // ---------------------------------------------------------------- reading the record

  ghost predicate Paired(r: Record) { |r.updates| == |r.log| + 1 }

  /** The object store after genesis and the first n executed transactions. */
  ghost function StoreAfter(r: Record, n: nat): ObjectIndex
    requires n < |r.updates|
  {
    Index(r.updates[..n + 1])
  }

  /** How many transactions were executed before epoch e. */
  ghost function Started(log: seq<Logged>, e: nat): (n: nat)
    ensures n <= |log|
  {
    if log == [] then 0 else Started(Init(log), e) + if Last(log).epoch < e then 1 else 0
  }

  /** The system state as it stood when epoch e began. */
  ghost function SystemAt(env: Env, r: Record, e: nat): SystemState
    requires Paired(r)
  {
    env.system(StoreAfter(r, Started(r.log, e)))
  }

  // ---------------------------------------------------------------- the invariant

  /** Entry i is what its operation asked for.  System transactions quote the clock as it stood just
      before, a prologue with the duration added, and the protocol version their epoch began with. */
  ghost predicate EntryAt(env: Env, r: Record, i: nat) {
    && Paired(r) && i < |r.log|
    && var l := r.log[i];
    && var tx := l.executed.transaction;
    && !l.from.CreateCheckpoint? && l.from.outcome.Done? && l.executed.effects == l.from.outcome.effects
    && r.updates[i + 1] == Update(l.from.outcome.written, l.executed.effects.deleted)
    && (if l.from.ExecuteTransaction? then tx == l.from.transaction && tx.kind.UserTransaction?
        else tx.digest == env.hash(tx.kind))
    && (l.from.AdvanceClock? ==>
          && tx.kind.ConsensusCommitPrologue? && tx.kind.epoch == l.epoch
          && tx.kind.timestampMs == env.clock(StoreAfter(r, i)) + l.from.durationMs)
    && (l.from.AdvanceEpoch? ==>
          && tx.kind.ChangeEpoch? && tx.kind.nextEpoch == l.epoch + 1
          && tx.kind.epochStartMs == env.clock(StoreAfter(r, i))
          && tx.kind.protocolVersion == SystemAt(env, r, l.epoch).protocolVersion)
  }

  /** Checkpoint i holds transactions of its own epoch, is stamped with the clock as it stood after them,
      and carries end-of-epoch data exactly when the last of them changed the epoch. */
  ghost predicate StampAt(env: Env, r: Record, i: nat) {
    && Paired(r) && 0 < i < |r.chain|
    && var c, start, end := r.chain[i].data, |Concat(r.chain[..i])|, |Concat(r.chain[..i + 1])|;
    && start <= end <= |r.log|
    && (forall k | start <= k < end :: r.log[k].epoch == c.epoch)
    && c.timestampMs == env.clock(StoreAfter(r, end))
    && (c.endOfEpochData.Some? <==> start < end && r.log[end - 1].from.AdvanceEpoch?)
    && (c.endOfEpochData.Some? ==>
          && c.endOfEpochData.value.nextProtocolVersion == SystemAt(env, r, c.epoch).protocolVersion
          && c.endOfEpochData.value.nextEpochCommittee == env.system(StoreAfter(r, end)).votingRights)
  }

  /** What waits in the builder is of the current epoch and does not end it. */
  ghost predicate BufferOk(s: Sim, r: Record) {
    forall k | |Concat(r.chain)| <= k < |r.log| ::
      r.log[k].epoch == s.builder.epoch && !r.log[k].from.AdvanceEpoch?
  }

  ghost predicate CommitteeAt(env: Env, s: Sim, r: Record, e: nat) {
    && Paired(r) && e < |s.store.committees|
    && s.store.committees[e] == Committee(e, SystemAt(env, r, e).votingRights)
  }

  ghost predicate SystemsOk(env: Env, s: Sim, r: Record) {
    && Paired(r) && s.epochState.protocolVersion == SystemAt(env, r, s.builder.epoch).protocolVersion
    && (forall e | 0 <= e < |s.store.committees| :: CommitteeAt(env, s, r, e))
  }

  function TransactionKeys(log: seq<Logged>): seq<nat> {
    seq(|log|, i requires 0 <= i < |log| => log[i].executed.transaction.digest)
  }

  function EffectsKeys(log: seq<Logged>): seq<nat> {
    seq(|log|, i requires 0 <= i < |log| => log[i].executed.effects.transactionDigest)
  }

  /** No later entry has the key of entry j. */
  ghost predicate Newest(keys: seq<nat>, j: nat) {
    j < |keys| && forall k | j < k < |keys| :: keys[k] != keys[j]
  }

  /** Under each key lies the newest value filed under it, or the first value where none was. */
  ghost predicate Files<V>(stored: map<nat, V>, keys: seq<nat>, values: seq<V>, key0: nat, value0: V) {
    && |values| == |keys|
    && (forall j | 0 <= j < |keys| && Newest(keys, j) :: keys[j] in stored && stored[keys[j]] == values[j])
    && (key0 !in keys ==> key0 in stored && stored[key0] == value0)
    && (forall d | d in stored :: d == key0 || d in keys)
  }

  function Transactions(log: seq<Logged>): seq<Transaction> {
    seq(|log|, i requires 0 <= i < |log| => log[i].executed.transaction)
  }

  function AllEffects(log: seq<Logged>): seq<Effects> {
    seq(|log|, i requires 0 <= i < |log| => log[i].executed.effects)
  }

  ghost predicate LookupsOk(g: Genesis, st: Store, log: seq<Logged>) {
    && Files(st.transactions, TransactionKeys(log), Transactions(log), g.transaction.digest, g.transaction)
    && Files(st.effects, EffectsKeys(log), AllEffects(log), g.effects.transactionDigest, g.effects)
  }

  ghost predicate EntriesOk(env: Env, r: Record) {
    forall i | 0 <= i < |r.log| :: EntryAt(env, r, i)
  }

  ghost predicate StampsOk(env: Env, r: Record) {
    forall i | 0 < i < |r.chain| :: StampAt(env, r, i)
  }

  ghost predicate HistoryOk(env: Env, g: Genesis, s: Sim, r: Record) {
    && Paired(r) && EntriesOk(env, r) && StampsOk(env, r) && BufferOk(s, r) && SystemsOk(env, s, r)
    && LookupsOk(g, s.store, r.log)
  }

  // ---------------------------------------------------------------- executing a transaction

  ghost function Longer(r: Record, l: Logged, u: Update): Record { r.(log := r.log + [l], updates := r.updates + [u]) }

  lemma StoreAfterStays(r: Record, l: Logged, u: Update, n: nat)
    requires n < |r.updates|
    ensures StoreAfter(Longer(r, l, u), n) == StoreAfter(r, n)
  {
    assert (r.updates + [u])[..n + 1] == r.updates[..n + 1];
  }

  /** A transaction of epoch e or later does not change what epoch e began with. */
  lemma SystemAtStays(env: Env, r: Record, l: Logged, u: Update, e: nat)
    requires Paired(r) && e <= l.epoch
    ensures SystemAt(env, Longer(r, l, u), e) == SystemAt(env, r, e)
  {
    assert Init(r.log + [l]) == r.log;
    StoreAfterStays(r, l, u, Started(r.log, e));
  }

  lemma PushKeepsEntries(env: Env, r: Record, l: Logged, u: Update)
    requires Paired(r) && EntriesOk(env, r) && forall i | 0 <= i < |r.log| :: r.log[i].epoch <= l.epoch
    requires EntryAt(env, Longer(r, l, u), |r.log|)
    ensures EntriesOk(env, Longer(r, l, u))
  {
    var r' := Longer(r, l, u);
    forall i | 0 <= i < |r.log| ensures EntryAt(env, r', i) {
      assert EntryAt(env, r, i);
      assert r'.log[i] == r.log[i] && r'.updates[i + 1] == r.updates[i + 1];
      StoreAfterStays(r, l, u, i);
      SystemAtStays(env, r, l, u, r.log[i].epoch);
    }
  }

  lemma PushKeepsStamps(env: Env, r: Record, l: Logged, u: Update)
    requires Paired(r) && StampsOk(env, r) && forall i | 0 <= i < |r.chain| :: r.chain[i].data.epoch <= l.epoch
    ensures StampsOk(env, Longer(r, l, u))
  {
    var r' := Longer(r, l, u);
    forall i | 0 < i < |r.chain| ensures StampAt(env, r', i) {
      assert StampAt(env, r, i);
      var start, end := |Concat(r.chain[..i])|, |Concat(r.chain[..i + 1])|;
      assert forall k | 0 <= k < end :: r'.log[k] == r.log[k];
      StoreAfterStays(r, l, u, end);
      SystemAtStays(env, r, l, u, r.chain[i].data.epoch);
    }
  }

  lemma PushKeepsSystems(env: Env, s: Sim, s': Sim, r: Record, l: Logged, u: Update)
    requires SystemsOk(env, s, r) && l.epoch == s.builder.epoch == s'.builder.epoch
    requires |s.store.committees| == l.epoch + 1
    requires s'.store.committees == s.store.committees
    requires s'.epochState.protocolVersion == s.epochState.protocolVersion
    ensures SystemsOk(env, s', Longer(r, l, u))
  {
    SystemAtStays(env, r, l, u, l.epoch);
    forall e | 0 <= e < |s.store.committees| ensures CommitteeAt(env, s', Longer(r, l, u), e) {
      assert CommitteeAt(env, s, r, e);
      SystemAtStays(env, r, l, u, e);
    }
  }

  lemma FilingOneMore<V>(stored: map<nat, V>, keys: seq<nat>, values: seq<V>, key0: nat, value0: V, key: nat, value: V)
    requires Files(stored, keys, values, key0, value0)
    ensures Files(stored[key := value], keys + [key], values + [value], key0, value0)
  {
    var stored', keys', values' := stored[key := value], keys + [key], values + [value];
    forall j | 0 <= j < |keys'| && Newest(keys', j) ensures keys'[j] in stored' && stored'[keys'[j]] == values'[j] {
      if j < |keys| {
        assert keys'[|keys|] != keys'[j];
        assert Newest(keys, j) by {
          forall k | j < k < |keys| ensures keys[k] != keys[j] { assert keys'[k] != keys'[j]; }
        }
      }
    }
  }

  lemma KeysGrow(log: seq<Logged>, l: Logged)
    ensures TransactionKeys(log + [l]) == TransactionKeys(log) + [l.executed.transaction.digest]
    ensures Transactions(log + [l]) == Transactions(log) + [l.executed.transaction]
    ensures EffectsKeys(log + [l]) == EffectsKeys(log) + [l.executed.effects.transactionDigest]
    ensures AllEffects(log + [l]) == AllEffects(log) + [l.executed.effects]
  {
  }

  lemma PushKeepsLookups(g: Genesis, st: Store, log: seq<Logged>, l: Logged, written: map<nat, Object>)
    requires LookupsOk(g, st, log)
    ensures LookupsOk(g, InsertExecuted(st, l.executed, written), log + [l])
  {
    var tx, effects := l.executed.transaction, l.executed.effects;
    KeysGrow(log, l);
    FilingOneMore(
      st.transactions, TransactionKeys(log), Transactions(log), g.transaction.digest, g.transaction, tx.digest, tx);
    FilingOneMore(
      st.effects, EffectsKeys(log), AllEffects(log), g.effects.transactionDigest, g.effects,
      effects.transactionDigest, effects);
  }

  // ---------------------------------------------------------------- building a checkpoint

  /** What a checkpoint over everything that waits must say. */
  ghost predicate Stamped(env: Env, r: Record, c: CheckpointSummary) {
    && Paired(r) && |Concat(r.chain)| <= |r.log|
    && (forall k | |Concat(r.chain)| <= k < |r.log| :: r.log[k].epoch == c.epoch)
    && c.timestampMs == env.clock(Index(r.updates))
    && (c.endOfEpochData.Some? <==> |Concat(r.chain)| < |r.log| && Last(r.log).from.AdvanceEpoch?)
    && (c.endOfEpochData.Some? ==>
          && c.endOfEpochData.value.nextProtocolVersion == SystemAt(env, r, c.epoch).protocolVersion
          && c.endOfEpochData.value.nextEpochCommittee == env.system(Index(r.updates)).votingRights)
  }

  lemma NewestStamp(env: Env, r: Record, c: CertifiedSummary)
    requires Stamped(env, r, c.data) && r.chain != [] && |Concat(r.chain + [c])| == |r.log|
    ensures StampAt(env, r.(chain := r.chain + [c]), |r.chain|)
  {
    var n, chain := |r.chain|, r.chain + [c];
    assert r.updates[..|r.log| + 1] == r.updates;
    assert chain[..n] == r.chain && chain[..n + 1] == chain && chain[n] == c;
  }

  lemma EarlierStamp(env: Env, r: Record, c: CertifiedSummary, i: nat)
    requires StampAt(env, r, i)
    ensures StampAt(env, r.(chain := r.chain + [c]), i)
  {
    var chain := r.chain + [c];
    assert chain[..i] == r.chain[..i] && chain[..i + 1] == r.chain[..i + 1] && chain[i] == r.chain[i];
  }

  lemma SealKeepsStamps(env: Env, r: Record, c: CertifiedSummary)
    requires StampsOk(env, r) && Stamped(env, r, c.data) && r.chain != [] && |Concat(r.chain + [c])| == |r.log|
    ensures StampsOk(env, r.(chain := r.chain + [c]))
  {
    NewestStamp(env, r, c);
    forall i | 0 < i < |r.chain| + 1 ensures StampAt(env, r.(chain := r.chain + [c]), i) {
      if i < |r.chain| { EarlierStamp(env, r, c, i); }
    }
  }

  lemma SealKeepsEntries(env: Env, r: Record, c: CertifiedSummary)
    requires EntriesOk(env, r)
    ensures EntriesOk(env, r.(chain := r.chain + [c]))
  {
    forall i | 0 <= i < |r.log| ensures EntryAt(env, r.(chain := r.chain + [c]), i) { assert EntryAt(env, r, i); }
  }

  lemma {:induction false} AllStarted(log: seq<Logged>, e: nat)
    requires forall i | 0 <= i < |log| :: log[i].epoch < e
    ensures Started(log, e) == |log|
  {
    if log == [] {
    } else {
      assert Last(log).epoch < e;
      AllStarted(Init(log), e);
    }
  }

  // ---------------------------------------------------------------- every operation keeps it

  /** What the chain's own invariant gives: everything logged or sealed is of the current epoch or an
      earlier one, and the object store is the index of all updates. */
  ghost predicate Bounded(s: Sim, r: Record) {
    && r.chain != [] && |s.store.committees| == s.builder.epoch + 1
    && s.epochState.epoch == s.builder.epoch
    && |Concat(r.chain)| + |s.builder.transactions| == |r.log|
    && (forall i | 0 <= i < |r.log| :: r.log[i].epoch <= s.builder.epoch)
    && (forall i | 0 <= i < |r.chain| :: r.chain[i].data.epoch <= s.builder.epoch)
    && s.store.index == Index(r.updates)
  }

  lemma InvBounds(g: CertifiedSummary, s: Sim, r: Record)
    requires Inv(g, s, r)
    ensures Bounded(s, r)
  {
    assert |Concat(r.chain) + Digests(s.builder.transactions)| == |LogDigests(r.log)|;
    forall i | 0 <= i < |r.chain| ensures r.chain[i].data.epoch <= s.builder.epoch {
      assert SignedAt(s.store, r.chain, i);
    }
  }

  lemma PushKeepsBounds(s: Sim, r: Record, s': Sim, l: Logged, written: map<nat, Object>)
    requires Bounded(s, r) && BufferOk(s, r) && l.epoch == s.builder.epoch
    requires s' == s.(store := InsertExecuted(s.store, l.executed, written),
                      builder := PushTransaction(s.builder, l.executed))
    ensures var r' := Longer(r, l, Update(written, l.executed.effects.deleted));
      && Bounded(s', r')
      && (forall k | |Concat(r'.chain)| <= k < |r'.log| :: r'.log[k].epoch == s'.builder.epoch)
  {
    var u := Update(written, l.executed.effects.deleted);
    var r' := Longer(r, l, u);
    IndexGrows(r.updates, u);
    forall k | 0 <= k < |r'.log|
      ensures r'.log[k].epoch <= s.builder.epoch && (|Concat(r.chain)| <= k ==> r'.log[k].epoch == s.builder.epoch) {
      if k < |r.log| { assert r'.log[k] == r.log[k]; }
    }
  }

  /** The history after executing a transaction, but for whether it may wait in the builder. */
  lemma PushKeepsHistory(env: Env, g: Genesis, s: Sim, s': Sim, r: Record, l: Logged, written: map<nat, Object>)
    requires HistoryOk(env, g, s, r) && Bounded(s, r) && l.epoch == s.builder.epoch == s'.builder.epoch
    requires s'.store == InsertExecuted(s.store, l.executed, written)
    requires s'.epochState.protocolVersion == s.epochState.protocolVersion
    requires EntryAt(env, Longer(r, l, Update(written, l.executed.effects.deleted)), |r.log|)
    ensures var r' := Longer(r, l, Update(written, l.executed.effects.deleted));
      && Paired(r') && EntriesOk(env, r') && StampsOk(env, r') && SystemsOk(env, s', r')
      && LookupsOk(g, s'.store, r'.log)
  {
    var u := Update(written, l.executed.effects.deleted);
    PushKeepsEntries(env, r, l, u);
    PushKeepsStamps(env, r, l, u);
    PushKeepsSystems(env, s, s', r, l, u);
    PushKeepsLookups(g, s.store, r.log, l, written);
  }

  /** The entry an operation appends. */
  lemma NewEntry(env: Env, s: Sim, r: Record, op: Operation, tx: Transaction)
    requires Paired(r) && SystemsOk(env, s, r) && Bounded(s, r) && !op.CreateCheckpoint? && op.outcome.Done?
    requires op.ExecuteTransaction? ==> tx == op.transaction && tx.kind.UserTransaction?
    requires op.AdvanceClock? ==> tx == PrologueTransaction(env, s, op.durationMs)
    requires op.AdvanceEpoch? ==> tx == ChangeEpochTransaction(env, s)
    ensures var l := Logged(s.builder.epoch, Executed(tx, op.outcome.effects), op);
      EntryAt(env, Longer(r, l, Update(op.outcome.written, op.outcome.effects.deleted)), |r.log|)
  {
    var l := Logged(s.builder.epoch, Executed(tx, op.outcome.effects), op);
    var u := Update(op.outcome.written, op.outcome.effects.deleted);
    StoreAfterStays(r, l, u, |r.log|);
    assert r.updates[..|r.log| + 1] == r.updates;
    SystemAtStays(env, r, l, u, l.epoch);
  }

  lemma ExecutionKeepsHistory(env: Env, g: Genesis, s: Sim, r: Record, op: Operation)
    requires HistoryOk(env, g, s, r) && Bounded(s, r)
    requires (op.ExecuteTransaction? && op.transaction.kind.UserTransaction?) || op.AdvanceClock?
    requires op.outcome.Done?
    ensures var s' := Apply(env, s, op).value;
      HistoryOk(env, g, s', Extend(env, s, op, s', r))
  {
    var tx := if op.AdvanceClock? then PrologueTransaction(env, s, op.durationMs) else op.transaction;
    NewEntry(env, s, r, op, tx);
    var l := Logged(s.builder.epoch, Executed(tx, op.outcome.effects), op);
    PushKeepsHistory(env, g, s, Apply(env, s, op).value, r, l, op.outcome.written);
  }

  lemma CreateKeepsHistory(env: Env, g: Genesis, s: Sim, r: Record)
    requires HistoryOk(env, g, s, r) && Bounded(s, r) && Seal(env, s, SameEpoch).Some?
    ensures var s' := Seal(env, s, SameEpoch).value;
      HistoryOk(env, g, s', r.(chain := r.chain + [s'.builder.previous]))
  {
    var s' := Seal(env, s, SameEpoch).value;
    var c := s'.builder.previous;
    var r' := r.(chain := r.chain + [c]);
    ConcatGrows(r.chain, c);
    SealKeepsStamps(env, r, c);
    SealKeepsEntries(env, r, c);
    forall e | 0 <= e < |s.store.committees| ensures CommitteeAt(env, s', r', e) { assert CommitteeAt(env, s, r, e); }
  }

  /** The system state at the start of the epoch that begins now. */
  lemma SystemNow(env: Env, r: Record, e: nat)
    requires Paired(r) && forall i | 0 <= i < |r.log| :: r.log[i].epoch < e
    ensures SystemAt(env, r, e) == env.system(Index(r.updates))
  {
    AllStarted(r.log, e);
    assert r.updates[..|r.log| + 1] == r.updates;
  }

  /** A committee joins the store when its epoch begins. */
  lemma EndKeepsSystems(env: Env, s1: Sim, r1: Record, s3: Sim, r2: Record)
    requires SystemsOk(env, s1, r1) && |s1.store.committees| == s1.builder.epoch + 1
    requires r2.log == r1.log && r2.updates == r1.updates && s3.builder.epoch == s1.builder.epoch + 1
    requires forall i | 0 <= i < |r1.log| :: r1.log[i].epoch <= s1.builder.epoch
    requires s3.epochState == NewEpochState(env.system(Index(r1.updates)))
    requires s3.store.committees
          == s1.store.committees + [Committee(s3.builder.epoch, env.system(Index(r1.updates)).votingRights)]
    ensures SystemsOk(env, s3, r2)
  {
    SystemNow(env, r2, s3.builder.epoch);
    forall e | 0 <= e < |s3.store.committees| ensures CommitteeAt(env, s3, r2, e) {
      if e <= s1.builder.epoch { assert CommitteeAt(env, s1, r1, e); }
    }
  }

  /** Between the change-epoch transaction and the checkpoint that seals it. */
  ghost predicate Closing(env: Env, g: Genesis, s1: Sim, r1: Record, end: EndOfEpochData) {
    && Paired(r1) && EntriesOk(env, r1) && StampsOk(env, r1) && SystemsOk(env, s1, r1)
    && LookupsOk(g, s1.store, r1.log) && Bounded(s1, r1)
    && (forall k | |Concat(r1.chain)| <= k < |r1.log| :: r1.log[k].epoch == s1.builder.epoch)
    && |Concat(r1.chain)| < |r1.log| && Last(r1.log).from.AdvanceEpoch?
    && end.nextProtocolVersion == s1.epochState.protocolVersion
    && end.nextEpochCommittee == env.system(s1.store.index).votingRights
    && env.system(s1.store.index).epoch == s1.builder.epoch + 1
  }

  lemma EndIsStamped(env: Env, g: Genesis, s1: Sim, r1: Record, end: EndOfEpochData)
    requires Closing(env, g, s1, r1, end) && Seal(env, s1, Into(s1.builder.epoch + 1, end)).Some?
    ensures var c := Seal(env, s1, Into(s1.builder.epoch + 1, end)).value.builder.previous;
      Stamped(env, r1, c.data) && Concat(r1.chain + [c]) == Concat(r1.chain) + Digests(s1.builder.transactions)
  {
    ConcatGrows(r1.chain, Seal(env, s1, Into(s1.builder.epoch + 1, end)).value.builder.previous);
  }

  lemma EndKeepsHistory(env: Env, g: Genesis, s1: Sim, r1: Record, end: EndOfEpochData, s': Sim, r': Record)
    requires Closing(env, g, s1, r1, end) && Seal(env, s1, Into(s1.builder.epoch + 1, end)).Some?
    requires s' == Seal(env, s1, Into(s1.builder.epoch + 1, end)).value
                     .(epochState := NewEpochState(env.system(s1.store.index)))
    requires r' == r1.(chain := r1.chain + [s'.builder.previous])
    ensures HistoryOk(env, g, s', r')
  {
    EndIsStamped(env, g, s1, r1, end);
    SealKeepsStamps(env, r1, s'.builder.previous);
    SealKeepsEntries(env, r1, s'.builder.previous);
    EndKeepsSystems(env, s1, r1, s', r');
  }

  lemma ChangeOpensTheEnd(env: Env, g: Genesis, s: Sim, r: Record, op: Operation)
    requires HistoryOk(env, g, s, r) && Bounded(s, r) && op.AdvanceEpoch? && op.outcome.Done? && MovesEpoch(env, s, op)
    ensures var s1 := Execute(s, ChangeEpochTransaction(env, s), op.outcome);
      var end := EndOfEpochData(env.system(s1.store.index).votingRights, s.epochState.protocolVersion);
      Closing(env, g, s1, LogExecution(s, r, ChangeEpochTransaction(env, s), op.outcome, op), end)
  {
    var tx := ChangeEpochTransaction(env, s);
    NewEntry(env, s, r, op, tx);
    var l := Logged(s.builder.epoch, Executed(tx, op.outcome.effects), op);
    var s1 := Execute(s, tx, op.outcome);
    PushKeepsHistory(env, g, s, s1, r, l, op.outcome.written);
    PushKeepsBounds(s, r, s1, l, op.outcome.written);
  }

  lemma EpochKeepsHistory(env: Env, g: Genesis, s: Sim, r: Record, op: Operation)
    requires HistoryOk(env, g, s, r) && Bounded(s, r) && op.AdvanceEpoch? && MovesEpoch(env, s, op)
    requires Apply(env, s, op).Some?
    ensures var s' := Apply(env, s, op).value;
      HistoryOk(env, g, s', Extend(env, s, op, s', r))
  {
    var tx := ChangeEpochTransaction(env, s);
    var s1, r1 := Execute(s, tx, op.outcome), LogExecution(s, r, tx, op.outcome, op);
    var end := EndOfEpochData(env.system(s1.store.index).votingRights, s.epochState.protocolVersion);
    var s' := Apply(env, s, op).value;
    var r' := Extend(env, s, op, s', r);
    assert Closing(env, g, s1, r1, end) by { ChangeOpensTheEnd(env, g, s, r, op); }
    AdvanceEpochSteps(env, s, r, op);
    EndKeepsHistory(env, g, s1, r1, end, s', r');
  }

  lemma OperationKeepsHistory(env: Env, g: Genesis, s: Sim, r: Record, op: Operation)
    requires HistoryOk(env, g, s, r) && Inv(g.checkpoint, s, r) && MovesEpoch(env, s, op) && Apply(env, s, op).Some?
    requires op.ExecuteTransaction? ==> op.transaction.kind.UserTransaction?
    ensures var s' := Apply(env, s, op).value;
      HistoryOk(env, g, s', Extend(env, s, op, s', r))
  {
    InvBounds(g.checkpoint, s, r);
    match op
    case CreateCheckpoint => CreateKeepsHistory(env, g, s, r);
    case AdvanceEpoch(_) => EpochKeepsHistory(env, g, s, r, op);
    case _ => if op.outcome.Done? { ExecutionKeepsHistory(env, g, s, r, op); }
  }

  // ---------------------------------------------------------------- runs

  lemma GenesisHistory(env: Env, g: Genesis)
    requires GoodGenesis(env, g) && NewSim(env, g).Some?
    ensures HistoryOk(env, g, NewSim(env, g).value, NewRecord(g))
  {
    var s, r := NewSim(env, g).value, NewRecord(g);
    GenesisIndex(env, g);
    assert r.updates[..1] == r.updates;
    assert CommitteeAt(env, s, r, 0);
  }

  lemma {:induction false} RunKeepsHistory(env: Env, g: Genesis, ops: seq<Operation>)
    requires GoodRun(env, g, ops)
    ensures var m := After(env, g, ops).value;
      HistoryOk(env, g, m.sim, m.record)
  {
    if ops == [] {
      GenesisHistory(env, g);
    } else {
      RunKeeps(env, g, Init(ops));
      RunKeepsHistory(env, g, Init(ops));
      var m := After(env, g, Init(ops)).value;
      OperationKeepsHistory(env, g, m.sim, m.record, Last(ops));
    }
  }

  // ---------------------------------------------------------------- what every run guarantees

  predicate Runs(op: Operation) { !op.CreateCheckpoint? && op.outcome.Done? }

  /** The operations of a run that got a transaction executed. */
  function Ran(ops: seq<Operation>): seq<Operation> {
    if ops == [] then [] else Ran(Init(ops)) + if Runs(Last(ops)) then [Last(ops)] else []
  }

  function Sources(log: seq<Logged>): seq<Operation> {
    seq(|log|, i requires 0 <= i < |log| => log[i].from)
  }

  /** One entry for each operation that got a transaction executed, in order. */
  lemma {:induction false} LogFollowsTheOperations(env: Env, g: Genesis, ops: seq<Operation>)
    requires After(env, g, ops).Some?
    ensures Sources(After(env, g, ops).value.record.log) == Ran(ops)
  {
    if ops == [] {
    } else {
      LogFollowsTheOperations(env, g, Init(ops));
      var log, log' := After(env, g, Init(ops)).value.record.log, After(env, g, ops).value.record.log;
      if Runs(Last(ops)) {
        assert Sources(log') == Sources(log) + [Last(ops)];
      } else {
        assert log' == log;
      }
    }
  }

  /** Every executed transaction is what its operation asked for: a user transaction unchanged, a prologue
      stamped with the clock read before it plus the duration, a change of epoch with that clock and the
      protocol version the epoch began with; and its objects are applied as the executor gave them. */
  lemma TransactionsQuoteTheStore(env: Env, g: Genesis, ops: seq<Operation>, i: nat)
    requires GoodRun(env, g, ops) && i < |Ran(ops)|
    ensures var r := After(env, g, ops).value.record;
      && EntryAt(env, r, i) && r.log[i].from == Ran(ops)[i]
  {
    RunKeepsHistory(env, g, ops);
    LogFollowsTheOperations(env, g, ops);
    var r := After(env, g, ops).value.record;
    assert Sources(r.log)[i] == r.log[i].from && EntryAt(env, r, i);
  }

  /** Every checkpoint after genesis holds transactions of its own epoch only, is stamped with the clock
      after them, and carries end-of-epoch data exactly when the last of them changed the epoch. */
  lemma CheckpointsAreStamped(env: Env, g: Genesis, ops: seq<Operation>, n: nat)
    requires GoodRun(env, g, ops) && 0 < n <= Seals(ops)
    ensures var m := After(env, g, ops).value;
      && n in m.sim.store.checkpoints && n < |m.record.chain| && m.sim.store.checkpoints[n] == m.record.chain[n]
      && StampAt(env, m.record, n)
  {
    RunKeeps(env, g, ops);
    RunKeepsHistory(env, g, ops);
    var m := After(env, g, ops).value;
    assert ChainAt(m.sim.store, m.record.chain, n) && StampAt(env, m.record, n);
  }

  /** The store's committee of an epoch is the one in the system state that epoch began with, and so is
      the protocol version in force. */
  lemma EpochsFollowTheSystemState(env: Env, g: Genesis, ops: seq<Operation>, e: nat)
    requires GoodRun(env, g, ops) && e < |After(env, g, ops).value.sim.store.committees|
    ensures var m := After(env, g, ops).value;
      && Paired(m.record)
      && m.sim.store.committees[e] == Committee(e, SystemAt(env, m.record, e).votingRights)
      && m.sim.epochState.protocolVersion == SystemAt(env, m.record, m.sim.epochState.epoch).protocolVersion
  {
    RunKeeps(env, g, ops);
    RunKeepsHistory(env, g, ops);
    var m := After(env, g, ops).value;
    assert CommitteeAt(env, m.sim, m.record, e);
  }

  lemma {:induction false} NewestOf(keys: seq<nat>, i: nat) returns (j: nat)
    requires i < |keys|
    ensures i <= j < |keys| && keys[j] == keys[i] && Newest(keys, j)
    decreases |keys| - i
  {
    if k :| i < k < |keys| && keys[k] == keys[i] {
      j := NewestOf(keys, k);
    } else {
      j := i;
    }
  }

  ghost predicate Finds<V>(stored: map<nat, V>, keys: seq<nat>, values: seq<V>) {
    |values| == |keys| && forall i | 0 <= i < |keys| :: keys[i] in stored && stored[keys[i]] == values[i]
  }

  ghost predicate Agree<V>(keys: seq<nat>, values: seq<V>) {
    |values| == |keys| && forall i, j | 0 <= i < j < |keys| && keys[i] == keys[j] :: values[i] == values[j]
  }

  /** Everything filed is found exactly when equal keys were only given to equal values. */
  lemma FindsIffAgree<V>(stored: map<nat, V>, keys: seq<nat>, values: seq<V>, key0: nat, value0: V)
    requires Files(stored, keys, values, key0, value0)
    ensures Finds(stored, keys, values) <==> Agree(keys, values)
  {
    if Agree(keys, values) {
      forall i | 0 <= i < |keys| ensures keys[i] in stored && stored[keys[i]] == values[i] {
        var j := NewestOf(keys, i);
      }
    }
  }

  /** Looking an executed transaction up by its digest returns it, and its effects, exactly when no two
      executed transactions with one digest differ, and no two effects that name one transaction differ. */
  lemma ExecutionsAreFoundIff(env: Env, g: Genesis, ops: seq<Operation>)
    requires GoodRun(env, g, ops)
    ensures var m := After(env, g, ops).value;
      var st, log := m.sim.store, m.record.log;
      && (Finds(st.transactions, TransactionKeys(log), Transactions(log))
          <==> Agree(TransactionKeys(log), Transactions(log)))
      && (Finds(st.effects, EffectsKeys(log), AllEffects(log)) <==> Agree(EffectsKeys(log), AllEffects(log)))
  {
    RunKeepsHistory(env, g, ops);
    var m := After(env, g, ops).value;
    var st, log := m.sim.store, m.record.log;
    FindsIffAgree(
      st.transactions, TransactionKeys(log), Transactions(log), g.transaction.digest, g.transaction);
    FindsIffAgree(st.effects, EffectsKeys(log), AllEffects(log), g.effects.transactionDigest, g.effects);
  }

  /** Nothing else is found but what genesis put there, and that stays until its key is used again. */
  lemma NothingElseIsFound(env: Env, g: Genesis, ops: seq<Operation>, d: nat)
    requires GoodRun(env, g, ops)
    ensures var m := After(env, g, ops).value;
      var st, log := m.sim.store, m.record.log;
      && (d in st.transactions <==> d == g.transaction.digest || d in TransactionKeys(log))
      && (d in st.effects <==> d == g.effects.transactionDigest || d in EffectsKeys(log))
      && (d in st.transactions && d !in TransactionKeys(log) ==> st.transactions[d] == g.transaction)
      && (d in st.effects && d !in EffectsKeys(log) ==> st.effects[d] == g.effects)
  {
    RunKeepsHistory(env, g, ops);
    var m := After(env, g, ops).value;
    var st, log := m.sim.store, m.record.log;
    FilesExactly(
      st.transactions, TransactionKeys(log), Transactions(log), g.transaction.digest, g.transaction, d);
    FilesExactly(st.effects, EffectsKeys(log), AllEffects(log), g.effects.transactionDigest, g.effects, d);
  }

  lemma FilesExactly<V>(stored: map<nat, V>, keys: seq<nat>, values: seq<V>, key0: nat, value0: V, d: nat)
    requires Files(stored, keys, values, key0, value0)
    ensures d in stored <==> d == key0 || d in keys
    ensures d in stored && d !in keys ==> stored[d] == value0
  {
    if d in keys {
      var i :| 0 <= i < |keys| && keys[i] == d;
      var j := NewestOf(keys, i);
    }
  }
}
