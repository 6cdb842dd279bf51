/**
 What every run of the simulated chain keeps.  A run is recorded in a `Record`: the checkpoints
 built, the transactions that executed, each with its epoch and the operation it came from, and the
 object updates applied.
 */
module SimulacrumInvariant {
  import opened ChainTypes
  import opened ObjectIndexes
  import opened Simulacra

  datatype Logged = Logged(epoch: nat, executed: Executed, from: Operation)

  datatype Record = Record(chain: seq<CertifiedSummary>, log: seq<Logged>, updates: seq<Update>)

  function LogExecution(s: Sim, r: Record, tx: Transaction, outcome: Outcome, op: Operation): Record {
    match outcome
    case Rejected => r
    case Done(written, effects) =>
      r.(log := r.log + [Logged(s.builder.epoch, Executed(tx, effects), op)],
         updates := r.updates + [Update(written, effects.deleted)])
  }

  /** How an operation that did not panic extends the record. */
  function Extend(env: Env, s: Sim, op: Operation, s': Sim, r: Record): Record {
    match op
    case ExecuteTransaction(tx, outcome) => LogExecution(s, r, tx, outcome, op)
    case CreateCheckpoint => r.(chain := r.chain + [s'.builder.previous])
    case AdvanceClock(durationMs, outcome) =>
      LogExecution(s, r, PrologueTransaction(env, s, durationMs), outcome, op)
    case AdvanceEpoch(outcome) =>
      LogExecution(s, r, ChangeEpochTransaction(env, s), outcome, op).(chain := r.chain + [s'.builder.previous])
  }

  // ---------------------------------------------------------------- reading the record

  /** The contents of all checkpoints after genesis, in order. */
  function Concat(chain: seq<CertifiedSummary>): seq<ExecutionDigests> {
    if |chain| <= 1 then [] else Concat(Init(chain)) + Last(chain).data.contentDigest.of
  }

  function LogDigests(log: seq<Logged>): seq<ExecutionDigests> {
    seq(|log|, i requires 0 <= i < |log| =>
      ExecutionDigests(log[i].executed.transaction.digest, log[i].executed.effects.digest))
  }

  /** The gas of all logged transactions of epoch `e`, on top of the genesis value in epoch 0. */
  function EpochGas(genesis: CertifiedSummary, log: seq<Logged>, e: nat): GasCostSummary {
    if log == [] then (if e == 0 then genesis.data.epochRollingGas else GasCostSummary(0, 0, 0, 0))
    else
      var before, gas := EpochGas(genesis, Init(log), e), Last(log).executed.effects.gas;
      if Last(log).epoch != e then before
      else
        GasCostSummary(
          before.computationCost + gas.computationCost,
          before.storageCost + gas.storageCost,
          before.storageRebate + gas.storageRebate,
          before.nonRefundableStorageFee + gas.nonRefundableStorageFee)
  }

  /** How many logged transactions of epoch `e` are consensus commit prologues. */
  function Prologues(log: seq<Logged>, e: nat): nat {
    if log == [] then 0
    else
      Prologues(Init(log), e)
      + if Last(log).epoch == e && Last(log).executed.transaction.kind.ConsensusCommitPrologue? then 1 else 0
  }

  // ---------------------------------------------------------------- the invariant

  /** Checkpoint i is stored under its number, is found by its digest, has its contents stored, and
      names its predecessor. */
  ghost predicate ChainAt(st: Store, chain: seq<CertifiedSummary>, i: nat) {
    && i < |chain|
    && var c := chain[i].data;
    && c.sequenceNumber == i
    && (i > 0 ==> c.previousDigest == Some(SummaryDigest(chain[i - 1].data)))
    && i in st.checkpoints && st.checkpoints[i] == chain[i]
    && SummaryDigest(c) in st.digestToSequence && st.digestToSequence[SummaryDigest(c)] == i
    && c.contentDigest in st.contents && st.contents[c.contentDigest] == c.contentDigest.of
  }

  ghost predicate ChainOk(g: CertifiedSummary, s: Sim, r: Record) {
    && r.chain != [] && r.chain[0] == g && s.builder.previous == Last(r.chain)
    && (forall i | 0 <= i < |r.chain| :: ChainAt(s.store, r.chain, i))
    && (forall n | n in s.store.checkpoints :: n < |r.chain|)
  }

  ghost predicate TotalAt(g: CertifiedSummary, chain: seq<CertifiedSummary>, i: nat) {
    i < |chain| && chain[i].data.networkTotalTransactions == g.data.networkTotalTransactions + |Concat(chain[..i + 1])|
  }

  ghost predicate ContentsOk(g: CertifiedSummary, s: Sim, r: Record) {
    && Concat(r.chain) + Digests(s.builder.transactions) == LogDigests(r.log)
    && (forall i | 0 <= i < |r.chain| :: TotalAt(g, r.chain, i))
  }

  ghost predicate SignedAt(st: Store, chain: seq<CertifiedSummary>, i: nat) {
    && i < |chain| && chain[i].data.epoch < |st.committees|
    && chain[i].signedBy == st.committees[chain[i].data.epoch]
  }

  ghost predicate CommitteesOk(s: Sim, r: Record) {
    && |s.store.committees| == s.builder.epoch + 1
    && s.epochState.epoch == s.epochState.committee.epoch == s.builder.epoch
    && s.epochState.committee == s.store.committees[s.builder.epoch]
    && (forall i | 0 <= i < |r.chain| :: SignedAt(s.store, r.chain, i))
  }

  /** A prologue names the epoch it ran in and, counting from 0, how many that epoch had before it. */
  ghost predicate RoundAt(log: seq<Logged>, i: nat) {
    && i < |log|
    && (log[i].executed.transaction.kind.ConsensusCommitPrologue? ==>
          var k := log[i].executed.transaction.kind;
          k.epoch == log[i].epoch && k.round == Prologues(log[..i], log[i].epoch))
  }

  ghost predicate RoundsOk(state: EpochState, log: seq<Logged>) {
    && state.nextConsensusRound == Prologues(log, state.epoch)
    && (forall i | 0 <= i < |log| :: RoundAt(log, i))
  }

  ghost predicate GasAt(g: CertifiedSummary, r: Record, i: nat) {
    && i < |r.chain|
    && var n := |Concat(r.chain[..i + 1])|;
    && n <= |r.log|
    && r.chain[i].data.epochRollingGas == EpochGas(g, r.log[..n], r.chain[i].data.epoch)
  }

  ghost predicate GasOk(g: CertifiedSummary, s: Sim, r: Record) {
    && s.builder.gas == EpochGas(g, r.log, s.builder.epoch)
    && (forall i | 0 <= i < |r.chain| :: GasAt(g, r, i))
    && (forall i | 0 <= i < |r.log| :: r.log[i].epoch <= s.builder.epoch)
  }

  /** A change-epoch transaction names the next epoch and carries the gas of its epoch so far. */
  ghost predicate ChangeAt(g: CertifiedSummary, log: seq<Logged>, i: nat) {
    && i < |log|
    && (log[i].executed.transaction.kind.ChangeEpoch? ==>
          var k, gas := log[i].executed.transaction.kind, EpochGas(g, log[..i], log[i].epoch);
          && k.nextEpoch == log[i].epoch + 1
          && k.storageCharge == gas.storageCost && k.computationCharge == gas.computationCost
          && k.storageRebate == gas.storageRebate && k.nonRefundableStorageFee == gas.nonRefundableStorageFee)
  }

  /** Epochs ascend along the log, and nothing of an epoch follows its change-epoch transaction. */
  ghost predicate LogOrdered(log: seq<Logged>) {
    forall i, j | 0 <= i < j < |log| ::
      && log[i].epoch <= log[j].epoch
      && (log[i].executed.transaction.kind.ChangeEpoch? ==> log[i].epoch < log[j].epoch)
  }

  /** Between public calls the change-epoch transactions logged are all of past epochs. */
  ghost predicate EpochsOk(g: CertifiedSummary, s: Sim, r: Record) {
    && LogOrdered(r.log)
    && (forall i | 0 <= i < |r.log| :: ChangeAt(g, r.log, i))
    && (forall i | 0 <= i < |r.log| ::
          r.log[i].executed.transaction.kind.ChangeEpoch? ==> r.log[i].epoch < s.builder.epoch)
  }

  /** The part of the invariant in which the consensus round does not occur. */
  ghost predicate Core(g: CertifiedSummary, s: Sim, r: Record) {
    && ChainOk(g, s, r) && ContentsOk(g, s, r) && CommitteesOk(s, r) && GasOk(g, s, r)
    && EpochsOk(g, s, r) && s.store.index == Index(r.updates)
  }

  ghost predicate Inv(g: CertifiedSummary, s: Sim, r: Record) {
    Core(g, s, r) && RoundsOk(s.epochState, r.log)
  }

  // ---------------------------------------------------------------- executing a transaction

  ghost function Grow(s: Sim, r: Record, e: Executed, written: map<nat, Object>, op: Operation): Record {
    r.(log := r.log + [Logged(s.builder.epoch, e, op)], updates := r.updates + [Update(written, e.effects.deleted)])
  }

  ghost function Pushed(s: Sim, e: Executed, written: map<nat, Object>): Sim {
    s.(store := InsertExecuted(s.store, e, written), builder := PushTransaction(s.builder, e))
  }

  lemma PushKeepsChain(
    g: CertifiedSummary, s: Sim, r: Record, e: Executed, written: map<nat, Object>, op: Operation)
    requires ChainOk(g, s, r) && ContentsOk(g, s, r) && CommitteesOk(s, r)
    ensures var s', r' := Pushed(s, e, written), Grow(s, r, e, written, op);
      ChainOk(g, s', r') && ContentsOk(g, s', r') && CommitteesOk(s', r')
  {
    var s', r' := Pushed(s, e, written), Grow(s, r, e, written, op);
    forall i | 0 <= i < |r.chain| ensures ChainAt(s'.store, r'.chain, i) && SignedAt(s'.store, r'.chain, i) {
      assert ChainAt(s.store, r.chain, i) && SignedAt(s.store, r.chain, i);
    }
    assert Digests(s'.builder.transactions) == Digests(s.builder.transactions) + [e.Digests()];
    assert LogDigests(r'.log) == LogDigests(r.log) + [e.Digests()];
  }

  lemma PushKeepsGas(
    g: CertifiedSummary, s: Sim, r: Record, e: Executed, written: map<nat, Object>, op: Operation)
    requires GasOk(g, s, r)
    ensures GasOk(g, Pushed(s, e, written), Grow(s, r, e, written, op))
  {
    var r' := Grow(s, r, e, written, op);
    assert Init(r'.log) == r.log;
    forall i | 0 <= i < |r.chain| ensures GasAt(g, r', i) {
      assert GasAt(g, r, i);
      assert r'.log[..|Concat(r.chain[..i + 1])|] == r.log[..|Concat(r.chain[..i + 1])|];
    }
  }

  lemma PushKeepsOrder(
    g: CertifiedSummary, s: Sim, r: Record, e: Executed, written: map<nat, Object>, op: Operation)
    requires GasOk(g, s, r) && EpochsOk(g, s, r)
    requires e.transaction.kind.ChangeEpoch? ==>
      var k, gas := e.transaction.kind, s.builder.gas;
      && k.nextEpoch == s.builder.epoch + 1
      && k.storageCharge == gas.storageCost && k.computationCharge == gas.computationCost
      && k.storageRebate == gas.storageRebate && k.nonRefundableStorageFee == gas.nonRefundableStorageFee
    ensures LogOrdered(Grow(s, r, e, written, op).log)
    ensures forall i | 0 <= i < |Grow(s, r, e, written, op).log| :: ChangeAt(g, Grow(s, r, e, written, op).log, i)
  {
    var log := Grow(s, r, e, written, op).log;
    forall i | 0 <= i < |log| ensures ChangeAt(g, log, i) {
      if i < |r.log| {
        assert ChangeAt(g, r.log, i) && log[..i] == r.log[..i];
      } else {
        assert log[..i] == r.log;
      }
    }
  }

  /** A prologue carries the round the epoch state hands out, which then moves on. */
  lemma PushKeepsRounds(state: EpochState, state': EpochState, log: seq<Logged>, l: Logged)
    requires RoundsOk(state, log) && l.epoch == state.epoch == state'.epoch
    requires var k := l.executed.transaction.kind;
      if k.ConsensusCommitPrologue? then
        k.epoch == state.epoch && k.round == state.nextConsensusRound && state'.nextConsensusRound == k.round + 1
      else state'.nextConsensusRound == state.nextConsensusRound
    ensures RoundsOk(state', log + [l])
  {
    var log' := log + [l];
    assert Init(log') == log;
    forall i | 0 <= i < |log'| ensures RoundAt(log', i) {
      assert log'[..i] == log[..i];
      if i < |log| { assert RoundAt(log, i); } else { assert log[..i] == log; }
    }
  }

  lemma {:induction false} NoPrologueYet(log: seq<Logged>, e: nat)
    requires forall i | 0 <= i < |log| :: log[i].epoch < e
    ensures Prologues(log, e) == 0
  {
    if log == [] {
    } else {
      assert Last(log).epoch < e;
      NoPrologueYet(Init(log), e);
    }
  }

  lemma {:induction false} ProloguesGrow(log: seq<Logged>, n: nat, e: nat)
    requires n <= |log|
    ensures Prologues(log[..n], e) <= Prologues(log, e)
  {
    if n == |log| {
      assert log[..n] == log;
    } else {
      assert Init(log)[..n] == log[..n];
      ProloguesGrow(Init(log), n, e);
    }
  }

  /** A later prologue of the same epoch has a higher round. */
  lemma RoundsRise(log: seq<Logged>, i: nat, j: nat)
    requires i < j < |log| && RoundAt(log, i) && RoundAt(log, j) && log[i].epoch == log[j].epoch
    requires log[i].executed.transaction.kind.ConsensusCommitPrologue?
    requires log[j].executed.transaction.kind.ConsensusCommitPrologue?
    ensures log[i].executed.transaction.kind.round < log[j].executed.transaction.kind.round
  {
    assert Init(log[..i + 1]) == log[..i] && Last(log[..i + 1]) == log[i];
    assert log[..j][..i + 1] == log[..i + 1];
    ProloguesGrow(log[..j], i + 1, log[i].epoch);
  }

  lemma IndexGrows(updates: seq<Update>, u: Update)
    ensures Index(updates + [u]) == UpdateObjects(Index(updates), u)
  {
    assert (updates + [u])[..|updates|] == updates;
  }

  // ---------------------------------------------------------------- building a checkpoint

  lemma ConcatGrows(chain: seq<CertifiedSummary>, c: CertifiedSummary)
    requires chain != []
    ensures Concat(chain + [c]) == Concat(chain) + c.data.contentDigest.of
  {
    assert Init(chain + [c]) == chain;
  }

  /** A builder in step with its committees seals, at any sequence number, exactly when the committee can
      sign. */
  lemma SealSucceeds(env: Env, s: Sim, r: Record, next: NewEpoch)
    requires CommitteesOk(s, r) && (next.Into? ==> next.epoch == s.builder.epoch + 1)
    ensures Seal(env, s, next).Some? <==> CanSign(env.keys, s.epochState.committee)
    ensures Seal(env, s, next).Some? ==>
      var s' := Seal(env, s, next).value;
      && s'.builder.previous.data.epoch == s.builder.epoch
      && s'.builder.previous.signedBy == s.epochState.committee
      && s'.store.committees
         == s.store.committees + (if next.Into? then [Committee(next.epoch, next.data.nextEpochCommittee)] else [])
  {
  }

  /** In any state at all: sealing panics exactly when a member of the committee has no key, the committee is
      not of the builder's epoch, or the epoch to come is not the next one or would leave a gap. */
  lemma SealPanicsIff(env: Env, s: Sim, next: NewEpoch)
    ensures Seal(env, s, next).None?
        <==> || (exists a | a in s.epochState.committee.votingRights :: a !in env.keys)
             || s.epochState.committee.epoch != s.builder.epoch
             || (next.Into? && (next.epoch != s.builder.epoch + 1 || |s.store.committees| < next.epoch))
  {
    assert CanSign(env.keys, s.epochState.committee)
       <==> forall a | a in s.epochState.committee.votingRights :: a in env.keys;
  }

  lemma SealKeepsChain(g: CertifiedSummary, env: Env, s: Sim, r: Record, next: NewEpoch)
    requires ChainOk(g, s, r) && Seal(env, s, next).Some?
    requires s.builder.previous.data.sequenceNumber < U64_MAX
    ensures var s' := Seal(env, s, next).value;
      ChainOk(g, s', r.(chain := r.chain + [s'.builder.previous]))
  {
    var s' := Seal(env, s, next).value;
    var c, chain := s'.builder.previous, r.chain + [s'.builder.previous];
    var n := |r.chain|;
    assert ChainAt(s.store, r.chain, n - 1);
    forall i | 0 <= i < |chain| ensures ChainAt(s'.store, chain, i) {
      if i < n {
        assert ChainAt(s.store, r.chain, i);
        assert chain[i] == r.chain[i] && (i > 0 ==> chain[i - 1] == r.chain[i - 1]);
      }
    }
  }

  lemma SealKeepsContents(g: CertifiedSummary, env: Env, s: Sim, r: Record, next: NewEpoch)
    requires ChainOk(g, s, r) && ContentsOk(g, s, r) && Seal(env, s, next).Some?
    ensures var s' := Seal(env, s, next).value;
      ContentsOk(g, s', r.(chain := r.chain + [s'.builder.previous]))
  {
    var s' := Seal(env, s, next).value;
    var c, chain := s'.builder.previous, r.chain + [s'.builder.previous];
    ConcatGrows(r.chain, c);
    assert Concat(chain) == Concat(r.chain) + Digests(s.builder.transactions);
    assert Concat(chain) + [] == Concat(chain);
    assert TotalAt(g, r.chain, |r.chain| - 1) && r.chain[..|r.chain|] == r.chain;
    forall i | 0 <= i < |chain| ensures TotalAt(g, chain, i) {
      if i < |r.chain| {
        assert TotalAt(g, r.chain, i) && chain[..i + 1] == r.chain[..i + 1];
      } else {
        assert chain[..i + 1] == chain;
      }
    }
  }

  lemma {:induction false} NoGasYet(g: CertifiedSummary, log: seq<Logged>, e: nat)
    requires e > 0 && forall i | 0 <= i < |log| :: log[i].epoch < e
    ensures EpochGas(g, log, e) == NO_GAS
  {
    if log == [] {
    } else {
      assert Last(log).epoch < e;
      NoGasYet(g, Init(log), e);
    }
  }

  lemma SealKeepsGas(g: CertifiedSummary, env: Env, s: Sim, r: Record, next: NewEpoch)
    requires ChainOk(g, s, r) && ContentsOk(g, s, r) && GasOk(g, s, r) && Seal(env, s, next).Some?
    ensures var s' := Seal(env, s, next).value;
      GasOk(g, s', r.(chain := r.chain + [s'.builder.previous]))
  {
    var s' := Seal(env, s, next).value;
    var c, chain := s'.builder.previous, r.chain + [s'.builder.previous];
    var r' := r.(chain := chain);
    ConcatGrows(r.chain, c);
    assert |Concat(chain)| == |r.log| by {
      assert Concat(chain) == LogDigests(r.log);
    }
    forall i | 0 <= i < |chain| ensures GasAt(g, r', i) {
      if i < |r.chain| {
        assert GasAt(g, r, i) && chain[..i + 1] == r.chain[..i + 1];
      } else {
        assert chain[..i + 1] == chain && r.log[..|r.log|] == r.log;
      }
    }
    if next.Into? {
      NoGasYet(g, r.log, s.builder.epoch + 1);
    }
  }

  // ---------------------------------------------------------------- every operation keeps it

  lemma SameEpochSealed(g: CertifiedSummary, env: Env, s: Sim, r: Record, s': Sim, r': Record)
    requires Inv(g, s, r) && s.builder.previous.data.sequenceNumber < U64_MAX
    requires Seal(env, s, SameEpoch) == Some(s') && r' == r.(chain := r.chain + [s'.builder.previous])
    ensures Inv(g, s', r')
  {
    SealSucceeds(env, s, r, SameEpoch);
    SealKeepsChain(g, env, s, r, SameEpoch);
    SealKeepsContents(g, env, s, r, SameEpoch);
    SealKeepsGas(g, env, s, r, SameEpoch);
    forall i | 0 <= i < |r'.chain| ensures SignedAt(s'.store, r'.chain, i) {
      if i < |r.chain| { assert SignedAt(s.store, r.chain, i); }
    }
  }

  lemma SameEpochSealKeeps(g: CertifiedSummary, env: Env, s: Sim, r: Record)
    requires Inv(g, s, r) && s.builder.previous.data.sequenceNumber < U64_MAX
    ensures Seal(env, s, SameEpoch).Some? <==> CanSign(env.keys, s.epochState.committee)
    ensures Seal(env, s, SameEpoch).Some? ==>
      var s' := Seal(env, s, SameEpoch).value;
      Inv(g, s', r.(chain := r.chain + [s'.builder.previous]))
  {
    SealSucceeds(env, s, r, SameEpoch);
    if CanSign(env.keys, s.epochState.committee) {
      var s' := Seal(env, s, SameEpoch).value;
      SameEpochSealed(g, env, s, r, s', r.(chain := r.chain + [s'.builder.previous]));
    }
  }

  lemma PushKeeps(
    g: CertifiedSummary, s: Sim, r: Record, e: Executed, written: map<nat, Object>, op: Operation, s': Sim, r': Record)
    requires Core(g, s, r) && !e.transaction.kind.ChangeEpoch?
    requires s' == Pushed(s, e, written) && r' == Grow(s, r, e, written, op)
    ensures Core(g, s', r')
  {
    PushKeepsChain(g, s, r, e, written, op);
    PushKeepsGas(g, s, r, e, written, op);
    assert EpochsOk(g, s', r') by { PushKeepsOrder(g, s, r, e, written, op); }
    IndexGrows(r.updates, Update(written, e.effects.deleted));
  }

  lemma ExecuteKeeps(g: CertifiedSummary, s: Sim, r: Record, tx: Transaction, outcome: Outcome, op: Operation)
    requires Core(g, s, r) && !tx.kind.ChangeEpoch?
    ensures Core(g, Execute(s, tx, outcome), LogExecution(s, r, tx, outcome, op))
  {
    if outcome.Done? {
      PushKeeps(g, s, r, Executed(tx, outcome.effects), outcome.written, op,
                Execute(s, tx, outcome), LogExecution(s, r, tx, outcome, op));
    }
  }

  lemma UserKeeps(g: CertifiedSummary, env: Env, s: Sim, r: Record, op: Operation)
    requires Inv(g, s, r) && op.ExecuteTransaction? && op.transaction.kind.UserTransaction?
    ensures var s' := Apply(env, s, op).value;
      Inv(g, s', Extend(env, s, op, s', r))
  {
    ExecuteKeeps(g, s, r, op.transaction, op.outcome, op);
    if op.outcome.Done? {
      var l := Logged(s.builder.epoch, Executed(op.transaction, op.outcome.effects), op);
      PushKeepsRounds(s.epochState, s.epochState, r.log, l);
    }
  }

  /** Handing out a round touches only the epoch state. */
  lemma TickKeeps(g: CertifiedSummary, s: Sim, r: Record, ticked: Sim)
    requires Core(g, s, r) && ticked.store == s.store && ticked.builder == s.builder
    requires ticked.epochState == s.epochState.(nextConsensusRound := ticked.epochState.nextConsensusRound)
    ensures Core(g, ticked, r)
  {
  }

  lemma ClockKeeps(g: CertifiedSummary, env: Env, s: Sim, r: Record, durationMs: nat, outcome: Outcome)
    requires Inv(g, s, r) && outcome.Done?
    ensures var op := AdvanceClock(durationMs, outcome);
      var s' := Apply(env, s, op).value;
      Inv(g, s', Extend(env, s, op, s', r))
  {
    var op, tx := AdvanceClock(durationMs, outcome), PrologueTransaction(env, s, durationMs);
    var ticked := s.(epochState := s.epochState.(nextConsensusRound := s.epochState.nextConsensusRound + 1));
    var s' := Apply(env, s, op).value;
    var r' := Extend(env, s, op, s', r);
    TickKeeps(g, s, r, ticked);
    assert s' == Execute(ticked, tx, outcome) && r' == LogExecution(ticked, r, tx, outcome, op);
    ExecuteKeeps(g, ticked, r, tx, outcome, op);
    PushKeepsRounds(
      s.epochState, ticked.epochState, r.log, Logged(s.builder.epoch, Executed(tx, outcome.effects), op));
  }

  /** The executor's part: a change-epoch transaction moves the stored system state to the next epoch. */
  ghost predicate MovesEpoch(env: Env, s: Sim, op: Operation) {
    op.AdvanceEpoch? && op.outcome.Done? ==>
      env.system(Execute(s, ChangeEpochTransaction(env, s), op.outcome).store.index).epoch == s.epochState.epoch + 1
  }

  /** Advancing the epoch is executing the change-epoch transaction and then sealing. */
  lemma AdvanceEpochSteps(env: Env, s: Sim, r: Record, op: Operation)
    requires op.AdvanceEpoch? && op.outcome.Done?
    ensures var s1 := Execute(s, ChangeEpochTransaction(env, s), op.outcome);
      var r1 := LogExecution(s, r, ChangeEpochTransaction(env, s), op.outcome, op);
      var epochState := NewEpochState(env.system(s1.store.index));
      var end := EndOfEpochData(epochState.committee.votingRights, s.epochState.protocolVersion);
      var sealed := Seal(env, s1, Into(s.epochState.epoch + 1, end));
      && (Apply(env, s, op).Some? <==> sealed.Some?)
      && (sealed.Some? ==>
            var s' := sealed.value.(epochState := epochState);
            && Apply(env, s, op) == Some(s')
            && Extend(env, s, op, s', r) == r1.(chain := r1.chain + [sealed.value.builder.previous]))
  {
  }

  /** Between the change-epoch transaction and the checkpoint that seals it. */
  ghost predicate Ending(g: CertifiedSummary, s1: Sim, r1: Record) {
    && ChainOk(g, s1, r1) && ContentsOk(g, s1, r1) && GasOk(g, s1, r1)
    && CommitteesOk(s1, r1) && RoundsOk(s1.epochState, r1.log) && LogOrdered(r1.log)
    && s1.store.index == Index(r1.updates)
    && (forall i | 0 <= i < |r1.log| :: ChangeAt(g, r1.log, i) && r1.log[i].epoch <= s1.builder.epoch)
    && s1.builder.previous.data.sequenceNumber < U64_MAX
  }

  lemma ChangeBeginsEnding(g: CertifiedSummary, env: Env, s: Sim, r: Record, op: Operation)
    requires Inv(g, s, r) && s.builder.previous.data.sequenceNumber < U64_MAX && op.AdvanceEpoch? && op.outcome.Done?
    ensures Ending(g, Execute(s, ChangeEpochTransaction(env, s), op.outcome),
                   LogExecution(s, r, ChangeEpochTransaction(env, s), op.outcome, op))
  {
    var e, written := Executed(ChangeEpochTransaction(env, s), op.outcome.effects), op.outcome.written;
    PushKeepsChain(g, s, r, e, written, op);
    PushKeepsGas(g, s, r, e, written, op);
    PushKeepsOrder(g, s, r, e, written, op);
    PushKeepsRounds(s.epochState, s.epochState, r.log, Logged(s.builder.epoch, e, op));
    IndexGrows(r.updates, Update(written, e.effects.deleted));
  }

  /** After the end-of-epoch checkpoint, with the new epoch state in place. */
  lemma SealedIntoEpoch(g: CertifiedSummary, s1: Sim, r1: Record, s2: Sim, r2: Record, epochState: EpochState)
    requires CommitteesOk(s1, r1) && RoundsOk(s1.epochState, r1.log) && LogOrdered(r1.log)
    requires forall i | 0 <= i < |r1.log| :: ChangeAt(g, r1.log, i) && r1.log[i].epoch <= s1.builder.epoch
    requires ChainOk(g, s2, r2) && ContentsOk(g, s2, r2) && GasOk(g, s2, r2)
    requires r2 == r1.(chain := r1.chain + [s2.builder.previous])
    requires s2.builder.epoch == s1.builder.epoch + 1
    requires s2.builder.previous.data.epoch == s1.builder.epoch
    requires s2.builder.previous.signedBy == s1.epochState.committee
    requires epochState.epoch == epochState.committee.epoch == s2.builder.epoch && epochState.nextConsensusRound == 0
    requires s2.store.committees == s1.store.committees + [epochState.committee]
    requires s2.store.index == Index(r2.updates)
    ensures Inv(g, s2.(epochState := epochState), r2)
  {
    var s3 := s2.(epochState := epochState);
    NoPrologueYet(r1.log, epochState.epoch);
    forall i | 0 <= i < |r2.chain|
      ensures ChainAt(s3.store, r2.chain, i) && SignedAt(s3.store, r2.chain, i) {
      assert ChainAt(s2.store, r2.chain, i);
      if i < |r1.chain| { assert SignedAt(s1.store, r1.chain, i) && r2.chain[i] == r1.chain[i]; }
    }
  }

  /** The end-of-epoch checkpoint after the change-epoch transaction was executed and logged. */
  lemma EndOfEpochSeals(
    g: CertifiedSummary, env: Env, s1: Sim, r1: Record, next: NewEpoch, epochState: EpochState, s': Sim, r': Record)
    requires Ending(g, s1, r1)
    requires epochState.epoch == epochState.committee.epoch == s1.builder.epoch + 1
    requires epochState.nextConsensusRound == 0 && next.Into? && next.epoch == epochState.epoch
    requires next.data.nextEpochCommittee == epochState.committee.votingRights
    requires Seal(env, s1, next).Some? && s' == Seal(env, s1, next).value.(epochState := epochState)
    requires r' == r1.(chain := r1.chain + [s'.builder.previous])
    ensures Inv(g, s', r')
  {
    SealSucceeds(env, s1, r1, next);
    SealKeepsChain(g, env, s1, r1, next);
    SealKeepsContents(g, env, s1, r1, next);
    SealKeepsGas(g, env, s1, r1, next);
    SealedIntoEpoch(g, s1, r1, Seal(env, s1, next).value, r', epochState);
  }

  lemma EndOfEpochKeeps(g: CertifiedSummary, env: Env, s: Sim, r: Record, outcome: Outcome)
    requires Inv(g, s, r) && s.builder.previous.data.sequenceNumber < U64_MAX
    requires outcome.Done? && MovesEpoch(env, s, AdvanceEpoch(outcome))
    ensures var op := AdvanceEpoch(outcome);
      && (Apply(env, s, op).Some? <==> CanSign(env.keys, s.epochState.committee))
      && (Apply(env, s, op).Some? ==> Inv(g, Apply(env, s, op).value, Extend(env, s, op, Apply(env, s, op).value, r)))
  {
    var op, tx := AdvanceEpoch(outcome), ChangeEpochTransaction(env, s);
    var s1, r1 := Execute(s, tx, outcome), LogExecution(s, r, tx, outcome, op);
    var epochState := NewEpochState(env.system(s1.store.index));
    var end := EndOfEpochData(epochState.committee.votingRights, s.epochState.protocolVersion);
    var next := Into(s.epochState.epoch + 1, end);
    AdvanceEpochSteps(env, s, r, op);
    ChangeBeginsEnding(g, env, s, r, op);
    SealSucceeds(env, s1, r1, next);
    if Apply(env, s, op).Some? {
      var s' := Apply(env, s, op).value;
      EndOfEpochSeals(g, env, s1, r1, next, epochState, s', Extend(env, s, op, s', r));
    }
  }

  predicate IsSeal(op: Operation) { op.CreateCheckpoint? || op.AdvanceEpoch? }

  /** A public operation panics exactly when the executor refuses a system transaction or a member of the
      current committee has no key to sign with, and otherwise it keeps the invariant.  User calls submit
      user transactions, and a seal finds a sequence number left. */
  lemma OperationKeeps(g: CertifiedSummary, env: Env, s: Sim, r: Record, op: Operation)
    requires Inv(g, s, r) && MovesEpoch(env, s, op)
    requires IsSeal(op) ==> s.builder.previous.data.sequenceNumber < U64_MAX
    requires op.ExecuteTransaction? ==> op.transaction.kind.UserTransaction?
    ensures Apply(env, s, op).None?
        <==> || ((op.AdvanceClock? || op.AdvanceEpoch?) && op.outcome.Rejected?)
             || (IsSeal(op) && !CanSign(env.keys, s.epochState.committee))
    ensures Apply(env, s, op).Some? ==> Inv(g, Apply(env, s, op).value, Extend(env, s, op, Apply(env, s, op).value, r))
  {
    match op
    case ExecuteTransaction(_, _) => UserKeeps(g, env, s, r, op);
    case CreateCheckpoint => SameEpochSealKeeps(g, env, s, r);
    case AdvanceClock(durationMs, outcome) => if outcome.Done? { ClockKeeps(g, env, s, r, durationMs, outcome); }
    case AdvanceEpoch(outcome) => if outcome.Done? { EndOfEpochKeeps(g, env, s, r, outcome); }
  }

  // ---------------------------------------------------------------- genesis

  datatype Genesis = Genesis(
    checkpoint: CertifiedSummary, contents: seq<ExecutionDigests>, committee: Committee,
    transaction: Transaction, effects: Effects, objects: map<nat, Object>)

  /** `InMemoryStore::new`, the builder and the epoch state over it; None where it panics. */
  function NewSim(env: Env, g: Genesis): Option<Sim> {
    var empty := Store(map[], map[], map[], map[], map[], [], EMPTY_INDEX);
    match InsertCheckpoint(empty, g.checkpoint)
    case None => None
    case Some(st) =>
      match InsertCommittee(st.committees, g.committee)
      case None => None
      case Some(committees) =>
        var store := st.(
          committees := committees,
          contents := map[ContentsDigest(g.contents) := g.contents],
          transactions := map[g.transaction.digest := g.transaction],
          effects := map[g.effects.transactionDigest := g.effects],
          index := UpdateObjects(EMPTY_INDEX, Update(g.objects, [])));
        var builder := Builder(g.checkpoint, [], g.checkpoint.data.epochRollingGas, g.checkpoint.data.epoch);
        Some(Sim(store, builder, NewEpochState(env.system(store.index))))
  }

  /** Checkpoint 0 of epoch 0, over its contents, signed by the committee of the genesis system state. */
  ghost predicate GoodGenesis(env: Env, g: Genesis) {
    var system := env.system(UpdateObjects(EMPTY_INDEX, Update(g.objects, [])));
    var c := g.checkpoint.data;
    && c.sequenceNumber == 0 && c.epoch == 0 && c.endOfEpochData.None?
    && c.contentDigest == ContentsDigest(g.contents)
    && system.epoch == 0 && g.committee == Committee(0, system.votingRights) == g.checkpoint.signedBy
  }

  ghost function NewRecord(g: Genesis): Record { Record([g.checkpoint], [], [Update(g.objects, [])]) }

  lemma GenesisChain(env: Env, g: Genesis)
    requires GoodGenesis(env, g)
    ensures NewSim(env, g).Some?
    ensures var s, r := NewSim(env, g).value, NewRecord(g);
      ChainOk(g.checkpoint, s, r) && CommitteesOk(s, r) && s.builder.previous == g.checkpoint
  {
    var s, r := NewSim(env, g).value, NewRecord(g);
    assert ChainAt(s.store, r.chain, 0) && SignedAt(s.store, r.chain, 0);
  }

  lemma GenesisGas(env: Env, g: Genesis)
    requires GoodGenesis(env, g) && NewSim(env, g).Some?
    ensures var s, r := NewSim(env, g).value, NewRecord(g);
      ContentsOk(g.checkpoint, s, r) && GasOk(g.checkpoint, s, r)
  {
    var r := NewRecord(g);
    assert r.chain[..1] == r.chain && r.log[..0] == [];
    assert TotalAt(g.checkpoint, r.chain, 0) && GasAt(g.checkpoint, r, 0);
  }

  lemma GenesisIndex(env: Env, g: Genesis)
    requires NewSim(env, g).Some?
    ensures NewSim(env, g).value.store.index == Index(NewRecord(g).updates)
  {
    IndexGrows([], Update(g.objects, []));
    assert [] + [Update(g.objects, [])] == [Update(g.objects, [])];
  }

  lemma GenesisInv(env: Env, g: Genesis)
    requires GoodGenesis(env, g)
    ensures NewSim(env, g).Some? && Inv(g.checkpoint, NewSim(env, g).value, NewRecord(g))
    ensures NewSim(env, g).value.builder.previous == g.checkpoint
  {
    GenesisChain(env, g);
    GenesisGas(env, g);
    GenesisIndex(env, g);
  }

  // ---------------------------------------------------------------- runs

  datatype Moment = Moment(sim: Sim, record: Record)

  /** The state and the record after a list of operations; None once an operation has panicked. */
  ghost function After(env: Env, g: Genesis, ops: seq<Operation>): Option<Moment> {
    if ops == [] then
      match NewSim(env, g)
      case None => None
      case Some(s) => Some(Moment(s, NewRecord(g)))
    else
      match After(env, g, Init(ops))
      case None => None
      case Some(m) =>
        match Apply(env, m.sim, Last(ops))
        case None => None
        case Some(s) => Some(Moment(s, Extend(env, m.sim, Last(ops), s, m.record)))
  }

  /** User calls submit user transactions, and the executor moves the epoch when told to. */
  ghost predicate Admissible(env: Env, g: Genesis, ops: seq<Operation>) {
    ops != [] ==>
      && Admissible(env, g, Init(ops))
      && (Last(ops).ExecuteTransaction? ==> Last(ops).transaction.kind.UserTransaction?)
      && (After(env, g, Init(ops)).Some? ==> MovesEpoch(env, After(env, g, Init(ops)).value.sim, Last(ops)))
  }

  /** How many checkpoints a list of operations seals. */
  function Seals(ops: seq<Operation>): nat {
    if ops == [] then 0 else Seals(Init(ops)) + if IsSeal(Last(ops)) then 1 else 0
  }

  /** A run that has not used up the sequence numbers. */
  ghost predicate GoodRun(env: Env, g: Genesis, ops: seq<Operation>) {
    GoodGenesis(env, g) && Admissible(env, g, ops) && After(env, g, ops).Some? && Seals(ops) <= U64_MAX
  }

  lemma MomentKeeps(g: CertifiedSummary, env: Env, m: Moment, op: Operation)
    requires Inv(g, m.sim, m.record) && MovesEpoch(env, m.sim, op) && Apply(env, m.sim, op).Some?
    requires IsSeal(op) ==> |m.record.chain| <= U64_MAX
    requires op.ExecuteTransaction? ==> op.transaction.kind.UserTransaction?
    ensures var s' := Apply(env, m.sim, op).value;
      var r' := Extend(env, m.sim, op, s', m.record);
      Inv(g, s', r') && |r'.chain| == |m.record.chain| + if IsSeal(op) then 1 else 0
  {
    assert ChainAt(m.sim.store, m.record.chain, |m.record.chain| - 1);
    OperationKeeps(g, env, m.sim, m.record, op);
    OperationAppends(env, m, op);
  }

  lemma {:induction false} RunKeeps(env: Env, g: Genesis, ops: seq<Operation>)
    requires GoodRun(env, g, ops)
    ensures var m := After(env, g, ops).value;
      Inv(g.checkpoint, m.sim, m.record) && |m.record.chain| == Seals(ops) + 1
  {
    if ops == [] {
      GenesisInv(env, g);
    } else {
      RunKeeps(env, g, Init(ops));
      MomentKeeps(g.checkpoint, env, After(env, g, Init(ops)).value, Last(ops));
    }
  }

  // ---------------------------------------------------------------- what every run guarantees

  /** The stored checkpoints are numbered 0 .. k without a gap, each names the digest of the one
      before it, and looking a checkpoint up by digest finds it. */
  lemma CheckpointsFormAChain(env: Env, g: Genesis, ops: seq<Operation>, n: nat)
    requires GoodRun(env, g, ops)
    ensures var s := After(env, g, ops).value.sim;
      && (n in s.store.checkpoints <==> n <= s.builder.previous.data.sequenceNumber)
      && (n in s.store.checkpoints ==>
            var c := s.store.checkpoints[n].data;
            && c.sequenceNumber == n
            && SummaryDigest(c) in s.store.digestToSequence && s.store.digestToSequence[SummaryDigest(c)] == n
            && c.contentDigest in s.store.contents
            && ContentsDigest(s.store.contents[c.contentDigest]) == c.contentDigest
            && (n > 0 ==>
                  && n - 1 in s.store.checkpoints
                  && c.previousDigest == Some(SummaryDigest(s.store.checkpoints[n - 1].data))))
  {
    RunKeeps(env, g, ops);
    var m := After(env, g, ops).value;
    assert ChainAt(m.sim.store, m.record.chain, |m.record.chain| - 1);
    if n < |m.record.chain| {
      assert ChainAt(m.sim.store, m.record.chain, n);
      if n > 0 { assert ChainAt(m.sim.store, m.record.chain, n - 1); }
    }
  }

  /** The contents of the checkpoints, then the builder's buffer, are exactly the executed
      transactions in order; so the network total and the buffer add up to all of them. */
  lemma NothingIsLostOrRepeated(env: Env, g: Genesis, ops: seq<Operation>)
    requires GoodRun(env, g, ops)
    ensures var m := After(env, g, ops).value;
      var b := m.sim.builder;
      && Concat(m.record.chain) + Digests(b.transactions) == LogDigests(m.record.log)
      && b.previous.data.networkTotalTransactions + |b.transactions|
         == g.checkpoint.data.networkTotalTransactions + |m.record.log|
  {
    RunKeeps(env, g, ops);
    TotalsAddUp(g.checkpoint, After(env, g, ops).value.sim, After(env, g, ops).value.record);
  }

  lemma TotalsAddUp(g: CertifiedSummary, s: Sim, r: Record)
    requires ChainOk(g, s, r) && ContentsOk(g, s, r)
    ensures s.builder.previous.data.networkTotalTransactions + |s.builder.transactions|
         == g.data.networkTotalTransactions + |r.log|
  {
    assert TotalAt(g, r.chain, |r.chain| - 1) && r.chain[..|r.chain|] == r.chain;
    assert |Concat(r.chain) + Digests(s.builder.transactions)| == |LogDigests(r.log)|;
  }

  /** Builder, epoch state and committee vector agree on the epoch, every checkpoint is certified by the
      committee the store returns for its epoch. */
  lemma EpochsStayInStep(env: Env, g: Genesis, ops: seq<Operation>, n: nat)
    requires GoodRun(env, g, ops)
    ensures var m := After(env, g, ops).value;
      var st := m.sim.store;
      && m.sim.builder.epoch == m.sim.epochState.epoch == |st.committees| - 1
      && (n in st.checkpoints ==>
            var c := st.checkpoints[n];
            c.data.epoch < |st.committees| && c.signedBy == st.committees[c.data.epoch])
  {
    RunKeeps(env, g, ops);
    var m := After(env, g, ops).value;
    if n < |m.record.chain| {
      assert ChainAt(m.sim.store, m.record.chain, n) && SignedAt(m.sim.store, m.record.chain, n);
    }
  }

  /** Every prologue that ran names the epoch it ran in and the number of prologues that epoch had before
      it; so no two of them name the same epoch and round. */
  lemma RoundsAreNeverRepeated(env: Env, g: Genesis, ops: seq<Operation>, i: nat, j: nat)
    requires GoodRun(env, g, ops) && i < j < |After(env, g, ops).value.record.log|
    ensures var log := After(env, g, ops).value.record.log;
      var k, k' := log[i].executed.transaction.kind, log[j].executed.transaction.kind;
      && (k.ConsensusCommitPrologue? ==> k.epoch == log[i].epoch && k.round == Prologues(log[..i], k.epoch))
      && (k'.ConsensusCommitPrologue? ==> k'.epoch == log[j].epoch && k'.round == Prologues(log[..j], k'.epoch))
      && (k.ConsensusCommitPrologue? && k'.ConsensusCommitPrologue? ==> (k.epoch, k.round) != (k'.epoch, k'.round))
  {
    RunKeeps(env, g, ops);
    var log := After(env, g, ops).value.record.log;
    assert RoundAt(log, i) && RoundAt(log, j);
    var k, k' := log[i].executed.transaction.kind, log[j].executed.transaction.kind;
    if k.ConsensusCommitPrologue? && k'.ConsensusCommitPrologue? && k.epoch == k'.epoch { RoundsRise(log, i, j); }
  }

  /** A checkpoint's rolling gas is the sum over the transactions of its epoch up to and including
      it; the builder's is that sum so far, so it starts again at zero with each epoch. */
  lemma RollingGasIsTheEpochSum(env: Env, g: Genesis, ops: seq<Operation>, n: nat)
    requires GoodRun(env, g, ops)
    ensures var m := After(env, g, ops).value;
      && m.sim.builder.gas == EpochGas(g.checkpoint, m.record.log, m.sim.builder.epoch)
      && (n in m.sim.store.checkpoints ==>
            && n < |m.record.chain|
            && var c, upTo := m.sim.store.checkpoints[n].data, |Concat(m.record.chain[..n + 1])|;
            && c.networkTotalTransactions == g.checkpoint.data.networkTotalTransactions + upTo
            && upTo <= |m.record.log|
            && c.epochRollingGas == EpochGas(g.checkpoint, m.record.log[..upTo], c.epoch))
  {
    RunKeeps(env, g, ops);
    var m := After(env, g, ops).value;
    if n < |m.record.chain| {
      assert ChainAt(m.sim.store, m.record.chain, n) && GasAt(g.checkpoint, m.record, n);
      assert TotalAt(g.checkpoint, m.record.chain, n);
    }
  }

  /** A change-epoch transaction carries the gas of everything in its epoch before it and is the last of
      its epoch; along the log epochs never fall. */
  lemma ChangeEpochClosesItsEpoch(env: Env, g: Genesis, ops: seq<Operation>, i: nat)
    requires GoodRun(env, g, ops) && i < |After(env, g, ops).value.record.log|
    ensures var log := After(env, g, ops).value.record.log;
      && ChangeAt(g.checkpoint, log, i)
      && (forall j | i < j < |log| ::
            && log[i].epoch <= log[j].epoch
            && (log[i].executed.transaction.kind.ChangeEpoch? ==> log[i].epoch < log[j].epoch))
  {
    RunKeeps(env, g, ops);
    assert ChangeAt(g.checkpoint, After(env, g, ops).value.record.log, i);
  }

  /** The store of a running chain answers object queries like the replay of everything written and
      deleted since genesis. */
  lemma ObjectsFollowTheReplay(env: Env, g: Genesis, ops: seq<Operation>, id: nat)
    requires GoodRun(env, g, ops)
    ensures var m := After(env, g, ops).value;
      var live := Replay(m.record.updates);
      GetObject(m.sim.store.index, id) == if id in live then Some(live[id]) else None
  {
    RunKeeps(env, g, ops);
    IndexRefinesReplay(After(env, g, ops).value.record.updates);
  }

  /** When the executor files objects under their own ids, a running chain lists for each owner exactly
      the live objects of that owner. */
  lemma OwnersFollowTheReplay(env: Env, g: Genesis, ops: seq<Operation>, owner: nat, obj: Object)
    requires GoodRun(env, g, ops)
    requires forall u | u in After(env, g, ops).value.record.updates :: KeyedById(u.written)
    ensures var m := After(env, g, ops).value;
      var live := Replay(m.record.updates);
      obj in OwnedObjects(m.sim.store.index, owner)
      <==> obj.id in live && live[obj.id] == obj && obj.owner == AddressOwner(owner)
  {
    RunKeeps(env, g, ops);
    OwnedObjectsOfReplay(After(env, g, ops).value.record.updates, owner, obj);
  }

  /** Everything a run ever wrote can be read at its version exactly when no two writes of the run put
      different objects at the same id and version. */
  lemma RunsKeepEveryVersionIff(env: Env, g: Genesis, ops: seq<Operation>)
    requires GoodRun(env, g, ops)
    ensures var m := After(env, g, ops).value;
      ReadsBack(m.sim.store.index, m.record.updates) <==> NoConflict(m.record.updates)
  {
    RunKeeps(env, g, ops);
    HistoryIsCompleteIff(After(env, g, ops).value.record.updates);
  }

  // ---------------------------------------------------------------- past the last sequence number

  /** What a seal does to the chain of checkpoints, with sequence numbers left or not. */
  lemma SealAppends(env: Env, s: Sim, next: NewEpoch)
    requires Seal(env, s, next).Some?
    ensures var s' := Seal(env, s, next).value;
      var c := s'.builder.previous;
      && s'.store.checkpoints == s.store.checkpoints[c.data.sequenceNumber := c]
      && c.data.sequenceNumber == SaturatingNext(s.builder.previous.data.sequenceNumber)
      && s.builder.previous.data < c.data
  {
    var p, c := s.builder.previous.data, Seal(env, s, next).value.builder.previous.data;
    assert c.previousDigest == Some(SummaryDigest(p));
  }

  /** One seal keeps the previous checkpoint in the store exactly while its number is below the limit. */
  lemma SealKeepsPreviousIffBelowLimit(env: Env, s: Sim, next: NewEpoch)
    requires Seal(env, s, next).Some?
    requires s.builder.previous.data.sequenceNumber <= U64_MAX
    requires s.builder.previous.data.sequenceNumber in s.store.checkpoints
    requires s.store.checkpoints[s.builder.previous.data.sequenceNumber] == s.builder.previous
    ensures var s' := Seal(env, s, next).value;
      (s'.store.checkpoints[s.builder.previous.data.sequenceNumber] == s.builder.previous)
      <==> s.builder.previous.data.sequenceNumber < U64_MAX
  {
    SealAppends(env, s, next);
  }

  /** What every run keeps, however long: checkpoints lie under their numbers, the newest one among them,
      and its number is the count of seals up to the limit. */
  ghost predicate Numbered(m: Moment, seals: nat) {
    var st, p := m.sim.store, m.sim.builder.previous;
    && |m.record.chain| == seals + 1 && Last(m.record.chain) == p
    && (forall n | n in st.checkpoints :: st.checkpoints[n].data.sequenceNumber == n)
    && p.data.sequenceNumber == (if seals <= U64_MAX then seals else U64_MAX)
    && p.data.sequenceNumber in st.checkpoints && st.checkpoints[p.data.sequenceNumber] == p
  }

  /** A sealed checkpoint that is not the newest of its number. */
  ghost predicate Replaced(m: Moment, c: CertifiedSummary) {
    && c in m.record.chain && c.data.sequenceNumber == m.sim.builder.previous.data.sequenceNumber
    && c.data < m.sim.builder.previous.data
  }

  /** How one operation that did not panic changes what these two look at. */
  lemma OperationAppends(env: Env, m: Moment, op: Operation)
    requires Apply(env, m.sim, op).Some?
    ensures var s' := Apply(env, m.sim, op).value;
      var r' := Extend(env, m.sim, op, s', m.record);
      var c := s'.builder.previous;
      if IsSeal(op) then
        && r'.chain == m.record.chain + [c]
        && s'.store.checkpoints == m.sim.store.checkpoints[c.data.sequenceNumber := c]
        && c.data.sequenceNumber == SaturatingNext(m.sim.builder.previous.data.sequenceNumber)
        && m.sim.builder.previous.data < c.data
      else
        r'.chain == m.record.chain && s'.store.checkpoints == m.sim.store.checkpoints && c == m.sim.builder.previous
  {
    match op
    case CreateCheckpoint => SealAppends(env, m.sim, SameEpoch);
    case AdvanceEpoch(outcome) =>
      var s1 := Execute(m.sim, ChangeEpochTransaction(env, m.sim), outcome);
      var epochState := NewEpochState(env.system(s1.store.index));
      var end := EndOfEpochData(epochState.committee.votingRights, m.sim.epochState.protocolVersion);
      SealAppends(env, s1, Into(m.sim.epochState.epoch + 1, end));
    case _ =>
  }

  lemma {:induction false} RunIsNumbered(env: Env, g: Genesis, ops: seq<Operation>)
    requires g.checkpoint.data.sequenceNumber == 0 && After(env, g, ops).Some?
    ensures Numbered(After(env, g, ops).value, Seals(ops))
  {
    if ops == [] {
    } else {
      RunIsNumbered(env, g, Init(ops));
      OperationAppends(env, After(env, g, Init(ops)).value, Last(ops));
    }
  }

  /** Once more checkpoints are sealed than there are numbers, one has been replaced, and stays so. */
  lemma {:induction false} RunReplaces(env: Env, g: Genesis, ops: seq<Operation>) returns (c: CertifiedSummary)
    requires g.checkpoint.data.sequenceNumber == 0 && After(env, g, ops).Some? && Seals(ops) > U64_MAX
    ensures Replaced(After(env, g, ops).value, c)
  {
    var m := After(env, g, Init(ops)).value;
    RunIsNumbered(env, g, Init(ops));
    OperationAppends(env, m, Last(ops));
    if Seals(Init(ops)) > U64_MAX {
      c := RunReplaces(env, g, Init(ops));
    } else {
      c := m.sim.builder.previous;
      assert c == Last(m.record.chain);
    }
  }

  ghost predicate Stored(m: Moment, c: CertifiedSummary) {
    exists n | n in m.sim.store.checkpoints :: m.sim.store.checkpoints[n] == c
  }

  /** The sequence number saturates: every checkpoint a run sealed is still in the store exactly when it
      sealed at most 2^64 - 1 of them. */
  lemma EverySealIsStoredIff(env: Env, g: Genesis, ops: seq<Operation>)
    requires GoodGenesis(env, g) && Admissible(env, g, ops) && After(env, g, ops).Some?
    ensures var m := After(env, g, ops).value;
      (forall c | c in m.record.chain :: Stored(m, c)) <==> Seals(ops) <= U64_MAX
  {
    var m := After(env, g, ops).value;
    if Seals(ops) <= U64_MAX {
      RunKeeps(env, g, ops);
      forall c | c in m.record.chain ensures Stored(m, c) {
        var i :| 0 <= i < |m.record.chain| && m.record.chain[i] == c;
        assert ChainAt(m.sim.store, m.record.chain, i);
      }
    } else {
      var c := RunReplaces(env, g, ops);
      RunIsNumbered(env, g, ops);
      assert c in m.record.chain && !Stored(m, c);
    }
  }

  function Creates(n: nat): seq<Operation> { seq(n, i => CreateCheckpoint) }

  /** Any number of checkpoints can be sealed in a row. */
  lemma {:induction false} CreatesRun(env: Env, g: Genesis, n: nat)
    requires GoodGenesis(env, g) && CanSign(env.keys, g.committee)
    ensures Admissible(env, g, Creates(n)) && After(env, g, Creates(n)).Some? && Seals(Creates(n)) == n
    ensures After(env, g, Creates(n)).value.sim.epochState.committee == g.committee
    ensures CommitteesOk(After(env, g, Creates(n)).value.sim, After(env, g, Creates(n)).value.record)
  {
    if n == 0 {
      GenesisInv(env, g);
    } else {
      CreatesRun(env, g, n - 1);
      assert Init(Creates(n)) == Creates(n - 1);
      var m := After(env, g, Creates(n - 1)).value;
      SealSucceeds(env, m.sim, m.record, SameEpoch);
      var s', chain := Seal(env, m.sim, SameEpoch).value, m.record.chain;
      forall i | 0 <= i < |chain| + 1 ensures SignedAt(s'.store, chain + [s'.builder.previous], i) {
        if i < |chain| { assert SignedAt(m.sim.store, chain, i); }
      }
    }
  }

  /** A run that loses a checkpoint: one seal more than there are sequence numbers. */
  lemma SealsCanBeLost(env: Env, g: Genesis) returns (ops: seq<Operation>, c: CertifiedSummary)
    requires GoodGenesis(env, g) && CanSign(env.keys, g.committee)
    ensures Admissible(env, g, ops) && After(env, g, ops).Some? && Seals(ops) == U64_MAX + 1
    ensures var m := After(env, g, ops).value; c in m.record.chain && !Stored(m, c)
  {
    ops := Creates(U64_MAX + 1);
    CreatesRun(env, g, U64_MAX + 1);
    c := RunReplaces(env, g, ops);
    RunIsNumbered(env, g, ops);
  }
}
