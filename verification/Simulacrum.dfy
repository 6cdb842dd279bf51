/**
 A `Simulacrum` of a chain (crates/simulacrum/src/lib.rs, checkpoint_builder.rs, epoch_state.rs,
 store.rs): an in-memory store, a checkpoint builder and the state of the current epoch, driven by
 four public operations.  The executor is arbitrary: each operation that runs a transaction comes
 with the outcome the executor gave it.
 */
module Simulacra {
  import opened ChainTypes
  import opened ObjectIndexes

  // ---------------------------------------------------------------- data

  datatype TransactionKind =
    | UserTransaction(body: nat)
    | ConsensusCommitPrologue(epoch: nat, round: nat, timestampMs: nat)
    | ChangeEpoch(nextEpoch: nat, protocolVersion: nat,
                  storageCharge: nat, computationCharge: nat, storageRebate: nat, nonRefundableStorageFee: nat,
                  epochStartMs: nat)

  datatype Transaction = Transaction(kind: TransactionKind, digest: nat)

  datatype Effects = Effects(digest: nat, transactionDigest: nat, gas: GasCostSummary, deleted: seq<nat>)

  datatype Executed = Executed(transaction: Transaction, effects: Effects)
  {
    function Digests(): ExecutionDigests { ExecutionDigests(transaction.digest, effects.digest) }
  }

  /** What verification and the executor made of a transaction. */
  datatype Outcome = Rejected | Done(written: map<nat, Object>, effects: Effects)

  datatype SystemState = SystemState(epoch: nat, votingRights: map<nat, nat>, protocolVersion: nat)

  /** How the clock and the system state are read out of the object store, how a system transaction is
      hashed, and the validators whose keys the key store holds. */
  datatype Env = Env(
    clock: ObjectIndex -> nat, system: ObjectIndex -> SystemState, hash: TransactionKind -> nat, keys: set<nat>)

  datatype Store = Store(
    checkpoints: map<nat, CertifiedSummary>,
    digestToSequence: map<SummaryDigest, nat>,
    contents: map<ContentsDigest, seq<ExecutionDigests>>,
    transactions: map<nat, Transaction>,
    effects: map<nat, Effects>,
    committees: seq<Committee>,
    index: ObjectIndex)

  datatype Builder = Builder(previous: CertifiedSummary, transactions: seq<Executed>, gas: GasCostSummary, epoch: nat)

  datatype EpochState = EpochState(epoch: nat, committee: Committee, protocolVersion: nat, nextConsensusRound: nat)

  datatype Sim = Sim(store: Store, builder: Builder, epochState: EpochState)

  // ---------------------------------------------------------------- the parts

  function NewEpochState(s: SystemState): EpochState {
    EpochState(s.epoch, Committee(s.epoch, s.votingRights), s.protocolVersion, 0)
  }

  function Digests(txs: seq<Executed>): seq<ExecutionDigests> {
    seq(|txs|, i requires 0 <= i < |txs| => txs[i].Digests())
  }

  function SaturatingNext(n: nat): nat { if n < U64_MAX then n + 1 else n }

  predicate CanSign(keys: set<nat>, committee: Committee) { committee.votingRights.Keys <= keys }

  /** Signing panics for a member without a key, and with the committee of another epoch. */
  function Certify(keys: set<nat>, committee: Committee, s: CheckpointSummary): Option<CertifiedSummary> {
    if CanSign(keys, committee) && committee.epoch == s.epoch then Some(CertifiedSummary(s, committee)) else None
  }

  function PushTransaction(b: Builder, e: Executed): Builder {
    b.(gas := b.gas.Plus(e.effects.gas), transactions := b.transactions + [e])
  }

  datatype NewEpoch = SameEpoch | Into(epoch: nat, data: EndOfEpochData)

  datatype Built = Built(builder: Builder, checkpoint: CertifiedSummary, contents: seq<ExecutionDigests>)

  /** `build_internal`; None where it panics. */
  function Build(
    b: Builder, keys: set<nat>, committee: Committee, timestampMs: nat, next: NewEpoch): Option<Built>
  {
    var contents := Digests(b.transactions);
    if next.Into? && next.epoch != b.epoch + 1 then None
    else
      var summary := CheckpointSummary(
        b.epoch,
        SaturatingNext(b.previous.data.sequenceNumber),
        b.previous.data.networkTotalTransactions + |contents|,
        ContentsDigest(contents),
        Some(SummaryDigest(b.previous.data)),
        b.gas,
        if next.Into? then Some(next.data) else None,
        timestampMs);
      match Certify(keys, committee, summary)
      case None => None
      case Some(cp) =>
        Some(Built(
          Builder(cp, [], if next.Into? then NO_GAS else b.gas, if next.Into? then next.epoch else b.epoch),
          cp, contents))
  }

  /** None where `insert_committee` panics. */
  function InsertCheckpoint(st: Store, cp: CertifiedSummary): Option<Store> {
    var committees :=
      match cp.data.endOfEpochData
      case None => Some(st.committees)
      case Some(end) => InsertCommittee(st.committees, Committee(cp.data.epoch + 1, end.nextEpochCommittee));
    match committees
    case None => None
    case Some(cs) =>
      Some(st.(
        committees := cs,
        digestToSequence := st.digestToSequence[SummaryDigest(cp.data) := cp.data.sequenceNumber],
        checkpoints := st.checkpoints[cp.data.sequenceNumber := cp]))
  }

  function InsertExecuted(st: Store, e: Executed, written: map<nat, Object>): Store {
    st.(transactions := st.transactions[e.transaction.digest := e.transaction],
        effects := st.effects[e.effects.transactionDigest := e.effects],
        index := UpdateObjects(st.index, Update(written, e.effects.deleted)))
  }

  // ---------------------------------------------------------------- the public operations

  datatype Operation =
    | ExecuteTransaction(transaction: Transaction, outcome: Outcome)
    | CreateCheckpoint
    | AdvanceClock(durationMs: nat, outcome: Outcome)
    | AdvanceEpoch(outcome: Outcome)

  function Execute(s: Sim, tx: Transaction, outcome: Outcome): Sim {
    match outcome
    case Rejected => s
    case Done(written, effects) =>
      var e := Executed(tx, effects);
      s.(store := InsertExecuted(s.store, e, written), builder := PushTransaction(s.builder, e))
  }

  /** Builds the next checkpoint and stores it with its contents. */
  function Seal(env: Env, s: Sim, next: NewEpoch): Option<Sim> {
    match Build(s.builder, env.keys, s.epochState.committee, env.clock(s.store.index), next)
    case None => None
    case Some(built) =>
      match InsertCheckpoint(s.store, built.checkpoint)
      case None => None
      case Some(st) =>
        Some(s.(store := st.(contents := st.contents[ContentsDigest(built.contents) := built.contents]),
                builder := built.builder))
  }

  function PrologueTransaction(env: Env, s: Sim, durationMs: nat): Transaction {
    var kind := ConsensusCommitPrologue(
      s.epochState.epoch, s.epochState.nextConsensusRound, env.clock(s.store.index) + durationMs);
    Transaction(kind, env.hash(kind))
  }

  function ChangeEpochTransaction(env: Env, s: Sim): Transaction {
    var gas := s.builder.gas;
    var kind := ChangeEpoch(
      s.epochState.epoch + 1, s.epochState.protocolVersion,
      gas.storageCost, gas.computationCost, gas.storageRebate, gas.nonRefundableStorageFee,
      env.clock(s.store.index));
    Transaction(kind, env.hash(kind))
  }

  /** The state after an operation; None where it panics. */
  function Apply(env: Env, s: Sim, op: Operation): Option<Sim> {
    match op
    case ExecuteTransaction(tx, outcome) => Some(Execute(s, tx, outcome))
    case CreateCheckpoint => Seal(env, s, SameEpoch)
    case AdvanceClock(durationMs, outcome) =>
      var round := s.epochState.nextConsensusRound;
      var ticked := s.(epochState := s.epochState.(nextConsensusRound := round + 1));
      if outcome.Rejected? then None else Some(Execute(ticked, PrologueTransaction(env, s, durationMs), outcome))
    case AdvanceEpoch(outcome) =>
      if outcome.Rejected? then None
      else
        var changed := Execute(s, ChangeEpochTransaction(env, s), outcome);
        var epochState := NewEpochState(env.system(changed.store.index));
        var end := EndOfEpochData(epochState.committee.votingRights, s.epochState.protocolVersion);
        match Seal(env, changed, Into(s.epochState.epoch + 1, end))
        case None => None
        case Some(sealed) => Some(sealed.(epochState := epochState))
  }

  // ---------------------------------------------------------------- the class

  class Simulacrum {
    const env: Env
    var store: Store
    var builder: Builder
    var epochState: EpochState

    function View(): Sim
      reads this
    {
      Sim(store, builder, epochState)
    }

    /** A failing call changes nothing. */
    method ExecuteTransaction(tx: Transaction, outcome: Outcome) returns (effects: Option<Effects>)
      modifies this
      ensures View() == Execute(old(View()), tx, outcome)
      ensures outcome.Rejected? ==> effects.None? && View() == old(View())
      ensures outcome.Done? ==> effects == Some(outcome.effects)
    {
      match outcome
      case Rejected => effects := None;
      case Done(written, e) =>
        store := InsertExecuted(store, Executed(tx, e), written);
        builder := PushTransaction(builder, Executed(tx, e));
        effects := Some(e);
    }

    method SealCheckpoint(next: NewEpoch) returns (checkpoint: CertifiedSummary)
      requires Seal(env, View(), next).Some?
      modifies this
      ensures Some(View()) == Seal(env, old(View()), next)
      ensures checkpoint == builder.previous
    {
      var built := Build(builder, env.keys, epochState.committee, env.clock(store.index), next).value;
      builder := built.builder;
      checkpoint := built.checkpoint;
      store := InsertCheckpoint(store, checkpoint).value;
      store := store.(contents := store.contents[ContentsDigest(built.contents) := built.contents]);
    }

    method CreateCheckpoint() returns (checkpoint: CertifiedSummary)
      requires Apply(env, View(), Operation.CreateCheckpoint).Some?
      modifies this
      ensures Some(View()) == Apply(env, old(View()), Operation.CreateCheckpoint)
      ensures checkpoint == builder.previous
    {
      checkpoint := SealCheckpoint(SameEpoch);
    }

    method NextConsensusRound() returns (round: nat)
      modifies `epochState
      ensures round == old(epochState).nextConsensusRound
      ensures epochState == old(epochState).(nextConsensusRound := round + 1)
    {
      round := epochState.nextConsensusRound;
      epochState := epochState.(nextConsensusRound := round + 1);
    }

    method AdvanceClock(durationMs: nat, outcome: Outcome)
      requires outcome.Done?
      modifies this
      ensures Some(View()) == Apply(env, old(View()), Operation.AdvanceClock(durationMs, outcome))
    {
      var epoch := epochState.epoch;
      var round := NextConsensusRound();
      var kind := ConsensusCommitPrologue(epoch, round, env.clock(store.index) + durationMs);
      var effects := ExecuteTransaction(Transaction(kind, env.hash(kind)), outcome);
    }

    method AdvanceEpoch(outcome: Outcome)
      requires Apply(env, View(), Operation.AdvanceEpoch(outcome)).Some?
      modifies this
      ensures Some(View()) == Apply(env, old(View()), Operation.AdvanceEpoch(outcome))
    {
      var nextEpoch, protocolVersion := epochState.epoch + 1, epochState.protocolVersion;
      var tx := ChangeEpochTransaction(env, View());
      var effects := ExecuteTransaction(tx, outcome);
      var newEpochState := NewEpochState(env.system(store.index));
      var end := EndOfEpochData(newEpochState.committee.votingRights, protocolVersion);
      var checkpoint := SealCheckpoint(Into(nextEpoch, end));
      epochState := newEpochState;
    }
  }
}
