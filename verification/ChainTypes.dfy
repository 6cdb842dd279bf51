/**
 Values shared by the archive and by the simulated chain: checkpoint summaries, their
 contents, committees and gas totals.

 Digests are ideal hashes: a digest is its preimage behind a constructor, so two digests are
 equal exactly when the hashed values are.  A certificate records the committee whose
 members signed it; checking signatures against a committee is comparing the two.
 */
module ChainTypes {

  datatype Option<+T> = None | Some(value: T)

  const U64_MAX: int := 0xFFFF_FFFF_FFFF_FFFF

  type u64 = x: int | 0 <= x <= U64_MAX
  type byte = x: int | 0 <= x < 256

  /** A SHA3-256 value. */
  type Digest = d: seq<byte> | |d| == 32 witness ZERO_DIGEST

  const ZERO_DIGEST: seq<byte> :=
    [0, 0, 0, 0, 0, 0, 0, 0, 0, 0, 0, 0, 0, 0, 0, 0,
     0, 0, 0, 0, 0, 0, 0, 0, 0, 0, 0, 0, 0, 0, 0, 0]

  datatype GasCostSummary = GasCostSummary(
    computationCost: nat, storageCost: nat, storageRebate: nat, nonRefundableStorageFee: nat)
  {
    function Plus(other: GasCostSummary): GasCostSummary {
      GasCostSummary(
        computationCost + other.computationCost,
        storageCost + other.storageCost,
        storageRebate + other.storageRebate,
        nonRefundableStorageFee + other.nonRefundableStorageFee)
    }
  }

  const NO_GAS: GasCostSummary := GasCostSummary(0, 0, 0, 0)

  /** The voting rights map each authority to its stake. */
  datatype Committee = Committee(epoch: nat, votingRights: map<nat, nat>)

  datatype EndOfEpochData = EndOfEpochData(nextEpochCommittee: map<nat, nat>, nextProtocolVersion: nat)

  datatype ExecutionDigests = ExecutionDigests(transaction: nat, effects: nat)

  datatype ContentsDigest = ContentsDigest(of: seq<ExecutionDigests>)

  datatype CheckpointSummary = CheckpointSummary(
    epoch: nat,
    sequenceNumber: nat,
    networkTotalTransactions: nat,
    contentDigest: ContentsDigest,
    previousDigest: Option<SummaryDigest>,
    epochRollingGas: GasCostSummary,
    endOfEpochData: Option<EndOfEpochData>,
    timestampMs: nat)

  datatype SummaryDigest = SummaryDigest(of: CheckpointSummary)

  /** A summary with the committee whose signatures it carries. */
  datatype CertifiedSummary = CertifiedSummary(data: CheckpointSummary, signedBy: Committee)

  /** One executed transaction inside full checkpoint contents; `effectsTransaction` is the
      transaction digest the effects claim to belong to. */
  datatype ExecutionData = ExecutionData(digests: ExecutionDigests, effectsTransaction: nat)

  type Contents = seq<ExecutionData>

  function DigestsOf(c: Contents): seq<ExecutionDigests> {
    seq(|c|, i requires 0 <= i < |c| => c[i].digests)
  }

  datatype Checkpoint = Checkpoint(summary: CertifiedSummary, contents: Contents)

  /** `insert_committee` of both in-memory stores; None where they panic. */
  function InsertCommittee(committees: seq<Committee>, c: Committee): Option<seq<Committee>> {
    if c.epoch < |committees| then Some(committees)
    else if c.epoch == |committees| then Some(committees + [c])
    else None
  }

  function Last<T>(s: seq<T>): T requires s != [] { s[|s| - 1] }
  function Init<T>(s: seq<T>): seq<T> requires s != [] { s[..|s| - 1] }
}
