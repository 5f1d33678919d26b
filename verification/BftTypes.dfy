/** Vocabulary of the consensus engine: votes, phases, actions, the slice of the
    stake registry it reads, and the supermajority arithmetic. */
module BftTypes {
  import opened Sums

  datatype Address = Address(text: string)
  datatype Hash = Hash(text: string)
  type byte = n: nat | n < 256
  type Bytes = seq<byte>

  const U32_MAX: nat := 0xFFFF_FFFF
  const U64_MAX: nat := 0xFFFF_FFFF_FFFF_FFFF

  type u32 = n: nat | n <= U32_MAX
  type u64 = n: nat | n <= U64_MAX

  datatype Option<+T> = None | Some(value: T)

  predicate Distinct<T(==)>(s: seq<T>) {
    forall i, j :: 0 <= i < j < |s| ==> s[i] != s[j]
  }

  /** The content of a prevote or of a precommit; a `None` hash is a nil vote. */
  datatype Vote = Vote(height: nat, round: u32, hash: Option<Hash>, validator: Address, signature: Bytes)

  datatype Phase = Propose | Prevote | Precommit | Finalize

  /** A precommit as it is stored in a block justification. */
  datatype SignedPrecommit = SignedPrecommit(signature: Bytes, stake: nat)

  /** What the engine asks its driver to do. The justification vector is kept as a
      map, because the engine fills it in the iteration order of a hash map. */
  datatype Action =
    | BroadcastPrevote(vote: Vote)
    | BroadcastPrecommit(vote: Vote)
    | FinalizeBlock(height: nat, round: u32, hash: Hash, justification: map<Address, SignedPrecommit>)
    | SkipRound
    | TimeoutAdvanceRound
    | Wait
    | SyncNeeded(peerHeight: nat)

  /** The two questions the engine asks the stake registry about a proposer. */
  datatype Registry = Registry(activeSet: seq<Address>, barred: set<Address>) {
    function WeightedProposer(height: nat, round: u32): Option<Address> {
      if activeSet == [] then None
      else Some(activeSet[((height + round) % (U64_MAX + 1)) % |activeSet|])
    }
  }

  /** Rounds past this one are given up on by the timeout handler. */
  const MAX_ROUND: u32 := 100

  /** Age in rounds at which a lock without cached bytes is dropped. */
  const STALE_LOCK_ROUND_GAP: nat := 16

  /** 2/3 + 1 of the stake, in the wide arithmetic of the node. */
  function SupermajorityThreshold(total: u64): (t: u64)
    ensures 3 * t > 2 * total >= 3 * (t - 1)
  {
    total * 2 / 3 + 1
  }

  /** The least stake that exceeds one third. */
  function FPlusOneThreshold(total: u64): (t: u64)
    ensures 3 * t > total >= 3 * (t - 1)
  {
    total / 3 + 1
  }

  /** Any two sets of signers that both reach the threshold share at least
      total / 3 + 1 stake, whatever the stake table is. */
  lemma QuorumIntersection(table: map<Address, nat>, a: set<Address>, b: set<Address>)
    requires Total(table) <= U64_MAX
    requires Sum(a, table) >= SupermajorityThreshold(Total(table))
    requires Sum(b, table) >= SupermajorityThreshold(Total(table))
    ensures Sum(a * b, table) >= FPlusOneThreshold(Total(table))
  {
    SumUnion(a, b, table);
    SumWithin(a + b, table);
  }

  /** Two quorums meet outside any set of faulty signers that holds at most a third. */
  lemma QuorumsShareCorrect(table: map<Address, nat>, a: set<Address>, b: set<Address>, faulty: set<Address>)
    returns (v: Address)
    requires 3 * Sum(a, table) > 2 * Total(table) && 3 * Sum(b, table) > 2 * Total(table)
    requires 3 * Sum(faulty, table) <= Total(table)
    ensures v in a && v in b && v !in faulty
  {
    SumUnion(a, b, table);
    SumWithin(a + b, table);
    SumUnion((a * b) - faulty, (a * b) * faulty, table);
    assert ((a * b) - faulty) + ((a * b) * faulty) == a * b;
    assert ((a * b) - faulty) * ((a * b) * faulty) == {};
    SumMonotone((a * b) * faulty, faulty, table);
    v := SumPositive((a * b) - faulty, table);
  }
}
