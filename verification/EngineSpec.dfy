/** The consensus engine as a function from states and inputs to states and actions.
    `BftEngine` implements these functions in place; the theorems are about them. */
module EngineSpec {
  import opened Sums
  import opened BftTypes
  import RoundSkip

  type Tally = map<Option<Hash>, nat>

  /** The votes counted in the current round, one per validator, and the weight per hash. */
  datatype Books = Books(
    prevotes: map<Address, (Option<Hash>, nat)>,
    precommits: map<Address, (Option<Hash>, Bytes, nat)>,
    prevoteTally: Tally,
    precommitTally: Tally)

  /** The highest round each peer reported at this height, with its stake. */
  datatype PeerBook = PeerBook(rounds: map<Address, (u32, nat)>)

  /** One engine: the round scratchpad, the vote collector, the votes that were emitted
      but not yet fed back, and what peers reported. */
  datatype Engine = Engine(
    us: Address,
    height: nat,
    round: u32,
    phase: Phase,
    proposedHash: Option<Hash>,
    ourPrevoteCast: bool,
    ourPrecommitCast: bool,
    lockedHash: Option<Hash>,
    lockedRound: Option<u32>,
    lockedBlock: Option<Bytes>,
    stagingBlock: Option<(Hash, Bytes)>,
    total: u64,
    pendingPrevote: Option<Vote>,
    pendingPrecommit: Option<Vote>,
    books: Books,
    peers: PeerBook)

  const NO_VOTES: Books := Books(map[], map[], map[], map[])

  function NewEngine(height: nat, us: Address, total: u64): Engine {
    Engine(us, height, 0, Propose, None, false, false, None, None, None, None, total, None, None,
           NO_VOTES, PeerBook(map[]))
  }

  /** A new height forgets everything, the lock included. */
  function NewHeight(e: Engine, height: nat, total: u64): Engine {
    NewEngine(height, e.us, total)
  }

  /** The round counter saturates; votes, cast flags, staging and pending votes are
      cleared, while the lock and its cached bytes survive. */
  function AdvanceRound(e: Engine): Engine {
    e.(round := if e.round < U32_MAX then e.round + 1 else e.round,
       phase := Propose, proposedHash := None, ourPrevoteCast := false, ourPrecommitCast := false,
       stagingBlock := None, pendingPrevote := None, pendingPrecommit := None, books := NO_VOTES)
  }

  function CatchUpRound(e: Engine, target: u32): Engine
    decreases target - e.round
  {
    if target <= e.round then e else CatchUpRound(AdvanceRound(e), target)
  }

  function EmitPrevote(e: Engine, v: Vote): (Engine, Action) {
    if e.pendingPrevote.Some? && e.pendingPrevote.value.height == v.height
       && e.pendingPrevote.value.round == v.round && e.pendingPrevote.value.validator == v.validator
    then (e, if e.pendingPrevote.value == v then BroadcastPrevote(v) else Wait)
    else (e.(pendingPrevote := Some(v)), BroadcastPrevote(v))
  }

  function EmitPrecommit(e: Engine, v: Vote): (Engine, Action) {
    if e.pendingPrecommit.Some? && e.pendingPrecommit.value.height == v.height
       && e.pendingPrecommit.value.round == v.round && e.pendingPrecommit.value.validator == v.validator
    then (e, if e.pendingPrecommit.value == v then BroadcastPrecommit(v) else Wait)
    else (e.(pendingPrecommit := Some(v)), BroadcastPrecommit(v))
  }

  /** Our own unsigned vote at the current height and round. */
  function OwnVote(e: Engine, hash: Option<Hash>): Vote {
    Vote(e.height, e.round, hash, e.us, [])
  }

  /** The stale-lock relaxation applies: locked elsewhere, no bytes cached, old enough. */
  predicate RelaxApplies(e: Engine, hash: Hash) {
    e.lockedHash.Some? && e.lockedRound.Some? && e.lockedHash.value != hash && e.lockedBlock.None?
    && e.round - e.lockedRound.value >= STALE_LOCK_ROUND_GAP
  }

  function Relax(e: Engine, hash: Hash): Engine {
    if RelaxApplies(e, hash) then e.(lockedHash := None, lockedRound := None, stagingBlock := None) else e
  }

  /** The vote an engine casts on a proposal: nil when it is locked on another hash. */
  function VoteOn(e: Engine, hash: Hash): Option<Hash> {
    if e.lockedHash.Some? && e.lockedHash.value != hash then None else Some(hash)
  }

  function AcceptProposal(e: Engine, hash: Hash): (Engine, Action) {
    var e1 := Relax(e, hash).(proposedHash := Some(hash), phase := Prevote);
    if e1.ourPrevoteCast then (e1, Wait) else EmitPrevote(e1, OwnVote(e1, VoteOn(e1, hash)))
  }

  /** A pending prevote for exactly this hash is emitted again. */
  predicate RetriesPrevote(e: Engine, hash: Hash) {
    e.pendingPrevote.Some? && e.pendingPrevote.value.height == e.height
    && e.pendingPrevote.value.round == e.round && e.pendingPrevote.value.hash == Some(hash)
  }

  function OnOwnProposal(e: Engine, hash: Hash): (Engine, Action) {
    if RetriesPrevote(e, hash) then (e, BroadcastPrevote(e.pendingPrevote.value))
    else if e.phase != Propose then (e, Wait)
    else AcceptProposal(e, hash)
  }

  function OnProposal(e: Engine, hash: Hash, proposer: Address, reg: Registry): (Engine, Action) {
    if RetriesPrevote(e, hash) then (e, BroadcastPrevote(e.pendingPrevote.value))
    else if e.phase != Propose then (e, Wait)
    else if reg.WeightedProposer(e.height, e.round) != Some(proposer) then (e, Wait)
    else if proposer in reg.barred then (e, Wait)
    else AcceptProposal(e, hash)
  }

  /** Adding to a tally is 64-bit addition. */
  function AddWeight(t: Tally, hash: Option<Hash>, stake: nat): Tally {
    t[hash := (Weight(t, hash) + stake) % (U64_MAX + 1)]
  }

  /** `pick` is an answer the tally scan may give: some entry at the threshold, if there is one. */
  predicate IsSupermajority(t: Tally, total: u64, pick: Option<Option<Hash>>) {
    match pick
    case Some(hash) => hash in t && t[hash] >= SupermajorityThreshold(total)
    case None => forall hash :: hash in t ==> t[hash] < SupermajorityThreshold(total)
  }

  /** Whether a received prevote is counted: current, not in conflict with our own pending
      vote, and the first from its validator. */
  predicate CountsPrevote(e: Engine, v: Vote) {
    v.height == e.height && v.round == e.round
    && !(v.validator == e.us && e.pendingPrevote.Some? && e.pendingPrevote.value != v)
    && v.validator !in e.books.prevotes
  }

  predicate CountsPrecommit(e: Engine, v: Vote) {
    v.height == e.height && v.round == e.round
    && !(v.validator == e.us && e.pendingPrecommit.Some? && e.pendingPrecommit.value != v)
    && v.validator !in e.books.precommits
  }

  /** Our own vote coming back unchanged settles the pending slot. */
  function SettlePrevote(e: Engine, v: Vote): Engine {
    if v.height == e.height && v.round == e.round && v.validator == e.us && e.pendingPrevote == Some(v)
    then e.(pendingPrevote := None) else e
  }

  function SettlePrecommit(e: Engine, v: Vote): Engine {
    if v.height == e.height && v.round == e.round && v.validator == e.us && e.pendingPrecommit == Some(v)
    then e.(pendingPrecommit := None) else e
  }

  function RecordPrevote(e: Engine, v: Vote, stake: nat): Engine {
    e.(books := e.books.(prevotes := e.books.prevotes[v.validator := (v.hash, stake)],
                         prevoteTally := AddWeight(e.books.prevoteTally, v.hash, stake)))
  }

  function RecordPrecommit(e: Engine, v: Vote, stake: nat): Engine {
    e.(books := e.books.(precommits := e.books.precommits[v.validator := (v.hash, v.signature, stake)],
                         precommitTally := AddWeight(e.books.precommitTally, v.hash, stake)))
  }

  /** The lock moves to `hash`; cached bytes survive only if they belong to it, and bytes
      staged under it are promoted. */
  function Lock(e: Engine, hash: Hash): Engine {
    var kept := if e.lockedHash == Some(hash) then e.lockedBlock else None;
    var promoted := if e.stagingBlock.Some? && e.stagingBlock.value.0 == hash
                    then Some(e.stagingBlock.value.1) else kept;
    e.(lockedHash := Some(hash), lockedRound := Some(e.round), lockedBlock := promoted, stagingBlock := None)
  }

  /** The prevote supermajority fires: move to precommit, lock on a block, and precommit it. */
  function EnterPrecommit(e: Engine, hash: Option<Hash>): (Engine, Action) {
    var e1 := e.(phase := Precommit);
    var e2 := if hash.Some? then Lock(e1, hash.value) else e1;
    if e2.ourPrecommitCast then (e2, Wait) else EmitPrecommit(e2, OwnVote(e2, hash))
  }

  function OnPrevote(e: Engine, v: Vote, stake: nat, pick: Option<Option<Hash>>): (Engine, Action) {
    var e1 := SettlePrevote(e, v);
    if !CountsPrevote(e, v) then (e1, Wait)
    else
      var e2 := RecordPrevote(e1, v, stake);
      if pick.Some? && e2.phase == Prevote then EnterPrecommit(e2, pick.value) else (e2, Wait)
  }

  /** The recorded precommits for one hash. */
  function Justification(b: Books, hash: Hash): map<Address, SignedPrecommit> {
    map a | a in b.precommits && b.precommits[a].0 == Some(hash) :: SignedPrecommit(b.precommits[a].1, b.precommits[a].2)
  }

  function OnPrecommit(e: Engine, v: Vote, stake: nat, pick: Option<Option<Hash>>): (Engine, Action) {
    var e1 := SettlePrecommit(e, v);
    if !CountsPrecommit(e, v) then (e1, Wait)
    else
      var e2 := RecordPrecommit(e1, v, stake);
      match pick
      case None => (e2, Wait)
      case Some(None) => (e2, SkipRound)
      case Some(Some(hash)) =>
        (e2.(phase := Finalize), FinalizeBlock(e2.height, e2.round, hash, Justification(e2.books, hash)))
  }

  function OnTimeout(e: Engine): (Engine, Action) {
    if e.pendingPrevote.Some? then (e, BroadcastPrevote(e.pendingPrevote.value))
    else if e.pendingPrecommit.Some? then (e, BroadcastPrecommit(e.pendingPrecommit.value))
    else match e.phase
      case Propose =>
        var e1 := e.(phase := Prevote);
        if e1.ourPrevoteCast then (e1, Wait) else EmitPrevote(e1, OwnVote(e1, None))
      case Prevote =>
        var e1 := e.(phase := Precommit);
        if e1.ourPrecommitCast then (e1, Wait) else EmitPrecommit(e1, OwnVote(e1, None))
      case Precommit => (e, if e.round >= MAX_ROUND then SkipRound else TimeoutAdvanceRound)
      case Finalize => (e, Wait)
  }

  /** A peer's stake is always refreshed; its round only ever goes up. */
  function NotePeer(e: Engine, peer: Address, round: u32, stake: nat): Engine {
    var seen: u32 := if peer in e.peers.rounds then e.peers.rounds[peer].0 else 0;
    e.(peers := PeerBook(e.peers.rounds[peer := (if round >= seen then round else seen, stake)]))
  }

  /** The f+1 round skip; `target` is what the peer scan found after noting the peer. */
  function OnRoundStatus(e: Engine, height: nat, round: u32, peer: Address, stake: nat, target: Option<u32>)
    : (Engine, Action)
  {
    if height > e.height then (e, SyncNeeded(height))
    else if height < e.height then (e, Wait)
    else
      var e1 := NotePeer(e, peer, round, stake);
      if target.Some? && target.value > e1.round then (CatchUpRound(e1, target.value), Wait) else (e1, Wait)
  }

  function Stash(e: Engine, hash: Hash, bytes: Bytes): Engine {
    e.(stagingBlock := Some((hash, bytes)))
  }

  function LockedProposalBytes(e: Engine): Option<(Hash, Bytes)> {
    if e.lockedHash.Some? && e.lockedBlock.Some? then Some((e.lockedHash.value, e.lockedBlock.value)) else None
  }

  /** Everything a driver can do to an engine. Votes carry the stake the registry gave and
      the answer of the tally scan; round statuses carry the answer of the peer scan. */
  datatype Event =
    | EvNewHeight(height: nat, total: u64)
    | EvAdvanceRound
    | EvCatchUp(target: u32)
    | EvProposal(hash: Hash, proposer: Address, reg: Registry)
    | EvOwnProposal(hash: Hash)
    | EvPrevote(vote: Vote, stake: nat, pick: Option<Option<Hash>>)
    | EvPrecommit(vote: Vote, stake: nat, pick: Option<Option<Hash>>)
    | EvTimeout
    | EvRoundStatus(peerHeight: nat, round: u32, peer: Address, stake: nat, skip: Option<u32>)
    | EvStash(hash: Hash, bytes: Bytes)
    | EvMarkPrevote
    | EvMarkPrecommit

  function Apply(e: Engine, ev: Event): (Engine, Action) {
    match ev
    case EvNewHeight(h, total) => (NewHeight(e, h, total), Wait)
    case EvAdvanceRound => (AdvanceRound(e), Wait)
    case EvCatchUp(target) => (CatchUpRound(e, target), Wait)
    case EvProposal(hash, proposer, reg) => OnProposal(e, hash, proposer, reg)
    case EvOwnProposal(hash) => OnOwnProposal(e, hash)
    case EvPrevote(v, stake, pick) => OnPrevote(e, v, stake, pick)
    case EvPrecommit(v, stake, pick) => OnPrecommit(e, v, stake, pick)
    case EvTimeout => OnTimeout(e)
    case EvRoundStatus(h, r, peer, stake, target) => OnRoundStatus(e, h, r, peer, stake, target)
    case EvStash(hash, bytes) => (Stash(e, hash, bytes), Wait)
    case EvMarkPrevote => (e.(ourPrevoteCast := true), Wait)
    case EvMarkPrecommit => (e.(ourPrecommitCast := true), Wait)
  }

  /** The driver proposes on entering a round, when nothing has been cast in it. */
  predicate Proposes(e: Engine, ev: Event) {
    ev.EvOwnProposal? && e.phase == Propose && !e.ourPrevoteCast
  }

  /** The scan answers carried by an event are answers the scans can give. */
  ghost predicate Answerable(e: Engine, ev: Event) {
    match ev
    case EvPrevote(v, stake, pick) =>
      CountsPrevote(e, v) ==> IsSupermajority(RecordPrevote(e, v, stake).books.prevoteTally, e.total, pick)
    case EvPrecommit(v, stake, pick) =>
      CountsPrecommit(e, v) ==> IsSupermajority(RecordPrecommit(e, v, stake).books.precommitTally, e.total, pick)
    case EvRoundStatus(h, r, peer, stake, target) =>
      h == e.height ==>
        RoundSkip.IsScanAnswer(NotePeer(e, peer, r, stake).peers.rounds, e.round, e.total, FPlusOneThreshold(e.total), target)
    case _ => true
  }
}
