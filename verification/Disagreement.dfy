/** Where agreement ends: a proposer that is locked on one block and bundles its prevote with another,
    or that drops its lock as stale, can complete a second quorum. A run of four correct engines and one
    faulty validator that holds less than a third of the stake ends with two different blocks finalized
    at one height. */
module Disagreement {
  import opened Sums
  import opened BftTypes
  import opened EngineSpec
  import opened EngineRuns
  import opened EngineLock
  import opened LockedQuorums
  import opened Agreement

  // ---- the cast ----

  /** `first` finalizes the first block. `blind` locks that block without ever seeing it, and proposes
      the second. `both` precommits both. `late` learns of the first quorum too late, and finalizes the
      second block. `liar` is faulty and votes for everything. */
  datatype Cast = Cast(first: Address, blind: Address, both: Address, late: Address, liar: Address,
                       block: Hash, other: Hash)

  const TOTAL: u64 := 13

  /** The active set elects `both` in round 0, and `blind` in rounds 1 and 16. */
  function ActiveSet(p: Cast): Registry {
    Registry([p.first, p.both, p.blind, p.late, p.liar], {})
  }

  function Elected(p: Cast, r: u32): Address {
    if r == 0 then p.both else p.blind
  }

  /** The round of the second proposal. */
  function Later(mode: Mode): u32 {
    if mode.Relaxing? then STALE_LOCK_ROUND_GAP else 1
  }

  lemma Election(p: Cast, r: u32)
    requires r in {0, 1, STALE_LOCK_ROUND_GAP}
    ensures ActiveSet(p).WeightedProposer(1, r) == Some(Elected(p, r))
  {
  }

  predicate Apart(p: Cast) {
    && p.block != p.other
    && p.first != p.blind && p.first != p.both && p.first != p.late && p.blind != p.both && p.blind != p.late
    && p.both != p.late && p.liar != p.first && p.liar != p.blind && p.liar != p.both && p.liar != p.late
  }

  /** The faulty validator holds 4 of 13 units of stake. */
  ghost predicate Plays(c: Config, p: Cast) {
    && Apart(p) && c.honest == {p.first, p.blind, p.both, p.late} && Total(c.table(1)) == TOTAL
    && Weight(c.table(1), p.blind) == 2 && Weight(c.table(1), p.both) == 3
    && Weight(c.table(1), p.late) == 3 && Weight(c.table(1), p.liar) == 4
  }

  // ---- reachable states ----

  ghost predicate Reachable(mode: Mode, c: Config, s: System) {
    exists run :: IsRun(mode, c, run) && run[|run| - 1] == s
  }

  /** What a step that answers `a` makes of the system, apart from a bundled prevote. */
  function After(s: System, i: Address, e': Engine, a: Action): System {
    var net := match a
      case BroadcastPrevote(v) => s.net.(prevotes := s.net.prevotes + {BallotOf(v)})
      case BroadcastPrecommit(v) => s.net.(precommits := s.net.precommits + {BallotOf(v)})
      case _ => s.net;
    System(s.engines[i := e'], net, Decide(s.decisions, i, a))
  }

  lemma Extend(mode: Mode, c: Config, s: System, s': System)
    requires Reachable(mode, c, s) && Step(mode, c, s, s')
    ensures Reachable(mode, c, s')
  {
    var run :| IsRun(mode, c, run) && run[|run| - 1] == s;
    var longer := run + [s'];
    forall k | 0 <= k < |longer| - 1
      ensures StepAt(mode, c, longer, k)
    {
      if k < |run| - 1 {
        assert StepAt(mode, c, run, k);
      }
    }
    assert IsRun(mode, c, longer);
  }

  /** Engine `i` takes an input that is no proposal of its own, and answers `a`. */
  lemma Take(mode: Mode, c: Config, s: System, i: Address, ev: Event, e': Engine, a: Action) returns (s': System)
    requires Reachable(mode, c, s) && i in s.engines && Allowed(mode, c, s.net, s.engines[i], ev)
    requires !ev.EvOwnProposal? && Apply(s.engines[i], ev) == (e', a)
    ensures Reachable(mode, c, s') && s' == After(s, i, e', a)
  {
    s' := Next(mode, s, i, ev);
    Extend(mode, c, s, s');
  }

  // ---- where an engine stands ----

  /** At height 1 in round `r`, with no precommit cast or counted. */
  predicate InRound(e: Engine, i: Address, r: u32) {
    && e.us == i && e.height == 1 && e.round == r && e.total == TOTAL && !e.ourPrecommitCast
    && e.books.precommits == map[] && e.books.precommitTally == map[] && NoBytes(e)
  }

  /** No block was ever stashed. */
  predicate NoBytes(e: Engine) {
    e.lockedBlock == None && e.stagingBlock == None
  }

  predicate LockIs(e: Engine, lock: Option<Hash>) {
    e.lockedHash == lock && e.lockedRound == if lock.Some? then Some(0) else None
  }

  /** In round 0, in whatever phase. */
  predicate StillIn(e: Engine, i: Address, lock: Option<Hash>) {
    e.us == i && e.height == 1 && e.round == 0 && e.total == TOTAL && LockIs(e, lock) && NoBytes(e)
  }

  predicate AtPropose(e: Engine, i: Address, r: u32, lock: Option<Hash>) {
    && InRound(e, i, r) && LockIs(e, lock) && e.phase == Propose && !e.ourPrevoteCast && e.books == NO_VOTES
    && e.pendingPrevote == None && e.pendingPrecommit == None
  }

  predicate AtPrevote(e: Engine, i: Address, r: u32, vote: Option<Hash>) {
    && InRound(e, i, r) && e.phase == Prevote && e.books == NO_VOTES
    && e.pendingPrevote == Some(Vote(1, r, vote, i, [])) && e.pendingPrecommit == None
  }

  predicate AtPrecommit(e: Engine, i: Address, r: u32, x: Hash) {
    && InRound(e, i, r) && e.phase == Precommit && e.lockedHash == Some(x) && e.lockedRound == Some(r)
    && e.pendingPrecommit == Some(Vote(1, r, Some(x), i, []))
  }

  /** Only engine `i` moved. */
  ghost predicate Moves(s: System, i: Address, s': System) {
    && i in s.engines && s'.engines.Keys == s.engines.Keys
    && forall j :: j in s.engines && j != i ==> s'.engines[j] == s.engines[j]
  }

  // ---- one input ----

  lemma TakeCatchUp(mode: Mode, c: Config, s: System, i: Address, target: u32) returns (s': System)
    requires Reachable(mode, c, s) && i in s.engines && s.engines[i].round < target
    ensures Reachable(mode, c, s') && s' == After(s, i, AdvanceRound(s.engines[i]).(round := target), Wait)
  {
    CatchUpLands(s.engines[i], target);
    s' := Take(mode, c, s, i, EvCatchUp(target), AdvanceRound(s.engines[i]).(round := target), Wait);
  }

  lemma TakeTimeout(mode: Mode, c: Config, s: System, i: Address) returns (s': System)
    requires Reachable(mode, c, s) && i in s.engines
    ensures Reachable(mode, c, s') && var (e', a) := OnTimeout(s.engines[i]); s' == After(s, i, e', a)
  {
    var (e', a) := OnTimeout(s.engines[i]);
    s' := Take(mode, c, s, i, EvTimeout, e', a);
  }

  lemma TakeProposal(mode: Mode, c: Config, s: System, i: Address, x: Hash, proposer: Address, reg: Registry)
    returns (s': System)
    requires Reachable(mode, c, s) && i in s.engines && s.engines[i].lockedHash == None
    ensures Reachable(mode, c, s')
    ensures var (e', a) := OnProposal(s.engines[i], x, proposer, reg); s' == After(s, i, e', a)
  {
    var (e', a) := OnProposal(s.engines[i], x, proposer, reg);
    s' := Take(mode, c, s, i, EvProposal(x, proposer, reg), e', a);
  }

  /** A proposer bundles a prevote for its block, whatever its engine then votes. */
  lemma TakeOwnProposal(mode: Mode, c: Config, s: System, i: Address, x: Hash) returns (s': System)
    requires Reachable(mode, c, s) && i in s.engines && s.engines[i].phase == Propose && !s.engines[i].ourPrevoteCast
    requires RelaxApplies(s.engines[i], x) ==> mode.Relaxing?
    requires mode.Unguarded? || mode.Relaxing?
    ensures Reachable(mode, c, s')
    ensures var (e', a) := OnOwnProposal(s.engines[i], x);
            var t := After(s, i, e', a);
            var bundled := if mode.Unguarded? then {BallotOf(OwnVote(s.engines[i], Some(x)))} else {};
            s' == t.(net := t.net.(prevotes := t.net.prevotes + bundled))
  {
    s' := Next(mode, s, i, EvOwnProposal(x));
    var (e', a) := OnOwnProposal(s.engines[i], x);
    assert a.BroadcastPrevote? || a.Wait?;
    Extend(mode, c, s, s');
  }

  /** A vote that faulty validators may send at any time, and correct ones have sent. */
  ghost predicate Deliverable(c: Config, sent: set<Ballot>, v: Vote, stake: nat) {
    Authentic(c, sent, v) && v.height == 1 && Weight(c.table(1), v.validator) == stake
  }

  lemma TakePrevote(mode: Mode, c: Config, s: System, i: Address, v: Vote, stake: nat, pick: Option<Option<Hash>>) returns (s': System)
    requires Reachable(mode, c, s) && i in s.engines && Deliverable(c, s.net.prevotes, v, stake)
    requires IsSupermajority(RecordPrevote(s.engines[i], v, stake).books.prevoteTally, s.engines[i].total, pick)
    ensures Reachable(mode, c, s')
    ensures var (e', a) := OnPrevote(s.engines[i], v, stake, pick); s' == After(s, i, e', a)
  {
    var (e', a) := OnPrevote(s.engines[i], v, stake, pick);
    s' := Take(mode, c, s, i, EvPrevote(v, stake, pick), e', a);
  }

  lemma TakePrecommit(mode: Mode, c: Config, s: System, i: Address, v: Vote, stake: nat, pick: Option<Option<Hash>>) returns (s': System)
    requires Reachable(mode, c, s) && i in s.engines && Deliverable(c, s.net.precommits, v, stake)
    requires IsSupermajority(RecordPrecommit(s.engines[i], v, stake).books.precommitTally,
                             s.engines[i].total, pick)
    ensures Reachable(mode, c, s')
    ensures var (e', a) := OnPrecommit(s.engines[i], v, stake, pick); s' == After(s, i, e', a)
  {
    var (e', a) := OnPrecommit(s.engines[i], v, stake, pick);
    s' := Take(mode, c, s, i, EvPrecommit(v, stake, pick), e', a);
  }

  // ---- the moves ----

  lemma Hear(mode: Mode, c: Config, p: Cast, s: System, i: Address, r: u32, x: Hash) returns (s': System)
    requires Reachable(mode, c, s) && i in s.engines && AtPropose(s.engines[i], i, r, None)
    requires r in {0, 1, STALE_LOCK_ROUND_GAP}
    ensures Reachable(mode, c, s') && Moves(s, i, s') && AtPrevote(s'.engines[i], i, r, Some(x))
    ensures s'.decisions == s.decisions && LockIs(s'.engines[i], None)
    ensures s'.net == s.net.(prevotes := s.net.prevotes + {Ballot(1, r, i, Some(x))})
  {
    Election(p, r);
    s' := TakeProposal(mode, c, s, i, x, Elected(p, r), ActiveSet(p));
  }

  /** A first proposal, from an engine without a lock. */
  lemma ProposeBlock(mode: Mode, c: Config, s: System, i: Address, x: Hash) returns (s': System)
    requires Reachable(mode, c, s) && i in s.engines && AtPropose(s.engines[i], i, 0, None) && !Safe(mode)
    ensures Reachable(mode, c, s') && Moves(s, i, s') && s'.decisions == s.decisions
    ensures AtPrevote(s'.engines[i], i, 0, Some(x)) && Ballot(1, 0, i, Some(x)) in s'.net.prevotes
  {
    s' := TakeOwnProposal(mode, c, s, i, x);
  }

  /** A proposal from an engine locked on another block: it bundles a prevote, or it drops its lock and
      casts one. */
  lemma ProposeOther(mode: Mode, c: Config, s: System, i: Address, x: Hash, lock: Hash) returns (s': System)
    requires Reachable(mode, c, s) && i in s.engines && AtPropose(s.engines[i], i, Later(mode), Some(lock))
    requires lock != x && !Safe(mode)
    ensures Reachable(mode, c, s') && Moves(s, i, s') && s'.decisions == s.decisions
    ensures Ballot(1, Later(mode), i, Some(x)) in s'.net.prevotes
  {
    s' := TakeOwnProposal(mode, c, s, i, x);
  }

  lemma TimeOut(mode: Mode, c: Config, s: System, i: Address, r: u32, lock: Option<Hash>) returns (s': System)
    requires Reachable(mode, c, s) && i in s.engines && AtPropose(s.engines[i], i, r, lock)
    ensures Reachable(mode, c, s') && Moves(s, i, s') && AtPrevote(s'.engines[i], i, r, None) && s'.decisions == s.decisions
    ensures s.net.prevotes <= s'.net.prevotes && s'.net.precommits == s.net.precommits
  {
    s' := TakeTimeout(mode, c, s, i);
  }

  lemma EnterRound(mode: Mode, c: Config, s: System, i: Address, lock: Option<Hash>) returns (s': System)
    requires Reachable(mode, c, s) && i in s.engines && StillIn(s.engines[i], i, lock)
    ensures Reachable(mode, c, s') && Moves(s, i, s') && AtPropose(s'.engines[i], i, Later(mode), lock)
    ensures s'.net == s.net && s'.decisions == s.decisions
  {
    s' := TakeCatchUp(mode, c, s, i, Later(mode));
  }

  function VoteFor(r: u32, a: Address, x: Hash): Vote {
    Vote(1, r, Some(x), a, [])
  }

  function TallyFor(x: Hash, weight: nat): Tally {
    if weight == 0 then map[] else map[Some(x) := weight]
  }

  lemma TallyAdds(x: Hash, weight: nat, stake: nat)
    requires 0 < stake && weight + stake <= TOTAL
    ensures AddWeight(TallyFor(x, weight), Some(x), stake) == TallyFor(x, weight + stake)
  {
  }

  /** Prevotes of `seen` are counted, all for `x`; ours is still `vote` unless it is among them. */
  predicate CountingPrevotes(e: Engine, i: Address, r: u32, x: Hash, vote: Option<Hash>, weight: nat, seen: set<Address>) {
    && InRound(e, i, r) && e.phase == Prevote && e.pendingPrecommit == None
    && (i !in seen ==> e.pendingPrevote == Some(Vote(1, r, vote, i, [])))
    && e.books.prevotes.Keys == seen && e.books.prevoteTally == TallyFor(x, weight)
  }

  lemma CountedPrevote(e: Engine, i: Address, r: u32, x: Hash, vote: Option<Hash>, weight: nat, seen: set<Address>,
                       a: Address, stake: nat)
    requires CountingPrevotes(e, i, r, x, vote, weight, seen)
    requires a !in seen && (a == i ==> vote == Some(x)) && 0 < stake && weight + stake < 9
    ensures IsSupermajority(RecordPrevote(e, VoteFor(r, a, x), stake).books.prevoteTally, e.total, None)
    ensures var (e', act) := OnPrevote(e, VoteFor(r, a, x), stake, None);
            act == Wait && CountingPrevotes(e', i, r, x, vote, weight + stake, seen + {a})
  {
    TallyAdds(x, weight, stake);
  }

  lemma CountPrevoteOf(mode: Mode, c: Config, s: System, i: Address, r: u32, x: Hash, vote: Option<Hash>, weight: nat,
                       seen: set<Address>, a: Address, stake: nat)
    returns (s': System)
    requires Reachable(mode, c, s) && i in s.engines && CountingPrevotes(s.engines[i], i, r, x, vote, weight, seen)
    requires a !in seen && (a == i ==> vote == Some(x)) && 0 < stake && weight + stake < 9
    requires Deliverable(c, s.net.prevotes, VoteFor(r, a, x), stake)
    ensures Reachable(mode, c, s') && Moves(s, i, s') && s'.net == s.net && s'.decisions == s.decisions
    ensures CountingPrevotes(s'.engines[i], i, r, x, vote, weight + stake, seen + {a})
  {
    CountedPrevote(s.engines[i], i, r, x, vote, weight, seen, a, stake);
    s' := TakePrevote(mode, c, s, i, VoteFor(r, a, x), stake, None);
  }

  lemma CompletePrevotes(mode: Mode, c: Config, s: System, i: Address, r: u32, x: Hash, vote: Option<Hash>, weight: nat,
                         seen: set<Address>, a: Address, stake: nat)
    returns (s': System)
    requires Reachable(mode, c, s) && i in s.engines && CountingPrevotes(s.engines[i], i, r, x, vote, weight, seen)
    requires i != a && a !in seen && 0 < stake && 9 <= weight + stake <= TOTAL
    requires Deliverable(c, s.net.prevotes, VoteFor(r, a, x), stake)
    ensures Reachable(mode, c, s') && Moves(s, i, s') && s'.decisions == s.decisions && AtPrecommit(s'.engines[i], i, r, x)
    ensures s'.net == s.net.(precommits := s.net.precommits + {Ballot(1, r, i, Some(x))})
  {
    TallyAdds(x, weight, stake);
    s' := TakePrevote(mode, c, s, i, VoteFor(r, a, x), stake, Some(Some(x)));
  }

  /** Two correct votes and a faulty one, which tips the scale. */
  ghost predicate Trio(c: Config, a: Address, v: nat, b: Address, w: nat, z: Address) {
    && a != b && z !in c.honest && z != a && z != b
    && Weight(c.table(1), a) == v && Weight(c.table(1), b) == w && Weight(c.table(1), z) == 4
    && 2 <= v && 2 <= w && 5 <= v + w < 9
  }

  lemma CountTwo(mode: Mode, c: Config, s: System, i: Address, r: u32, x: Hash, vote: Option<Hash>,
                 a: Address, v: nat, b: Address, w: nat)
    returns (s': System)
    requires Reachable(mode, c, s) && i in s.engines && AtPrevote(s.engines[i], i, r, vote) && a != b
    requires ((a == i || b == i) ==> vote == Some(x)) && 0 < v && 0 < w && v + w < 9
    requires Deliverable(c, s.net.prevotes, VoteFor(r, a, x), v) && Deliverable(c, s.net.prevotes, VoteFor(r, b, x), w)
    ensures Reachable(mode, c, s') && Moves(s, i, s') && s'.net == s.net && s'.decisions == s.decisions
    ensures CountingPrevotes(s'.engines[i], i, r, x, vote, v + w, {} + {a} + {b})
  {
    var s1 := CountPrevoteOf(mode, c, s, i, r, x, vote, 0, {}, a, v);
    s' := CountPrevoteOf(mode, c, s1, i, r, x, vote, v, {} + {a}, b, w);
  }

  /** They lock an engine on `x`. */
  lemma LockOn(mode: Mode, c: Config, s: System, i: Address, r: u32, x: Hash, vote: Option<Hash>,
               a: Address, v: nat, b: Address, w: nat, z: Address)
    returns (s': System)
    requires Reachable(mode, c, s) && i in s.engines && i != z && AtPrevote(s.engines[i], i, r, vote) && Trio(c, a, v, b, w, z)
    requires (a == i || b == i) ==> vote == Some(x)
    requires Ballot(1, r, a, Some(x)) in s.net.prevotes && Ballot(1, r, b, Some(x)) in s.net.prevotes
    ensures Reachable(mode, c, s') && Moves(s, i, s') && s'.decisions == s.decisions && AtPrecommit(s'.engines[i], i, r, x)
    ensures s'.net == s.net.(precommits := s.net.precommits + {Ballot(1, r, i, Some(x))})
  {
    var s1 := CountTwo(mode, c, s, i, r, x, vote, a, v, b, w);
    s' := CompletePrevotes(mode, c, s1, i, r, x, vote, v + w, {} + {a} + {b}, z, 4);
  }

  predicate CountingPrecommits(e: Engine, i: Address, r: u32, x: Hash, weight: nat, seen: set<Address>) {
    && e.us == i && e.height == 1 && e.round == r && e.total == TOTAL
    && (e.pendingPrecommit.Some? ==> e.pendingPrecommit == Some(VoteFor(r, i, x)))
    && e.books.precommits.Keys == seen && e.books.precommitTally == TallyFor(x, weight)
  }

  lemma CountedPrecommit(e: Engine, i: Address, r: u32, x: Hash, weight: nat, seen: set<Address>, a: Address, stake: nat)
    requires CountingPrecommits(e, i, r, x, weight, seen) && a !in seen && 0 < stake && weight + stake < 9
    ensures IsSupermajority(RecordPrecommit(e, VoteFor(r, a, x), stake).books.precommitTally, e.total, None)
    ensures var (e', act) := OnPrecommit(e, VoteFor(r, a, x), stake, None);
            act == Wait && CountingPrecommits(e', i, r, x, weight + stake, seen + {a})
  {
    TallyAdds(x, weight, stake);
  }

  lemma CountPrecommitOf(mode: Mode, c: Config, s: System, i: Address, r: u32, x: Hash, weight: nat, seen: set<Address>,
                         a: Address, stake: nat)
    returns (s': System)
    requires Reachable(mode, c, s) && i in s.engines && CountingPrecommits(s.engines[i], i, r, x, weight, seen)
    requires a !in seen && 0 < stake && weight + stake < 9 && Deliverable(c, s.net.precommits, VoteFor(r, a, x), stake)
    ensures Reachable(mode, c, s') && Moves(s, i, s') && s'.net == s.net && s'.decisions == s.decisions
    ensures CountingPrecommits(s'.engines[i], i, r, x, weight + stake, seen + {a})
  {
    CountedPrecommit(s.engines[i], i, r, x, weight, seen, a, stake);
    s' := TakePrecommit(mode, c, s, i, VoteFor(r, a, x), stake, None);
  }

  lemma CompletePrecommits(mode: Mode, c: Config, s: System, i: Address, r: u32, x: Hash, weight: nat, seen: set<Address>,
                           a: Address, stake: nat)
    returns (s': System)
    requires Reachable(mode, c, s) && i in s.engines && CountingPrecommits(s.engines[i], i, r, x, weight, seen)
    requires i != a && a !in seen && 0 < stake && 9 <= weight + stake <= TOTAL
    requires Deliverable(c, s.net.precommits, VoteFor(r, a, x), stake)
    ensures Reachable(mode, c, s') && Moves(s, i, s') && s'.net == s.net
    ensures s'.decisions == s.decisions + {Decision(i, 1, r, x)}
  {
    TallyAdds(x, weight, stake);
    s' := TakePrecommit(mode, c, s, i, VoteFor(r, a, x), stake, Some(Some(x)));
  }

  lemma CountTwoPrecommits(mode: Mode, c: Config, s: System, i: Address, r: u32, x: Hash,
                           a: Address, v: nat, b: Address, w: nat)
    returns (s': System)
    requires Reachable(mode, c, s) && i in s.engines && CountingPrecommits(s.engines[i], i, r, x, 0, {}) && a != b
    requires 0 < v && 0 < w && v + w < 9
    requires Deliverable(c, s.net.precommits, VoteFor(r, a, x), v) && Deliverable(c, s.net.precommits, VoteFor(r, b, x), w)
    ensures Reachable(mode, c, s') && Moves(s, i, s') && s'.net == s.net && s'.decisions == s.decisions
    ensures CountingPrecommits(s'.engines[i], i, r, x, v + w, {} + {a} + {b})
  {
    var s1 := CountPrecommitOf(mode, c, s, i, r, x, 0, {}, a, v);
    s' := CountPrecommitOf(mode, c, s1, i, r, x, v, {} + {a}, b, w);
  }

  /** Two correct precommits and the faulty one finalize `x`. */
  lemma Finalizes(mode: Mode, c: Config, s: System, i: Address, r: u32, x: Hash, a: Address, v: nat, b: Address, w: nat, z: Address)
    returns (s': System)
    requires Reachable(mode, c, s) && i in s.engines && i != z && Trio(c, a, v, b, w, z)
    requires CountingPrecommits(s.engines[i], i, r, x, 0, {})
    requires Ballot(1, r, a, Some(x)) in s.net.precommits && Ballot(1, r, b, Some(x)) in s.net.precommits
    ensures Reachable(mode, c, s') && Moves(s, i, s') && s'.net == s.net
    ensures s'.decisions == s.decisions + {Decision(i, 1, r, x)}
  {
    var s1 := CountTwoPrecommits(mode, c, s, i, r, x, a, v, b, w);
    s' := CompletePrecommits(mode, c, s1, i, r, x, v + w, {} + {a} + {b}, z, 4);
  }

  // ---- the run ----

  lemma Beginning(mode: Mode, c: Config, p: Cast) returns (s: System)
    requires Plays(c, p)
    ensures Reachable(mode, c, s) && s.engines.Keys == c.honest && s.net == Net({}, {}) && s.decisions == {}
    ensures forall i :: i in s.engines ==> s.engines[i] == NewEngine(1, i, TOTAL)
  {
    s := System(map i | i in c.honest :: NewEngine(1, i, TOTAL), Net({}, {}), {});
    assert IsRun(mode, c, [s]);
    assert [s][|[s]| - 1] == s;
  }

  /** The state of the run, apart from where each engine stands. */
  ghost predicate Stage(mode: Mode, c: Config, p: Cast, s: System) {
    Reachable(mode, c, s) && Plays(c, p) && s.engines.Keys == c.honest
  }

  predicate Sent(sent: set<Ballot>, r: u32, a: Address, x: Hash, b: Address) {
    Ballot(1, r, a, Some(x)) in sent && Ballot(1, r, b, Some(x)) in sent
  }

  /** Round 0: `both` proposes the first block; the others have not moved. */
  ghost predicate FirstProposed(mode: Mode, c: Config, p: Cast, s: System) {
    && Stage(mode, c, p, s) && s.engines[p.first] == NewEngine(1, p.first, TOTAL)
    && AtPrevote(s.engines[p.both], p.both, 0, Some(p.block)) && AtPropose(s.engines[p.blind], p.blind, 0, None)
    && AtPropose(s.engines[p.late], p.late, 0, None) && Ballot(1, 0, p.both, Some(p.block)) in s.net.prevotes
  }

  lemma ProposeFirst(mode: Mode, c: Config, p: Cast) returns (s: System)
    requires Plays(c, p) && !Safe(mode)
    ensures FirstProposed(mode, c, p, s)
  {
    var s0 := Beginning(mode, c, p);
    s := ProposeBlock(mode, c, s0, p.both, p.block);
  }

  /** `late` prevotes it. */
  ghost predicate FirstHeard(mode: Mode, c: Config, p: Cast, s: System) {
    && Stage(mode, c, p, s) && s.engines[p.first] == NewEngine(1, p.first, TOTAL)
    && AtPrevote(s.engines[p.both], p.both, 0, Some(p.block)) && AtPropose(s.engines[p.blind], p.blind, 0, None)
    && AtPrevote(s.engines[p.late], p.late, 0, Some(p.block)) && LockIs(s.engines[p.late], None)
    && Sent(s.net.prevotes, 0, p.both, p.block, p.late)
  }

  lemma HearFirst(mode: Mode, c: Config, p: Cast, s: System) returns (s': System)
    requires FirstProposed(mode, c, p, s)
    ensures FirstHeard(mode, c, p, s')
  {
    s' := Hear(mode, c, p, s, p.late, 0, p.block);
  }

  /** `blind` misses it and votes nil. */
  ghost predicate FirstVotes(mode: Mode, c: Config, p: Cast, s: System) {
    && Stage(mode, c, p, s) && s.engines[p.first] == NewEngine(1, p.first, TOTAL)
    && AtPrevote(s.engines[p.both], p.both, 0, Some(p.block)) && AtPrevote(s.engines[p.blind], p.blind, 0, None)
    && StillIn(s.engines[p.late], p.late, None)
    && Sent(s.net.prevotes, 0, p.both, p.block, p.late)
  }

  lemma MissFirst(mode: Mode, c: Config, p: Cast, s: System) returns (s': System)
    requires FirstHeard(mode, c, p, s)
    ensures FirstVotes(mode, c, p, s')
  {
    s' := TimeOut(mode, c, s, p.blind, 0, None);
  }

  /** `both` locks and precommits it. */
  ghost predicate FirstLock(mode: Mode, c: Config, p: Cast, s: System) {
    && Stage(mode, c, p, s) && s.engines[p.first] == NewEngine(1, p.first, TOTAL)
    && AtPrecommit(s.engines[p.both], p.both, 0, p.block) && AtPrevote(s.engines[p.blind], p.blind, 0, None)
    && StillIn(s.engines[p.late], p.late, None)
    && Sent(s.net.prevotes, 0, p.both, p.block, p.late) && Ballot(1, 0, p.both, Some(p.block)) in s.net.precommits
  }

  lemma LockBoth(mode: Mode, c: Config, p: Cast, s: System) returns (s': System)
    requires FirstVotes(mode, c, p, s)
    ensures FirstLock(mode, c, p, s')
  {
    s' := LockOn(mode, c, s, p.both, 0, p.block, Some(p.block), p.both, 3, p.late, 3, p.liar);
  }

  /** `blind` locks and precommits it, without ever having seen it. */
  ghost predicate FirstQuorum(mode: Mode, c: Config, p: Cast, s: System) {
    && Stage(mode, c, p, s) && StillIn(s.engines[p.both], p.both, Some(p.block))
    && StillIn(s.engines[p.blind], p.blind, Some(p.block)) && StillIn(s.engines[p.late], p.late, None)
  }

  lemma LockBlind(mode: Mode, c: Config, p: Cast, s: System) returns (s': System)
    requires FirstLock(mode, c, p, s)
    ensures FirstQuorum(mode, c, p, s') && s'.engines[p.first] == NewEngine(1, p.first, TOTAL)
    ensures Sent(s'.net.precommits, 0, p.both, p.block, p.blind)
  {
    s' := LockOn(mode, c, s, p.blind, 0, p.block, None, p.both, 3, p.late, 3, p.liar);
  }

  lemma DecideFirst(mode: Mode, c: Config, p: Cast, s: System) returns (s': System)
    requires FirstQuorum(mode, c, p, s) && s.engines[p.first] == NewEngine(1, p.first, TOTAL)
    requires Sent(s.net.precommits, 0, p.both, p.block, p.blind)
    ensures FirstQuorum(mode, c, p, s') && Decision(p.first, 1, 0, p.block) in s'.decisions
  {
    s' := Finalizes(mode, c, s, p.first, 0, p.block, p.blind, 2, p.both, 3, p.liar);
  }

  /** The later round begins. */
  ghost predicate SecondRound(mode: Mode, c: Config, p: Cast, s: System) {
    && Stage(mode, c, p, s)
    && AtPropose(s.engines[p.both], p.both, Later(mode), Some(p.block)) && AtPropose(s.engines[p.blind], p.blind, Later(mode), Some(p.block))
    && AtPropose(s.engines[p.late], p.late, Later(mode), None)
  }

  lemma MoveOn(mode: Mode, c: Config, p: Cast, s: System) returns (s': System)
    requires FirstQuorum(mode, c, p, s)
    ensures SecondRound(mode, c, p, s') && s'.decisions == s.decisions
  {
    var s1 := MoveBlind(mode, c, p, s);
    var s2 := MoveBoth(mode, c, p, s1);
    s' := EnterRound(mode, c, s2, p.late, None);
  }

  lemma MoveBlind(mode: Mode, c: Config, p: Cast, s: System) returns (s': System)
    requires FirstQuorum(mode, c, p, s)
    ensures Stage(mode, c, p, s') && s'.decisions == s.decisions && AtPropose(s'.engines[p.blind], p.blind, Later(mode), Some(p.block))
    ensures StillIn(s'.engines[p.both], p.both, Some(p.block)) && StillIn(s'.engines[p.late], p.late, None)
  {
    s' := EnterRound(mode, c, s, p.blind, Some(p.block));
  }

  lemma MoveBoth(mode: Mode, c: Config, p: Cast, s: System) returns (s': System)
    requires Stage(mode, c, p, s) && AtPropose(s.engines[p.blind], p.blind, Later(mode), Some(p.block))
    requires StillIn(s.engines[p.both], p.both, Some(p.block)) && StillIn(s.engines[p.late], p.late, None)
    ensures Stage(mode, c, p, s') && s'.decisions == s.decisions && StillIn(s'.engines[p.late], p.late, None)
    ensures AtPropose(s'.engines[p.blind], p.blind, Later(mode), Some(p.block)) && AtPropose(s'.engines[p.both], p.both, Later(mode), Some(p.block))
  {
    s' := EnterRound(mode, c, s, p.both, Some(p.block));
  }

  /** `blind`, locked on the first block, proposes another one, and a prevote of its counts for it. */
  ghost predicate SecondProposed(mode: Mode, c: Config, p: Cast, s: System) {
    && Stage(mode, c, p, s)
    && AtPropose(s.engines[p.both], p.both, Later(mode), Some(p.block)) && AtPropose(s.engines[p.late], p.late, Later(mode), None)
    && Ballot(1, Later(mode), p.blind, Some(p.other)) in s.net.prevotes
  }

  lemma ProposeSecond(mode: Mode, c: Config, p: Cast, s: System) returns (s': System)
    requires SecondRound(mode, c, p, s) && !Safe(mode)
    ensures SecondProposed(mode, c, p, s') && s'.decisions == s.decisions
  {
    s' := ProposeOther(mode, c, s, p.blind, p.other, p.block);
  }

  /** `late` votes for it, `both` votes nil. */
  ghost predicate SecondVotes(mode: Mode, c: Config, p: Cast, s: System) {
    && Stage(mode, c, p, s)
    && AtPrevote(s.engines[p.both], p.both, Later(mode), None) && AtPrevote(s.engines[p.late], p.late, Later(mode), Some(p.other))
    && Sent(s.net.prevotes, Later(mode), p.blind, p.other, p.late)
  }

  lemma VoteOnSecond(mode: Mode, c: Config, p: Cast, s: System) returns (s': System)
    requires SecondProposed(mode, c, p, s)
    ensures SecondVotes(mode, c, p, s') && s'.decisions == s.decisions
  {
    var s1 := HearSecond(mode, c, p, s);
    s' := TimeOut(mode, c, s1, p.both, Later(mode), Some(p.block));
  }

  lemma HearSecond(mode: Mode, c: Config, p: Cast, s: System) returns (s': System)
    requires SecondProposed(mode, c, p, s)
    ensures Stage(mode, c, p, s') && s'.decisions == s.decisions && AtPropose(s'.engines[p.both], p.both, Later(mode), Some(p.block))
    ensures AtPrevote(s'.engines[p.late], p.late, Later(mode), Some(p.other)) && Sent(s'.net.prevotes, Later(mode), p.blind, p.other, p.late)
  {
    s' := Hear(mode, c, p, s, p.late, Later(mode), p.other);
  }

  /** `both` and `late` lock and precommit it, `late` finalizes it. */
  lemma DecideSecond(mode: Mode, c: Config, p: Cast, s: System) returns (s': System)
    requires SecondVotes(mode, c, p, s)
    ensures Reachable(mode, c, s') && s'.decisions == s.decisions + {Decision(p.late, 1, Later(mode), p.other)}
  {
    var s1 := LockOn(mode, c, s, p.both, Later(mode), p.other, None, p.blind, 2, p.late, 3, p.liar);
    var s2 := LockOn(mode, c, s1, p.late, Later(mode), p.other, Some(p.other), p.blind, 2, p.late, 3, p.liar);
    s' := Finalizes(mode, c, s2, p.late, Later(mode), p.other, p.both, 3, p.late, 3, p.liar);
  }

  /** Both rounds together. */
  lemma TwoDecisions(mode: Mode, c: Config, p: Cast) returns (s: System)
    requires Plays(c, p) && !Safe(mode)
    ensures Reachable(mode, c, s)
    ensures Decision(p.first, 1, 0, p.block) in s.decisions && Decision(p.late, 1, Later(mode), p.other) in s.decisions
  {
    var s1 := ProposeFirst(mode, c, p);
    var s2 := HearFirst(mode, c, p, s1);
    var s3 := MissFirst(mode, c, p, s2);
    var s4 := LockBoth(mode, c, p, s3);
    var s5 := LockBlind(mode, c, p, s4);
    var s6 := DecideFirst(mode, c, p, s5);
    var s7 := MoveOn(mode, c, p, s6);
    var s8 := ProposeSecond(mode, c, p, s7);
    var s9 := VoteOnSecond(mode, c, p, s8);
    s := DecideSecond(mode, c, p, s9);
  }

  /** Five validators, of which one is faulty with 4 of 13 units of stake. */
  lemma FiveValidators() returns (c: Config, p: Cast)
    ensures ValidConfig(c) && Plays(c, p)
  {
    p := Cast(Address("first"), Address("blind"), Address("both"), Address("late"), Address("liar"),
              Hash("block"), Hash("other"));
    var m0: map<Address, nat> := map[];
    var m1 := m0[p.first := 1];
    var m2 := m1[p.blind := 2];
    var m3 := m2[p.both := 3];
    var m4 := m3[p.late := 3];
    var stakes := m4[p.liar := 4];
    TotalUpdate(m0, p.first, 1);
    TotalUpdate(m1, p.blind, 2);
    TotalUpdate(m2, p.both, 3);
    TotalUpdate(m3, p.late, 3);
    TotalUpdate(m4, p.liar, 4);
    c := Config({p.first, p.blind, p.both, p.late}, h => stakes);
    SumRemove({p.liar}, stakes, p.liar);
    assert {p.liar} - {p.liar} == {};
    assert forall h: nat :: Faulty(c, h) == {p.liar};
  }

  /** Without the guard, or with the relaxation, agreement fails: less than a third of the stake is
      faulty, nobody restarts, and two correct engines finalize different blocks at one height. */
  lemma AgreementFails(mode: Mode) returns (c: Config, run: seq<System>, d: Decision, d': Decision)
    requires !Safe(mode)
    ensures ValidConfig(c) && IsRun(mode, c, run)
    ensures d in run[|run| - 1].decisions && d' in run[|run| - 1].decisions && d.height == d'.height && d.hash != d'.hash
  {
    var p;
    c, p := FiveValidators();
    var s := TwoDecisions(mode, c, p);
    run :| IsRun(mode, c, run) && run[|run| - 1] == s;
    d, d' := Decision(p.first, 1, 0, p.block), Decision(p.late, 1, Later(mode), p.other);
  }

  /** No two decisions of one height differ. */
  ghost predicate OneBlockPerHeight(s: System) {
    forall d, d' :: d in s.decisions && d' in s.decisions && d.height == d'.height ==> d.hash == d'.hash
  }

  ghost predicate Agrees(mode: Mode) {
    forall c: Config, run: seq<System>, k: nat ::
      ValidConfig(c) && IsRun(mode, c, run) && k < |run| ==> OneBlockPerHeight(run[k])
  }

  /** Exactly: the engines agree in every run if and only if no proposer bundles a prevote while it is
      locked on another block, and no lock is dropped as stale. */
  lemma AgreementIff(mode: Mode)
    ensures Agrees(mode) <==> Safe(mode)
  {
    if !Safe(mode) {
      var c, run, d, d' := AgreementFails(mode);
      assert !OneBlockPerHeight(run[|run| - 1]);
    } else {
      forall c: Config, run: seq<System>, k: nat | ValidConfig(c) && IsRun(mode, c, run) && k < |run|
        ensures OneBlockPerHeight(run[k])
      {
        forall d, d' | d in run[k].decisions && d' in run[k].decisions && d.height == d'.height
          ensures d.hash == d'.hash
        {
          Agreement.Agreement(mode, c, run, k, d, d');
        }
      }
    }
  }
}
