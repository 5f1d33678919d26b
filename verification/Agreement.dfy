/** Agreement of the network: any number of engines, delivery in any order, with any loss,
    delay and duplication, and faulty validators that hold at most a third of the stake and
    say anything to anyone. Two correct engines never finalize different blocks at one height. */
module Agreement {
  import opened Sums
  import opened BftTypes
  import opened EngineSpec
  import opened EngineRuns
  import opened EngineLock
  import opened Tallies
  import opened LockedQuorums

  // ---- one engine against the ballots sent so far ----

  /** Votes of correct validators in an engine's books were really sent, in its round. */
  ghost predicate BooksSent(c: Config, net: Net, e: Engine) {
    && (forall a :: a in e.books.prevotes && a in c.honest ==>
          Ballot(e.height, e.round, a, e.books.prevotes[a].0) in net.prevotes)
    && (forall a :: a in e.books.precommits && a in c.honest ==>
          Ballot(e.height, e.round, a, e.books.precommits[a].0) in net.precommits)
  }

  ghost predicate OwnPast(net: Net, e: Engine) {
    && (forall b :: b in net.prevotes && b.validator == e.us ==> Left(e, b.height, b.round, 0))
    && (forall b :: b in net.precommits && b.validator == e.us ==> Left(e, b.height, b.round, 1))
  }

  ghost predicate PendingSent(net: Net, e: Engine) {
    && (e.pendingPrevote.Some? ==> BallotOf(e.pendingPrevote.value) in net.prevotes)
    && (e.pendingPrecommit.Some? ==> BallotOf(e.pendingPrecommit.value) in net.precommits)
  }

  /** A lock stands on a prevote quorum, and covers every block this engine precommitted. */
  ghost predicate LockStands(c: Config, net: Net, e: Engine) {
    && (e.lockedHash.Some? && e.lockedRound.Some? ==>
          Quorum(c, net.prevotes, e.height, e.lockedRound.value, e.lockedHash.value))
    && (forall b :: b in net.precommits && b.validator == e.us && b.height == e.height && b.hash.Some? ==>
          && e.lockedRound.Some? && e.lockedRound.value >= b.round
          && (e.lockedRound.value == b.round ==> e.lockedHash == b.hash))
  }

  ghost predicate Weighted(c: Config, e: Engine) {
    Total(c.table(e.height)) <= U64_MAX && e.total == Total(c.table(e.height)) && BooksExact(e.books, c.table(e.height))
  }

  ghost predicate LocalInv(c: Config, net: Net, e: Engine) {
    && WellFormed(e) && e.us in c.honest && Weighted(c, e)
    && BooksSent(c, net, e) && OwnPast(net, e) && PendingSent(net, e) && LockStands(c, net, e)
  }

  // ---- the premises on a step ----

  /** A vote under a correct validator's name was sent by it. */
  predicate Authentic(c: Config, sent: set<Ballot>, v: Vote) {
    v.validator in c.honest ==> BallotOf(v) in sent
  }

  /** How a proposal travels: without a vote; with the proposer's own prevote bundled, but then
      only from an engine that is not locked on another block; or bundled in any case, which is
      what the node does when it is locked without cached bytes. `Relaxing` is `Plain` with the
      stale-lock relaxation. */
  datatype Mode = Plain | Guarded | Unguarded | Relaxing

  predicate Bundles(mode: Mode) {
    mode.Guarded? || mode.Unguarded?
  }

  predicate Safe(mode: Mode) {
    mode.Plain? || mode.Guarded?
  }

  /** What may happen to a correct engine: scans answer truthfully, votes are authentic and
      weighed by the table of their height, heights go up and the round counter has room. Nothing
      is said about order, timing or content. */
  ghost predicate Allowed(mode: Mode, c: Config, net: Net, e: Engine, ev: Event) {
    && Admissible(e, ev) && Answerable(e, ev) && (LockRelaxed(e, ev) ==> mode.Relaxing?)
    && (ev.EvNewHeight? ==> Total(c.table(ev.height)) <= U64_MAX && ev.total == Total(c.table(ev.height)))
    && (ev.EvPrevote? ==> Authentic(c, net.prevotes, ev.vote))
    && (ev.EvPrecommit? ==> Authentic(c, net.precommits, ev.vote))
    && (ev.EvPrevote? || ev.EvPrecommit? ==> ev.stake == Weight(c.table(ev.vote.height), ev.vote.validator))
    && (mode.Guarded? && ev.EvOwnProposal? ==> !LockedElsewhere(e, ev.hash))
  }

  /** What a proposer can test before it proposes. */
  predicate LockedElsewhere(e: Engine, hash: Hash) {
    e.lockedHash.Some? && e.lockedHash.value != hash
  }

  /** The prevote for its own block that a proposer bundles with the proposal, unsigned. */
  function EmbeddedPrevote(e: Engine, hash: Hash): Vote {
    OwnVote(e, Some(hash))
  }

  /** The bundled prevote is the vote the engine then casts, if and only if the engine is not
      locked on another block (or drops that lock as stale). */
  lemma EmbeddedPrevoteAgrees(e: Engine, hash: Hash)
    requires WellFormed(e) && e.phase == Propose && !e.ourPrevoteCast
    ensures OnOwnProposal(e, hash).1 == BroadcastPrevote(EmbeddedPrevote(e, hash))
       <==> (LockedElsewhere(e, hash) ==> RelaxApplies(e, hash))
  {
  }

  /** The ballots a step puts on the network: those the engine emits, and a bundled prevote. */
  function Broadcast(mode: Mode, net: Net, e: Engine, ev: Event): Net {
    var a := Apply(e, ev).1;
    var bundled := if Bundles(mode) && Proposes(e, ev) then {BallotOf(EmbeddedPrevote(e, ev.hash))} else {};
    match a
    case BroadcastPrevote(v) => net.(prevotes := net.prevotes + {BallotOf(v)} + bundled)
    case BroadcastPrecommit(v) => net.(precommits := net.precommits + {BallotOf(v)})
    case _ => net.(prevotes := net.prevotes + bundled)
  }

  // ---- what a step does to the network ----

  /** A step sends nothing new, or one ballot: ours, cast now. */
  ghost predicate SendsAtMost(net: Net, net': Net, e: Engine, e': Engine) {
    || net' == net
    || (exists x :: CastsPrevote(net, net', e, e', x))
    || (exists x :: CastsPrecommit(net, net', e, e', x))
  }

  ghost predicate CastsPrevote(net: Net, net': Net, e: Engine, e': Engine, x: Option<Hash>) {
    net' == net.(prevotes := net.prevotes + {BallotOf(OwnVote(e, x))})
    && IsCastNow(e, e', Emission(PrevoteKind, OwnVote(e, x)))
  }

  ghost predicate CastsPrecommit(net: Net, net': Net, e: Engine, e': Engine, x: Option<Hash>) {
    net' == net.(precommits := net.precommits + {BallotOf(OwnVote(e, x))})
    && IsCastNow(e, e', Emission(PrecommitKind, OwnVote(e, x)))
  }

  lemma StepSends(mode: Mode, c: Config, net: Net, e: Engine, ev: Event)
    requires LocalInv(c, net, e) && Allowed(mode, c, net, e, ev) && Safe(mode)
    ensures SendsAtMost(net, Broadcast(mode, net, e, ev), e, Apply(e, ev).0)
  {
    var e' := Apply(e, ev).0;
    StepVotes(e, ev);
    if Bundles(mode) && Proposes(e, ev) {
      EmbeddedPrevoteAgrees(e, ev.hash);
      assert CastsPrevote(net, Broadcast(mode, net, e, ev), e, e', Some(ev.hash));
    } else if Emitted(Apply(e, ev).1).Some? {
      EmissionSends(mode, net, e, ev);
    }
  }

  lemma EmissionSends(mode: Mode, net: Net, e: Engine, ev: Event)
    requires PendingSent(net, e) && !(Bundles(mode) && Proposes(e, ev)) && Emitted(Apply(e, ev).1).Some?
    requires VotingStep(e, Apply(e, ev).0, Apply(e, ev).1)
    ensures SendsAtMost(net, Broadcast(mode, net, e, ev), e, Apply(e, ev).0)
  {
    var (e', a) := Apply(e, ev);
    var m := Emitted(a).value;
    if IsRetry(e, m) {
      assert Broadcast(mode, net, e, ev) == net;
    } else if m.kind == PrevoteKind {
      assert CastsPrevote(net, Broadcast(mode, net, e, ev), e, e', m.vote.hash);
    } else {
      assert CastsPrecommit(net, Broadcast(mode, net, e, ev), e, e', m.vote.hash);
    }
  }

  // ---- what a step keeps about the engine that takes it ----

  lemma StepWeighted(mode: Mode, c: Config, net: Net, e: Engine, ev: Event)
    requires LocalInv(c, net, e) && Allowed(mode, c, net, e, ev)
    ensures Weighted(c, Apply(e, ev).0)
  {
    var e' := Apply(e, ev).0;
    if ev.EvNewHeight? {
      NoVotesExact(c.table(ev.height));
    } else {
      SameChain(e, ev);
      BooksAfter(e, ev);
      NoVotesExact(c.table(e.height));
      if ev.EvPrevote? && CountsPrevote(e, ev.vote) {
        RecordPrevoteExact(e, ev.vote, c.table(e.height));
      } else if ev.EvPrecommit? && CountsPrecommit(e, ev.vote) {
        RecordPrecommitExact(e, ev.vote, c.table(e.height));
      }
    }
  }

  lemma StepBooksSent(mode: Mode, c: Config, net: Net, net': Net, e: Engine, ev: Event)
    requires LocalInv(c, net, e) && Allowed(mode, c, net, e, ev)
    requires net.prevotes <= net'.prevotes && net.precommits <= net'.precommits
    ensures BooksSent(c, net', Apply(e, ev).0)
  {
    BooksAfter(e, ev);
  }

  lemma StepOwnPast(net: Net, net': Net, e: Engine, e': Engine)
    requires OwnPast(net, e) && NotBefore(e, e') && e'.us == e.us && SendsAtMost(net, net', e, e')
    ensures OwnPast(net', e')
  {
    forall b | b in net.prevotes && b.validator == e.us ensures Left(e', b.height, b.round, 0) {
      assert Left(e, b.height, b.round, 0);
    }
    forall b | b in net.precommits && b.validator == e.us ensures Left(e', b.height, b.round, 1) {
      assert Left(e, b.height, b.round, 1);
    }
  }

  lemma StepPendingSent(mode: Mode, c: Config, net: Net, e: Engine, ev: Event)
    requires LocalInv(c, net, e) && Allowed(mode, c, net, e, ev)
    ensures PendingSent(Broadcast(mode, net, e, ev), Apply(e, ev).0)
  {
    StepVotes(e, ev);
  }

  /** A step leaves the lock alone, drops it with the height, or takes it in the current round on
      a supermajority of prevotes. */
  lemma LockAfter(e: Engine, ev: Event)
    requires WellFormed(e) && Admissible(e, ev) && !LockRelaxed(e, ev)
    ensures var e' := Apply(e, ev).0;
            || (ev.EvNewHeight? && e'.lockedHash.None? && e'.lockedRound.None?)
            || (e'.height == e.height && e'.lockedHash == e.lockedHash && e'.lockedRound == e.lockedRound)
            || (ev.EvPrevote? && CountsPrevote(e, ev.vote) && e.phase == Prevote && SameRound(e, e')
                && ev.pick.Some? && ev.pick.value.Some?
                && e'.lockedHash == ev.pick.value && e'.lockedRound == Some(e.round))
  {
    match ev {
      case EvNewHeight(h, total) =>
      case EvPrevote(v, stake, pick) => PrevoteLocks(e, v, stake, pick); PrevoteBooks(e, v, stake, pick);
      case EvProposal(hash, proposer, reg) => SameChain(e, ev); ProposalKeepsLock(e, ev);
      case EvOwnProposal(hash) => SameChain(e, ev); ProposalKeepsLock(e, ev);
      case EvStash(hash, bytes) =>
      case _ => SameChain(e, ev); LockUntouched(e, ev);
    }
  }

  /** Recorded voters are backers. */
  lemma VotersBack(c: Config, sent: set<Ballot>, h: nat, r: u32, votes: Ballots, x: Hash)
    requires forall a :: a in votes && a in c.honest ==> Ballot(h, r, a, votes[a]) in sent
    ensures Sum(Voters(votes, Some(x)), c.table(h)) <= Sum(Backers(c, sent, h, r, x), c.table(h))
  {
    var voters, keys := Voters(votes, Some(x)), c.table(h).Keys;
    SumUnion(voters * keys, voters - keys, c.table(h));
    assert (voters * keys) + (voters - keys) == voters && (voters * keys) * (voters - keys) == {};
    SumOutside(voters - keys, c.table(h));
    SumMonotone(voters * keys, Backers(c, sent, h, r, x), c.table(h));
  }

  lemma PrevoteTallyBacked(c: Config, net: Net, e: Engine, x: Hash)
    requires Weighted(c, e) && BooksSent(c, net, e)
    requires Weight(e.books.prevoteTally, Some(x)) >= SupermajorityThreshold(e.total)
    ensures Quorum(c, net.prevotes, e.height, e.round, x)
  {
    VotersBack(c, net.prevotes, e.height, e.round, PrevoteHashes(e.books), x);
  }

  lemma PrecommitTallyBacked(c: Config, net: Net, e: Engine, x: Hash)
    requires Weighted(c, e) && BooksSent(c, net, e)
    requires Weight(e.books.precommitTally, Some(x)) >= SupermajorityThreshold(e.total)
    ensures Quorum(c, net.precommits, e.height, e.round, x)
  {
    VotersBack(c, net.precommits, e.height, e.round, PrecommitHashes(e.books), x);
  }

  lemma StepLockQuorum(mode: Mode, c: Config, net: Net, net': Net, e: Engine, ev: Event)
    requires LocalInv(c, net, e) && Allowed(mode, c, net, e, ev) && Safe(mode)
    requires net.prevotes <= net'.prevotes && net.precommits <= net'.precommits
    ensures var e' := Apply(e, ev).0;
            e'.lockedHash.Some? && e'.lockedRound.Some? ==>
              Quorum(c, net'.prevotes, e'.height, e'.lockedRound.value, e'.lockedHash.value)
  {
    var e' := Apply(e, ev).0;
    LockAfter(e, ev);
    if e'.height == e.height && e'.lockedHash == e.lockedHash && e'.lockedRound == e.lockedRound {
      if e.lockedHash.Some? && e.lockedRound.Some? {
        QuorumGrows(c, net.prevotes, net'.prevotes, e.height, e.lockedRound.value, e.lockedHash.value);
      }
    } else if ev.EvPrevote? {
      StepWeighted(mode, c, net, e, ev);
      StepBooksSent(mode, c, net, net', e, ev);
      PrevoteBooks(e, ev.vote, ev.stake, ev.pick);
      SameChain(e, ev);
      PrevoteTallyBacked(c, net', e', ev.pick.value.value);
    }
  }

  lemma StepLockCovers(mode: Mode, c: Config, net: Net, e: Engine, ev: Event, b: Ballot)
    requires LocalInv(c, net, e) && Allowed(mode, c, net, e, ev) && Safe(mode)
    requires var e' := Apply(e, ev).0; b.validator == e.us && b.height == e'.height && b.hash.Some?
    requires b in Broadcast(mode, net, e, ev).precommits
    ensures var e' := Apply(e, ev).0;
            && e'.lockedRound.Some? && e'.lockedRound.value >= b.round
            && (e'.lockedRound.value == b.round ==> e'.lockedHash == b.hash)
  {
    var (e', a) := Apply(e, ev);
    LockAfter(e, ev);
    StepVotes(e, ev);
    if b in net.precommits {
      assert Left(e, b.height, b.round, 1);
    } else {
      assert a.BroadcastPrecommit? && BallotOf(a.vote) == b;
      PrecommitTakesLock(e, ev, a.vote, b.hash.value);
    }
  }

  /** Every allowed step keeps the engine's local invariant. */
  lemma StepLocal(mode: Mode, c: Config, net: Net, e: Engine, ev: Event)
    requires LocalInv(c, net, e) && Allowed(mode, c, net, e, ev) && Safe(mode)
    ensures LocalInv(c, Broadcast(mode, net, e, ev), Apply(e, ev).0)
  {
    var e', net' := Apply(e, ev).0, Broadcast(mode, net, e, ev);
    StepVotes(e, ev);
    StepSends(mode, c, net, e, ev);
    StepWeighted(mode, c, net, e, ev);
    StepBooksSent(mode, c, net, net', e, ev);
    StepOwnPast(net, net', e, e');
    StepPendingSent(mode, c, net, e, ev);
    StepLockQuorum(mode, c, net, net', e, ev);
    forall b | b in net'.precommits && b.validator == e'.us && b.height == e'.height && b.hash.Some?
      ensures e'.lockedRound.Some? && e'.lockedRound.value >= b.round
      ensures e'.lockedRound.value == b.round ==> e'.lockedHash == b.hash
    {
      StepLockCovers(mode, c, net, e, ev, b);
    }
  }

  /** A step of one engine does not disturb the invariant of another. */
  lemma OtherLocal(c: Config, net: Net, net': Net, e: Engine, e': Engine, f: Engine)
    requires LocalInv(c, net, f) && SendsAtMost(net, net', e, e') && f.us != e.us
    ensures LocalInv(c, net', f)
  {
    assert net.prevotes <= net'.prevotes && net.precommits <= net'.precommits;
    if f.lockedHash.Some? && f.lockedRound.Some? {
      QuorumGrows(c, net.prevotes, net'.prevotes, f.height, f.lockedRound.value, f.lockedHash.value);
    }
  }

  // ---- what a step keeps about the ballots ----

  lemma CastPrevoteNet(mode: Mode, c: Config, net: Net, net': Net, e: Engine, ev: Event, x: Option<Hash>)
    requires NetInv(c, net) && LocalInv(c, net, e) && Allowed(mode, c, net, e, ev) && Safe(mode)
    requires CastsPrevote(net, net', e, Apply(e, ev).0, x)
    requires Apply(e, ev).1 == BroadcastPrevote(OwnVote(e, x))
    ensures NetInv(c, net')
  {
    var b := BallotOf(OwnVote(e, x));
    forall o | o in net.prevotes ensures !SameSlot(o, b) {
      if o.validator == e.us {
        assert Left(e, o.height, o.round, 0);
      }
    }
    forall pc | pc in net.precommits && pc.hash.Some? ensures Quorum(c, net'.prevotes, pc.height, pc.round, pc.hash.value) {
      QuorumGrows(c, net.prevotes, net'.prevotes, pc.height, pc.round, pc.hash.value);
    }
    forall pc, pv | pc in net'.precommits && pv in net'.prevotes ensures LockRule(c, net', pc, pv) {
      if pv in net.prevotes {
        LockRuleGrows(c, net, net', pc, pv);
      } else {
        NewPrevoteObeysLock(mode, c, net, net', e, ev, x, pc);
      }
    }
  }

  lemma LockRuleGrows(c: Config, net: Net, net': Net, pc: Ballot, pv: Ballot)
    requires net.prevotes <= net'.prevotes && LockRule(c, net, pc, pv)
    ensures LockRule(c, net', pc, pv)
  {
    if pc.validator == pv.validator && pc.height == pv.height && pc.round < pv.round
       && pc.hash.Some? && pv.hash.Some? && pc.hash != pv.hash
    {
      var r: u32 :| pc.round < r < pv.round && Quorum(c, net.prevotes, pv.height, r, pv.hash.value);
      QuorumGrows(c, net.prevotes, net'.prevotes, pv.height, r, pv.hash.value);
    }
  }

  lemma NewPrevoteObeysLock(mode: Mode, c: Config, net: Net, net': Net, e: Engine, ev: Event, x: Option<Hash>, pc: Ballot)
    requires LocalInv(c, net, e) && Allowed(mode, c, net, e, ev) && pc in net.precommits && net.prevotes <= net'.prevotes && Safe(mode)
    requires Apply(e, ev).1 == BroadcastPrevote(OwnVote(e, x)) && e.phase == Propose
    ensures LockRule(c, net', pc, BallotOf(OwnVote(e, x)))
  {
    var pv := BallotOf(OwnVote(e, x));
    if pc.validator == pv.validator && pc.height == pv.height && pc.round < pv.round
       && pc.hash.Some? && pv.hash.Some? && pc.hash != pv.hash
    {
      assert e.lockedRound.Some? && e.lockedRound.value >= pc.round;
      LockedPrevote(e, ev, e.lockedHash.value, OwnVote(e, x));
      QuorumGrows(c, net.prevotes, net'.prevotes, e.height, e.lockedRound.value, e.lockedHash.value);
      assert pc.round < e.lockedRound.value < pv.round;
    }
  }

  lemma CastPrecommitNet(mode: Mode, c: Config, net: Net, net': Net, e: Engine, ev: Event, x: Option<Hash>)
    requires NetInv(c, net) && LocalInv(c, net, e) && Allowed(mode, c, net, e, ev) && Safe(mode)
    requires CastsPrecommit(net, net', e, Apply(e, ev).0, x)
    requires Apply(e, ev).1 == BroadcastPrecommit(OwnVote(e, x))
    ensures NetInv(c, net')
  {
    var b := BallotOf(OwnVote(e, x));
    if x.Some? {
      PrecommitTakesLock(e, ev, OwnVote(e, x), x.value);
      StepLockQuorum(mode, c, net, net', e, ev);
    }
    forall pc, pv | pc in net'.precommits && pv in net'.prevotes ensures LockRule(c, net', pc, pv) {
      if pc in net.precommits {
        LockRuleGrows(c, net, net', pc, pv);
      } else if pv.validator == e.us {
        assert Left(e, pv.height, pv.round, 0);
      }
    }
  }

  /** Every allowed step keeps the ballots of correct validators lawful. */
  lemma StepNet(mode: Mode, c: Config, net: Net, e: Engine, ev: Event)
    requires NetInv(c, net) && LocalInv(c, net, e) && Allowed(mode, c, net, e, ev) && Safe(mode)
    ensures NetInv(c, Broadcast(mode, net, e, ev))
  {
    var e', net' := Apply(e, ev).0, Broadcast(mode, net, e, ev);
    StepSends(mode, c, net, e, ev);
    StepVotes(e, ev);
    if x :| CastsPrevote(net, net', e, e', x) {
      if net' != net {
        CastPrevoteNet(mode, c, net, net', e, ev, x);
      }
    } else if x :| CastsPrecommit(net, net', e, e', x) {
      if net' != net {
        CastPrecommitNet(mode, c, net, net', e, ev, x);
      }
    }
  }

  // ---- the network ----

  datatype Decision = Decision(validator: Address, height: nat, round: u32, hash: Hash)

  /** The correct engines, the ballots they sent, and the blocks they finalized. */
  datatype System = System(engines: map<Address, Engine>, net: Net, decisions: set<Decision>)

  ghost predicate Init(c: Config, s: System) {
    && s.engines.Keys == c.honest && s.net == Net({}, {}) && s.decisions == {}
    && forall i :: i in c.honest ==>
         Total(c.table(s.engines[i].height)) <= U64_MAX
         && s.engines[i] == NewEngine(s.engines[i].height, i, Total(c.table(s.engines[i].height)))
  }

  /** Engine `i` takes the input `ev`. */
  function Next(mode: Mode, s: System, i: Address, ev: Event): System
    requires i in s.engines
  {
    var (e', a) := Apply(s.engines[i], ev);
    System(s.engines[i := e'], Broadcast(mode, s.net, s.engines[i], ev), Decide(s.decisions, i, a))
  }

  function Decide(decisions: set<Decision>, i: Address, a: Action): set<Decision> {
    if a.FinalizeBlock? then decisions + {Decision(i, a.height, a.round, a.hash)} else decisions
  }

  ghost predicate Step(mode: Mode, c: Config, s: System, s': System) {
    exists i, ev :: i in s.engines && Allowed(mode, c, s.net, s.engines[i], ev) && s' == Next(mode, s, i, ev)
  }

  ghost predicate StepAt(mode: Mode, c: Config, run: seq<System>, k: nat)
    requires k < |run| - 1
  {
    Step(mode, c, run[k], run[k + 1])
  }

  ghost predicate IsRun(mode: Mode, c: Config, run: seq<System>) {
    |run| > 0 && Init(c, run[0]) && forall k :: 0 <= k < |run| - 1 ==> StepAt(mode, c, run, k)
  }

  ghost predicate SystemInv(c: Config, s: System) {
    && NetInv(c, s.net)
    && (forall i :: i in s.engines ==> s.engines[i].us == i && LocalInv(c, s.net, s.engines[i]))
    && (forall d :: d in s.decisions ==> Quorum(c, s.net.precommits, d.height, d.round, d.hash))
  }

  lemma InitHolds(c: Config, s: System)
    requires Init(c, s)
    ensures SystemInv(c, s)
  {
    forall i | i in s.engines ensures LocalInv(c, s.net, s.engines[i]) {
      NoVotesExact(c.table(s.engines[i].height));
    }
  }

  /** A finalization rests on a quorum of precommits. */
  lemma DecisionBacked(mode: Mode, c: Config, net: Net, e: Engine, ev: Event)
    requires LocalInv(c, net, e) && Allowed(mode, c, net, e, ev) && Apply(e, ev).1.FinalizeBlock?
    ensures var a := Apply(e, ev).1; Quorum(c, Broadcast(mode, net, e, ev).precommits, a.height, a.round, a.hash)
  {
    var (e', a) := Apply(e, ev);
    OnlyPrecommitsFinalize(e, ev);
    StepWeighted(mode, c, net, e, ev);
    StepBooksSent(mode, c, net, Broadcast(mode, net, e, ev), e, ev);
    SameChain(e, ev);
    BooksAfter(e, ev);
    PrecommitBooks(e, ev.vote, ev.stake, ev.pick);
    PrecommitTallyBacked(c, Broadcast(mode, net, e, ev), e', a.hash);
  }

  lemma BroadcastGrows(mode: Mode, net: Net, e: Engine, ev: Event)
    ensures net.prevotes <= Broadcast(mode, net, e, ev).prevotes && net.precommits <= Broadcast(mode, net, e, ev).precommits
  {
  }

  lemma NextLocal(mode: Mode, c: Config, net: Net, e: Engine, ev: Event, f: Engine)
    requires LocalInv(c, net, e) && Allowed(mode, c, net, e, ev) && LocalInv(c, net, f) && f.us != e.us && Safe(mode)
    ensures LocalInv(c, Broadcast(mode, net, e, ev), f)
  {
    StepSends(mode, c, net, e, ev);
    OtherLocal(c, net, Broadcast(mode, net, e, ev), e, Apply(e, ev).0, f);
  }

  lemma NextDecided(c: Config, net: Net, net': Net, decisions: set<Decision>, i: Address, a: Action, d: Decision)
    requires forall o :: o in decisions ==> Quorum(c, net.precommits, o.height, o.round, o.hash)
    requires a.FinalizeBlock? ==> Quorum(c, net'.precommits, a.height, a.round, a.hash)
    requires net.precommits <= net'.precommits && d in Decide(decisions, i, a)
    ensures Quorum(c, net'.precommits, d.height, d.round, d.hash)
  {
    if d in decisions {
      QuorumGrows(c, net.precommits, net'.precommits, d.height, d.round, d.hash);
    }
  }

  lemma Assemble(c: Config, s: System, i: Address, e': Engine, net': Net, decisions': set<Decision>)
    requires NetInv(c, net') && e'.us == i && LocalInv(c, net', e')
    requires forall j :: j in s.engines && j != i ==> s.engines[j].us == j && LocalInv(c, net', s.engines[j])
    requires forall d :: d in decisions' ==> Quorum(c, net'.precommits, d.height, d.round, d.hash)
    ensures SystemInv(c, System(s.engines[i := e'], net', decisions'))
  {
  }

  lemma DecisionsBacked(mode: Mode, c: Config, s: System, i: Address, ev: Event, d: Decision)
    requires SystemInv(c, s) && i in s.engines && Allowed(mode, c, s.net, s.engines[i], ev)
    requires d in Next(mode, s, i, ev).decisions
    ensures Quorum(c, Next(mode, s, i, ev).net.precommits, d.height, d.round, d.hash)
  {
    var e := s.engines[i];
    BroadcastGrows(mode, s.net, e, ev);
    if Apply(e, ev).1.FinalizeBlock? {
      DecisionBacked(mode, c, s.net, e, ev);
    }
    NextDecided(c, s.net, Broadcast(mode, s.net, e, ev), s.decisions, i, Apply(e, ev).1, d);
  }

  lemma NextHolds(mode: Mode, c: Config, s: System, i: Address, ev: Event)
    requires SystemInv(c, s) && i in s.engines && Allowed(mode, c, s.net, s.engines[i], ev) && Safe(mode)
    ensures SystemInv(c, Next(mode, s, i, ev))
  {
    var e, s' := s.engines[i], Next(mode, s, i, ev);
    StepNet(mode, c, s.net, e, ev);
    StepLocal(mode, c, s.net, e, ev);
    assert s'.engines[i].us == i by { StepVotes(e, ev); }
    forall j | j in s.engines && j != i ensures LocalInv(c, s'.net, s.engines[j]) {
      NextLocal(mode, c, s.net, e, ev, s.engines[j]);
    }
    forall d | d in s'.decisions ensures Quorum(c, s'.net.precommits, d.height, d.round, d.hash) {
      DecisionsBacked(mode, c, s, i, ev, d);
    }
    Assemble(c, s, i, s'.engines[i], s'.net, s'.decisions);
  }

  lemma {:induction false} RunHolds(mode: Mode, c: Config, run: seq<System>, k: nat)
    requires IsRun(mode, c, run) && k < |run| && Safe(mode)
    ensures SystemInv(c, run[k])
  {
    if k == 0 {
      InitHolds(c, run[0]);
    } else {
      RunHolds(mode, c, run, k - 1);
      assert StepAt(mode, c, run, k - 1);
      var i, ev :| i in run[k - 1].engines && Allowed(mode, c, run[k - 1].net, run[k - 1].engines[i], ev)
                   && run[k] == Next(mode, run[k - 1], i, ev);
      NextHolds(mode, c, run[k - 1], i, ev);
    }
  }

  /** Agreement: in every state of every run, two finalizations at one height are of one block,
      whoever made them and in whatever rounds. The engines guarantee it by themselves (`Plain`),
      and also with bundled prevotes as long as proposers respect their locks (`Guarded`). */
  lemma Agreement(mode: Mode, c: Config, run: seq<System>, k: nat, d: Decision, d': Decision)
    requires ValidConfig(c) && IsRun(mode, c, run) && k < |run| && Safe(mode)
    requires d in run[k].decisions && d' in run[k].decisions && d.height == d'.height
    ensures d.hash == d'.hash
  {
    RunHolds(mode, c, run, k);
    CommitsAgree(c, run[k].net, d.height, d.round, d.hash, d'.round, d'.hash);
  }
}
