/** The lock over whole runs of one engine: what a non-nil precommit binds the engine to,
    exactly when it is released, and which bytes it may re-propose. */
module EngineLock {
  import opened BftTypes
  import opened EngineSpec
  import opened EngineRuns

  /** The input makes a later-round prevote supermajority for another block take the lock over. */
  predicate LockMoves(e: Engine, ev: Event, hash: Hash) {
    ev.EvPrevote? && CountsPrevote(e, ev.vote) && e.phase == Prevote
    && ev.pick.Some? && ev.pick.value.Some? && ev.pick.value.value != hash
  }

  /** The input is an accepted proposal on which the stale-lock relaxation fires. */
  predicate LockRelaxed(e: Engine, ev: Event) {
    match ev
    case EvOwnProposal(hash) => e.phase == Propose && RelaxApplies(e, hash)
    case EvProposal(hash, proposer, reg) =>
      e.phase == Propose && RelaxApplies(e, hash)
      && reg.WeightedProposer(e.height, e.round) == Some(proposer) && proposer !in reg.barred
    case _ => false
  }

  predicate Releases(e: Engine, ev: Event, hash: Hash) {
    LockMoves(e, ev, hash) || LockRelaxed(e, ev)
  }

  /** A precommit for a block is cast only with the lock taken on it in the same round. */
  lemma PrecommitTakesLock(e: Engine, ev: Event, v: Vote, hash: Hash)
    requires WellFormed(e) && Admissible(e, ev)
    requires Apply(e, ev).1 == BroadcastPrecommit(v) && v.hash == Some(hash) && e.pendingPrecommit != Some(v)
    ensures var e' := Apply(e, ev).0; e'.lockedHash == Some(hash) && e'.lockedRound == Some(v.round)
    ensures ev.EvPrevote? && ev.pick == Some(Some(hash))
  {
    StepVotes(e, ev);
  }

  /** One input changes a held lock if and only if it releases it (or starts a new height). */
  lemma LockStep(e: Engine, ev: Event, hash: Hash)
    requires WellFormed(e) && Admissible(e, ev) && !ev.EvNewHeight? && e.lockedHash == Some(hash)
    ensures Apply(e, ev).0.lockedHash == Some(hash) <==> !Releases(e, ev, hash)
  {
    match ev {
      case EvCatchUp(target) => CatchUpLands(e, target);
      case EvRoundStatus(h, r, peer, stake, target) =>
        if target.Some? { CatchUpLands(NotePeer(e, peer, r, stake), target.value); }
      case EvPrevote(v, stake, pick) => PrevoteLocks(e, v, stake, pick);
      case _ =>
    }
  }

  lemma PrevoteLocks(e: Engine, v: Vote, stake: nat, pick: Option<Option<Hash>>)
    ensures var e' := OnPrevote(e, v, stake, pick).0;
            if CountsPrevote(e, v) && e.phase == Prevote && pick.Some? && pick.value.Some?
            then e'.lockedHash == pick.value && e'.lockedRound == Some(e.round)
            else e'.lockedHash == e.lockedHash && e'.lockedRound == e.lockedRound && e'.lockedBlock == e.lockedBlock
  {
  }

  /** A prevote cast while the lock is held is nil or for the locked block. */
  lemma LockedPrevote(e: Engine, ev: Event, hash: Hash, v: Vote)
    requires WellFormed(e) && Admissible(e, ev) && e.lockedHash == Some(hash) && !Releases(e, ev, hash)
    requires Apply(e, ev).1 == BroadcastPrevote(v) && e.pendingPrevote != Some(v)
    ensures v.hash.None? || v.hash == Some(hash)
  {
    StepVotes(e, ev);
  }

  /** The state after the first `k` inputs. */
  ghost function After(e: Engine, evs: seq<Event>, k: nat): Engine
    requires k <= |evs|
  {
    Run(Trace(e, [], {}, {}), evs[..k]).engine
  }

  lemma AfterStep(e: Engine, evs: seq<Event>, k: nat)
    requires k < |evs|
    ensures After(e, evs, k + 1) == Apply(After(e, evs, k), evs[k]).0
  {
    RunSnoc(Trace(e, [], {}, {}), evs, k);
  }

  ghost predicate Lawful(e: Engine, evs: seq<Event>) {
    WellFormed(e) && forall k :: 0 <= k < |evs| ==>
      Admissible(After(e, evs, k), evs[k]) && Answerable(After(e, evs, k), evs[k]) && !evs[k].EvNewHeight?
  }

  lemma {:induction false} AfterWellFormed(e: Engine, evs: seq<Event>, k: nat)
    requires Lawful(e, evs) && k <= |evs|
    ensures WellFormed(After(e, evs, k)) && After(e, evs, k).height == e.height && After(e, evs, k).total == e.total
    ensures After(e, evs, k).round >= e.round
  {
    if k > 0 {
      AfterWellFormed(e, evs, k - 1);
      AfterStep(e, evs, k - 1);
      StepVotes(After(e, evs, k - 1), evs[k - 1]);
      SameChain(After(e, evs, k - 1), evs[k - 1]);
    }
  }

  lemma SameChain(e: Engine, ev: Event)
    requires !ev.EvNewHeight?
    ensures Apply(e, ev).0.height == e.height && Apply(e, ev).0.total == e.total
  {
    match ev {
      case EvCatchUp(target) => CatchUpLands(e, target);
      case EvRoundStatus(h, r, peer, stake, target) =>
        if target.Some? { CatchUpLands(NotePeer(e, peer, r, stake), target.value); }
      case _ =>
    }
  }

  ghost predicate ReleasedAt(e: Engine, evs: seq<Event>, i: nat, hash: Hash) {
    i < |evs| && Releases(After(e, evs, i), evs[i], hash)
  }

  /** The lock lasts until the first input that releases it. */
  lemma {:induction false} LockLasts(e: Engine, evs: seq<Event>, k: nat, hash: Hash)
    requires Lawful(e, evs) && k <= |evs| && e.lockedHash == Some(hash)
    requires forall i :: 0 <= i < k ==> !ReleasedAt(e, evs, i, hash)
    ensures After(e, evs, k).lockedHash == Some(hash)
  {
    if k > 0 {
      LockLasts(e, evs, k - 1, hash);
      AfterWellFormed(e, evs, k - 1);
      assert !ReleasedAt(e, evs, k - 1, hash);
      AfterStep(e, evs, k - 1);
      LockStep(After(e, evs, k - 1), evs[k - 1], hash);
    }
  }

  /** Some block other than `hash` stands at the threshold. */
  ghost predicate HasOtherQuorum(t: Tally, total: u64, hash: Hash) {
    exists other: Hash :: other != hash && Some(other) in t && t[Some(other)] >= SupermajorityThreshold(total)
  }

  /** What released the lock, in the engine's own terms: a supermajority of prevotes for another
      block, counted in a round after `r`, or a relaxed lock that had no cached bytes and was at
      least the gap old. */
  ghost predicate JustifiedRelease(e: Engine, ev: Event, hash: Hash, r: nat) {
    || (ev.EvPrevote? && e.round > r && CountsPrevote(e, ev.vote)
        && HasOtherQuorum(RecordPrevote(e, ev.vote, ev.stake).books.prevoteTally, e.total, hash))
    || ((ev.EvOwnProposal? || ev.EvProposal?) && e.lockedBlock.None? && e.lockedRound.Some?
        && e.round >= e.lockedRound.value + STALE_LOCK_ROUND_GAP && e.round > r)
  }

  /** Lock discipline over every run: once an engine has precommitted a block at round `r`, a
      later vote it casts for another block at that height is preceded by a justified release. */
  lemma LockDiscipline(e0: Engine, ev0: Event, evs: seq<Event>, pc: Vote, hash: Hash, k: nat, pv: Vote)
    returns (i: nat)
    requires WellFormed(e0) && Admissible(e0, ev0)
    requires Apply(e0, ev0).1 == BroadcastPrecommit(pc) && pc.hash == Some(hash) && e0.pendingPrecommit != Some(pc)
    requires Lawful(Apply(e0, ev0).0, evs) && k < |evs|
    requires Apply(After(Apply(e0, ev0).0, evs, k), evs[k]).1 == BroadcastPrevote(pv)
    requires After(Apply(e0, ev0).0, evs, k).pendingPrevote != Some(pv)
    requires pv.hash.Some? && pv.hash.value != hash
    ensures i <= k && JustifiedRelease(After(Apply(e0, ev0).0, evs, i), evs[i], hash, pc.round)
  {
    var e := Apply(e0, ev0).0;
    PrecommitTakesLock(e0, ev0, pc, hash);
    StepVotes(e0, ev0);
    if forall i :: 0 <= i <= k ==> !ReleasedAt(e, evs, i, hash) {
      LockLasts(e, evs, k, hash);
      AfterWellFormed(e, evs, k);
      assert !ReleasedAt(e, evs, k, hash);
      LockedPrevote(After(e, evs, k), evs[k], hash, pv);
      assert false;
    }
    i := FirstRelease(e, evs, k, hash);
    LockLasts(e, evs, i, hash);
    AfterWellFormed(e, evs, i);
    LaterRound(e, evs, i);
    ReleaseIsJustified(After(e, evs, i), evs[i], hash, pc.round);
  }

  lemma {:induction false} FirstRelease(e: Engine, evs: seq<Event>, k: nat, hash: Hash) returns (i: nat)
    requires exists i :: 0 <= i <= k && ReleasedAt(e, evs, i, hash)
    ensures i <= k && ReleasedAt(e, evs, i, hash)
    ensures forall j :: 0 <= j < i ==> !ReleasedAt(e, evs, j, hash)
  {
    if k > 0 && exists j :: 0 <= j <= k - 1 && ReleasedAt(e, evs, j, hash) {
      i := FirstRelease(e, evs, k - 1, hash);
    } else {
      i := k;
    }
  }

  /** Past the prevotes of round `r`. */
  predicate PastPrevote(r: nat, e: Engine) {
    e.round > r || (e.round == r && Rank(e.phase) >= 2)
  }

  lemma StaysPastPrevote(r: nat, e: Engine, ev: Event)
    requires WellFormed(e) && Admissible(e, ev) && !ev.EvNewHeight? && PastPrevote(r, e)
    ensures PastPrevote(r, Apply(e, ev).0)
  {
    StepVotes(e, ev);
    SameChain(e, ev);
  }

  /** An engine that has reached the precommit phase can prevote again only in a later round. */
  lemma {:induction false} LaterRound(e: Engine, evs: seq<Event>, k: nat)
    requires Lawful(e, evs) && k <= |evs| && Rank(e.phase) >= 2
    ensures PastPrevote(e.round, After(e, evs, k))
  {
    if k > 0 {
      LaterRound(e, evs, k - 1);
      AfterWellFormed(e, evs, k - 1);
      AfterStep(e, evs, k - 1);
      StaysPastPrevote(e.round, After(e, evs, k - 1), evs[k - 1]);
    }
  }

  lemma ReleaseIsJustified(e: Engine, ev: Event, hash: Hash, r: nat)
    requires WellFormed(e) && Answerable(e, ev) && e.lockedHash == Some(hash) && Releases(e, ev, hash)
    requires e.round > r || (e.round == r && Rank(e.phase) >= 2)
    ensures JustifiedRelease(e, ev, hash, r)
  {
  }

  // ---- the re-propose cache ----

  type Stashed = set<(Hash, Bytes)>

  /** Staged bytes were stashed under the staged hash, and cached bytes under the locked one. */
  ghost predicate CacheSound(e: Engine, stashed: Stashed) {
    && (e.stagingBlock.Some? ==> e.stagingBlock.value in stashed)
    && (e.lockedBlock.Some? ==> e.lockedHash.Some? && (e.lockedHash.value, e.lockedBlock.value) in stashed)
  }

  predicate SameCache(e: Engine, e': Engine) {
    e'.lockedHash == e.lockedHash && e'.lockedBlock == e.lockedBlock
    && (e'.stagingBlock == e.stagingBlock || e'.stagingBlock.None?)
  }

  lemma LockCaches(e: Engine, hash: Hash, stashed: Stashed)
    requires CacheSound(e, stashed)
    ensures CacheSound(Lock(e, hash), stashed)
  {
  }

  lemma EnterPrecommitCaches(e: Engine, hash: Option<Hash>, stashed: Stashed)
    requires CacheSound(e, stashed)
    ensures CacheSound(EnterPrecommit(e, hash).0, stashed)
  {
    var e1 := e.(phase := Precommit);
    if hash.Some? {
      LockCaches(e1, hash.value, stashed);
      assert SameCache(Lock(e1, hash.value), EnterPrecommit(e, hash).0);
    } else {
      assert SameCache(e, EnterPrecommit(e, hash).0);
    }
  }

  /** Advances, precommits, timeouts and marks leave the lock and the cached bytes alone. */
  lemma LockUntouched(e: Engine, ev: Event)
    requires !ev.EvPrevote? && !ev.EvProposal? && !ev.EvOwnProposal? && !ev.EvStash? && !ev.EvNewHeight?
    ensures SameCache(e, Apply(e, ev).0) && Apply(e, ev).0.lockedRound == e.lockedRound
  {
    match ev {
      case EvCatchUp(target) => CatchUpLands(e, target);
      case EvRoundStatus(h, r, peer, stake, target) =>
        if target.Some? { CatchUpLands(NotePeer(e, peer, r, stake), target.value); }
      case _ =>
    }
  }

  /** An accepted proposal leaves the lock alone unless the relaxation fires. */
  lemma ProposalKeepsLock(e: Engine, ev: Event)
    requires (ev.EvProposal? || ev.EvOwnProposal?) && !LockRelaxed(e, ev)
    ensures Apply(e, ev).0.lockedHash == e.lockedHash && Apply(e, ev).0.lockedRound == e.lockedRound
  {
  }

  lemma AcceptCaches(e: Engine, hash: Hash, stashed: Stashed)
    requires CacheSound(e, stashed)
    ensures CacheSound(AcceptProposal(e, hash).0, stashed)
  {
    assert CacheSound(Relax(e, hash), stashed);
    assert SameCache(Relax(e, hash), AcceptProposal(e, hash).0);
  }

  lemma StepCacheSound(e: Engine, ev: Event, stashed: Stashed)
    requires CacheSound(e, stashed)
    ensures CacheSound(Apply(e, ev).0, if ev.EvStash? then stashed + {(ev.hash, ev.bytes)} else stashed)
  {
    match ev {
      case EvPrevote(v, stake, pick) =>
        if pick.Some? { EnterPrecommitCaches(RecordPrevote(SettlePrevote(e, v), v, stake), pick.value, stashed); }
      case EvProposal(hash, proposer, reg) => AcceptCaches(e, hash, stashed);
      case EvOwnProposal(hash) => AcceptCaches(e, hash, stashed);
      case EvStash(hash, bytes) =>
      case EvNewHeight(h, total) =>
      case _ => LockUntouched(e, ev);
    }
  }

  lemma {:induction false} RunCacheSound(t: Trace, evs: seq<Event>)
    requires CacheSound(t.engine, t.stashed)
    ensures CacheSound(Run(t, evs).engine, Run(t, evs).stashed)
    decreases |evs|
  {
    if evs != [] {
      StepCacheSound(t.engine, evs[0], t.stashed);
      RunCacheSound(Extend(t, evs[0]), evs[1..]);
    }
  }

  /** In every run, whatever is delivered and in whatever order, the bytes offered for
      re-proposal were stashed under exactly the hash the engine is now locked on. */
  lemma ReproposedBytesBelongToLock(height: nat, us: Address, total: u64, evs: seq<Event>)
    ensures var t := Run(Start(height, us, total), evs);
            var r := LockedProposalBytes(t.engine);
            r.Some? ==> Some(r.value.0) == t.engine.lockedHash && r.value in t.stashed
  {
    RunCacheSound(Start(height, us, total), evs);
  }
}
