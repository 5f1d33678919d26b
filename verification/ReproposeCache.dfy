/** The bytes an engine offers for re-proposal, told from its inputs: exactly those that were stashed
    last in the round in which the lock was taken, for as long as the lock lasts. */
module ReproposeCache {
  import opened BftTypes
  import opened EngineSpec
  import opened EngineRuns
  import opened EngineLock

  // ---- what the inputs say ----

  /** The input completes a prevote supermajority for block `x` in the prevote phase. */
  predicate Locks(e: Engine, ev: Event, x: Hash) {
    ev.EvPrevote? && CountsPrevote(e, ev.vote) && e.phase == Prevote && ev.pick == Some(Some(x))
  }

  /** The input opens a round: by an advance, a new height, or a move to a later round. */
  predicate OpensRound(e: Engine, ev: Event) {
    ev.EvAdvanceRound? || ev.EvNewHeight? || Apply(e, ev).0.round > e.round
  }

  /** A stale lock without bytes is given up for the proposal. */
  predicate Relaxes(e: Engine, ev: Event) {
    LockRelaxed(e, ev) && !RetriesPrevote(e, ev.hash)
  }

  /** Bytes staged so far are dropped: a round opens, a stale lock is given up, or a lock is taken. */
  ghost predicate Drops(e: Engine, ev: Event) {
    OpensRound(e, ev) || Relaxes(e, ev) || exists y :: Locks(e, ev, y)
  }

  /** After `k` inputs, the last thing stashed since anything was dropped is `b`, under `x`. */
  ghost predicate Staged(e: Engine, evs: seq<Event>, k: nat, x: Hash, b: Bytes)
    requires k <= |evs|
  {
    exists i: nat :: StagedBy(e, evs, k, x, b, i)
  }

  ghost predicate StagedBy(e: Engine, evs: seq<Event>, k: nat, x: Hash, b: Bytes, i: nat)
    requires k <= |evs|
  {
    i < k && evs[i] == EvStash(x, b) && forall j :: i < j < k ==> !evs[j].EvStash? && !Drops(After(e, evs, j), evs[j])
  }

  /** Input `t` takes the lock on `x` while `b` is staged under it. */
  ghost predicate LocksWith(e: Engine, evs: seq<Event>, t: nat, x: Hash, b: Bytes)
    requires t < |evs|
  {
    Locks(After(e, evs, t), evs[t], x) && Staged(e, evs, t, x, b)
  }

  /** Input `j` replaces the bytes cached for `x`: the height changes, the lock moves to another block,
      or it is taken again with bytes stashed anew. */
  ghost predicate Replaces(e: Engine, evs: seq<Event>, j: nat, x: Hash)
    requires j < |evs|
  {
    || evs[j].EvNewHeight?
    || (exists y :: y != x && Locks(After(e, evs, j), evs[j], y))
    || (exists b :: LocksWith(e, evs, j, x, b))
  }

  /** The lock on `x` was taken with `b`, and nothing has replaced it since. */
  ghost predicate Cached(e: Engine, evs: seq<Event>, k: nat, x: Hash, b: Bytes)
    requires k <= |evs|
  {
    exists t: nat :: CachedSince(e, evs, k, x, b, t)
  }

  ghost predicate CachedSince(e: Engine, evs: seq<Event>, k: nat, x: Hash, b: Bytes, t: nat)
    requires k <= |evs|
  {
    t < k && LocksWith(e, evs, t, x, b) && forall j :: t < j < k ==> !Replaces(e, evs, j, x)
  }

  // ---- one more input ----

  lemma StagedNext(e: Engine, evs: seq<Event>, k: nat, x: Hash, b: Bytes)
    requires k < |evs|
    ensures Staged(e, evs, k + 1, x, b)
       <==> evs[k] == EvStash(x, b) || (Staged(e, evs, k, x, b) && !evs[k].EvStash? && !Drops(After(e, evs, k), evs[k]))
  {
    if Staged(e, evs, k + 1, x, b) && evs[k] != EvStash(x, b) {
      var i: nat :| StagedBy(e, evs, k + 1, x, b, i);
      assert StagedBy(e, evs, k, x, b, i);
    }
    if evs[k] == EvStash(x, b) {
      assert StagedBy(e, evs, k + 1, x, b, k);
    } else if Staged(e, evs, k, x, b) && !evs[k].EvStash? && !Drops(After(e, evs, k), evs[k]) {
      var i: nat :| StagedBy(e, evs, k, x, b, i);
      assert StagedBy(e, evs, k + 1, x, b, i);
    }
  }

  lemma CachedNext(e: Engine, evs: seq<Event>, k: nat, x: Hash, b: Bytes)
    requires k < |evs|
    ensures Cached(e, evs, k + 1, x, b)
       <==> LocksWith(e, evs, k, x, b) || (Cached(e, evs, k, x, b) && !Replaces(e, evs, k, x))
  {
    if Cached(e, evs, k + 1, x, b) && !LocksWith(e, evs, k, x, b) {
      var t: nat :| CachedSince(e, evs, k + 1, x, b, t);
      assert CachedSince(e, evs, k, x, b, t);
    }
    if LocksWith(e, evs, k, x, b) {
      assert CachedSince(e, evs, k + 1, x, b, k);
    } else if Cached(e, evs, k, x, b) && !Replaces(e, evs, k, x) {
      var t: nat :| CachedSince(e, evs, k, x, b, t);
      assert CachedSince(e, evs, k + 1, x, b, t);
    }
  }

  // ---- what the engine does ----

  /** Only a prevote takes a lock. */
  lemma OnlyPrevotesLock(e: Engine, ev: Event)
    requires !ev.EvPrevote?
    ensures !(exists y :: Locks(e, ev, y))
  {
  }

  lemma PrevoteLocksOnly(e: Engine, v: Vote, stake: nat, pick: Option<Option<Hash>>)
    ensures (exists y :: Locks(e, EvPrevote(v, stake, pick), y))
       <==> CountsPrevote(e, v) && e.phase == Prevote && pick.Some? && pick.value.Some?
  {
    if CountsPrevote(e, v) && e.phase == Prevote && pick.Some? && pick.value.Some? {
      assert Locks(e, EvPrevote(v, stake, pick), pick.value.value);
    }
  }

  /** A status that moves the engine opens a round; one that does not keeps the slot. */
  lemma StatusStages(e: Engine, ev: Event)
    requires ev.EvRoundStatus?
    ensures var e' := Apply(e, ev).0; e'.stagingBlock == if e'.round > e.round then None else e.stagingBlock
  {
    if ev.skip.Some? {
      CatchUpLands(NotePeer(e, ev.peer, ev.round, ev.stake), ev.skip.value);
    }
  }

  lemma PrevoteStages(e: Engine, v: Vote, stake: nat, pick: Option<Option<Hash>>)
    ensures var e' := OnPrevote(e, v, stake, pick).0;
            && e'.round == e.round
            && e'.stagingBlock == if CountsPrevote(e, v) && e.phase == Prevote && pick.Some? && pick.value.Some? then None
                                  else e.stagingBlock
  {
  }

  /** The staging slot after one input. */
  lemma StagingStep(e: Engine, ev: Event)
    ensures Apply(e, ev).0.stagingBlock
            == if ev.EvStash? then Some((ev.hash, ev.bytes)) else if Drops(e, ev) then None else e.stagingBlock
  {
    if ev.EvPrevote? {
      PrevoteStages(e, ev.vote, ev.stake, ev.pick);
      PrevoteLocksOnly(e, ev.vote, ev.stake, ev.pick);
    } else {
      OnlyPrevotesLock(e, ev);
      if ev.EvRoundStatus? {
        StatusStages(e, ev);
      } else if ev.EvCatchUp? {
        CatchUpLands(e, ev.target);
      }
    }
  }

  /** Bytes staged under `x` are promoted with the lock on `x`. */
  ghost predicate Promotes(e: Engine, ev: Event, x: Hash, b: Bytes) {
    Locks(e, ev, x) && e.stagingBlock == Some((x, b))
  }

  /** What is offered for `x` does not stay: the height changes, another block is locked, or other bytes
      are promoted. */
  ghost predicate Withdraws(e: Engine, ev: Event, x: Hash) {
    ev.EvNewHeight? || (exists y :: y != x && Locks(e, ev, y)) || (exists b :: Promotes(e, ev, x, b))
  }

  lemma LockOffers(e: Engine, y: Hash, x: Hash, b: Bytes)
    ensures LockedProposalBytes(Lock(e, y)) == Some((x, b))
       <==> y == x && (if e.stagingBlock.Some? && e.stagingBlock.value.0 == x then e.stagingBlock.value.1 == b
                       else LockedProposalBytes(e) == Some((x, b)))
  {
  }

  lemma PrevoteOffers(e: Engine, v: Vote, stake: nat, pick: Option<Option<Hash>>)
    ensures var e' := OnPrevote(e, v, stake, pick).0;
            LockedProposalBytes(e')
            == if CountsPrevote(e, v) && e.phase == Prevote && pick.Some? && pick.value.Some?
               then LockedProposalBytes(Lock(e, pick.value.value)) else LockedProposalBytes(e)
  {
  }

  /** The offered bytes after one input: those staged under the block that is locked, or else those
      offered before, unless they are withdrawn. */
  lemma OfferStep(e: Engine, ev: Event, x: Hash, b: Bytes)
    ensures LockedProposalBytes(Apply(e, ev).0) == Some((x, b))
       <==> Promotes(e, ev, x, b) || (LockedProposalBytes(e) == Some((x, b)) && !Withdraws(e, ev, x))
  {
    if ev.EvPrevote? {
      PrevoteOffersStep(e, ev, x, b);
    } else {
      OnlyPrevotesLock(e, ev);
      OthersOffer(e, ev);
    }
  }

  lemma PrevoteOffersStep(e: Engine, ev: Event, x: Hash, b: Bytes)
    requires ev.EvPrevote?
    ensures LockedProposalBytes(Apply(e, ev).0) == Some((x, b))
       <==> Promotes(e, ev, x, b) || (LockedProposalBytes(e) == Some((x, b)) && !Withdraws(e, ev, x))
  {
    PrevoteOffers(e, ev.vote, ev.stake, ev.pick);
    if exists y :: Locks(e, ev, y) {
      var y :| Locks(e, ev, y);
      LockOffers(e, y, x, b);
      if e.stagingBlock.Some? && e.stagingBlock.value.0 == x && y == x {
        assert Promotes(e, ev, x, e.stagingBlock.value.1);
      }
    } else {
      PrevoteLocksOnly(e, ev.vote, ev.stake, ev.pick);
    }
  }

  lemma ProposalOffers(e: Engine, ev: Event)
    requires ev.EvProposal? || ev.EvOwnProposal?
    ensures LockedProposalBytes(Apply(e, ev).0) == LockedProposalBytes(e)
  {
  }

  lemma OthersOffer(e: Engine, ev: Event)
    requires !ev.EvPrevote?
    ensures LockedProposalBytes(Apply(e, ev).0) == if ev.EvNewHeight? then None else LockedProposalBytes(e)
  {
    if ev.EvProposal? || ev.EvOwnProposal? {
      ProposalOffers(e, ev);
    } else if !ev.EvStash? && !ev.EvNewHeight? {
      LockUntouched(e, ev);
    }
  }

  // ---- runs ----

  lemma StagingAt(e: Engine, evs: seq<Event>, k: nat)
    requires k < |evs|
    ensures After(e, evs, k + 1).stagingBlock
            == if evs[k].EvStash? then Some((evs[k].hash, evs[k].bytes))
               else if Drops(After(e, evs, k), evs[k]) then None else After(e, evs, k).stagingBlock
  {
    AfterStep(e, evs, k);
    StagingStep(After(e, evs, k), evs[k]);
  }

  lemma OfferAt(e: Engine, evs: seq<Event>, k: nat, x: Hash, b: Bytes)
    requires k < |evs|
    ensures LockedProposalBytes(After(e, evs, k + 1)) == Some((x, b))
       <==> || Promotes(After(e, evs, k), evs[k], x, b)
            || (LockedProposalBytes(After(e, evs, k)) == Some((x, b)) && !Withdraws(After(e, evs, k), evs[k], x))
  {
    AfterStep(e, evs, k);
    OfferStep(After(e, evs, k), evs[k], x, b);
  }

  lemma {:induction false} StagingExact(e: Engine, evs: seq<Event>, k: nat, x: Hash, b: Bytes)
    requires k <= |evs| && e.stagingBlock.None?
    ensures After(e, evs, k).stagingBlock == Some((x, b)) <==> Staged(e, evs, k, x, b)
  {
    if k > 0 {
      StagingExact(e, evs, k - 1, x, b);
      StagingAt(e, evs, k - 1);
      StagedNext(e, evs, k - 1, x, b);
    }
  }

  lemma PromotesIsLocksWith(e: Engine, evs: seq<Event>, k: nat, x: Hash, b: Bytes)
    requires k < |evs| && e.stagingBlock.None?
    ensures Promotes(After(e, evs, k), evs[k], x, b) <==> LocksWith(e, evs, k, x, b)
  {
    StagingExact(e, evs, k, x, b);
  }

  lemma WithdrawsIsReplaces(e: Engine, evs: seq<Event>, k: nat, x: Hash)
    requires k < |evs| && e.stagingBlock.None?
    ensures Withdraws(After(e, evs, k), evs[k], x) <==> Replaces(e, evs, k, x)
  {
    forall b
      ensures Promotes(After(e, evs, k), evs[k], x, b) <==> LocksWith(e, evs, k, x, b)
    {
      PromotesIsLocksWith(e, evs, k, x, b);
    }
  }

  lemma {:induction false} CacheExact(e: Engine, evs: seq<Event>, k: nat, x: Hash, b: Bytes)
    requires k <= |evs| && e.stagingBlock.None? && e.lockedBlock.None?
    ensures LockedProposalBytes(After(e, evs, k)) == Some((x, b)) <==> Cached(e, evs, k, x, b)
  {
    if k > 0 {
      CacheExact(e, evs, k - 1, x, b);
      OfferAt(e, evs, k - 1, x, b);
      PromotesIsLocksWith(e, evs, k - 1, x, b);
      WithdrawsIsReplaces(e, evs, k - 1, x);
      CachedNext(e, evs, k - 1, x, b);
    }
  }

  /** In every run of a fresh engine: `b` is offered for `x` if and only if the lock on `x` was taken
      with `b` stashed last, and since then the height has not changed, no other block was locked, and
      `x` was not locked again with bytes stashed anew. */
  lemma ReproposedExactly(height: nat, us: Address, total: u64, evs: seq<Event>, k: nat, x: Hash, b: Bytes)
    requires k <= |evs|
    ensures var e := NewEngine(height, us, total);
            LockedProposalBytes(After(e, evs, k)) == Some((x, b)) <==> Cached(e, evs, k, x, b)
  {
    CacheExact(NewEngine(height, us, total), evs, k, x, b);
  }

  // ---- the last stash of a round ----

  /** The last thing stashed in the current round is `b`, under `x`, and the proposal that was accepted
      since, if any, did not make the engine give up a stale lock. */
  ghost predicate LastStash(e: Engine, evs: seq<Event>, k: nat, x: Hash, b: Bytes)
    requires k <= |evs|
  {
    exists i: nat :: LastStashAt(e, evs, k, x, b, i)
  }

  ghost predicate LastStashAt(e: Engine, evs: seq<Event>, k: nat, x: Hash, b: Bytes, i: nat)
    requires k <= |evs|
  {
    && i < k && evs[i] == EvStash(x, b)
    && forall j :: i < j < k ==> !evs[j].EvStash? && !OpensRound(After(e, evs, j), evs[j]) && !Relaxes(After(e, evs, j), evs[j])
  }

  lemma PhaseStays(e: Engine, ev: Event)
    requires Rank(e.phase) >= 2 && !OpensRound(e, ev)
    ensures Rank(Apply(e, ev).0.phase) >= 2
  {
    if ev.EvRoundStatus? {
      if ev.skip.Some? {
        CatchUpLands(NotePeer(e, ev.peer, ev.round, ev.stake), ev.skip.value);
      }
    } else if ev.EvCatchUp? {
      CatchUpLands(e, ev.target);
    }
  }

  lemma LockLeavesPrevote(e: Engine, ev: Event, y: Hash)
    requires Locks(e, ev, y)
    ensures Apply(e, ev).0.phase == Precommit
  {
  }

  /** A lock is taken once in a round. */
  lemma {:induction false} PastPrevotes(e: Engine, evs: seq<Event>, j: nat, k: nat, y: Hash)
    requires j < k <= |evs| && Locks(After(e, evs, j), evs[j], y)
    requires forall i :: j < i < k ==> !OpensRound(After(e, evs, i), evs[i])
    ensures Rank(After(e, evs, k).phase) >= 2
    decreases k
  {
    AfterStep(e, evs, k - 1);
    if k == j + 1 {
      LockLeavesPrevote(After(e, evs, j), evs[j], y);
    } else {
      PastPrevotes(e, evs, j, k - 1, y);
      PhaseStays(After(e, evs, k - 1), evs[k - 1]);
    }
  }

  lemma LastStashIsStaged(e: Engine, evs: seq<Event>, k: nat, x: Hash, b: Bytes)
    requires k < |evs| && After(e, evs, k).phase == Prevote
    ensures LastStash(e, evs, k, x, b) <==> Staged(e, evs, k, x, b)
  {
    if LastStash(e, evs, k, x, b) {
      var i: nat :| LastStashAt(e, evs, k, x, b, i);
      forall j | i < j < k
        ensures !Drops(After(e, evs, j), evs[j])
      {
        if y :| Locks(After(e, evs, j), evs[j], y) {
          PastPrevotes(e, evs, j, k, y);
        }
      }
      assert StagedBy(e, evs, k, x, b, i);
    }
    if Staged(e, evs, k, x, b) {
      var i: nat :| StagedBy(e, evs, k, x, b, i);
      assert LastStashAt(e, evs, k, x, b, i);
    }
  }

  /** Input `j` ends the lock on `x` as far as the cache goes: a new height or a lock on another block. */
  ghost predicate Ends(e: Engine, evs: seq<Event>, j: nat, x: Hash)
    requires j < |evs|
  {
    evs[j].EvNewHeight? || exists y :: y != x && Locks(After(e, evs, j), evs[j], y)
  }

  /** Input `t` takes the lock on `x` in a round whose last stash was `b` under `x`. */
  ghost predicate Takes(e: Engine, evs: seq<Event>, t: nat, x: Hash, b: Bytes)
    requires t < |evs|
  {
    Locks(After(e, evs, t), evs[t], x) && LastStash(e, evs, t, x, b)
  }

  lemma TakesIsLocksWith(e: Engine, evs: seq<Event>, t: nat, x: Hash, b: Bytes)
    requires t < |evs|
    ensures Takes(e, evs, t, x, b) <==> LocksWith(e, evs, t, x, b)
  {
    if Locks(After(e, evs, t), evs[t], x) {
      LastStashIsStaged(e, evs, t, x, b);
    }
  }

  lemma QuietIsNotReplaced(e: Engine, evs: seq<Event>, j: nat, x: Hash)
    requires j < |evs| && !Ends(e, evs, j, x) && forall b :: !Takes(e, evs, j, x, b)
    ensures !Replaces(e, evs, j, x)
  {
    forall b
      ensures !LocksWith(e, evs, j, x, b)
    {
      TakesIsLocksWith(e, evs, j, x, b);
    }
  }

  /** From the moment a prevote supermajority for `x` is counted in a round whose last stash was `b`
      under `x`, exactly these bytes are offered, until `x` is locked again with bytes stashed anew,
      another block is locked, or the height changes. */
  lemma OfferedFromThenOn(height: nat, us: Address, total: u64, evs: seq<Event>, t: nat, k: nat, x: Hash, b: Bytes)
    requires t < k <= |evs| && Takes(NewEngine(height, us, total), evs, t, x, b)
    requires forall j :: t < j < k ==> !Ends(NewEngine(height, us, total), evs, j, x)
    requires forall j, b' :: t < j < k ==> !Takes(NewEngine(height, us, total), evs, j, x, b')
    ensures LockedProposalBytes(After(NewEngine(height, us, total), evs, k)) == Some((x, b))
  {
    var e := NewEngine(height, us, total);
    TakesIsLocksWith(e, evs, t, x, b);
    forall j | t < j < k
      ensures !Replaces(e, evs, j, x)
    {
      QuietIsNotReplaced(e, evs, j, x);
    }
    assert CachedSince(e, evs, k, x, b, t);
    CacheExact(e, evs, k, x, b);
  }

  /** The last time the lock on `x` was taken with bytes, before `k`. */
  lemma {:induction false} LastTaking(e: Engine, evs: seq<Event>, k: nat, x: Hash, t: nat, b: Bytes) returns (t': nat, b': Bytes)
    requires t < k <= |evs| && Takes(e, evs, t, x, b)
    ensures t <= t' < k && Takes(e, evs, t', x, b') && forall j, c :: t' < j < k ==> !Takes(e, evs, j, x, c)
    decreases k
  {
    var last := k - 1;
    if c :| Takes(e, evs, last, x, c) {
      t', b' := last, c;
    } else {
      t', b' := LastTaking(e, evs, last, x, t, b);
    }
  }

  /** Every time the lock on `x` was taken with bytes, it ended before `k`. */
  ghost predicate AllEnded(e: Engine, evs: seq<Event>, k: nat, x: Hash)
    requires k <= |evs|
  {
    forall t: nat, b :: t < k && Takes(e, evs, t, x, b) ==> exists j :: t < j < k && Ends(e, evs, j, x)
  }

  /** While locked on `x`, an engine has nothing to offer if and only if no round in which this lock was
      taken had `x` as its last stash. */
  lemma NothingOfferedIff(height: nat, us: Address, total: u64, evs: seq<Event>, k: nat, x: Hash)
    requires k <= |evs| && After(NewEngine(height, us, total), evs, k).lockedHash == Some(x)
    ensures var e := NewEngine(height, us, total);
            LockedProposalBytes(After(e, evs, k)) == None <==> AllEnded(e, evs, k, x)
  {
    var e := NewEngine(height, us, total);
    var offer := LockedProposalBytes(After(e, evs, k));
    if offer == None {
      forall t: nat, b | t < k && Takes(e, evs, t, x, b)
        ensures exists j :: t < j < k && Ends(e, evs, j, x)
      {
        if forall j :: t < j < k ==> !Ends(e, evs, j, x) {
          var t', b' := LastTaking(e, evs, k, x, t, b);
          OfferedFromThenOn(height, us, total, evs, t', k, x, b');
        }
      }
    } else {
      var b := offer.value.1;
      CacheExact(e, evs, k, x, b);
      var t: nat :| CachedSince(e, evs, k, x, b, t);
      TakesIsLocksWith(e, evs, t, x, b);
      forall j | t < j < k
        ensures !Ends(e, evs, j, x)
      {
        assert !Replaces(e, evs, j, x);
      }
    }
  }
}
