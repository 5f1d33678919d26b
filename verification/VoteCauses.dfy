/** Which input makes an engine do what: every action, and the cause of every vote it ever hands out. */
module VoteCauses {
  import opened BftTypes
  import opened EngineSpec
  import opened EngineRuns
  import opened EngineLock
  import opened GoodRounds
  import RC = ReproposeCache

  /** A prevote for `h` is due: nothing was cast in this round, and the input opens it for `h`. */
  predicate PrevoteDue(e: Engine, ev: Event, h: Option<Hash>) {
    e.phase == Propose && !e.ourPrevoteCast && Opens(e, ev, h)
  }

  /** A precommit for `h` is due: the input completes a prevote supermajority for `h`, or the prevotes
      time out and `h` is nil. */
  predicate PrecommitDue(e: Engine, ev: Event, h: Option<Hash>) {
    && e.phase == Prevote && !e.ourPrecommitCast
    && (|| (ev.EvPrevote? && CountsPrevote(e, ev.vote) && ev.pick == Some(h))
        || (ev.EvTimeout? && e.pendingPrevote.None? && h == None))
  }

  predicate Due(e: Engine, ev: Event, m: Emission) {
    && m.vote == OwnVote(e, m.vote.hash)
    && if m.kind == PrevoteKind then PrevoteDue(e, ev, m.vote.hash) else PrecommitDue(e, ev, m.vote.hash)
  }

  /** A vote that the input hands out again: the pending one, on a timeout or on the proposal it is for. */
  predicate Repeated(e: Engine, ev: Event, m: Emission) {
    && IsRetry(e, m)
    && (|| (ev.EvTimeout? && (m.kind == PrecommitKind ==> e.pendingPrevote.None?))
        || ((ev.EvProposal? || ev.EvOwnProposal?) && m.kind == PrevoteKind && m.vote.hash == Some(ev.hash)))
  }

  lemma ProposalEmits(e: Engine, ev: Event, m: Emission)
    requires WellFormed(e) && (ev.EvProposal? || ev.EvOwnProposal?)
    ensures Emitted(Apply(e, ev).1) == Some(m) <==> Due(e, ev, m) || Repeated(e, ev, m)
  {
  }

  lemma TimeoutEmits(e: Engine, m: Emission)
    requires WellFormed(e)
    ensures Emitted(Apply(e, EvTimeout).1) == Some(m) <==> Due(e, EvTimeout, m) || Repeated(e, EvTimeout, m)
  {
  }

  lemma EnterEmits(e: Engine, h: Option<Hash>, m: Emission)
    requires e.pendingPrecommit.None?
    ensures Emitted(EnterPrecommit(e, h).1) == Some(m)
       <==> !e.ourPrecommitCast && m == Emission(PrecommitKind, OwnVote(e, h))
  {
  }

  lemma PrevoteEmits(e: Engine, ev: Event, m: Emission)
    requires WellFormed(e) && ev.EvPrevote?
    ensures Emitted(Apply(e, ev).1) == Some(m) <==> Due(e, ev, m) || Repeated(e, ev, m)
  {
    if CountsPrevote(e, ev.vote) && ev.pick.Some? && e.phase == Prevote {
      var e2 := RecordPrevote(SettlePrevote(e, ev.vote), ev.vote, ev.stake);
      EnterEmits(e2, ev.pick.value, m);
      assert OwnVote(e2, ev.pick.value) == OwnVote(e, ev.pick.value);
    }
  }

  /** An input makes the engine hand out a vote if and only if the vote is due, or pending and repeated. */
  lemma EmitsIff(e: Engine, ev: Event, m: Emission)
    requires WellFormed(e)
    ensures Emitted(Apply(e, ev).1) == Some(m) <==> Due(e, ev, m) || Repeated(e, ev, m)
  {
    if ev.EvProposal? || ev.EvOwnProposal? {
      ProposalEmits(e, ev, m);
    } else if ev.EvTimeout? {
      TimeoutEmits(e, m);
    } else if ev.EvPrevote? {
      PrevoteEmits(e, ev, m);
    }
  }

  // ---- the other actions ----

  predicate Complete(e: Engine, ev: Event, h: Option<Hash>) {
    ev.EvPrecommit? && CountsPrecommit(e, ev.vote) && ev.pick == Some(h)
  }

  /** The precommits time out. */
  predicate OutOfTime(e: Engine, ev: Event) {
    ev.EvTimeout? && e.pendingPrevote.None? && e.pendingPrecommit.None? && e.phase == Precommit
  }

  /** What else an input can make the engine do, and when: finalize on a precommit supermajority for a
      block, skip the round on one for nil or when the rounds run out, advance on a timeout, ask for a
      sync when a peer is ahead. */
  lemma ActsIff(e: Engine, ev: Event)
    ensures var a := Apply(e, ev).1;
            && (a.FinalizeBlock? <==> exists x :: Complete(e, ev, Some(x)))
            && (forall x :: a.FinalizeBlock? && Complete(e, ev, Some(x)) ==> a.hash == x)
            && (a.SkipRound? <==> Complete(e, ev, None) || (OutOfTime(e, ev) && e.round >= MAX_ROUND))
            && (a.TimeoutAdvanceRound? <==> OutOfTime(e, ev) && e.round < MAX_ROUND)
            && (a.SyncNeeded? <==> ev.EvRoundStatus? && ev.peerHeight > e.height)
            && (a.SyncNeeded? ==> a.peerHeight == ev.peerHeight)
  {
    if ev.EvPrecommit? && ev.pick.Some? && ev.pick.value.Some? && CountsPrecommit(e, ev.vote) {
      assert Complete(e, ev, Some(ev.pick.value.value));
    }
  }

  // ---- runs ----

  /** Where a pending vote comes from. */
  lemma PendingStep(e: Engine, ev: Event, m: Emission)
    requires WellFormed(e) && Admissible(e, ev) && IsRetry(Apply(e, ev).0, m)
    ensures IsRetry(e, m) || Due(e, ev, m)
  {
    StepVotes(e, ev);
    EmitsIff(e, ev, m);
  }

  ghost predicate DueAt(e: Engine, evs: seq<Event>, i: nat, m: Emission) {
    i < |evs| && Due(After(e, evs, i), evs[i], m)
  }

  /** Every input is admissible. */
  ghost predicate AdmissibleAll(e: Engine, evs: seq<Event>) {
    forall k :: 0 <= k < |evs| ==> Admissible(After(e, evs, k), evs[k])
  }

  lemma {:induction false} StaysWellFormed(e: Engine, evs: seq<Event>, k: nat)
    requires WellFormed(e) && AdmissibleAll(e, evs) && k <= |evs|
    ensures WellFormed(After(e, evs, k))
  {
    if k > 0 {
      StaysWellFormed(e, evs, k - 1);
      AfterStep(e, evs, k - 1);
      StepVotes(After(e, evs, k - 1), evs[k - 1]);
    } else {
      AfterNone(e, evs);
    }
  }

  lemma PendingOnce(e: Engine, evs: seq<Event>, k: nat, m: Emission)
    requires WellFormed(e) && AdmissibleAll(e, evs) && k < |evs| && IsRetry(After(e, evs, k + 1), m)
    ensures IsRetry(After(e, evs, k), m) || DueAt(e, evs, k, m)
  {
    StaysWellFormed(e, evs, k);
    AfterStep(e, evs, k);
    PendingStep(After(e, evs, k), evs[k], m);
  }

  lemma {:induction false} PendingWasDue(e: Engine, evs: seq<Event>, k: nat, m: Emission) returns (i: nat)
    requires WellFormed(e) && AdmissibleAll(e, evs) && k <= |evs| && IsRetry(After(e, evs, k), m) && !IsRetry(e, m)
    ensures i < k && DueAt(e, evs, i, m)
  {
    if k == 0 {
      AfterNone(e, evs);
      assert false;
    } else {
      PendingOnce(e, evs, k - 1, m);
      if DueAt(e, evs, k - 1, m) {
        i := k - 1;
      } else {
        i := PendingWasDue(e, evs, k - 1, m);
      }
    }
  }

  /** In every run of a fresh engine, every vote it hands out, repeated or not, was due: a prevote for a
      block answers a proposal for it by the proposer elected for that round, a precommit for a block a
      prevote supermajority for it, and a nil vote a timeout, a lock, or a supermajority for nil. */
  lemma EveryVoteWasDue(height: nat, us: Address, total: u64, evs: seq<Event>, k: nat, m: Emission) returns (i: nat)
    requires k < |evs| && AdmissibleAll(NewEngine(height, us, total), evs)
    requires Emitted(Apply(After(NewEngine(height, us, total), evs, k), evs[k]).1) == Some(m)
    ensures i <= k && DueAt(NewEngine(height, us, total), evs, i, m)
  {
    var e := NewEngine(height, us, total);
    StaysWellFormed(e, evs, k);
    EmitsIff(After(e, evs, k), evs[k], m);
    if Due(After(e, evs, k), evs[k], m) {
      i := k;
    } else {
      i := PendingWasDue(e, evs, k, m);
    }
  }

  // ---- the cast flags ----

  /** A prevote (or a precommit) was marked as cast in the current round. */
  ghost predicate Marked(e: Engine, evs: seq<Event>, k: nat, kind: Kind)
    requires k <= |evs|
  {
    exists i: nat :: MarkedAt(e, evs, k, kind, i)
  }

  predicate Marks(ev: Event, kind: Kind) {
    if kind == PrevoteKind then ev.EvMarkPrevote? else ev.EvMarkPrecommit?
  }

  ghost predicate MarkedAt(e: Engine, evs: seq<Event>, k: nat, kind: Kind, i: nat)
    requires k <= |evs|
  {
    i < k && Marks(evs[i], kind) && forall j :: i < j < k ==> !RC.OpensRound(After(e, evs, j), evs[j])
  }

  function Flag(e: Engine, kind: Kind): bool {
    if kind == PrevoteKind then e.ourPrevoteCast else e.ourPrecommitCast
  }

  lemma FlagStep(e: Engine, ev: Event, kind: Kind)
    ensures Flag(Apply(e, ev).0, kind) <==> Marks(ev, kind) || (Flag(e, kind) && !RC.OpensRound(e, ev))
  {
    if ev.EvRoundStatus? {
      if ev.skip.Some? {
        CatchUpLands(NotePeer(e, ev.peer, ev.round, ev.stake), ev.skip.value);
      }
    } else if ev.EvCatchUp? {
      CatchUpLands(e, ev.target);
    } else if ev.EvPrevote? {
      PrevoteKeepsFlags(e, ev);
    }
  }

  lemma PrevoteKeepsFlags(e: Engine, ev: Event)
    requires ev.EvPrevote?
    ensures var e' := Apply(e, ev).0;
            e'.ourPrevoteCast == e.ourPrevoteCast && e'.ourPrecommitCast == e.ourPrecommitCast && e'.round == e.round
  {
  }

  lemma MarkedNext(e: Engine, evs: seq<Event>, k: nat, kind: Kind)
    requires k < |evs|
    ensures Marked(e, evs, k + 1, kind)
       <==> Marks(evs[k], kind) || (Marked(e, evs, k, kind) && !RC.OpensRound(After(e, evs, k), evs[k]))
  {
    if Marked(e, evs, k + 1, kind) && !Marks(evs[k], kind) {
      var i: nat :| MarkedAt(e, evs, k + 1, kind, i);
      assert MarkedAt(e, evs, k, kind, i);
    }
    if Marks(evs[k], kind) {
      assert MarkedAt(e, evs, k + 1, kind, k);
    } else if Marked(e, evs, k, kind) && !RC.OpensRound(After(e, evs, k), evs[k]) {
      var i: nat :| MarkedAt(e, evs, k, kind, i);
      assert MarkedAt(e, evs, k + 1, kind, i);
    }
  }

  lemma FlagAt(e: Engine, evs: seq<Event>, k: nat, kind: Kind)
    requires k < |evs|
    ensures Flag(After(e, evs, k + 1), kind)
       <==> Marks(evs[k], kind) || (Flag(After(e, evs, k), kind) && !RC.OpensRound(After(e, evs, k), evs[k]))
  {
    AfterStep(e, evs, k);
    FlagStep(After(e, evs, k), evs[k], kind);
  }

  lemma {:induction false} FlagsExact(e: Engine, evs: seq<Event>, k: nat, kind: Kind)
    requires k <= |evs| && !Flag(e, kind)
    ensures Flag(After(e, evs, k), kind) <==> Marked(e, evs, k, kind)
  {
    if k > 0 {
      FlagsExact(e, evs, k - 1, kind);
      FlagAt(e, evs, k - 1, kind);
      MarkedNext(e, evs, k - 1, kind);
    } else {
      AfterNone(e, evs);
    }
  }

  /** In every run of a fresh engine, once a vote of a round is marked as cast, no other vote of its kind
      falls due in that round, and nothing but the mark has that effect. */
  lemma MarkedOnce(height: nat, us: Address, total: u64, evs: seq<Event>, k: nat, m: Emission)
    requires k < |evs| && DueAt(NewEngine(height, us, total), evs, k, m)
    ensures !Marked(NewEngine(height, us, total), evs, k, m.kind)
  {
    FlagsExact(NewEngine(height, us, total), evs, k, m.kind);
  }
}
