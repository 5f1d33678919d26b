/** The validator loop around the engine: sign, broadcast, mark, feed back. A cascade is short,
    and a round cannot outlive three timeouts whose votes go out. */
module Driver {
  import opened BftTypes
  import opened EngineSpec
  import opened EngineRuns
  import opened EngineObject
  import opened Tallies

  type Answer = Option<Option<Hash>>

  /** A broadcast prevote is marked as cast and fed back with our own stake. */
  function FeedPrevote(e: Engine, a: Action, stake: nat, pick: Answer): (Engine, Action) {
    if a.BroadcastPrevote? then OnPrevote(e.(ourPrevoteCast := true), a.vote, stake, pick) else (e, a)
  }

  function FeedPrecommit(e: Engine, a: Action, stake: nat, pick: Answer): (Engine, Action) {
    if a.BroadcastPrecommit? then OnPrecommit(e.(ourPrecommitCast := true), a.vote, stake, pick) else (e, a)
  }

  /** The whole cascade of one action when every broadcast succeeds. */
  function Cascade(e: Engine, a: Action, stake: nat, p: Answer, q: Answer): (Engine, Action) {
    var (e1, a1) := FeedPrevote(e, a, stake, p);
    FeedPrecommit(e1, a1, stake, q)
  }

  predicate EndsRound(a: Action) {
    a.SkipRound? || a.TimeoutAdvanceRound? || a.FinalizeBlock?
  }

  /** Votes still to settle, plus phases still to leave. */
  function Measure(e: Engine): nat {
    (if e.pendingPrevote.Some? then 1 else 0) + (if e.pendingPrecommit.Some? then 1 else 0)
    + (match e.phase case Propose => 2 case Prevote => 1 case Precommit => 0 case Finalize => 0)
  }

  lemma MeasureBound(e: Engine)
    requires WellFormed(e)
    ensures Measure(e) <= 2
  {
  }

  /** Within a round no input raises the measure. */
  lemma MeasureNeverRises(e: Engine, e': Engine, a: Action)
    requires WellFormed(e) && VotingStep(e, e', a) && SameRound(e, e')
    ensures Measure(e') <= Measure(e)
  {
  }

  /** Feeding back a pending prevote settles it; all that can follow is our precommit. */
  lemma FedPrevoteSettles(e: Engine, v: Vote, stake: nat, p: Answer)
    requires WellFormed(e) && e.pendingPrevote == Some(v)
    ensures var (e1, a1) := FeedPrevote(e, BroadcastPrevote(v), stake, p);
            && WellFormed(e1) && SameRound(e, e1) && Measure(e1) < Measure(e)
            && (e1.phase == Finalize ==> e.phase == Finalize)
            && (a1.Wait? || (a1.BroadcastPrecommit? && e1.pendingPrecommit == Some(a1.vote)))
  {
    var marked := e.(ourPrevoteCast := true);
    var settled := SettlePrevote(marked, v);
    assert Bookkeeping(e, marked) && Bookkeeping(e, settled);
    assert Measure(settled) == Measure(e) - 1;
    BooksKeep(e, settled);
    if CountsPrevote(marked, v) {
      var e2 := RecordPrevote(settled, v, stake);
      BooksKeep(settled, e2);
      if p.Some? && e2.phase == Prevote {
        EnterPrecommitStep(e2, p.value);
        var (e1, a1) := EnterPrecommit(e2, p.value);
        MeasureNeverRises(e2, e1, a1);
      }
    }
  }

  /** Feeding back a pending precommit settles it; the cascade ends there. */
  lemma FedPrecommitSettles(e: Engine, v: Vote, stake: nat, q: Answer)
    requires WellFormed(e) && e.pendingPrecommit == Some(v)
    ensures var (e1, a1) := FeedPrecommit(e, BroadcastPrecommit(v), stake, q);
            && WellFormed(e1) && SameRound(e, e1) && Measure(e1) < Measure(e)
            && (EndsRound(a1) || (a1.Wait? && e1.phase == e.phase))
  {
    var marked := e.(ourPrecommitCast := true);
    BooksKeep(e, marked);
    PrecommitStep(marked, v, stake, q);
    PrecommitBooks(marked, v, stake, q);
  }

  /** A cascade ends after at most two broadcasts: what is left is no broadcast, it stays in the
      round, and it lowers the measure if anything was sent. */
  lemma CascadeSettles(e: Engine, a: Action, stake: nat, p: Answer, q: Answer)
    requires WellFormed(e) && EmitsPending(e, a)
    ensures var (e2, a2) := Cascade(e, a, stake, p, q);
            && WellFormed(e2) && SameRound(e, e2) && Emitted(a2).None?
            && (if Emitted(a).Some? then Measure(e2) < Measure(e) else (e2, a2) == (e, a))
            && (e2.phase == Finalize ==> e.phase == Finalize || EndsRound(a2))
  {
    if a.BroadcastPrevote? {
      FedPrevoteSettles(e, a.vote, stake, p);
      var (e1, a1) := FeedPrevote(e, a, stake, p);
      if a1.BroadcastPrecommit? {
        FedPrecommitSettles(e1, a1.vote, stake, q);
      }
    } else if a.BroadcastPrecommit? {
      FedPrecommitSettles(e, a.vote, stake, q);
    }
  }

  /** Every vote that goes out in a cascade is marked as cast, and no longer pending. */
  lemma CascadeMarks(e: Engine, a: Action, stake: nat, p: Answer, q: Answer)
    requires WellFormed(e) && EmitsPending(e, a)
    ensures var (e1, a1) := FeedPrevote(e, a, stake, p);
            var e2 := Cascade(e, a, stake, p, q).0;
            && (a.BroadcastPrevote? ==> e2.ourPrevoteCast && e2.pendingPrevote.None?)
            && (a1.BroadcastPrecommit? ==> e2.ourPrecommitCast && e2.pendingPrecommit.None?)
  {
    if a.BroadcastPrevote? {
      PrevoteMarked(e, a.vote, stake, p);
    }
    var (e1, a1) := FeedPrevote(e, a, stake, p);
    if a1.BroadcastPrecommit? {
      PrecommitMarked(e1, a1.vote, stake, q);
    }
  }

  lemma PrevoteMarked(e: Engine, v: Vote, stake: nat, p: Answer)
    requires WellFormed(e) && e.pendingPrevote == Some(v)
    ensures var (e1, a1) := FeedPrevote(e, BroadcastPrevote(v), stake, p);
            && e1.ourPrevoteCast && e1.pendingPrevote.None?
            && (a1.BroadcastPrecommit? ==> WellFormed(e1) && e1.pendingPrecommit == Some(a1.vote))
  {
    FedPrevoteSettles(e, v, stake, p);
  }

  lemma PrecommitMarked(e: Engine, v: Vote, stake: nat, q: Answer)
    requires WellFormed(e) && e.pendingPrecommit == Some(v)
    ensures var e1 := FeedPrecommit(e, BroadcastPrecommit(v), stake, q).0;
            && e1.ourPrecommitCast && e1.pendingPrecommit.None?
            && e1.ourPrevoteCast == e.ourPrevoteCast && e1.pendingPrevote == e.pendingPrevote
  {
  }

  lemma TimeoutStarts(e: Engine)
    requires WellFormed(e) && e.phase != Finalize
    ensures var (e1, a) := OnTimeout(e);
            && EmitsPending(e1, a) && SameRound(e, e1) && Measure(e1) <= Measure(e) && e1.phase != Finalize
            && (EndsRound(a) || Emitted(a).Some? || Measure(e1) < Measure(e))
  {
  }

  /** One driven timeout ends the round or lowers the measure. */
  lemma TimeoutProgress(e: Engine, stake: nat, p: Answer, q: Answer)
    requires WellFormed(e) && e.phase != Finalize
    ensures var (e1, a) := OnTimeout(e);
            var (e2, a2) := Cascade(e1, a, stake, p, q);
            EndsRound(a2) || (WellFormed(e2) && SameRound(e, e2) && e2.phase != Finalize && Measure(e2) < Measure(e))
  {
    TimeoutStep(e);
    TimeoutStarts(e);
    var (e1, a) := OnTimeout(e);
    CascadeSettles(e1, a, stake, p, q);
  }

  /** One turn of the loop: a timeout or another input, then its cascade. */
  datatype Turn = Turn(ev: Event, stake: nat, p: Answer, q: Answer)

  function TakeTurn(e: Engine, t: Turn): (Engine, Action) {
    var (e1, a) := Apply(e, t.ev);
    Cascade(e1, a, t.stake, t.p, t.q)
  }

  /** A turn after which the same round is still open. */
  ghost predicate StaysOpen(e: Engine, t: Turn) {
    var (e1, _) := Apply(e, t.ev);
    var (e2, a2) := TakeTurn(e, t);
    Admissible(e, t.ev) && SameRound(e, e1) && SameRound(e1, e2) && !EndsRound(a2) && e2.phase != Finalize
  }

  ghost predicate KeepsOpen(e: Engine, turns: seq<Turn>)
    decreases |turns|
  {
    turns == [] || (StaysOpen(e, turns[0]) && KeepsOpen(TakeTurn(e, turns[0]).0, turns[1..]))
  }

  function Timeouts(turns: seq<Turn>): nat {
    if turns == [] then 0 else (if turns[0].ev.EvTimeout? then 1 else 0) + Timeouts(turns[1..])
  }

  lemma InputMeasure(e: Engine, e1: Engine, a: Action, stake: nat, p: Answer, q: Answer)
    requires WellFormed(e) && WellFormed(e1) && VotingStep(e, e1, a) && SameRound(e, e1)
    ensures var e2 := Cascade(e1, a, stake, p, q).0; WellFormed(e2) && Measure(e2) <= Measure(e)
  {
    MeasureNeverRises(e, e1, a);
    CascadeSettles(e1, a, stake, p, q);
  }

  lemma TurnMeasure(e: Engine, t: Turn)
    requires WellFormed(e) && e.phase != Finalize && StaysOpen(e, t)
    ensures var e2 := TakeTurn(e, t).0;
            WellFormed(e2) && Measure(e2) + (if t.ev.EvTimeout? then 1 else 0) <= Measure(e)
  {
    if t.ev.EvTimeout? {
      TimeoutProgress(e, t.stake, t.p, t.q);
    } else {
      StepVotes(e, t.ev);
      InputMeasure(e, Apply(e, t.ev).0, Apply(e, t.ev).1, t.stake, t.p, t.q);
    }
  }

  lemma {:induction false} OpenRoundBound(e: Engine, turns: seq<Turn>)
    requires WellFormed(e) && e.phase != Finalize && KeepsOpen(e, turns)
    ensures Timeouts(turns) <= Measure(e)
    decreases |turns|
  {
    if turns != [] {
      TurnMeasure(e, turns[0]);
      OpenRoundBound(TakeTurn(e, turns[0]).0, turns[1..]);
    }
  }

  // ---- the round ends ----

  predicate AdmissibleTurns(e: Engine, turns: seq<Turn>)
    decreases |turns|
  {
    turns == [] || (Admissible(e, turns[0].ev) && AdmissibleTurns(TakeTurn(e, turns[0]).0, turns[1..]))
  }

  /** The turn ends the round by an advance, a skip or a finalization, or leaves it for a later one. */
  predicate EndsOrLeaves(e: Engine, t: Turn) {
    var (e2, a2) := TakeTurn(e, t);
    EndsRound(a2) || e2.height > e.height || (e2.height == e.height && e2.round > e.round)
  }

  predicate SomeTurnEnds(e: Engine, turns: seq<Turn>)
    decreases |turns|
  {
    turns != [] && (EndsOrLeaves(e, turns[0]) || SomeTurnEnds(TakeTurn(e, turns[0]).0, turns[1..]))
  }

  /** The engine finalizes only by saying so. */
  lemma FinalizesAloud(e: Engine, ev: Event)
    requires e.phase != Finalize
    ensures Apply(e, ev).0.phase == Finalize ==> Apply(e, ev).1.FinalizeBlock?
  {
    match ev {
      case EvCatchUp(target) => CatchUpLands(e, target);
      case EvRoundStatus(h, r, peer, stake, target) =>
        if target.Some? { CatchUpLands(NotePeer(e, peer, r, stake), target.value); }
      case EvPrecommit(v, stake, pick) => PrecommitBooks(e, v, stake, pick);
      case _ =>
    }
  }

  lemma StaysOpenOrEnds(e: Engine, t: Turn)
    requires WellFormed(e) && e.phase != Finalize && Admissible(e, t.ev)
    ensures StaysOpen(e, t) || EndsOrLeaves(e, t)
  {
    StepVotes(e, t.ev);
    FinalizesAloud(e, t.ev);
    CascadeSettles(Apply(e, t.ev).0, Apply(e, t.ev).1, t.stake, t.p, t.q);
  }

  lemma {:induction false} OpenOrEnds(e: Engine, turns: seq<Turn>)
    requires WellFormed(e) && e.phase != Finalize && AdmissibleTurns(e, turns)
    ensures KeepsOpen(e, turns) || SomeTurnEnds(e, turns)
    decreases |turns|
  {
    if turns != [] {
      StaysOpenOrEnds(e, turns[0]);
      if StaysOpen(e, turns[0]) {
        TurnMeasure(e, turns[0]);
        OpenOrEnds(TakeTurn(e, turns[0]).0, turns[1..]);
      }
    }
  }

  /** However inputs are interleaved, some turn ends the round or leaves it no later than the third
      timeout whose votes go out. */
  lemma ThreeTimeoutsEndTheRound(e: Engine, turns: seq<Turn>)
    requires WellFormed(e) && e.phase != Finalize && AdmissibleTurns(e, turns) && Timeouts(turns) >= 3
    ensures SomeTurnEnds(e, turns)
  {
    MeasureBound(e);
    OpenOrEnds(e, turns);
    if KeepsOpen(e, turns) {
      OpenRoundBound(e, turns);
    }
  }

  function BroadcastRank(a: Action): nat {
    match a case BroadcastPrevote(_) => 2 case BroadcastPrecommit(_) => 1 case _ => 0
  }

  /** The timeout branch of the validator loop. `prevoteSent` and `precommitSent` say whether the
      network took the broadcast; a dropped one ends the cascade and leaves the vote pending.
      The loop is finite because a fed-back vote only yields a later-phase action. */
  method HandleTimeout(bft: BftEngine, ourStake: nat, prevoteSent: bool, precommitSent: bool)
    returns (action: Action)
    requires WellFormed(bft.View()) && bft.View().phase != Finalize
    modifies bft
    ensures prevoteSent && precommitSent ==>
              EndsRound(action) || Measure(bft.View()) < old(Measure(bft.View()))
    ensures !EndsRound(action) ==> WellFormed(bft.View()) && SameRound(old(bft.View()), bft.View())
  {
    TimeoutStep(bft.View());
    TimeoutStarts(bft.View());
    ghost var e0 := bft.View();
    action := bft.OnTimeout();
    while action.BroadcastPrevote? || action.BroadcastPrecommit?
      invariant WellFormed(bft.View()) && SameRound(e0, bft.View()) && EmitsPending(bft.View(), action)
      invariant Measure(bft.View()) <= Measure(e0)
      invariant Emitted(action).Some? || EndsRound(action) || Measure(bft.View()) < Measure(e0)
      decreases BroadcastRank(action)
    {
      var v := action.vote;
      if action.BroadcastPrevote? {
        if !prevoteSent {
          return;
        }
        ghost var e := bft.View();
        bft.MarkPrevoteCast();
        ghost var pick;
        action, pick := bft.OnPrevoteWeighted(v, ourStake);
        FedPrevoteSettles(e, v, ourStake, pick);
      } else {
        if !precommitSent {
          return;
        }
        ghost var e := bft.View();
        bft.MarkPrecommitCast();
        ghost var pick;
        action, pick := bft.OnPrecommitWeighted(v, ourStake);
        FedPrecommitSettles(e, v, ourStake, pick);
      }
    }
    if action.TimeoutAdvanceRound? || action.SkipRound? {
      bft.AdvanceRound();
    }
  }
}
