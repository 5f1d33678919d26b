/** What one engine keeps over every sequence of inputs, however hostile: it never votes
    twice, it honours its lock, and the bytes it re-proposes belong to the hash it is
    locked on. Nothing here assumes anything about the network or the other engines. */
module EngineRuns {
  import opened BftTypes
  import opened EngineSpec

  // ---- one step ----

  predicate OursNow(e: Engine, v: Vote) {
    v == OwnVote(e, v.hash)
  }

  /** Pending votes are our own, belong to the current round and to a phase that casts them;
      the lock is dated, and before the precommit phase it is older than the current round. */
  ghost predicate WellFormed(e: Engine) {
    && (e.pendingPrevote.Some? ==> e.phase != Propose && OursNow(e, e.pendingPrevote.value))
    && (e.pendingPrecommit.Some? ==>
          e.phase != Propose && e.phase != Prevote && OursNow(e, e.pendingPrecommit.value))
    && (e.lockedHash.Some? <==> e.lockedRound.Some?)
    && (e.lockedRound.Some? ==> e.lockedRound.value <= e.round)
    && (e.lockedRound.Some? && (e.phase == Propose || e.phase == Prevote) ==> e.lockedRound.value < e.round)
  }

  /** The driver only moves to higher heights, and the round counter has room to advance. */
  predicate Admissible(e: Engine, ev: Event) {
    && (ev.EvNewHeight? ==> ev.height > e.height)
    && (ev.EvAdvanceRound? ==> e.round < U32_MAX)
  }

  /** Catching up is one advance that lands on the target. */
  lemma {:induction false} CatchUpLands(e: Engine, target: u32)
    ensures CatchUpRound(e, target) == if target <= e.round then e else AdvanceRound(e).(round := target)
    decreases target - e.round
  {
    if target > e.round {
      CatchUpLands(AdvanceRound(e), target);
    }
  }

  function Rank(p: Phase): nat {
    match p case Propose => 0 case Prevote => 1 case Precommit => 2 case Finalize => 3
  }

  /** Heights and rounds never go back, and phases only move forward within a round. */
  predicate NotBefore(e: Engine, e': Engine) {
    e'.height > e.height
    || (e'.height == e.height && (e'.round > e.round || (e'.round == e.round && Rank(e'.phase) >= Rank(e.phase))))
  }

  datatype Kind = PrevoteKind | PrecommitKind

  datatype Emission = Emission(kind: Kind, vote: Vote)

  function Emitted(a: Action): Option<Emission> {
    match a
    case BroadcastPrevote(v) => Some(Emission(PrevoteKind, v))
    case BroadcastPrecommit(v) => Some(Emission(PrecommitKind, v))
    case _ => None
  }

  /** A vote already in the pending slot is being emitted again. */
  predicate IsRetry(e: Engine, m: Emission) {
    if m.kind == PrevoteKind then e.pendingPrevote == Some(m.vote) else e.pendingPrecommit == Some(m.vote)
  }

  /** A vote that is cast now: our own vote at the current round, cast on leaving the phase
      before its kind, and remembered as pending. */
  predicate IsCastNow(e: Engine, e': Engine, m: Emission) {
    && e'.height == e.height && e'.round == e.round && m.vote == OwnVote(e, m.vote.hash)
    && (m.kind == PrevoteKind ==>
          e.phase == Propose && e'.phase == Prevote && e'.pendingPrevote == Some(m.vote))
    && (m.kind == PrecommitKind ==>
          e.phase == Prevote && e'.phase == Precommit && e'.pendingPrecommit == Some(m.vote))
  }

  /** A broadcast vote is pending until it is fed back. */
  predicate EmitsPending(e: Engine, a: Action) {
    && (a.BroadcastPrevote? ==> e.pendingPrevote == Some(a.vote))
    && (a.BroadcastPrecommit? ==> e.pendingPrecommit == Some(a.vote))
  }

  /** What every input does to an engine, as far as voting is concerned. */
  ghost predicate VotingStep(e: Engine, e': Engine, a: Action) {
    && e'.us == e.us && NotBefore(e, e') && EmitsPending(e', a)
    && (Emitted(a).Some? ==> IsRetry(e, Emitted(a).value) || IsCastNow(e, e', Emitted(a).value))
    && (e'.pendingPrevote.Some? ==> e'.pendingPrevote == e.pendingPrevote || a == BroadcastPrevote(e'.pendingPrevote.value))
    && (e'.pendingPrecommit.Some? ==>
          e'.pendingPrecommit == e.pendingPrecommit || a == BroadcastPrecommit(e'.pendingPrecommit.value))
  }

  lemma ProposalStep(e: Engine, hash: Hash)
    requires WellFormed(e) && e.phase == Propose
    ensures var (e', a) := AcceptProposal(e, hash); WellFormed(e') && VotingStep(e, e', a)
  {
  }

  /** Bookkeeping: same place, same lock, pending votes at most settled. */
  ghost predicate Bookkeeping(e: Engine, e': Engine) {
    && e'.us == e.us && e'.height == e.height && e'.round == e.round && e'.phase == e.phase
    && e'.lockedHash == e.lockedHash && e'.lockedRound == e.lockedRound
    && (e'.pendingPrevote == e.pendingPrevote || e'.pendingPrevote.None?)
    && (e'.pendingPrecommit == e.pendingPrecommit || e'.pendingPrecommit.None?)
  }

  lemma BooksKeep(e: Engine, e1: Engine)
    requires WellFormed(e) && Bookkeeping(e, e1)
    ensures WellFormed(e1) && VotingStep(e, e1, Wait)
  {
  }

  lemma BooksThenStep(e: Engine, e1: Engine, e': Engine, a: Action)
    requires Bookkeeping(e, e1) && VotingStep(e1, e', a)
    ensures VotingStep(e, e', a)
  {
  }

  lemma EnterPrecommitStep(e: Engine, hash: Option<Hash>)
    requires WellFormed(e) && e.phase == Prevote
    ensures var (e', a) := EnterPrecommit(e, hash); WellFormed(e') && VotingStep(e, e', a)
  {
    assert e.pendingPrecommit.None?;
  }

  lemma PrevoteStep(e: Engine, v: Vote, stake: nat, pick: Option<Option<Hash>>)
    requires WellFormed(e)
    ensures var (e', a) := OnPrevote(e, v, stake, pick); WellFormed(e') && VotingStep(e, e', a)
  {
    var e1 := SettlePrevote(e, v);
    if !CountsPrevote(e, v) {
      BooksKeep(e, e1);
    } else {
      var e2 := RecordPrevote(e1, v, stake);
      BooksKeep(e, e2);
      if pick.Some? && e2.phase == Prevote {
        EnterPrecommitStep(e2, pick.value);
        var (e', a) := EnterPrecommit(e2, pick.value);
        BooksThenStep(e, e2, e', a);
      }
    }
  }

  lemma FinalizeKeeps(e: Engine, a: Action)
    requires WellFormed(e) && Emitted(a).None?
    ensures WellFormed(e.(phase := Finalize)) && VotingStep(e, e.(phase := Finalize), a)
  {
  }

  lemma PrecommitStep(e: Engine, v: Vote, stake: nat, pick: Option<Option<Hash>>)
    requires WellFormed(e)
    ensures var (e', a) := OnPrecommit(e, v, stake, pick); WellFormed(e') && VotingStep(e, e', a)
  {
    var e1 := SettlePrecommit(e, v);
    if !CountsPrecommit(e, v) {
      BooksKeep(e, e1);
    } else {
      var e2 := RecordPrecommit(e1, v, stake);
      BooksKeep(e, e2);
      var (e', a) := OnPrecommit(e, v, stake, pick);
      if pick.Some? && pick.value.Some? {
        FinalizeKeeps(e2, a);
      } else {
        assert e' == e2;
      }
      BooksThenStep(e, e2, e', a);
    }
  }

  lemma TimeoutStep(e: Engine)
    requires WellFormed(e)
    ensures var (e', a) := OnTimeout(e); WellFormed(e') && VotingStep(e, e', a)
  {
    if e.pendingPrevote.Some? || e.pendingPrecommit.Some? {
    } else if e.phase == Prevote {
      assert OnTimeout(e).0.lockedRound == e.lockedRound;
    }
  }

  lemma AnyProposalStep(e: Engine, hash: Hash, proposer: Address, reg: Registry)
    requires WellFormed(e)
    ensures var (e', a) := OnProposal(e, hash, proposer, reg); WellFormed(e') && VotingStep(e, e', a)
    ensures var (e', a) := OnOwnProposal(e, hash); WellFormed(e') && VotingStep(e, e', a)
  {
    BooksKeep(e, e);
    if e.phase == Propose {
      ProposalStep(e, hash);
    }
  }

  lemma CatchUpStep(e: Engine, target: u32)
    requires WellFormed(e)
    ensures var e' := CatchUpRound(e, target); WellFormed(e') && VotingStep(e, e', Wait)
  {
    CatchUpLands(e, target);
  }

  lemma RoundStatusStep(e: Engine, h: nat, r: u32, peer: Address, stake: nat, target: Option<u32>)
    requires WellFormed(e)
    ensures var (e', a) := OnRoundStatus(e, h, r, peer, stake, target); WellFormed(e') && VotingStep(e, e', a)
  {
    var e1 := NotePeer(e, peer, r, stake);
    BooksKeep(e, e);
    BooksKeep(e, e1);
    if target.Some? {
      CatchUpStep(e1, target.value);
      BooksThenStep(e, e1, CatchUpRound(e1, target.value), Wait);
    }
  }

  /** Every admissible input keeps the engine well formed and makes a voting step. */
  lemma StepVotes(e: Engine, ev: Event)
    requires WellFormed(e) && Admissible(e, ev)
    ensures var (e', a) := Apply(e, ev); WellFormed(e') && VotingStep(e, e', a)
  {
    match ev {
      case EvCatchUp(target) => CatchUpStep(e, target);
      case EvProposal(hash, proposer, reg) => AnyProposalStep(e, hash, proposer, reg);
      case EvOwnProposal(hash) => AnyProposalStep(e, hash, e.us, Registry([], {}));
      case EvPrevote(v, stake, pick) => PrevoteStep(e, v, stake, pick);
      case EvPrecommit(v, stake, pick) => PrecommitStep(e, v, stake, pick);
      case EvTimeout => TimeoutStep(e);
      case EvRoundStatus(h, r, peer, stake, target) => RoundStatusStep(e, h, r, peer, stake, target);
      case EvNewHeight(h, total) =>
      case EvAdvanceRound => CatchUpStep(e, e.round + 1); CatchUpLands(e, e.round + 1);
      case EvStash(hash, bytes) => BooksKeep(e, Stash(e, hash, bytes));
      case EvMarkPrevote => BooksKeep(e, e.(ourPrevoteCast := true));
      case EvMarkPrecommit => BooksKeep(e, e.(ourPrecommitCast := true));
    }
  }

  // ---- runs ----

  /** An engine together with its history: the votes it cast, in order and without repeats,
      every vote it handed to the driver, and every block it was given to stash. */
  datatype Trace = Trace(engine: Engine, cast: seq<Emission>, sent: set<Emission>, stashed: set<(Hash, Bytes)>)

  function Start(height: nat, us: Address, total: u64): Trace {
    Trace(NewEngine(height, us, total), [], {}, {})
  }

  function Extend(t: Trace, ev: Event): Trace {
    var (e', a) := Apply(t.engine, ev);
    var m := Emitted(a);
    Trace(e',
          if m.Some? && !IsRetry(t.engine, m.value) then t.cast + [m.value] else t.cast,
          if m.Some? then t.sent + {m.value} else t.sent,
          if ev.EvStash? then t.stashed + {(ev.hash, ev.bytes)} else t.stashed)
  }

  function Run(t: Trace, evs: seq<Event>): Trace
    decreases |evs|
  {
    if evs == [] then t else Run(Extend(t, evs[0]), evs[1..])
  }

  predicate AdmissibleRun(t: Trace, evs: seq<Event>)
    decreases |evs|
  {
    evs == [] || (Admissible(t.engine, evs[0]) && AdmissibleRun(Extend(t, evs[0]), evs[1..]))
  }

  lemma {:induction false} RunSnoc(t: Trace, evs: seq<Event>, k: nat)
    requires k < |evs|
    ensures Run(t, evs[..k + 1]) == Extend(Run(t, evs[..k]), evs[k])
    decreases k
  {
    if k == 0 {
      assert evs[..1] == [evs[0]] && evs[..0] == [] && evs[..1][1..] == [];
    } else {
      RunSnoc(Extend(t, evs[0]), evs[1..], k - 1);
      assert evs[..k + 1][1..] == evs[1..][..k] && evs[..k][1..] == evs[1..][..k - 1];
    }
  }

  /** Position of a vote: height, then round, then prevote before precommit. */
  predicate Earlier(x: Emission, y: Emission) {
    x.vote.height < y.vote.height
    || (x.vote.height == y.vote.height
        && (x.vote.round < y.vote.round
            || (x.vote.round == y.vote.round && x.kind == PrevoteKind && y.kind == PrecommitKind)))
  }

  predicate SamePosition(x: Emission, y: Emission) {
    x.vote.height == y.vote.height && x.vote.round == y.vote.round && x.kind == y.kind
  }

  predicate Increasing(s: seq<Emission>) {
    forall i, j :: 0 <= i < j < |s| ==> Earlier(s[i], s[j])
  }

  /** The engine has left the phase of this rank at this height and round. */
  predicate Left(e: Engine, height: nat, round: nat, rank: nat) {
    height < e.height || (height == e.height && (round < e.round || (round == e.round && Rank(e.phase) > rank)))
  }

  /** The engine has moved past the point where it cast `m`. */
  predicate Behind(e: Engine, m: Emission) {
    Left(e, m.vote.height, m.vote.round, if m.kind == PrevoteKind then 0 else 1)
  }

  ghost predicate VotesOnce(t: Trace) {
    && WellFormed(t.engine)
    && Increasing(t.cast)
    && (forall i :: 0 <= i < |t.cast| ==> Behind(t.engine, t.cast[i]))
    && (forall m :: m in t.sent ==> m in t.cast)
    && (t.engine.pendingPrevote.Some? ==> Emission(PrevoteKind, t.engine.pendingPrevote.value) in t.cast)
    && (t.engine.pendingPrecommit.Some? ==> Emission(PrecommitKind, t.engine.pendingPrecommit.value) in t.cast)
  }

  lemma BehindStays(e: Engine, e': Engine, m: Emission)
    requires Behind(e, m) && NotBefore(e, e')
    ensures Behind(e', m)
  {
  }

  /** A vote that is cast now comes after every vote the engine is past. */
  lemma CastIsLater(e: Engine, e': Engine, m: Emission, old_: Emission)
    requires IsCastNow(e, e', m) && Behind(e, old_)
    ensures Earlier(old_, m) && Behind(e', m)
  {
  }

  lemma ExtendVotesOnce(t: Trace, ev: Event)
    requires VotesOnce(t) && Admissible(t.engine, ev)
    ensures VotesOnce(Extend(t, ev))
  {
    var e := t.engine;
    var (e', a) := Apply(e, ev);
    StepVotes(e, ev);
    var t' := Extend(t, ev);
    forall i | 0 <= i < |t.cast| ensures Behind(e', t.cast[i]) {
      BehindStays(e, e', t.cast[i]);
    }
    if Emitted(a).Some? && !IsRetry(e, Emitted(a).value) {
      var m := Emitted(a).value;
      assert t'.cast == t.cast + [m];
      forall i | 0 <= i < |t.cast| ensures Earlier(t.cast[i], m) {
        CastIsLater(e, e', m, t.cast[i]);
      }
      assert t'.cast[|t.cast|] == m;
    }
  }

  lemma {:induction false} RunVotesOnce(t: Trace, evs: seq<Event>)
    requires VotesOnce(t) && AdmissibleRun(t, evs)
    ensures VotesOnce(Run(t, evs))
    decreases |evs|
  {
    if evs != [] {
      ExtendVotesOnce(t, evs[0]);
      RunVotesOnce(Extend(t, evs[0]), evs[1..]);
    }
  }

  /** No double voting, over every admissible run of a fresh engine: the votes it casts are
      strictly increasing in height, round and step, and all votes it ever hands to the
      driver for one position, retries included, are one and the same vote. */
  lemma NoDoubleVote(height: nat, us: Address, total: u64, evs: seq<Event>)
    requires AdmissibleRun(Start(height, us, total), evs)
    ensures var t := Run(Start(height, us, total), evs);
            Increasing(t.cast)
            && forall x, y :: x in t.sent && y in t.sent && SamePosition(x, y) ==> x == y
  {
    var t := Run(Start(height, us, total), evs);
    RunVotesOnce(Start(height, us, total), evs);
    forall x, y | x in t.sent && y in t.sent && SamePosition(x, y) ensures x == y {
      CastUnique(t, x, y);
    }
  }

  /** A prevote that contradicts `v`: same height, same round, another content. */
  predicate Contradicts(w: Emission, v: Vote) {
    w.kind == PrevoteKind && w.vote.height == v.height && w.vote.round == v.round && w.vote != v
  }

  ghost predicate CanContradict(t: Trace, v: Vote) {
    exists evs, w :: AdmissibleRun(t, evs) && w in Run(t, evs).sent && Contradicts(w, v)
  }

  /** The round counter saturates without keeping the cast flags, so advancing an engine that
      has prevoted in its round is safe exactly while the counter still has room. */
  lemma AdvanceSafeIff(t: Trace, v: Vote)
    requires VotesOnce(t) && Emission(PrevoteKind, v) in t.sent
    requires v.height == t.engine.height && v.round == t.engine.round
    ensures CanContradict(Extend(t, EvAdvanceRound), v) <==> t.engine.round == U32_MAX
  {
    var t' := Extend(t, EvAdvanceRound);
    if t.engine.round == U32_MAX {
      var evs, w := SecondVote(t, v);
      assert Contradicts(w, v);
    } else {
      ExtendVotesOnce(t, EvAdvanceRound);
      forall evs, w | AdmissibleRun(t', evs) && w in Run(t', evs).sent ensures !Contradicts(w, v) {
        if Contradicts(w, v) {
          RunVotesOnce(t', evs);
          SentGrows(t', evs);
          CastUnique(Run(t', evs), w, Emission(PrevoteKind, v));
        }
      }
    }
  }

  lemma CastUnique(t: Trace, x: Emission, y: Emission)
    requires VotesOnce(t) && x in t.sent && y in t.sent && SamePosition(x, y)
    ensures x == y
  {
    var i :| 0 <= i < |t.cast| && t.cast[i] == x;
    var j :| 0 <= j < |t.cast| && t.cast[j] == y;
    assert i == j;
  }

  lemma {:induction false} SentGrows(t: Trace, evs: seq<Event>)
    ensures t.sent <= Run(t, evs).sent
    decreases |evs|
  {
    if evs != [] {
      SentGrows(Extend(t, evs[0]), evs[1..]);
    }
  }

  /** At the last round an advance reopens the round: one more input yields another prevote. */
  lemma SecondVote(t: Trace, v: Vote) returns (evs: seq<Event>, w: Emission)
    requires t.engine.round == U32_MAX && v.height == t.engine.height && v.round == t.engine.round
    ensures AdmissibleRun(Extend(t, EvAdvanceRound), evs)
    ensures w in Run(Extend(t, EvAdvanceRound), evs).sent && Contradicts(w, v)
  {
    var t' := Extend(t, EvAdvanceRound);
    var e := t'.engine;
    var ev := EvTimeout;
    if v.hash.None? {
      ev := EvOwnProposal(if e.lockedHash.Some? then e.lockedHash.value else Hash("block"));
    }
    evs := [ev];
    w := Emitted(Apply(e, ev).1).value;
    assert evs[1..] == [];
    assert Run(t', evs) == Run(Extend(t', ev), []);
    assert AdmissibleRun(Extend(t', ev), []);
  }
}
