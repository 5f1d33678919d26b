/** Restarting inside a height: the rule that moves a fresh engine past the round the guard last
    signed in, and the fact that the two then never get in each other's way. */
module Resume {
  import opened BftTypes
  import opened EngineSpec
  import opened EngineRuns
  import opened EngineObject
  import G = LastSignGuard

  /** Past the round if a vote was signed in it; in the round if only a proposal was. */
  function ResumeRound(s: G.SignState): u32 {
    if s.place.step >= 1 then (if s.place.round < U32_MAX then s.place.round + 1 else s.place.round) else s.place.round
  }

  function Resumed(height: nat, us: Address, total: u64, s: Option<G.SignState>): Engine {
    if s.Some? && s.value.place.height == height
    then NewEngine(height, us, total).(round := ResumeRound(s.value))
    else NewEngine(height, us, total)
  }

  /** The start-up branch of the validator loop. */
  method StartEngine(height: nat, us: Address, total: u64, guard: G.LastSignGuard) returns (bft: BftEngine)
    ensures bft.View() == Resumed(height, us, total, guard.memory)
  {
    bft := new BftEngine(height, us, total);
    var s := guard.CurrentState();
    if s.Some? && s.value.place.height == height {
      var target := ResumeRound(s.value);
      var n := 0;
      while n < target
        invariant n <= target
        invariant bft.View() == NewEngine(height, us, total).(round := n)
      {
        bft.AdvanceRound();
        n := n + 1;
      }
    }
  }

  /** How a vote is presented to the guard; the payload is whatever its encoding is. */
  function RequestFor(m: Emission, payload: Bytes): G.Request {
    G.Request(m.vote.height, m.vote.round, if m.kind == PrevoteKind then G.StepPrevote else G.StepPrecommit, payload)
  }

  /** Every vote is granted when presented in order, each write succeeding. */
  predicate AllGranted(g: G.Guard, votes: seq<Emission>, payloads: seq<Bytes>)
    requires |payloads| == |votes|
    decreases |votes|
  {
    votes == [] ||
    (var (g', ok) := G.Check(g, RequestFor(votes[0], payloads[0]), true);
     ok && AllGranted(g', votes[1..], payloads[1..]))
  }

  predicate AboveMark(s: G.SignState, m: Emission) {
    G.Below(s.place, G.PlaceOf(RequestFor(m, [])))
  }

  lemma EarlierIsBelow(x: Emission, y: Emission, payload: Bytes)
    ensures Earlier(x, y) <==> G.Below(G.PlaceOf(RequestFor(x, payload)), G.PlaceOf(RequestFor(y, [])))
  {
  }

  /** Increasing votes above the mark are all granted. */
  lemma {:induction false} IncreasingGranted(s: G.SignState, votes: seq<Emission>, payloads: seq<Bytes>)
    requires |payloads| == |votes| && Increasing(votes) && (votes != [] ==> AboveMark(s, votes[0]))
    ensures AllGranted(G.Guard(Some(s), Some(s)), votes, payloads)
    decreases |votes|
  {
    if votes != [] {
      var q := RequestFor(votes[0], payloads[0]);
      var s' := G.SignState(G.PlaceOf(q), G.DigestOf(payloads[0]));
      if |votes| > 1 {
        assert Earlier(votes[0], votes[1]);
        EarlierIsBelow(votes[0], votes[1], payloads[0]);
        assert votes[1..][0] == votes[1];
      }
      IncreasingGranted(s', votes[1..], payloads[1..]);
    }
  }

  /** Where an engine that has not voted yet stands: its votes can only come at or after this. */
  predicate NotBelow(h: nat, r: nat, m: Emission) {
    m.vote.height > h || (m.vote.height == h && m.vote.round >= r)
  }

  lemma {:induction false} CastFromHere(t: Trace, evs: seq<Event>, h: nat, r: nat)
    requires WellFormed(t.engine) && AdmissibleRun(t, evs)
    requires t.engine.height > h || (t.engine.height == h && t.engine.round >= r)
    requires forall i :: 0 <= i < |t.cast| ==> NotBelow(h, r, t.cast[i])
    ensures forall i :: 0 <= i < |Run(t, evs).cast| ==> NotBelow(h, r, Run(t, evs).cast[i])
    decreases |evs|
  {
    if evs != [] {
      StepVotes(t.engine, evs[0]);
      CastFromHere(Extend(t, evs[0]), evs[1..], h, r);
    }
  }

  /** The one state the rule cannot get past: a vote signed at the last round of this height. */
  predicate Stuck(height: nat, s: G.SignState) {
    s.place.height == height && s.place.round == U32_MAX && s.place.step >= 1
  }

  /** In every run of a resumed engine, each vote it casts lies strictly above the persisted mark. */
  lemma ResumedVotesAboveMark(height: nat, us: Address, total: u64, s: G.SignState, evs: seq<Event>, i: nat)
    requires s.place.height <= height && !Stuck(height, s)
    requires var t := Trace(Resumed(height, us, total, Some(s)), [], {}, {}); AdmissibleRun(t, evs) && i < |Run(t, evs).cast|
    ensures AboveMark(s, Run(Trace(Resumed(height, us, total, Some(s)), [], {}, {}), evs).cast[i])
  {
    var e := Resumed(height, us, total, Some(s));
    CastFromHere(Trace(e, [], {}, {}), evs, height, e.round);
  }

  /** Guard and engine compose: after a restart every vote of every run is granted when the run's
      votes are presented in order, whatever they are. */
  lemma ResumedNeverRefused(height: nat, us: Address, total: u64, s: G.SignState, evs: seq<Event>, payloads: seq<Bytes>)
    requires s.place.height <= height && !Stuck(height, s)
    requires var t := Trace(Resumed(height, us, total, Some(s)), [], {}, {});
             AdmissibleRun(t, evs) && |payloads| == |Run(t, evs).cast|
    ensures AllGranted(G.Guard(Some(s), Some(s)),
                       Run(Trace(Resumed(height, us, total, Some(s)), [], {}, {}), evs).cast, payloads)
  {
    var t := Trace(Resumed(height, us, total, Some(s)), [], {}, {});
    RunVotesOnce(t, evs);
    if Run(t, evs).cast != [] {
      ResumedVotesAboveMark(height, us, total, s, evs, 0);
    }
    IncreasingGranted(s, Run(t, evs).cast, payloads);
  }

  ghost predicate NeverRefused(height: nat, us: Address, total: u64, s: G.SignState) {
    forall evs, payloads: seq<Bytes> ::
      var t := Trace(Resumed(height, us, total, Some(s)), [], {}, {});
      AdmissibleRun(t, evs) && |payloads| == |Run(t, evs).cast|
      ==> AllGranted(G.Guard(Some(s), Some(s)), Run(t, evs).cast, payloads)
  }

  /** The saturating round makes the premise exact: a resumed engine is never refused if and only if
      the guard's last vote of this height was not cast in the last representable round. */
  lemma ResumeWorksIff(height: nat, us: Address, total: u64, s: G.SignState)
    requires s.place.height <= height
    ensures NeverRefused(height, us, total, s) <==> !Stuck(height, s)
  {
    if Stuck(height, s) {
      var t := Trace(Resumed(height, us, total, Some(s)), [], {}, {});
      var evs := [EvTimeout];
      var payloads := [OtherBytes(s.digest)];
      assert evs[1..] == [];
      var m := Emission(PrevoteKind, OwnVote(t.engine, None));
      assert AdmissibleRun(Extend(t, EvTimeout), []);
      assert Run(t, evs) == Run(Extend(t, EvTimeout), []);
      assert Run(t, evs).cast == [m];
      assert !AllGranted(G.Guard(Some(s), Some(s)), [m], payloads);
    } else {
      forall evs, payloads: seq<Bytes> | (var t := Trace(Resumed(height, us, total, Some(s)), [], {}, {});
                                          AdmissibleRun(t, evs) && |payloads| == |Run(t, evs).cast|)
        ensures AllGranted(G.Guard(Some(s), Some(s)),
                           Run(Trace(Resumed(height, us, total, Some(s)), [], {}, {}), evs).cast, payloads)
      {
        ResumedNeverRefused(height, us, total, s, evs, payloads);
      }
    }
  }

  /** Some payload other than the recorded one. */
  function OtherBytes(d: Option<Bytes>): (r: Bytes)
    ensures r != [] && d != Some(r)
  {
    if d == Some([0]) then [1] else [0]
  }

  // ---- why this round ----

  /** An engine that starts the height in round `r`. */
  function StartedAt(height: nat, us: Address, total: u64, r: u32): Trace {
    Trace(NewEngine(height, us, total).(round := r), [], {}, {})
  }

  /** Whatever happens, its votes are granted in order. */
  ghost predicate NeverRefusedFrom(height: nat, us: Address, total: u64, s: G.SignState, r: u32) {
    forall evs, payloads: seq<Bytes> ::
      var t := StartedAt(height, us, total, r);
      AdmissibleRun(t, evs) && |payloads| == |Run(t, evs).cast|
      ==> AllGranted(G.Guard(Some(s), Some(s)), Run(t, evs).cast, payloads)
  }

  /** The round is past the mark, or it is the round of the mark and only its proposal was signed. */
  predicate PastMark(s: G.SignState, r: u32) {
    r > s.place.round || (r == s.place.round && s.place.step == 0)
  }

  lemma PastMarkGranted(height: nat, us: Address, total: u64, s: G.SignState, r: u32, evs: seq<Event>, payloads: seq<Bytes>)
    requires s.place.height == height && PastMark(s, r)
    requires AdmissibleRun(StartedAt(height, us, total, r), evs) && |payloads| == |Run(StartedAt(height, us, total, r), evs).cast|
    ensures AllGranted(G.Guard(Some(s), Some(s)), Run(StartedAt(height, us, total, r), evs).cast, payloads)
  {
    var t := StartedAt(height, us, total, r);
    RunVotesOnce(t, evs);
    CastFromHere(t, evs, height, r);
    IncreasingGranted(s, Run(t, evs).cast, payloads);
  }

  lemma EarlyRefused(height: nat, us: Address, total: u64, s: G.SignState, r: u32)
    requires s.place.height == height && !PastMark(s, r)
    ensures !NeverRefusedFrom(height, us, total, s, r)
  {
    var t := StartedAt(height, us, total, r);
    var evs := [EvTimeout];
    var payloads := [OtherBytes(s.digest)];
    assert evs[1..] == [];
    var m := Emission(PrevoteKind, OwnVote(t.engine, None));
    assert Run(t, evs) == Run(Extend(t, EvTimeout), []);
    assert Run(t, evs).cast == [m];
    assert AdmissibleRun(Extend(t, EvTimeout), []);
    assert !G.Check(G.Guard(Some(s), Some(s)), RequestFor(m, payloads[0]), true).1;
    assert !AllGranted(G.Guard(Some(s), Some(s)), [m], payloads);
  }

  /** The rule resumes in the earliest round from which no vote can be refused, unless there is none. */
  lemma ResumesEarliest(height: nat, us: Address, total: u64, s: G.SignState, r: u32)
    requires s.place.height == height && !Stuck(height, s)
    ensures NeverRefusedFrom(height, us, total, s, r) <==> r >= ResumeRound(s)
  {
    if PastMark(s, r) {
      forall evs, payloads: seq<Bytes> |
        AdmissibleRun(StartedAt(height, us, total, r), evs) && |payloads| == |Run(StartedAt(height, us, total, r), evs).cast|
        ensures AllGranted(G.Guard(Some(s), Some(s)), Run(StartedAt(height, us, total, r), evs).cast, payloads)
      {
        PastMarkGranted(height, us, total, s, r, evs, payloads);
      }
    } else {
      EarlyRefused(height, us, total, s, r);
    }
  }

  // ---- everything that is signed ----

  /** What the driver signs. */
  datatype Signing = SignProposal(height: nat, round: u32, hash: Hash) | SignVote(m: Emission)

  function PlaceFor(x: Signing): G.Place {
    match x
    case SignProposal(height, round, _) => G.Place(height, round, 0)
    case SignVote(m) => G.Place(m.vote.height, m.vote.round, if m.kind == PrevoteKind then 1 else 2)
  }

  /** The payload of a signing depends on nothing else, so a vote handed out again has the same bytes. */
  type Encoding = Signing -> Bytes

  ghost predicate NonEmpty(enc: Encoding) {
    forall x :: enc(x) != []
  }

  function RequestOf(enc: Encoding, x: Signing): G.Request {
    G.Request(PlaceFor(x).height, PlaceFor(x).round,
              if x.SignProposal? then G.StepProposal else if x.m.kind == PrevoteKind then G.StepPrevote else G.StepPrecommit,
              enc(x))
  }

  /** An input, and whether the driver looks at the vote it hands out. It always does, except that a
      proposer may discard the answer to its own proposal. */
  datatype Input = Input(ev: Event, heeded: bool)

  predicate Heeds(i: Input) {
    i.ev.EvOwnProposal? ==> i.heeded
  }

  /** What an input makes the driver sign: the proposal it makes, and every vote it hands out, first or
      again. */
  function Signs(e: Engine, i: Input): seq<Signing> {
    var m := Emitted(Apply(e, i.ev).1);
    (if Proposes(e, i.ev) then [SignProposal(e.height, e.round, i.ev.hash)] else [])
    + (if m.Some? && Heeds(i) then [SignVote(m.value)] else [])
  }

  function Signed(e: Engine, ins: seq<Input>): seq<Signing>
    decreases |ins|
  {
    if ins == [] then [] else Signs(e, ins[0]) + Signed(Apply(e, ins[0].ev).0, ins[1..])
  }

  predicate AdmissibleInputs(e: Engine, ins: seq<Input>)
    decreases |ins|
  {
    ins == [] || (Admissible(e, ins[0].ev) && AdmissibleInputs(Apply(e, ins[0].ev).0, ins[1..]))
  }

  /** The mark after presenting these in order, each write succeeding, if all are granted. */
  function Present(s: G.SignState, enc: Encoding, xs: seq<Signing>): Option<G.SignState>
    decreases |xs|
  {
    if xs == [] then Some(s)
    else
      var (g, ok) := G.Check(G.Guard(Some(s), Some(s)), RequestOf(enc, xs[0]), true);
      if ok && g.memory.Some? then Present(g.memory.value, enc, xs[1..]) else None
  }

  /** A precommit of the current round is out. */
  function HandedAfter(e: Engine, handed: bool, ev: Event): bool {
    var (e', a) := Apply(e, ev);
    e'.height == e.height && e'.round == e.round && (handed || a.BroadcastPrecommit?)
  }

  /** A prevote is signed although a precommit of its round is already out. */
  predicate SignsLate(e: Engine, handed: bool, i: Input) {
    handed && Heeds(i) && Apply(e, i.ev).1.BroadcastPrevote?
  }

  predicate EverLate(e: Engine, handed: bool, ins: seq<Input>)
    decreases |ins|
  {
    ins != [] && (SignsLate(e, handed, ins[0])
                  || EverLate(Apply(e, ins[0].ev).0, HandedAfter(e, handed, ins[0].ev), ins[1..]))
  }

  // ---- how the mark follows the engine ----

  predicate BeforeRound(e: Engine, p: G.Place) {
    p.height < e.height || (p.height == e.height && p.round < e.round)
  }

  predicate InRoundOf(e: Engine, p: G.Place, step: nat) {
    p == G.Place(e.height, e.round, step)
  }

  /** The mark lies before the round; or on its proposal; or on its prevote or precommit, with the bytes
      of the vote that is still pending, if one is. */
  ghost predicate Follows(e: Engine, handed: bool, s: G.SignState, enc: Encoding) {
    && WellFormed(e) && (e.pendingPrecommit.Some? ==> handed) && (handed ==> Rank(e.phase) >= 2)
    && (|| (BeforeRound(e, s.place) && !handed)
        || (InRoundOf(e, s.place, 0) && !handed)
        || (InRoundOf(e, s.place, 1) && !handed && e.phase != Propose
            && (e.pendingPrevote.Some? ==> s.digest == Some(enc(SignVote(Emission(PrevoteKind, e.pendingPrevote.value))))))
        || (InRoundOf(e, s.place, 2) && handed
            && (e.pendingPrecommit.Some? ==>
                  s.digest == Some(enc(SignVote(Emission(PrecommitKind, e.pendingPrecommit.value)))))))
  }

  /** The round of the mark is not open for another proposal. */
  predicate NoRepeat(e: Engine, p: G.Place) {
    InRoundOf(e, p, 0) ==> e.phase != Propose
  }

  lemma PresentOne(s: G.SignState, enc: Encoding, x: Signing)
    requires enc(x) != []
    ensures Present(s, enc, [x]) ==
            if PlaceFor(x) == s.place && s.digest == Some(enc(x)) then Some(s)
            else if G.Below(s.place, PlaceFor(x)) then Some(G.SignState(PlaceFor(x), Some(enc(x))))
            else None
  {
    assert [x][1..] == [];
    assert G.PlaceOf(RequestOf(enc, x)) == PlaceFor(x);
  }

  lemma {:induction false} PresentJoin(s: G.SignState, enc: Encoding, xs: seq<Signing>, ys: seq<Signing>)
    ensures Present(s, enc, xs + ys) ==
            match Present(s, enc, xs) case None => None case Some(s') => Present(s', enc, ys)
    decreases |xs|
  {
    if xs == [] {
      assert xs + ys == ys;
    } else {
      assert (xs + ys)[0] == xs[0] && (xs + ys)[1..] == xs[1..] + ys;
      var (g, ok) := G.Check(G.Guard(Some(s), Some(s)), RequestOf(enc, xs[0]), true);
      if ok && g.memory.Some? {
        PresentJoin(g.memory.value, enc, xs[1..], ys);
      }
    }
  }

  function VoteOf(a: Action): seq<Signing> {
    if Emitted(a).Some? then [SignVote(Emitted(a).value)] else []
  }

  /** A vote handed out is granted exactly when it is not a late prevote, and the mark follows. */
  lemma VoteFollows(e: Engine, e': Engine, a: Action, handed: bool, s: G.SignState, enc: Encoding)
    requires Follows(e, handed, s, enc) && WellFormed(e') && VotingStep(e, e', a) && NonEmpty(enc)
    ensures Present(s, enc, VoteOf(a)).Some? <==> !(handed && a.BroadcastPrevote?)
    ensures var handed' := e'.height == e.height && e'.round == e.round && (handed || a.BroadcastPrecommit?);
            Present(s, enc, VoteOf(a)).Some? ==> Follows(e', handed', Present(s, enc, VoteOf(a)).value, enc)
  {
    if Emitted(a).Some? {
      PresentOne(s, enc, SignVote(Emitted(a).value));
    }
  }

  /** A vote that is discarded leaves the mark where it is. */
  lemma DiscardFollows(e: Engine, e': Engine, a: Action, handed: bool, s: G.SignState, enc: Encoding)
    requires Follows(e, handed, s, enc) && WellFormed(e') && VotingStep(e, e', a) && !a.BroadcastPrecommit?
    ensures Follows(e', e'.height == e.height && e'.round == e.round && handed, s, enc)
  {
  }

  /** A proposal is granted where its round is open. */
  lemma ProposalFollows(e: Engine, handed: bool, s: G.SignState, enc: Encoding, x: Hash)
    requires Follows(e, handed, s, enc) && e.phase == Propose && NoRepeat(e, s.place) && NonEmpty(enc)
    ensures var r := Present(s, enc, [SignProposal(e.height, e.round, x)]);
            r.Some? && Follows(e, handed, r.value, enc) && InRoundOf(e, r.value.place, 0)
  {
    PresentOne(s, enc, SignProposal(e.height, e.round, x));
  }

  /** The vote part of an input, for a mark that follows. */
  lemma HeedFollows(e: Engine, handed: bool, s: G.SignState, enc: Encoding, i: Input)
    requires Follows(e, handed, s, enc) && Admissible(e, i.ev) && NonEmpty(enc)
    ensures var r := Present(s, enc, if Heeds(i) then VoteOf(Apply(e, i.ev).1) else []);
            && (r.Some? <==> !SignsLate(e, handed, i))
            && (r.Some? ==> Follows(Apply(e, i.ev).0, HandedAfter(e, handed, i.ev), r.value, enc))
  {
    var (e', a) := Apply(e, i.ev);
    StepVotes(e, i.ev);
    if Heeds(i) {
      VoteFollows(e, e', a, handed, s, enc);
    } else {
      OwnProposalPrevotes(e, i.ev.hash);
      DiscardFollows(e, e', a, handed, s, enc);
    }
  }

  lemma OwnProposalPrevotes(e: Engine, x: Hash)
    ensures !OnOwnProposal(e, x).1.BroadcastPrecommit?
    ensures e.phase == Propose ==> OnOwnProposal(e, x).0.phase != Propose || OnOwnProposal(e, x).0 == e
  {
  }

  lemma SignsParts(e: Engine, i: Input)
    ensures Signs(e, i) == (if Proposes(e, i.ev) then [SignProposal(e.height, e.round, i.ev.hash)] else [])
                           + (if Heeds(i) then VoteOf(Apply(e, i.ev).1) else [])
  {
  }

  /** A round does not open again. */
  lemma StaysNoRepeat(e: Engine, ev: Event, p: G.Place)
    requires WellFormed(e) && Admissible(e, ev) && (BeforeRound(e, p) || (p.height == e.height && p.round == e.round && NoRepeat(e, p)))
    ensures NoRepeat(Apply(e, ev).0, p)
  {
    StepVotes(e, ev);
  }

  lemma ProposingLeaves(e: Engine, ev: Event)
    requires WellFormed(e) && Proposes(e, ev)
    ensures var e' := Apply(e, ev).0; e'.height == e.height && e'.round == e.round && e'.phase == Prevote
  {
  }

  /** One input, for a mark whose round is not open for another proposal. */
  lemma InputFollows(e: Engine, handed: bool, s: G.SignState, enc: Encoding, i: Input)
    requires Follows(e, handed, s, enc) && NoRepeat(e, s.place) && Admissible(e, i.ev) && NonEmpty(enc)
    ensures var r := Present(s, enc, Signs(e, i));
            && (r.Some? <==> !SignsLate(e, handed, i))
            && (r.Some? ==> Follows(Apply(e, i.ev).0, HandedAfter(e, handed, i.ev), r.value, enc)
                            && NoRepeat(Apply(e, i.ev).0, r.value.place))
  {
    SignsParts(e, i);
    var votes := if Heeds(i) then VoteOf(Apply(e, i.ev).1) else [];
    if Proposes(e, i.ev) {
      var x := SignProposal(e.height, e.round, i.ev.hash);
      ProposalFollows(e, handed, s, enc, i.ev.hash);
      var s1 := Present(s, enc, [x]).value;
      PresentJoin(s, enc, [x], votes);
      HeedFollows(e, handed, s1, enc, i);
      ProposingLeaves(e, i.ev);
    } else {
      assert Signs(e, i) == votes;
      HeedFollows(e, handed, s, enc, i);
      StaysNoRepeat(e, i.ev, s.place);
      VotesMoveMark(s, enc, votes);
    }
  }

  /** Granting votes leaves the mark alone or puts it on a vote. */
  lemma VotesMoveMark(s: G.SignState, enc: Encoding, votes: seq<Signing>)
    requires NonEmpty(enc) && |votes| <= 1 && (votes != [] ==> votes[0].SignVote?)
    ensures var r := Present(s, enc, votes); r.Some? ==> r.value.place == s.place || r.value.place.step != 0
  {
    if votes != [] {
      assert votes == [votes[0]];
      PresentOne(s, enc, votes[0]);
    }
  }

  lemma {:induction false} FollowsGrantedIff(e: Engine, handed: bool, s: G.SignState, enc: Encoding, ins: seq<Input>)
    requires Follows(e, handed, s, enc) && NoRepeat(e, s.place) && AdmissibleInputs(e, ins) && NonEmpty(enc)
    ensures Present(s, enc, Signed(e, ins)).Some? <==> !EverLate(e, handed, ins)
    decreases |ins|
  {
    if ins != [] {
      var e', handed' := Apply(e, ins[0].ev).0, HandedAfter(e, handed, ins[0].ev);
      InputFollows(e, handed, s, enc, ins[0]);
      PresentJoin(s, enc, Signs(e, ins[0]), Signed(e', ins[1..]));
      var r := Present(s, enc, Signs(e, ins[0]));
      if r.Some? {
        FollowsGrantedIff(e', handed', r.value, enc, ins[1..]);
      }
    }
  }

  // ---- the first proposal after a restart ----

  /** The first thing signed takes the place of the mark, with other bytes. */
  predicate RebuildsProposal(s: G.SignState, enc: Encoding, xs: seq<Signing>) {
    xs != [] && PlaceFor(xs[0]) == s.place && s.digest != Some(enc(xs[0]))
  }

  /** An engine past a propose phase never signs its proposal. */
  lemma {:induction false} SignedNotAt(e: Engine, ins: seq<Input>, p: G.Place)
    requires WellFormed(e) && AdmissibleInputs(e, ins) && p.step == 0 && Left(e, p.height, p.round, 0)
    ensures forall x :: x in Signed(e, ins) ==> PlaceFor(x) != p
    decreases |ins|
  {
    if ins != [] {
      StepVotes(e, ins[0].ev);
      SignedNotAt(Apply(e, ins[0].ev).0, ins[1..], p);
    }
  }

  /** The mark is on the proposal of the round, which is open for another. */
  ghost predicate Reopened(e: Engine, s: G.SignState, enc: Encoding) {
    Follows(e, false, s, enc) && InRoundOf(e, s.place, 0) && e.phase == Propose
  }

  /** One input of a reopened round that makes no proposal: it stays reopened, having signed nothing, or
      it is left for good. */
  lemma ReopenedInput(e: Engine, s: G.SignState, enc: Encoding, i: Input)
    requires Reopened(e, s, enc) && Admissible(e, i.ev) && !Proposes(e, i.ev) && NonEmpty(enc)
    ensures var (e', r) := (Apply(e, i.ev).0, Present(s, enc, Signs(e, i)));
            && r.Some? && !SignsLate(e, false, i) && Follows(e', HandedAfter(e, false, i.ev), r.value, enc)
            && (|| (Signs(e, i) == [] && r.value == s && !HandedAfter(e, false, i.ev) && Reopened(e', s, enc))
                || (Left(e', s.place.height, s.place.round, 0) && NoRepeat(e', r.value.place)))
            && (Signs(e, i) != [] ==> PlaceFor(Signs(e, i)[0]) != s.place)
  {
    SignsParts(e, i);
    var votes := if Heeds(i) then VoteOf(Apply(e, i.ev).1) else [];
    assert Signs(e, i) == votes;
    StepVotes(e, i.ev);
    HeedFollows(e, false, s, enc, i);
    VotesMoveMark(s, enc, votes);
  }

  /** A proposal in a reopened round is granted exactly when it repeats the bytes, and the round is left. */
  lemma ReopenedProposal(e: Engine, s: G.SignState, enc: Encoding, i: Input)
    requires Reopened(e, s, enc) && Admissible(e, i.ev) && Proposes(e, i.ev) && NonEmpty(enc)
    ensures var (e', r) := (Apply(e, i.ev).0, Present(s, enc, Signs(e, i)));
            && Signs(e, i) != [] && PlaceFor(Signs(e, i)[0]) == s.place && !SignsLate(e, false, i)
            && (r.Some? <==> s.digest == Some(enc(Signs(e, i)[0])))
            && (r.Some? ==> Follows(e', HandedAfter(e, false, i.ev), r.value, enc) && NoRepeat(e', r.value.place))
  {
    SignsParts(e, i);
    var x := SignProposal(e.height, e.round, i.ev.hash);
    var votes := if Heeds(i) then VoteOf(Apply(e, i.ev).1) else [];
    PresentOne(s, enc, x);
    PresentJoin(s, enc, [x], votes);
    HeedFollows(e, false, s, enc, i);
    VotesMoveMark(s, enc, votes);
    ProposingLeaves(e, i.ev);
  }

  lemma {:induction false} ReopenedGrantedIff(e: Engine, s: G.SignState, enc: Encoding, ins: seq<Input>)
    requires Reopened(e, s, enc) && AdmissibleInputs(e, ins) && NonEmpty(enc)
    ensures Present(s, enc, Signed(e, ins)).Some?
       <==> !RebuildsProposal(s, enc, Signed(e, ins)) && !EverLate(e, false, ins)
    decreases |ins|
  {
    if ins != [] {
      var e', handed' := Apply(e, ins[0].ev).0, HandedAfter(e, false, ins[0].ev);
      var now, later := Signs(e, ins[0]), Signed(e', ins[1..]);
      PresentJoin(s, enc, now, later);
      var r := Present(s, enc, now);
      if Proposes(e, ins[0].ev) {
        ReopenedProposal(e, s, enc, ins[0]);
        assert (now + later)[0] == now[0];
        if r.Some? {
          FollowsGrantedIff(e', handed', r.value, enc, ins[1..]);
        }
      } else {
        ReopenedInput(e, s, enc, ins[0]);
        StepVotes(e, ins[0].ev);
        if now == [] && Reopened(e', s, enc) && !handed' && r.value == s {
          assert now + later == later;
          ReopenedGrantedIff(e', s, enc, ins[1..]);
        } else {
          FollowsGrantedIff(e', handed', r.value, enc, ins[1..]);
          SignedNotAt(e', ins[1..], s.place);
          assert now + later != [] ==> (now + later)[0] == if now == [] then later[0] else now[0];
        }
      }
    }
  }

  /** Everything a resumed engine's driver signs, over every run: proposals, votes, and votes handed out
      again. It is all granted if and only if the engine does not begin by rebuilding the proposal that
      the guard signed last, and no prevote is signed after a precommit of its round was handed out. */
  lemma ResumedSigningIff(height: nat, us: Address, total: u64, s: G.SignState, enc: Encoding, ins: seq<Input>)
    requires s.place.height <= height && !Stuck(height, s) && NonEmpty(enc)
    requires AdmissibleInputs(Resumed(height, us, total, Some(s)), ins)
    ensures var e := Resumed(height, us, total, Some(s));
            Present(s, enc, Signed(e, ins)).Some?
            <==> !RebuildsProposal(s, enc, Signed(e, ins)) && !EverLate(e, false, ins)
  {
    var e := Resumed(height, us, total, Some(s));
    if BeforeRound(e, s.place) {
      FollowsGrantedIff(e, false, s, enc, ins);
      SignedAfter(e, ins, s.place);
    } else {
      ReopenedGrantedIff(e, s, enc, ins);
    }
  }

  /** Nothing is signed before the engine's round. */
  lemma {:induction false} SignedAfter(e: Engine, ins: seq<Input>, p: G.Place)
    requires WellFormed(e) && AdmissibleInputs(e, ins) && BeforeRound(e, p)
    ensures forall x :: x in Signed(e, ins) ==> PlaceFor(x) != p
    decreases |ins|
  {
    if ins != [] {
      StepVotes(e, ins[0].ev);
      SignedAfter(Apply(e, ins[0].ev).0, ins[1..], p);
    }
  }

  // ---- what the driver can test ----

  /** The driver marks a precommit once it is out, and only then feeds it back. */
  predicate Orderly(e: Engine, ev: Event) {
    && (ev.EvMarkPrecommit? ==> e.pendingPrecommit.Some?)
    && (ev.EvPrecommit? && e.pendingPrecommit == Some(ev.vote) ==> e.ourPrecommitCast)
  }

  predicate PrecommitOut(e: Engine) {
    e.pendingPrecommit.Some? || e.ourPrecommitCast
  }

  predicate SameTest(e: Engine, handed: bool, e': Engine, a: Action) {
    (e'.height == e.height && e'.round == e.round && (handed || a.BroadcastPrecommit?)) <==> PrecommitOut(e')
  }

  lemma PrevoteTest(e: Engine, v: Vote, stake: nat, pick: Option<Option<Hash>>)
    requires WellFormed(e)
    ensures var (e', a) := OnPrevote(e, v, stake, pick); SameTest(e, PrecommitOut(e), e', a)
  {
    var e1 := SettlePrevote(e, v);
    assert PrecommitOut(e1) <==> PrecommitOut(e);
    if CountsPrevote(e, v) {
      var e2 := RecordPrevote(e1, v, stake);
      assert PrecommitOut(e2) <==> PrecommitOut(e);
      if pick.Some? && e2.phase == Prevote {
        EnterTest(e2, pick.value);
      }
    }
  }

  lemma EnterTest(e: Engine, hash: Option<Hash>)
    ensures var (e', a) := EnterPrecommit(e, hash); SameTest(e, PrecommitOut(e), e', a)
  {
  }

  lemma PrecommitTest(e: Engine, v: Vote, stake: nat, pick: Option<Option<Hash>>)
    requires e.pendingPrecommit == Some(v) ==> e.ourPrecommitCast
    ensures var (e', a) := OnPrecommit(e, v, stake, pick); SameTest(e, PrecommitOut(e), e', a)
  {
  }

  lemma ProposalTest(e: Engine, x: Hash)
    requires WellFormed(e) && e.phase == Propose
    ensures var (e', a) := AcceptProposal(e, x); SameTest(e, PrecommitOut(e), e', a)
  {
  }

  lemma TimeoutTest(e: Engine)
    requires WellFormed(e)
    ensures var (e', a) := OnTimeout(e); SameTest(e, PrecommitOut(e), e', a)
  {
  }

  /** For such a driver the engine's own fields say whether a precommit of the round is out. */
  lemma OrderlyTest(e: Engine, handed: bool, ev: Event)
    requires WellFormed(e) && Admissible(e, ev) && Orderly(e, ev) && (handed <==> PrecommitOut(e))
    ensures HandedAfter(e, handed, ev) <==> PrecommitOut(Apply(e, ev).0)
  {
    match ev {
      case EvCatchUp(target) => CatchUpLands(e, target);
      case EvRoundStatus(h, r, peer, stake, target) =>
        if target.Some? { CatchUpLands(NotePeer(e, peer, r, stake), target.value); }
      case EvPrevote(v, stake, pick) => PrevoteTest(e, v, stake, pick);
      case EvPrecommit(v, stake, pick) => PrecommitTest(e, v, stake, pick);
      case EvProposal(x, proposer, reg) => if e.phase == Propose { ProposalTest(e, x); }
      case EvOwnProposal(x) => if e.phase == Propose { ProposalTest(e, x); }
      case EvTimeout => TimeoutTest(e);
      case _ =>
    }
  }

  predicate OrderlyInputs(e: Engine, ins: seq<Input>)
    decreases |ins|
  {
    ins == [] || (Orderly(e, ins[0].ev) && OrderlyInputs(Apply(e, ins[0].ev).0, ins[1..]))
  }

  /** Some input hands out a prevote that is heeded while a precommit is out. */
  predicate EverLateByFields(e: Engine, ins: seq<Input>)
    decreases |ins|
  {
    ins != [] && (SignsLate(e, PrecommitOut(e), ins[0]) || EverLateByFields(Apply(e, ins[0].ev).0, ins[1..]))
  }

  lemma {:induction false} FieldsTell(e: Engine, handed: bool, ins: seq<Input>)
    requires WellFormed(e) && AdmissibleInputs(e, ins) && OrderlyInputs(e, ins) && (handed <==> PrecommitOut(e))
    ensures EverLate(e, handed, ins) <==> EverLateByFields(e, ins)
    decreases |ins|
  {
    if ins != [] {
      StepVotes(e, ins[0].ev);
      OrderlyTest(e, handed, ins[0].ev);
      FieldsTell(Apply(e, ins[0].ev).0, HandedAfter(e, handed, ins[0].ev), ins[1..]);
    }
  }

  // ---- a run that is refused ----

  /** A proposal, a peer's prevote that completes the quorum, and a timeout before our own prevote came
      back: the engine hands out its precommit, and then its pending prevote again. */
  function RetryInputs(x: Hash, peer: Address): seq<Input> {
    [Input(EvOwnProposal(x), true), Input(EvPrevote(Vote(1, 0, Some(x), peer, []), 3, Some(Some(x))), true),
     Input(EvTimeout, true)]
  }

  /** The guard refuses the last of its four signings, whatever the bytes: the engine does not rebuild
      anything, and every answer of the tally scan is a true one. */
  lemma RetriedPrevoteRefused(us: Address, peer: Address, x: Hash, enc: Encoding)
    requires us != peer && NonEmpty(enc)
    ensures var s := G.SignState(G.Place(0, 0, 2), None);
            var e, ins := Resumed(1, us, 4, Some(s)), RetryInputs(x, peer);
            && AdmissibleInputs(e, ins) && OrderlyInputs(e, ins) && !RebuildsProposal(s, enc, Signed(e, ins))
            && Answerable(Apply(e, ins[0].ev).0, ins[1].ev) && Present(s, enc, Signed(e, ins)) == None
  {
    var s := G.SignState(G.Place(0, 0, 2), None);
    var e, ins := Resumed(1, us, 4, Some(s)), RetryInputs(x, peer);
    var e1, e2 := AfterProposal(us, x), AfterQuorum(us, peer, x);
    assert e == NewEngine(1, us, 4);
    ProposalThenQuorum(us, peer, x);
    assert ins[1..][0] == ins[1] && ins[1..][1..] == [ins[2]] && [ins[2]][1..] == [];
    assert AdmissibleInputs(e2, [ins[2]]) && OrderlyInputs(e2, [ins[2]]);
    assert AdmissibleInputs(e1, ins[1..]) && OrderlyInputs(e1, ins[1..]);
    assert HandedAfter(e, false, ins[0].ev) == false && HandedAfter(e1, false, ins[1].ev);
    assert SignsLate(e2, true, ins[2]);
    assert EverLate(e2, true, [ins[2]]);
    assert EverLate(e1, false, ins[1..]);
    ResumedSigningIff(1, us, 4, s, enc, ins);
    SignedAfter(e, ins, s.place);
  }

  function AfterProposal(us: Address, x: Hash): Engine {
    NewEngine(1, us, 4).(phase := Prevote, proposedHash := Some(x), pendingPrevote := Some(Vote(1, 0, Some(x), us, [])))
  }

  function AfterQuorum(us: Address, peer: Address, x: Hash): Engine {
    AfterProposal(us, x).(
      phase := Precommit, lockedHash := Some(x), lockedRound := Some(0),
      pendingPrecommit := Some(Vote(1, 0, Some(x), us, [])),
      books := Books(map[peer := (Some(x), 3)], map[], map[Some(x) := 3], map[]))
  }

  lemma ProposalThenQuorum(us: Address, peer: Address, x: Hash)
    requires us != peer
    ensures var ins := RetryInputs(x, peer);
            var vote := Vote(1, 0, Some(x), us, []);
            && Apply(NewEngine(1, us, 4), ins[0].ev) == (AfterProposal(us, x), BroadcastPrevote(vote))
            && Apply(AfterProposal(us, x), ins[1].ev) == (AfterQuorum(us, peer, x), BroadcastPrecommit(vote))
            && Apply(AfterQuorum(us, peer, x), ins[2].ev) == (AfterQuorum(us, peer, x), BroadcastPrevote(vote))
            && Answerable(AfterProposal(us, x), ins[1].ev)
  {
    var e1 := AfterProposal(us, x);
    assert RecordPrevote(e1, Vote(1, 0, Some(x), peer, []), 3).books
        == Books(map[peer := (Some(x), 3)], map[], map[Some(x) := 3], map[]);
  }
}
