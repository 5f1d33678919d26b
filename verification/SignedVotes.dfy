/** The guard and the bytes it guards: over every run of the guard, a validator has signed at most one
    message of each kind at each height and round. */
module SignedVotes {
  import opened BftTypes
  import opened SigningPayload
  import G = LastSignGuard

  /** Round reports are not guarded. */
  predicate Guarded(m: Message) {
    !m.RoundStatus?
  }

  function StepOf(m: Message): G.VoteStep
    requires Guarded(m)
  {
    match m
    case Proposal(_, _, _) => G.StepProposal
    case Prevote(_, _, _) => G.StepPrevote
    case Precommit(_, _, _) => G.StepPrecommit
  }

  /** What signing a message asks of the guard. */
  function RequestOf(m: Message): G.Request
    requires Guarded(m)
  {
    G.Request(m.height, m.round, StepOf(m), Payload(m))
  }

  /** Two messages of one kind, height and round that were both signed are the same message, up to
      the spelling of nil, across crashes and restarts. */
  lemma OneSignaturePerPosition(file: Option<G.SignState>, evs: seq<G.GuardEvent>, m: Message, n: Message)
    requires G.CarefulRun(G.History(G.Guard(None, file), {}, []), evs)
    requires Guarded(m) && Guarded(n) && m.height == n.height && m.round == n.round && Tag(m) == Tag(n)
    requires var granted := G.Run(G.History(G.Guard(None, file), {}, []), evs).granted;
             RequestOf(m) in granted && RequestOf(n) in granted
    ensures Canonical(m) == Canonical(n)
  {
    var granted := G.Run(G.History(G.Guard(None, file), {}, []), evs).granted;
    G.NeverSignsTwice(file, evs);
    var x, y := RequestOf(m), RequestOf(n);
    assert G.PlaceOf(x) == G.PlaceOf(y);
    assert x in granted && y in granted && x.payload == y.payload;
    PayloadEqualIff(m, n);
  }
}
