/** What a round that everyone hears comes to: the votes an engine must cast, and the block it must
    finalize, given what it receives. The round is about `h`: a block, or nil when no proposal came. */
module GoodRounds {
  import opened BftTypes
  import opened Sums
  import opened EngineSpec
  import opened EngineRuns
  import opened EngineLock

  /** A round in which nothing has happened yet. */
  predicate Untouched(e: Engine) {
    && e.phase == Propose && !e.ourPrevoteCast && !e.ourPrecommitCast
    && e.pendingPrevote.None? && e.pendingPrecommit.None? && e.books == NO_VOTES
  }

  /** The engine may vote for block `x`: it is not locked, locked on `x`, or its lock is on a block whose
      bytes it does not have and is stale. */
  predicate FreeFor(e: Engine, x: Hash) {
    || e.lockedHash.None? || e.lockedHash == Some(x)
    || (e.lockedBlock.None? && e.lockedRound.Some? && e.round - e.lockedRound.value >= STALE_LOCK_ROUND_GAP)
  }

  /** The input that opens the round for `h`: a proposal of the elected proposer, or our own, or the
      timeout when there is none. */
  predicate Opens(e: Engine, ev: Event, h: Option<Hash>) {
    match ev
    case EvTimeout => h == None
    case EvOwnProposal(x) => h == if FreeFor(e, x) then Some(x) else None
    case EvProposal(x, proposer, reg) =>
      && reg.WeightedProposer(e.height, e.round) == Some(proposer) && proposer !in reg.barred
      && h == if FreeFor(e, x) then Some(x) else None
    case _ => false
  }

  /** Waiting for prevotes, ours cast. */
  predicate Prevoting(e: Engine, h: Option<Hash>) {
    && e.phase == Prevote && !e.ourPrecommitCast && e.books == NO_VOTES
    && e.pendingPrevote == Some(OwnVote(e, h)) && e.pendingPrecommit.None?
  }

  /** The opening is answered by our prevote for `h`. */
  lemma OpeningAnswered(e: Engine, ev: Event, h: Option<Hash>)
    requires Untouched(e) && Opens(e, ev, h)
    ensures var (e', a) := Apply(e, ev);
            a == BroadcastPrevote(OwnVote(e, h)) && Prevoting(e', h) && e'.height == e.height && e'.round == e.round
            && e'.total == e.total && e'.us == e.us
            && e'.proposedHash == (if ev.EvTimeout? then e.proposedHash else Some(ev.hash))
  {
  }

  /** Any other proposal is ignored. */
  lemma OthersIgnored(e: Engine, x: Hash, proposer: Address, reg: Registry)
    requires e.pendingPrevote.None?
    requires e.phase != Propose || reg.WeightedProposer(e.height, e.round) != Some(proposer) || proposer in reg.barred
    ensures Apply(e, EvProposal(x, proposer, reg)) == (e, Wait)
  {
  }

  // ---- votes of one round ----

  /** A vote as it is delivered: with the stake of its validator and the answer of the tally scan. */
  datatype Ballot = Ballot(vote: Vote, stake: nat, pick: Option<Option<Hash>>)

  function Prevotes(bs: seq<Ballot>): seq<Event> {
    seq(|bs|, i requires 0 <= i < |bs| => EvPrevote(bs[i].vote, bs[i].stake, bs[i].pick))
  }

  function Precommits(bs: seq<Ballot>): seq<Event> {
    seq(|bs|, i requires 0 <= i < |bs| => EvPrecommit(bs[i].vote, bs[i].stake, bs[i].pick))
  }

  /** The stake of the first `k` votes. */
  function Stakes(bs: seq<Ballot>, k: nat): nat
    requires k <= |bs|
  {
    if k == 0 then 0 else Stakes(bs, k - 1) + bs[k - 1].stake
  }

  /** A vote for `h` in the current round; ours is the one we cast. */
  predicate VoteFor(e: Engine, v: Vote, h: Option<Hash>) {
    v.height == e.height && v.round == e.round && v.hash == h && (v.validator == e.us ==> v == OwnVote(e, h))
  }

  /** Votes of distinct validators for `h` in the current round; the last one completes a
      supermajority. */
  predicate Completes(e: Engine, bs: seq<Ballot>, h: Option<Hash>) {
    && bs != [] && (forall i :: 0 <= i < |bs| ==> VoteFor(e, bs[i].vote, h))
    && (forall i, j :: 0 <= i < j < |bs| ==> bs[i].vote.validator != bs[j].vote.validator)
    && Stakes(bs, |bs| - 1) < SupermajorityThreshold(e.total) <= Stakes(bs, |bs|) <= U64_MAX
  }

  /** Every scan answer is one the scan can give. */
  ghost predicate Answered(e: Engine, evs: seq<Event>) {
    forall k :: 0 <= k < |evs| ==> Answerable(After(e, evs, k), evs[k])
  }

  function TallyOf(h: Option<Hash>, k: nat, stake: nat): Tally {
    if k == 0 then map[] else map[h := stake]
  }

  lemma OneHash(h: Option<Hash>, k: nat, before: nat, stake: nat)
    requires before + stake <= U64_MAX && (k == 0 ==> before == 0)
    ensures AddWeight(TallyOf(h, k, before), h, stake) == map[h := before + stake]
  {
  }

  /** The scan of a tally with one hash. */
  lemma OnePick(h: Option<Hash>, stake: nat, total: u64, pick: Option<Option<Hash>>)
    requires IsSupermajority(map[h := stake], total, pick)
    ensures pick == if stake >= SupermajorityThreshold(total) then Some(h) else None
  {
    var t: Tally := map[h := stake];
    assert h in t && t[h] == stake;
  }

  lemma {:induction false} StakesGrow(bs: seq<Ballot>, j: nat, k: nat)
    requires j <= k <= |bs|
    ensures Stakes(bs, j) <= Stakes(bs, k)
    decreases k
  {
    if j < k {
      StakesGrow(bs, j, k - 1);
    }
  }

  /** The tally after one more vote. */
  lemma TallyNext(e: Engine, bs: seq<Ballot>, k: nat, h: Option<Hash>)
    requires Completes(e, bs, h) && k < |bs|
    ensures AddWeight(TallyOf(h, k, Stakes(bs, k)), bs[k].vote.hash, bs[k].stake) == TallyOf(h, k + 1, Stakes(bs, k + 1))
  {
    assert VoteFor(e, bs[k].vote, h);
    StakesGrow(bs, k + 1, |bs|);
    OneHash(h, k, Stakes(bs, k), bs[k].stake);
  }

  /** The scan answers once the supermajority is complete, and not before. */
  lemma PickWhenComplete(e: Engine, bs: seq<Ballot>, k: nat, h: Option<Hash>, pick: Option<Option<Hash>>)
    requires Completes(e, bs, h) && k < |bs| && IsSupermajority(TallyOf(h, k + 1, Stakes(bs, k + 1)), e.total, pick)
    ensures pick == if k + 1 < |bs| then None else Some(h)
  {
    OnePick(h, Stakes(bs, k + 1), e.total, pick);
    if k + 1 < |bs| {
      StakesGrow(bs, k + 1, |bs| - 1);
    }
  }

  // ---- prevotes ----

  /** After the first `k` prevotes for `h`, short of a supermajority. */
  ghost predicate Gathering(e0: Engine, e: Engine, bs: seq<Ballot>, k: nat, h: Option<Hash>)
    requires k <= |bs|
  {
    && e == e0.(pendingPrevote := e.pendingPrevote,
                books := e0.books.(prevotes := e.books.prevotes, prevoteTally := TallyOf(h, k, Stakes(bs, k))))
    && (e.pendingPrevote == e0.pendingPrevote || e.pendingPrevote.None?)
    && (forall a :: a in e.books.prevotes ==> exists i :: 0 <= i < k && bs[i].vote.validator == a)
  }

  /** The engine with one more prevote counted. */
  function WithPrevote(e: Engine, b: Ballot): Engine {
    RecordPrevote(SettlePrevote(e, b.vote), b.vote, b.stake)
  }

  lemma GatherCounts(e0: Engine, e: Engine, bs: seq<Ballot>, k: nat, h: Option<Hash>)
    requires Prevoting(e0, h) && Completes(e0, bs, h) && k < |bs| && Gathering(e0, e, bs, k, h)
    ensures CountsPrevote(e, bs[k].vote)
  {
    assert VoteFor(e0, bs[k].vote, h);
  }

  lemma GatherNext(e0: Engine, e: Engine, bs: seq<Ballot>, k: nat, h: Option<Hash>)
    requires Prevoting(e0, h) && Completes(e0, bs, h) && k < |bs| && Gathering(e0, e, bs, k, h)
    ensures Gathering(e0, WithPrevote(e, bs[k]), bs, k + 1, h)
  {
    TallyNext(e0, bs, k, h);
  }

  lemma GatherOne(e0: Engine, e: Engine, bs: seq<Ballot>, k: nat, h: Option<Hash>, ev: Event)
    requires Prevoting(e0, h) && Completes(e0, bs, h) && k < |bs| && ev == EvPrevote(bs[k].vote, bs[k].stake, bs[k].pick)
    requires Gathering(e0, e, bs, k, h) && Answerable(e, ev)
    ensures Gathering(e0, WithPrevote(e, bs[k]), bs, k + 1, h)
    ensures Apply(e, ev) == if k + 1 < |bs| then (WithPrevote(e, bs[k]), Wait) else EnterPrecommit(WithPrevote(e, bs[k]), h)
  {
    GatherCounts(e0, e, bs, k, h);
    GatherNext(e0, e, bs, k, h);
    PickWhenComplete(e0, bs, k, h, bs[k].pick);
  }

  lemma AfterNone(e: Engine, evs: seq<Event>)
    ensures After(e, evs, 0) == e
  {
    assert evs[..0] == [];
  }

  lemma StartsGathering(e0: Engine, bs: seq<Ballot>, h: Option<Hash>)
    requires Prevoting(e0, h)
    ensures Gathering(e0, e0, bs, 0, h)
  {
  }

  lemma GatherStep(e0: Engine, evs: seq<Event>, e: Engine, bs: seq<Ballot>, k: nat, h: Option<Hash>)
    requires Prevoting(e0, h) && Completes(e0, bs, h) && k + 1 < |bs| && evs == Prevotes(bs)
    requires e == After(e0, evs, k) && Gathering(e0, e, bs, k, h) && Answerable(e, evs[k])
    ensures Gathering(e0, After(e0, evs, k + 1), bs, k + 1, h)
  {
    AfterStep(e0, evs, k);
    GatherOne(e0, e, bs, k, h, evs[k]);
  }

  lemma {:induction false} GatheredAfter(e0: Engine, bs: seq<Ballot>, k: nat, h: Option<Hash>)
    requires Prevoting(e0, h) && Completes(e0, bs, h) && k < |bs| && Answered(e0, Prevotes(bs))
    ensures Gathering(e0, After(e0, Prevotes(bs), k), bs, k, h)
  {
    var evs := Prevotes(bs);
    if k == 0 {
      AfterNone(e0, evs);
      StartsGathering(e0, bs, h);
    } else {
      GatheredAfter(e0, bs, k - 1, h);
      GatherStep(e0, evs, After(e0, evs, k - 1), bs, k - 1, h);
    }
  }

  /** Waiting for precommits, ours cast; a block is locked, nil leaves the lock as it was. */
  predicate Precommitting(e0: Engine, e: Engine, h: Option<Hash>) {
    && e.phase == Precommit && e.pendingPrecommit == Some(OwnVote(e, h))
    && e.books.precommits == map[] && e.books.precommitTally == map[]
    && e.us == e0.us && e.height == e0.height && e.round == e0.round && e.total == e0.total
    && (if h.Some? then e.lockedHash == h && e.lockedRound == Some(e.round)
        else e.lockedHash == e0.lockedHash && e.lockedRound == e0.lockedRound && e.lockedBlock == e0.lockedBlock)
  }

  lemma EntersPrecommitting(e0: Engine, e: Engine, bs: seq<Ballot>, h: Option<Hash>)
    requires Prevoting(e0, h) && Gathering(e0, e, bs, |bs|, h)
    ensures var (e', a) := EnterPrecommit(e, h); a == BroadcastPrecommit(OwnVote(e0, h)) && Precommitting(e0, e', h)
  {
  }

  /** The prevote that completes a supermajority for `h` is answered by our precommit for `h`, and those
      before it by nothing. */
  lemma PrevotesAnswered(e0: Engine, bs: seq<Ballot>, h: Option<Hash>)
    requires Prevoting(e0, h) && Completes(e0, bs, h) && Answered(e0, Prevotes(bs))
    ensures var evs, n := Prevotes(bs), |bs| - 1;
            && (forall k :: 0 <= k < n ==> Apply(After(e0, evs, k), evs[k]).1 == Wait)
            && Apply(After(e0, evs, n), evs[n]).1 == BroadcastPrecommit(OwnVote(e0, h))
            && Precommitting(e0, After(e0, evs, n + 1), h)
  {
    var evs, n := Prevotes(bs), |bs| - 1;
    forall k | 0 <= k < n
      ensures Apply(After(e0, evs, k), evs[k]).1 == Wait
    {
      GatheredAfter(e0, bs, k, h);
      GatherOne(e0, After(e0, evs, k), bs, k, h, evs[k]);
    }
    var e := After(e0, evs, n);
    GatheredAfter(e0, bs, n, h);
    GatherOne(e0, e, bs, n, h, evs[n]);
    AfterStep(e0, evs, n);
    EntersPrecommitting(e0, WithPrevote(e, bs[n]), bs, h);
  }

  // ---- precommits ----

  type PrecommitBook = map<Address, (Option<Hash>, Bytes, nat)>

  /** The first `k` precommits for `h` are in the book, as they came, and nothing else. */
  ghost predicate Recorded(book: PrecommitBook, bs: seq<Ballot>, k: nat, h: Option<Hash>)
    requires k <= |bs|
  {
    && (forall i :: 0 <= i < k ==> bs[i].vote.validator in book && book[bs[i].vote.validator] == (h, bs[i].vote.signature, bs[i].stake))
    && (forall a :: a in book ==> exists i :: 0 <= i < k && bs[i].vote.validator == a)
  }

  lemma RecordedNext(book: PrecommitBook, bs: seq<Ballot>, k: nat, h: Option<Hash>)
    requires k < |bs| && Recorded(book, bs, k, h) && bs[k].vote.hash == h && bs[k].vote.validator !in book
    ensures Recorded(book[bs[k].vote.validator := (h, bs[k].vote.signature, bs[k].stake)], bs, k + 1, h)
  {
  }

  /** After the first `k` precommits for `h`. */
  ghost predicate Collecting(e0: Engine, e: Engine, bs: seq<Ballot>, k: nat, h: Option<Hash>)
    requires k <= |bs|
  {
    && e == e0.(pendingPrecommit := e.pendingPrecommit,
                books := e0.books.(precommits := e.books.precommits, precommitTally := TallyOf(h, k, Stakes(bs, k))))
    && (e.pendingPrecommit == e0.pendingPrecommit || e.pendingPrecommit.None?)
    && Recorded(e.books.precommits, bs, k, h)
  }

  function WithPrecommit(e: Engine, b: Ballot): Engine {
    RecordPrecommit(SettlePrecommit(e, b.vote), b.vote, b.stake)
  }

  /** Ours is the only precommit we have pending, if any, and none is counted yet. */
  predicate AwaitsPrecommits(e: Engine, h: Option<Hash>) {
    && (e.pendingPrecommit.None? || e.pendingPrecommit == Some(OwnVote(e, h)))
    && e.books.precommits == map[] && e.books.precommitTally == map[]
  }

  lemma CollectCounts(e0: Engine, e: Engine, bs: seq<Ballot>, k: nat, h: Option<Hash>)
    requires AwaitsPrecommits(e0, h) && Completes(e0, bs, h) && k < |bs| && Collecting(e0, e, bs, k, h)
    ensures CountsPrecommit(e, bs[k].vote)
  {
    assert VoteFor(e0, bs[k].vote, h);
  }

  lemma CollectNext(e0: Engine, e: Engine, bs: seq<Ballot>, k: nat, h: Option<Hash>)
    requires Completes(e0, bs, h) && k < |bs| && Collecting(e0, e, bs, k, h) && CountsPrecommit(e, bs[k].vote)
    ensures Collecting(e0, WithPrecommit(e, bs[k]), bs, k + 1, h)
  {
    assert VoteFor(e0, bs[k].vote, h);
    TallyNext(e0, bs, k, h);
    RecordedNext(e.books.precommits, bs, k, h);
  }

  lemma CollectOne(e0: Engine, e: Engine, bs: seq<Ballot>, k: nat, h: Option<Hash>, ev: Event)
    requires AwaitsPrecommits(e0, h) && Completes(e0, bs, h) && k < |bs| && ev == EvPrecommit(bs[k].vote, bs[k].stake, bs[k].pick)
    requires Collecting(e0, e, bs, k, h) && Answerable(e, ev)
    ensures CountsPrecommit(e, bs[k].vote) && Collecting(e0, WithPrecommit(e, bs[k]), bs, k + 1, h)
    ensures ev.pick == if k + 1 < |bs| then None else Some(h)
    ensures k + 1 < |bs| ==> Apply(e, ev) == (WithPrecommit(e, bs[k]), Wait)
  {
    CollectCounts(e0, e, bs, k, h);
    CollectNext(e0, e, bs, k, h);
    PickWhenComplete(e0, bs, k, h, bs[k].pick);
  }

  lemma StartsCollecting(e0: Engine, bs: seq<Ballot>, h: Option<Hash>)
    requires AwaitsPrecommits(e0, h)
    ensures Collecting(e0, e0, bs, 0, h)
  {
  }

  lemma CollectStep(e0: Engine, evs: seq<Event>, e: Engine, bs: seq<Ballot>, k: nat, h: Option<Hash>)
    requires AwaitsPrecommits(e0, h) && Completes(e0, bs, h) && k + 1 < |bs| && evs == Precommits(bs)
    requires e == After(e0, evs, k) && Collecting(e0, e, bs, k, h) && Answerable(e, evs[k])
    ensures Collecting(e0, After(e0, evs, k + 1), bs, k + 1, h)
  {
    AfterStep(e0, evs, k);
    CollectOne(e0, e, bs, k, h, evs[k]);
  }

  lemma {:induction false} CollectedAfter(e0: Engine, bs: seq<Ballot>, k: nat, h: Option<Hash>)
    requires AwaitsPrecommits(e0, h) && Completes(e0, bs, h) && k < |bs| && Answered(e0, Precommits(bs))
    ensures Collecting(e0, After(e0, Precommits(bs), k), bs, k, h)
  {
    var evs := Precommits(bs);
    if k == 0 {
      AfterNone(e0, evs);
      StartsCollecting(e0, bs, h);
    } else {
      CollectedAfter(e0, bs, k - 1, h);
      CollectStep(e0, evs, After(e0, evs, k - 1), bs, k - 1, h);
    }
  }

  /** The justification holds exactly these precommits, with their signatures and stakes. */
  ghost predicate Justifies(j: map<Address, SignedPrecommit>, bs: seq<Ballot>) {
    && (forall i :: 0 <= i < |bs| ==> bs[i].vote.validator in j && j[bs[i].vote.validator] == SignedPrecommit(bs[i].vote.signature, bs[i].stake))
    && (forall a :: a in j ==> exists i :: 0 <= i < |bs| && bs[i].vote.validator == a)
  }

  lemma JustifiedByAll(books: Books, bs: seq<Ballot>, x: Hash)
    requires Recorded(books.precommits, bs, |bs|, Some(x))
    ensures Justifies(Justification(books, x), bs)
  {
  }

  /** How a completed supermajority of precommits is answered. */
  ghost predicate EndsRound(a: Action, e: Engine, bs: seq<Ballot>, h: Option<Hash>) {
    match h
    case None => a == SkipRound
    case Some(x) => a.FinalizeBlock? && a.height == e.height && a.round == e.round && a.hash == x && Justifies(a.justification, bs)
  }

  lemma LastPrecommit(e0: Engine, e: Engine, bs: seq<Ballot>, h: Option<Hash>, ev: Event)
    requires bs != [] && ev == EvPrecommit(bs[|bs| - 1].vote, bs[|bs| - 1].stake, Some(h))
    requires CountsPrecommit(e, ev.vote) && Collecting(e0, WithPrecommit(e, bs[|bs| - 1]), bs, |bs|, h)
    ensures EndsRound(Apply(e, ev).1, e0, bs, h)
  {
    if h.Some? {
      JustifiedByAll(WithPrecommit(e, bs[|bs| - 1]).books, bs, h.value);
    }
  }

  /** The precommit that completes a supermajority finalizes its block, justified by exactly the
      precommits received, or skips the round if they are for nil. */
  lemma PrecommitsAnswered(e0: Engine, bs: seq<Ballot>, h: Option<Hash>)
    requires AwaitsPrecommits(e0, h) && Completes(e0, bs, h) && Answered(e0, Precommits(bs))
    ensures var evs, n := Precommits(bs), |bs| - 1;
            && (forall k :: 0 <= k < n ==> Apply(After(e0, evs, k), evs[k]).1 == Wait)
            && EndsRound(Apply(After(e0, evs, n), evs[n]).1, e0, bs, h)
  {
    var evs, n := Precommits(bs), |bs| - 1;
    forall k | 0 <= k < n
      ensures Apply(After(e0, evs, k), evs[k]).1 == Wait
    {
      CollectedAfter(e0, bs, k, h);
      CollectOne(e0, After(e0, evs, k), bs, k, h, evs[k]);
    }
    var e := After(e0, evs, n);
    CollectedAfter(e0, bs, n, h);
    CollectOne(e0, e, bs, n, h, evs[n]);
    LastPrecommit(e0, e, bs, h, evs[n]);
  }

  // ---- the whole round ----

  /** A whole round about `h`: it is opened, a supermajority of prevotes for `h` is completed, and then
      one of precommits. */
  ghost predicate HeardRound(e: Engine, opening: Event, prevotes: seq<Ballot>, precommits: seq<Ballot>, h: Option<Hash>) {
    var e1 := Apply(e, opening).0;
    var e2 := After(e1, Prevotes(prevotes), |prevotes|);
    && Untouched(e) && Opens(e, opening, h)
    && Completes(e1, prevotes, h) && Answered(e1, Prevotes(prevotes))
    && Completes(e2, precommits, h) && Answered(e2, Precommits(precommits))
  }

  /** A round that everyone hears comes to its end: the engine prevotes `h`, precommits `h` and then
      finalizes the block, justified by the precommits received, or skips the round if `h` is nil. */
  lemma HeardRoundEnds(e: Engine, opening: Event, prevotes: seq<Ballot>, precommits: seq<Ballot>, h: Option<Hash>)
    requires HeardRound(e, opening, prevotes, precommits, h)
    ensures var e1, evs1, n1 := Apply(e, opening).0, Prevotes(prevotes), |prevotes| - 1;
            var e2, evs2, n2 := After(e1, evs1, n1 + 1), Precommits(precommits), |precommits| - 1;
            && Apply(e, opening).1 == BroadcastPrevote(OwnVote(e, h))
            && Apply(After(e1, evs1, n1), evs1[n1]).1 == BroadcastPrecommit(OwnVote(e, h))
            && EndsRound(Apply(After(e2, evs2, n2), evs2[n2]).1, e, precommits, h)
  {
    var e1 := Apply(e, opening).0;
    OpeningAnswered(e, opening, h);
    PrevotesAnswered(e1, prevotes, h);
    PrecommitsAnswered(After(e1, Prevotes(prevotes), |prevotes|), precommits, h);
  }
}
