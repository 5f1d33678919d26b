/** The vote collector against its meaning: each weight it keeps is the summed stake of the
    distinct validators recorded for that hash, so a supermajority answer, and the
    justification of a finalized block, stand for a real quorum. */
module Tallies {
  import opened Sums
  import opened BftTypes
  import opened EngineSpec
  import opened EngineRuns

  type Ballots = map<Address, Option<Hash>>

  function PrevoteHashes(b: Books): Ballots {
    map a | a in b.prevotes :: b.prevotes[a].0
  }

  function PrecommitHashes(b: Books): Ballots {
    map a | a in b.precommits :: b.precommits[a].0
  }

  /** The validators recorded for `x`. */
  function Voters(votes: Ballots, x: Option<Hash>): set<Address> {
    set a | a in votes && votes[a] == x
  }

  /** Every weight in the tally is the stake behind it. */
  ghost predicate Exact(votes: Ballots, tally: Tally, table: map<Address, nat>) {
    forall x :: Weight(tally, x) == Sum(Voters(votes, x), table)
  }

  /** Recorded stakes are those of the table, and both tallies are exact. */
  ghost predicate BooksExact(b: Books, table: map<Address, nat>) {
    && (forall a :: a in b.prevotes ==> b.prevotes[a].1 == Weight(table, a))
    && (forall a :: a in b.precommits ==> b.precommits[a].2 == Weight(table, a))
    && Exact(PrevoteHashes(b), b.prevoteTally, table)
    && Exact(PrecommitHashes(b), b.precommitTally, table)
  }

  /** A new validator's vote keeps a tally exact; in particular the 64-bit sum cannot wrap. */
  lemma AddVoteExact(votes: Ballots, tally: Tally, table: map<Address, nat>, a: Address, x: Option<Hash>)
    requires Exact(votes, tally, table) && a !in votes && Total(table) <= U64_MAX
    ensures Exact(votes[a := x], AddWeight(tally, x, Weight(table, a)), table)
  {
    var votes', tally' := votes[a := x], AddWeight(tally, x, Weight(table, a));
    assert Voters(votes', x) == Voters(votes, x) + {a};
    SumAdd(Voters(votes, x), table, a);
    SumWithin(Voters(votes', x), table);
    forall y ensures Weight(tally', y) == Sum(Voters(votes', y), table) {
      if y != x {
        assert Voters(votes', y) == Voters(votes, y);
      }
    }
  }

  lemma RecordPrevoteExact(e: Engine, v: Vote, table: map<Address, nat>)
    requires BooksExact(e.books, table) && v.validator !in e.books.prevotes && Total(table) <= U64_MAX
    ensures BooksExact(RecordPrevote(e, v, Weight(table, v.validator)).books, table)
  {
    var b' := RecordPrevote(e, v, Weight(table, v.validator)).books;
    AddVoteExact(PrevoteHashes(e.books), e.books.prevoteTally, table, v.validator, v.hash);
    assert PrevoteHashes(b') == PrevoteHashes(e.books)[v.validator := v.hash];
    assert PrecommitHashes(b') == PrecommitHashes(e.books);
  }

  lemma RecordPrecommitExact(e: Engine, v: Vote, table: map<Address, nat>)
    requires BooksExact(e.books, table) && v.validator !in e.books.precommits && Total(table) <= U64_MAX
    ensures BooksExact(RecordPrecommit(e, v, Weight(table, v.validator)).books, table)
  {
    var b' := RecordPrecommit(e, v, Weight(table, v.validator)).books;
    AddVoteExact(PrecommitHashes(e.books), e.books.precommitTally, table, v.validator, v.hash);
    assert PrecommitHashes(b') == PrecommitHashes(e.books)[v.validator := v.hash];
    assert PrevoteHashes(b') == PrevoteHashes(e.books);
  }

  lemma NoVotesExact(table: map<Address, nat>)
    ensures BooksExact(NO_VOTES, table)
  {
    forall x ensures Voters(map[], x) == {} {
    }
    assert PrevoteHashes(NO_VOTES) == map[] && PrecommitHashes(NO_VOTES) == map[];
  }

  predicate SameRound(e: Engine, e': Engine) {
    e'.height == e.height && e'.round == e.round
  }

  /** What the books become: unchanged within a round, emptied, or one counted vote longer. */
  lemma BooksAfter(e: Engine, ev: Event)
    ensures var e' := Apply(e, ev).0;
            || (e'.books == e.books && SameRound(e, e'))
            || e'.books == NO_VOTES
            || (ev.EvPrevote? && CountsPrevote(e, ev.vote) && SameRound(e, e')
                && e'.books == RecordPrevote(e, ev.vote, ev.stake).books)
            || (ev.EvPrecommit? && CountsPrecommit(e, ev.vote) && SameRound(e, e')
                && e'.books == RecordPrecommit(e, ev.vote, ev.stake).books)
  {
    match ev {
      case EvCatchUp(target) => CatchUpLands(e, target);
      case EvRoundStatus(h, r, peer, stake, target) =>
        if target.Some? { CatchUpLands(NotePeer(e, peer, r, stake), target.value); }
      case EvPrevote(v, stake, pick) => PrevoteBooks(e, v, stake, pick);
      case EvPrecommit(v, stake, pick) => PrecommitBooks(e, v, stake, pick);
      case _ =>
    }
  }

  lemma PrevoteBooks(e: Engine, v: Vote, stake: nat, pick: Option<Option<Hash>>)
    ensures SameRound(e, OnPrevote(e, v, stake, pick).0)
    ensures OnPrevote(e, v, stake, pick).0.books
         == if CountsPrevote(e, v) then RecordPrevote(e, v, stake).books else e.books
  {
  }

  lemma PrecommitBooks(e: Engine, v: Vote, stake: nat, pick: Option<Option<Hash>>)
    ensures SameRound(e, OnPrecommit(e, v, stake, pick).0)
    ensures OnPrecommit(e, v, stake, pick).0.books
         == if CountsPrecommit(e, v) then RecordPrecommit(e, v, stake).books else e.books
  {
  }

  /** Votes are weighed by the table. */
  predicate Weighed(ev: Event, table: map<Address, nat>) {
    (ev.EvPrevote? || ev.EvPrecommit?) ==> ev.stake == Weight(table, ev.vote.validator)
  }

  lemma StepExact(e: Engine, ev: Event, table: map<Address, nat>)
    requires BooksExact(e.books, table) && Weighed(ev, table) && Total(table) <= U64_MAX
    ensures BooksExact(Apply(e, ev).0.books, table)
  {
    BooksAfter(e, ev);
    NoVotesExact(table);
    if ev.EvPrevote? && CountsPrevote(e, ev.vote) {
      RecordPrevoteExact(e, ev.vote, table);
    } else if ev.EvPrecommit? && CountsPrecommit(e, ev.vote) {
      RecordPrecommitExact(e, ev.vote, table);
    }
  }

  /** Tally refinement, over every run in which votes are weighed by one stake table. */
  lemma {:induction false} TalliesStayExact(t: Trace, evs: seq<Event>, table: map<Address, nat>)
    requires BooksExact(t.engine.books, table) && Total(table) <= U64_MAX
    requires forall i :: 0 <= i < |evs| ==> Weighed(evs[i], table)
    ensures BooksExact(Run(t, evs).engine.books, table)
    decreases |evs|
  {
    if evs != [] {
      StepExact(t.engine, evs[0], table);
      TalliesStayExact(Extend(t, evs[0]), evs[1..], table);
    }
  }

  // ---- tallies without a table ----

  function PrevoteStakes(b: Books): map<Address, nat> {
    map a | a in b.prevotes :: b.prevotes[a].1
  }

  function PrecommitStakes(b: Books): map<Address, nat> {
    map a | a in b.precommits :: b.precommits[a].2
  }

  /** Every weight is the recorded stake behind it, as far as 64 bits hold it. */
  ghost predicate Wrapped(votes: Ballots, stakes: map<Address, nat>, tally: Tally) {
    forall x :: Weight(tally, x) == Sum(Voters(votes, x), stakes) % (U64_MAX + 1)
  }

  ghost predicate BooksWrapped(b: Books) {
    && Wrapped(PrevoteHashes(b), PrevoteStakes(b), b.prevoteTally)
    && Wrapped(PrecommitHashes(b), PrecommitStakes(b), b.precommitTally)
  }

  lemma AddWraps(n: nat, stake: nat)
    ensures (n % (U64_MAX + 1) + stake) % (U64_MAX + 1) == (n + stake) % (U64_MAX + 1)
  {
  }

  lemma OneMoreVoter(votes: Ballots, stakes: map<Address, nat>, a: Address, x: Option<Hash>, stake: nat, y: Option<Hash>)
    requires a !in votes
    ensures Sum(Voters(votes[a := x], y), stakes[a := stake])
            == Sum(Voters(votes, y), stakes) + (if y == x then stake else 0)
  {
    var votes', stakes' := votes[a := x], stakes[a := stake];
    SumAgree(Voters(votes, y), stakes, stakes');
    if y == x {
      assert Voters(votes', x) == Voters(votes, x) + {a};
      SumAdd(Voters(votes, x), stakes', a);
    } else {
      assert Voters(votes', y) == Voters(votes, y);
    }
  }

  lemma AddVoteWraps(votes: Ballots, stakes: map<Address, nat>, tally: Tally, a: Address, x: Option<Hash>, stake: nat)
    requires Wrapped(votes, stakes, tally) && a !in votes
    ensures Wrapped(votes[a := x], stakes[a := stake], AddWeight(tally, x, stake))
  {
    var votes', stakes', tally' := votes[a := x], stakes[a := stake], AddWeight(tally, x, stake);
    forall y
      ensures Weight(tally', y) == Sum(Voters(votes', y), stakes') % (U64_MAX + 1)
    {
      OneMoreVoter(votes, stakes, a, x, stake, y);
      AddWraps(Sum(Voters(votes, y), stakes), stake);
    }
  }

  lemma RecordPrevoteWraps(e: Engine, v: Vote, stake: nat)
    requires BooksWrapped(e.books) && v.validator !in e.books.prevotes
    ensures BooksWrapped(RecordPrevote(e, v, stake).books)
  {
    var b, b' := e.books, RecordPrevote(e, v, stake).books;
    AddVoteWraps(PrevoteHashes(b), PrevoteStakes(b), b.prevoteTally, v.validator, v.hash, stake);
    assert PrevoteHashes(b') == PrevoteHashes(b)[v.validator := v.hash];
    assert PrevoteStakes(b') == PrevoteStakes(b)[v.validator := stake];
    assert PrecommitHashes(b') == PrecommitHashes(b) && PrecommitStakes(b') == PrecommitStakes(b);
  }

  lemma RecordPrecommitWraps(e: Engine, v: Vote, stake: nat)
    requires BooksWrapped(e.books) && v.validator !in e.books.precommits
    ensures BooksWrapped(RecordPrecommit(e, v, stake).books)
  {
    var b, b' := e.books, RecordPrecommit(e, v, stake).books;
    AddVoteWraps(PrecommitHashes(b), PrecommitStakes(b), b.precommitTally, v.validator, v.hash, stake);
    assert PrecommitHashes(b') == PrecommitHashes(b)[v.validator := v.hash];
    assert PrecommitStakes(b') == PrecommitStakes(b)[v.validator := stake];
    assert PrevoteHashes(b') == PrevoteHashes(b) && PrevoteStakes(b') == PrevoteStakes(b);
  }

  lemma NoVotesWrapped()
    ensures BooksWrapped(NO_VOTES)
  {
    forall x ensures Voters(map[], x) == {} {
    }
    assert PrevoteHashes(NO_VOTES) == map[] && PrecommitHashes(NO_VOTES) == map[];
  }

  lemma StepWraps(e: Engine, ev: Event)
    requires BooksWrapped(e.books)
    ensures BooksWrapped(Apply(e, ev).0.books)
  {
    BooksAfter(e, ev);
    NoVotesWrapped();
    if ev.EvPrevote? && CountsPrevote(e, ev.vote) {
      RecordPrevoteWraps(e, ev.vote, ev.stake);
    } else if ev.EvPrecommit? && CountsPrecommit(e, ev.vote) {
      RecordPrecommitWraps(e, ev.vote, ev.stake);
    }
  }

  /** In every run, whatever stakes votes come with: each weight is the sum of the stakes recorded for
      that hash, one per validator, modulo 2^64. */
  lemma {:induction false} TalliesWrap(t: Trace, evs: seq<Event>)
    requires BooksWrapped(t.engine.books)
    ensures BooksWrapped(Run(t, evs).engine.books)
    decreases |evs|
  {
    if evs != [] {
      StepWraps(t.engine, evs[0]);
      TalliesWrap(Extend(t, evs[0]), evs[1..]);
    }
  }

  /** The tally scan has at most one possible answer, so hash map order cannot matter. */
  lemma SupermajorityUnique(votes: Ballots, tally: Tally, table: map<Address, nat>,
                            p: Option<Option<Hash>>, q: Option<Option<Hash>>)
    requires Exact(votes, tally, table) && Total(table) <= U64_MAX
    requires IsSupermajority(tally, Total(table), p) && IsSupermajority(tally, Total(table), q)
    ensures p == q
  {
    if p.Some? && q.Some? && p != q {
      SumUnion(Voters(votes, p.value), Voters(votes, q.value), table);
      assert Voters(votes, p.value) * Voters(votes, q.value) == {};
      SumWithin(Voters(votes, p.value) + Voters(votes, q.value), table);
    }
  }

  function JustifiedStakes(j: map<Address, SignedPrecommit>): map<Address, nat> {
    map a | a in j :: j[a].stake
  }

  lemma JustificationWeighs(b: Books, hash: Hash, table: map<Address, nat>)
    requires BooksExact(b, table)
    ensures var j := Justification(b, hash); var voters := Voters(PrecommitHashes(b), Some(hash));
            j.Keys == voters
            && (forall v :: v in j ==> j[v].stake == Weight(table, v))
            && Total(JustifiedStakes(j)) == Sum(voters, table) == Weight(b.precommitTally, Some(hash))
  {
    var j := Justification(b, hash);
    assert JustifiedStakes(j).Keys == j.Keys == Voters(PrecommitHashes(b), Some(hash));
    SumAgree(j.Keys, JustifiedStakes(j), table);
  }

  /** Every finalization is backed: its justification names exactly the validators recorded for
      the finalized hash, at their table stake, and together they reach the threshold. */
  lemma FinalizeIsJustified(e: Engine, ev: Event, table: map<Address, nat>)
    requires BooksExact(e.books, table) && Weighed(ev, table) && Total(table) <= U64_MAX && e.total == Total(table)
    requires Answerable(e, ev) && Apply(e, ev).1.FinalizeBlock?
    ensures var (e', a) := Apply(e, ev);
            a.height == e.height && a.round == e.round && e'.phase == Finalize
            && a.justification.Keys == Voters(PrecommitHashes(e'.books), Some(a.hash))
            && (forall v :: v in a.justification ==> a.justification[v].stake == Weight(table, v))
            && Total(JustifiedStakes(a.justification)) >= SupermajorityThreshold(Total(table))
            && Sum(Voters(PrecommitHashes(e'.books), Some(a.hash)), table) >= SupermajorityThreshold(Total(table))
  {
    var (e', a) := Apply(e, ev);
    StepExact(e, ev, table);
    OnlyPrecommitsFinalize(e, ev);
    JustificationWeighs(e'.books, a.hash, table);
  }

  lemma OnlyPrecommitsFinalize(e: Engine, ev: Event)
    requires Answerable(e, ev) && Apply(e, ev).1.FinalizeBlock?
    ensures ev.EvPrecommit? && CountsPrecommit(e, ev.vote)
    ensures var (e', a) := Apply(e, ev);
            a.height == e.height && a.round == e.round && e'.phase == Finalize
            && e'.books == RecordPrecommit(e, ev.vote, ev.stake).books
            && a.justification == Justification(e'.books, a.hash)
            && Weight(e'.books.precommitTally, Some(a.hash)) >= SupermajorityThreshold(e.total)
  {
  }
}
