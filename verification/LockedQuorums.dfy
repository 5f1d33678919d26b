/** The safety argument on ballots alone: if correct validators vote once per round, precommit
    a block only on a quorum of prevotes for it, and respect their lock, then quorums of
    precommits at one height agree, whatever their rounds. */
module LockedQuorums {
  import opened Sums
  import opened BftTypes

  // ---- quorums of ballots ----

  /** The correct validators, and the stake table in force at each height. */
  datatype Config = Config(honest: set<Address>, table: nat -> map<Address, nat>)

  function Faulty(c: Config, h: nat): set<Address> {
    c.table(h).Keys - c.honest
  }

  ghost predicate ValidConfig(c: Config) {
    forall h: nat :: Total(c.table(h)) <= U64_MAX && 3 * Sum(Faulty(c, h), c.table(h)) <= Total(c.table(h))
  }

  /** What a vote says, without its signature. */
  datatype Ballot = Ballot(height: nat, round: u32, validator: Address, hash: Option<Hash>)

  function BallotOf(v: Vote): Ballot {
    Ballot(v.height, v.round, v.validator, v.hash)
  }

  /** Everything correct validators ever sent. What faulty ones send is not recorded: they are
      taken to have sent every ballot. */
  datatype Net = Net(prevotes: set<Ballot>, precommits: set<Ballot>)

  ghost function Backers(c: Config, sent: set<Ballot>, h: nat, r: u32, x: Hash): set<Address> {
    set a | a in c.table(h) && (a !in c.honest || Ballot(h, r, a, Some(x)) in sent)
  }

  /** More than two thirds of the stake may have voted for `x`. */
  ghost predicate Quorum(c: Config, sent: set<Ballot>, h: nat, r: u32, x: Hash) {
    3 * Sum(Backers(c, sent, h, r, x), c.table(h)) > 2 * Total(c.table(h))
  }

  lemma QuorumGrows(c: Config, sent: set<Ballot>, sent': set<Ballot>, h: nat, r: u32, x: Hash)
    requires sent <= sent' && Quorum(c, sent, h, r, x)
    ensures Quorum(c, sent', h, r, x)
  {
    SumMonotone(Backers(c, sent, h, r, x), Backers(c, sent', h, r, x), c.table(h));
  }

  /** Two quorums have a correct validator in common. */
  lemma CommonVoter(c: Config, s: set<Ballot>, s': set<Ballot>, h: nat, r: u32, x: Hash, r': u32, x': Hash)
    returns (a: Address)
    requires ValidConfig(c) && Quorum(c, s, h, r, x) && Quorum(c, s', h, r', x')
    ensures a in c.honest && Ballot(h, r, a, Some(x)) in s && Ballot(h, r', a, Some(x')) in s'
  {
    a := QuorumsShareCorrect(c.table(h), Backers(c, s, h, r, x), Backers(c, s', h, r', x'), Faulty(c, h));
  }

  // ---- what the ballots of correct validators satisfy ----

  predicate SameSlot(b: Ballot, b': Ballot) {
    b.height == b'.height && b.round == b'.round && b.validator == b'.validator
  }

  /** A validator that precommitted a block prevotes another one later only if a quorum of
      prevotes for that other block stands in some round between. */
  ghost predicate LockRule(c: Config, net: Net, pc: Ballot, pv: Ballot) {
    pc.validator == pv.validator && pc.height == pv.height && pc.round < pv.round
    && pc.hash.Some? && pv.hash.Some? && pc.hash != pv.hash ==>
      exists r: u32 :: pc.round < r < pv.round && Quorum(c, net.prevotes, pv.height, r, pv.hash.value)
  }

  ghost predicate NetInv(c: Config, net: Net) {
    && (forall b :: b in net.prevotes ==> b.validator in c.honest)
    && (forall b :: b in net.precommits ==> b.validator in c.honest)
    && (forall b, b' :: b in net.prevotes && b' in net.prevotes && SameSlot(b, b') ==> b == b')
    && (forall b :: b in net.precommits && b.hash.Some? ==> Quorum(c, net.prevotes, b.height, b.round, b.hash.value))
    && (forall pc, pv :: pc in net.precommits && pv in net.prevotes ==> LockRule(c, net, pc, pv))
  }

  /** One round has at most one block with a prevote quorum. */
  lemma OnePrevoteQuorum(c: Config, net: Net, h: nat, r: u32, x: Hash, y: Hash)
    requires ValidConfig(c) && NetInv(c, net)
    requires Quorum(c, net.prevotes, h, r, x) && Quorum(c, net.prevotes, h, r, y)
    ensures x == y
  {
    var a := CommonVoter(c, net.prevotes, net.prevotes, h, r, x, r, y);
    assert SameSlot(Ballot(h, r, a, Some(x)), Ballot(h, r, a, Some(y)));
  }

  lemma PrecommitImpliesPrevotes(c: Config, net: Net, h: nat, r: u32, x: Hash)
    requires ValidConfig(c) && NetInv(c, net) && Quorum(c, net.precommits, h, r, x)
    ensures Quorum(c, net.prevotes, h, r, x)
  {
    var a := CommonVoter(c, net.precommits, net.precommits, h, r, x, r, x);
    var b := Ballot(h, r, a, Some(x));
    assert b in net.precommits && b.hash.Some?;
  }

  /** Once a quorum has precommitted a block, no later round gathers a prevote quorum for another. */
  lemma {:induction false} CommittedStays(c: Config, net: Net, h: nat, r: u32, x: Hash, r': u32, y: Hash)
    requires ValidConfig(c) && NetInv(c, net) && r <= r'
    requires Quorum(c, net.precommits, h, r, x) && Quorum(c, net.prevotes, h, r', y)
    ensures x == y
    decreases r'
  {
    if r == r' {
      PrecommitImpliesPrevotes(c, net, h, r, x);
      OnePrevoteQuorum(c, net, h, r, x, y);
    } else {
      var a := CommonVoter(c, net.precommits, net.prevotes, h, r, x, r', y);
      var pc, pv := Ballot(h, r, a, Some(x)), Ballot(h, r', a, Some(y));
      assert LockRule(c, net, pc, pv);
      if x != y {
        var m: u32 :| r < m < r' && Quorum(c, net.prevotes, h, m, y);
        CommittedStays(c, net, h, r, x, m, y);
      }
    }
  }

  lemma CommitsAgree(c: Config, net: Net, h: nat, r: u32, x: Hash, r': u32, y: Hash)
    requires ValidConfig(c) && NetInv(c, net)
    requires Quorum(c, net.precommits, h, r, x) && Quorum(c, net.precommits, h, r', y)
    ensures x == y
  {
    PrecommitImpliesPrevotes(c, net, h, r, x);
    PrecommitImpliesPrevotes(c, net, h, r', y);
    if r <= r' {
      CommittedStays(c, net, h, r, x, r', y);
    } else {
      CommittedStays(c, net, h, r', y, r, x);
    }
  }
}
