/** The other side of the reward bound: a distribution to fully staked signers loses rounding dust
    and nothing else. */
module RewardDust {
  import opened Sums
  import opened BftTypes
  import opened Rewards

  /** Every part of a signer's share has someone to go to. */
  predicate FullyStaked(r: Accumulators, v: Address) {
    && v in r.validators
    && TotalStake(r.validators[v]) > 0
    && (DelegatedTo(r.delegations, v) > 0 || r.validators[v].selfStake == TotalStake(r.validators[v]))
  }

  lemma AccrueExact(m: map<Address, nat>, a: Address, x: nat)
    requires Total(m) + x <= U64_MAX
    ensures Total(Accrue(m, a, x)) == Total(m) + x
  {
    if a in m {
      SumMember(m.Keys, m, a);
    }
    TotalUpdate(m, a, Weight(m, a) + x);
  }

  /** How many delegations a validator has. */
  function DelegationsTo(ds: seq<Delegation>, v: Address): nat {
    if ds == [] then 0 else (if ds[0].validator == v then 1 else 0) + DelegationsTo(ds[1..], v)
  }

  lemma ShareLoss(amount: nat, part: nat, whole: nat)
    requires whole > 0 && amount * part <= U64_MAX * whole
    ensures Share(amount, part, whole) * whole <= amount * part < (Share(amount, part, whole) + 1) * whole
  {
    var x := amount * part;
    assert x == x / whole * whole + x % whole;
    assert (x / whole + 1) * whole == x / whole * whole + whole;
    CancelMul(x / whole, U64_MAX, whole);
  }

  /** Adding a `p / whole` part of the amount to the total stays within 64 bits. */
  ghost predicate Fits(total: nat, amount: nat, p: nat, whole: nat) {
    total * whole + amount * p <= U64_MAX * whole
  }

  /** `paid` is a `p / whole` part of the amount, up to `n` units lost. */
  ghost predicate Rounds(paid: nat, n: nat, amount: nat, p: nat, whole: nat) {
    paid * whole <= amount * p <= (paid + n) * whole
  }

  lemma TakeShare(total: nat, amount: nat, p: nat, q: nat, whole: nat)
    requires whole > 0 && Fits(total, amount, p + q, whole)
    ensures var share := Share(amount, p, whole);
            total + share <= U64_MAX && Fits(total + share, amount, q, whole) && Rounds(share, 1, amount, p, whole)
  {
    var share := Share(amount, p, whole);
    assert amount * (p + q) == amount * p + amount * q;
    ShareLoss(amount, p, whole);
    assert (total + share) * whole == total * whole + share * whole;
    CancelMul(total + share, U64_MAX, whole);
  }

  lemma JoinRounds(share: nat, k: nat, rest: nat, n: nat, amount: nat, p: nat, q: nat, whole: nat)
    requires Rounds(share, k, amount, p, whole) && Rounds(rest, n, amount, q, whole)
    ensures Rounds(share + rest, k + n, amount, p + q, whole)
  {
    assert (share + rest) * whole == share * whole + rest * whole;
    assert (share + k) * whole + (rest + n) * whole == (share + rest + (k + n)) * whole;
    assert amount * (p + q) == amount * p + amount * q;
  }

  lemma DelegatorStep(m: map<Address, nat>, pool: nat, whole: nat, d: Delegation, v: Address, others: nat)
    returns (m1: map<Address, nat>, mine: nat, share: nat)
    requires whole > 0 && Fits(Total(m), pool, (if d.validator == v then d.amount else 0) + others, whole)
    ensures mine == (if d.validator == v then d.amount else 0)
    ensures share == if d.validator == v then Share(pool, d.amount, whole) else 0
    ensures m1 == (if share == 0 then m else Accrue(m, d.delegator, share)) && Total(m1) == Total(m) + share
    ensures Fits(Total(m1), pool, others, whole)
    ensures Rounds(share, if d.validator == v then 1 else 0, pool, mine, whole)
  {
    if d.validator == v {
      mine, share := d.amount, Share(pool, d.amount, whole);
      TakeShare(Total(m), pool, mine, others, whole);
      AccrueExact(m, d.delegator, share);
    } else {
      mine, share := 0, 0;
    }
    m1 := if share == 0 then m else Accrue(m, d.delegator, share);
  }

  /** The delegators of one validator receive the pool up to one unit each. */
  lemma {:induction false} PayDelegatorsExact(m: map<Address, nat>, pool: nat, whole: nat, ds: seq<Delegation>, v: Address)
    returns (paid: nat)
    requires whole > 0 && Fits(Total(m), pool, DelegatedTo(ds, v), whole)
    ensures Total(PayDelegators(m, pool, whole, ds, v)) == Total(m) + paid
    ensures Rounds(paid, DelegationsTo(ds, v), pool, DelegatedTo(ds, v), whole)
    decreases |ds|
  {
    if ds == [] {
      paid := 0;
    } else {
      var others := DelegatedTo(ds[1..], v);
      var m1, mine, share := DelegatorStep(m, pool, whole, ds[0], v, others);
      var rest := PayDelegatorsExact(m1, pool, whole, ds[1..], v);
      paid := share + rest;
      JoinRounds(share, if ds[0].validator == v then 1 else 0, rest, DelegationsTo(ds[1..], v), pool, mine, others, whole);
    }
  }

  lemma PoolRoom(total: nat, pool: nat, whole: nat)
    requires total + pool <= U64_MAX
    ensures Fits(total, pool, whole, whole)
  {
    assert total * whole + pool * whole == (total + pool) * whole;
    assert U64_MAX * whole == (total + pool) * whole + (U64_MAX - (total + pool)) * whole;
  }

  lemma CancelStrict(x: nat, y: nat, k: nat)
    requires x * k < y * k
    ensures x < y
  {
    if x >= y {
      MulMonotone(k, y, x);
    }
  }

  lemma CommissionExact(r: Accumulators, v: Address, rate: nat, share: nat)
    requires rate <= BASIS_POINTS && Owed(r) + share <= U64_MAX
    ensures var (r1, pool) := TakeCommission(r, v, rate, share);
            pool <= share && Owed(r1) + pool == Owed(r) + share
  {
    ShareBound(share, rate, BASIS_POINTS);
    AccrueExact(r.pending, v, Share(share, rate, BASIS_POINTS));
  }

  lemma ShareOfAll(pool: nat, whole: nat)
    requires whole > 0 && pool <= U64_MAX
    ensures Share(pool, whole, whole) == pool
  {
    MulMonotone(whole, pool, U64_MAX);
    ShareLoss(pool, whole, whole);
    CancelMul(Share(pool, whole, whole), pool, whole);
    CancelStrict(pool, Share(pool, whole, whole) as nat + 1, whole);
  }

  /** Nothing is left for delegators when all stake is the validator's own. */
  lemma OwnStakeExact(r: Accumulators, v: Address, s: Stake, pool: nat)
    requires TotalStake(s) > 0 && Owed(r) + pool <= U64_MAX
    ensures var (r1, rest) := PayOwnStake(r, v, s, pool);
            && rest <= pool && Owed(r1) + rest == Owed(r) + pool && (s.selfStake == TotalStake(s) ==> rest == 0)
            && r1.delegatorRewards == r.delegatorRewards
  {
    ShareBound(pool, s.selfStake, TotalStake(s));
    AccrueExact(r.pending, v, Share(pool, s.selfStake, TotalStake(s)));
    if s.selfStake == TotalStake(s) {
      ShareOfAll(pool, TotalStake(s));
    }
  }

  lemma DelegatorsGain(m: map<Address, nat>, pool: nat, ds: seq<Delegation>, v: Address)
    requires DelegatedTo(ds, v) > 0 && Total(m) + pool <= U64_MAX
    ensures var after := Total(PayDelegators(m, pool, DelegatedTo(ds, v), ds, v));
            Total(m) + pool <= after + DelegationsTo(ds, v) && after <= Total(m) + pool
  {
    var whole := DelegatedTo(ds, v);
    PoolRoom(Total(m), pool, whole);
    var paid := PayDelegatorsExact(m, pool, whole, ds, v);
    WholeRounds(paid, DelegationsTo(ds, v), pool, whole);
  }

  lemma PayPoolExact(r: Accumulators, v: Address, s: Stake, pool: nat)
    requires TotalStake(s) > 0 && DelegatedTo(r.delegations, v) <= U64_MAX && Owed(r) + pool <= U64_MAX
    requires DelegatedTo(r.delegations, v) > 0 || s.selfStake == TotalStake(s)
    ensures Owed(r) + pool <= Owed(PayPool(r, v, s, pool)) + DelegationsTo(r.delegations, v)
    ensures Owed(PayPool(r, v, s, pool)) <= Owed(r) + pool
  {
    OwnStakeExact(r, v, s, pool);
    var (r1, rest) := PayOwnStake(r, v, s, pool);
    if DelegatedTo(r.delegations, v) > 0 {
      DelegatorsGain(r1.delegatorRewards, rest, r.delegations, v);
    }
  }

  /** One signer's share is credited up to one unit for each delegation to it. */
  lemma PayOneSignerExact(r: Accumulators, v: Address, share: nat)
    requires CommissionsSane(r) && DelegationsFit(r) && FullyStaked(r, v) && Owed(r) + share <= U64_MAX
    ensures Owed(r) + share <= Owed(PayOneSigner(r, v, share)) + DelegationsTo(r.delegations, v)
    ensures Owed(PayOneSigner(r, v, share)) <= Owed(r) + share
  {
    var s := r.validators[v];
    CommissionExact(r, v, s.commissionRate, share);
    var (r1, pool) := TakeCommission(r, v, s.commissionRate, share);
    if pool > 0 {
      PayPoolExact(r1, v, s, pool);
    }
  }

  ghost predicate AllFullyStaked(r: Accumulators, signers: seq<(Address, nat)>) {
    forall i :: 0 <= i < |signers| ==> FullyStaked(r, signers[i].0)
  }

  /** One unit for each signer and each delegation to it. */
  function Dust(ds: seq<Delegation>, signers: seq<(Address, nat)>): nat {
    if signers == [] then 0 else 1 + DelegationsTo(ds, signers[0].0) + Dust(ds, signers[1..])
  }

  /** The part of the dust that is lost below the signers. */
  function InnerDust(ds: seq<Delegation>, signers: seq<(Address, nat)>): nat {
    if signers == [] then 0 else DelegationsTo(ds, signers[0].0) + InnerDust(ds, signers[1..])
  }

  lemma {:induction false} DustSplits(ds: seq<Delegation>, signers: seq<(Address, nat)>)
    ensures Dust(ds, signers) == |signers| + InnerDust(ds, signers)
  {
    if signers != [] {
      DustSplits(ds, signers[1..]);
    }
  }

  /** What the signers gain between them: their shares, less the inner dust. */
  ghost predicate Gained(r: Accumulators, r': Accumulators, shares: nat, lost: nat) {
    Owed(r) + shares <= Owed(r') + lost && Owed(r') <= Owed(r) + shares
  }

  /** What the arithmetic needs before each signer. */
  ghost predicate Payable(r: Accumulators, signers: seq<(Address, nat)>, reward: nat, whole: nat) {
    && whole > 0 && CommissionsSane(r) && DelegationsFit(r) && AllFullyStaked(r, signers)
    && Fits(Owed(r), reward, SignerStake(signers), whole)
  }

  lemma {:induction false} PaySignersExact(r: Accumulators, signers: seq<(Address, nat)>, reward: nat, whole: nat)
    returns (shares: nat)
    requires Payable(r, signers, reward, whole)
    ensures Gained(r, PaySigners(r, signers, reward, whole), shares, InnerDust(r.delegations, signers))
    ensures Rounds(shares, |signers|, reward, SignerStake(signers), whole)
    decreases |signers|
  {
    if signers == [] {
      shares := 0;
    } else {
      var r1, share := PaySignerStep(r, signers, reward, whole);
      var rest := PaySignersExact(r1, signers[1..], reward, whole);
      shares := share + rest;
      JoinRounds(share, 1, rest, |signers| - 1, reward, signers[0].1, SignerStake(signers[1..]), whole);
    }
  }

  /** One signer is paid and the rest is still payable. */
  lemma PaySignerStep(r: Accumulators, signers: seq<(Address, nat)>, reward: nat, whole: nat)
    returns (r1: Accumulators, share: nat)
    requires signers != [] && Payable(r, signers, reward, whole)
    ensures share == Share(reward, signers[0].1, whole)
    ensures r1 == (if share == 0 then r else PayOneSigner(r, signers[0].0, share)) && r1.delegations == r.delegations
    ensures Payable(r1, signers[1..], reward, whole) && Rounds(share, 1, reward, signers[0].1, whole)
    ensures Gained(r, r1, share, DelegationsTo(r.delegations, signers[0].0))
  {
    var v, others := signers[0].0, SignerStake(signers[1..]);
    share := Share(reward, signers[0].1, whole);
    TakeShare(Owed(r), reward, signers[0].1, others, whole);
    assert FullyStaked(r, signers[0].0);
    PayOneSignerExact(r, v, share);
    r1 := if share == 0 then r else PayOneSigner(r, v, share);
    LessFits(Owed(r1), Owed(r) + share, reward, others, whole);
    assert forall i :: 0 <= i < |signers[1..]| ==> signers[1..][i] == signers[i + 1];
  }

  lemma LessFits(x: nat, y: nat, amount: nat, p: nat, whole: nat)
    requires x <= y && Fits(y, amount, p, whole)
    ensures Fits(x, amount, p, whole)
  {
    MulMonotone(whole, x, y);
  }

  lemma WholeRounds(paid: nat, n: nat, amount: nat, whole: nat)
    requires whole > 0 && Rounds(paid, n, amount, whole, whole)
    ensures paid <= amount <= paid + n
  {
    CancelMul(paid, amount, whole);
    CancelMul(amount, paid + n, whole);
  }

  /** A distribution over fully staked signers credits the whole reward, up to one unit for each
      signer and one for each delegation to it. */
  lemma OnlyDustIsLost(r: Accumulators, proposer: Address, signers: seq<(Address, nat)>, reward: nat)
    requires CommissionsSane(r) && DelegationsFit(r) && AllFullyStaked(r, signers)
    requires 0 < SignerStake(signers) <= U64_MAX && Owed(r) + reward <= U64_MAX
    ensures var after := Owed(Distribute(r, proposer, signers, reward));
            Owed(r) + reward <= after + Dust(r.delegations, signers) && after <= Owed(r) + reward
  {
    DistributesBySigners(r, proposer, signers, reward);
    AllSignersExact(r, signers, reward);
  }

  lemma DistributesBySigners(r: Accumulators, proposer: Address, signers: seq<(Address, nat)>, reward: nat)
    requires 0 < SignerStake(signers) <= U64_MAX
    ensures Distribute(r, proposer, signers, reward) == PaySigners(r, signers, reward, SignerStake(signers))
  {
  }

  lemma AllSignersExact(r: Accumulators, signers: seq<(Address, nat)>, reward: nat)
    requires CommissionsSane(r) && DelegationsFit(r) && AllFullyStaked(r, signers)
    requires 0 < SignerStake(signers) && Owed(r) + reward <= U64_MAX
    ensures var after := Owed(PaySigners(r, signers, reward, SignerStake(signers)));
            Owed(r) + reward <= after + Dust(r.delegations, signers) && after <= Owed(r) + reward
  {
    var whole := SignerStake(signers);
    PoolRoom(Owed(r), reward, whole);
    var shares := PaySignersExact(r, signers, reward, whole);
    WholeRounds(shares, |signers|, reward, whole);
    DustSplits(r.delegations, signers);
  }
}
