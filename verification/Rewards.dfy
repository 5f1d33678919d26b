/** Reward accumulators of the stake registry: how one block's reward is split among the signers of
    its justification, and how a claim is paid out. All amounts are claims against the treasury. */
module Rewards {
  import opened Sums
  import opened BftTypes

  datatype Stake = Stake(commissionRate: nat, selfStake: u64, delegated: u64)

  datatype Delegation = Delegation(delegator: Address, validator: Address, amount: nat)

  /** The accumulators are kept beside the validators they belong to; delegations are listed in the
      sorted order in which the registry walks them. */
  datatype Accumulators = Accumulators(
    validators: map<Address, Stake>,
    delegations: seq<Delegation>,
    pending: map<Address, nat>,
    delegatorRewards: map<Address, nat>)

  const BASIS_POINTS: nat := 10_000

  function TotalStake(s: Stake): nat {
    if s.selfStake + s.delegated <= U64_MAX then s.selfStake + s.delegated else U64_MAX
  }

  /** Saturating accumulation. */
  function Accrue(m: map<Address, nat>, a: Address, x: nat): map<Address, nat> {
    m[a := if Weight(m, a) + x <= U64_MAX then Weight(m, a) + x else U64_MAX]
  }

  /** Reduction to 64 bits, by a cast or by a sum that wraps. */
  function Wrap(n: nat): u64 {
    if n <= U64_MAX then n else n % (U64_MAX + 1)
  }

  /** A pro-rata share, computed wide, rounded down and cast. */
  function Share(amount: nat, part: nat, whole: nat): u64
    requires whole > 0
  {
    Wrap(amount * part / whole)
  }

  function DelegatedTo(ds: seq<Delegation>, v: Address): nat {
    if ds == [] then 0 else (if ds[0].validator == v then ds[0].amount else 0) + DelegatedTo(ds[1..], v)
  }

  function PayDelegators(m: map<Address, nat>, pool: nat, whole: nat, ds: seq<Delegation>, v: Address): map<Address, nat>
    requires whole > 0
    decreases |ds|
  {
    if ds == [] then m
    else
      var share := if ds[0].validator == v then Share(pool, ds[0].amount, whole) else 0;
      PayDelegators(if share == 0 then m else Accrue(m, ds[0].delegator, share), pool, whole, ds[1..], v)
  }

  /** Taking the commission off a share: what the validator gets, and what is left. */
  function TakeCommission(r: Accumulators, v: Address, rate: nat, share: nat): (Accumulators, nat) {
    var commission := Share(share, rate, BASIS_POINTS);
    (r.(pending := Accrue(r.pending, v, commission)), if commission <= share then share - commission else 0)
  }

  /** The validator's own part of the pool, and what is left for its delegators. */
  function PayOwnStake(r: Accumulators, v: Address, s: Stake, pool: nat): (Accumulators, nat)
    requires TotalStake(s) > 0
  {
    var own := Share(pool, s.selfStake, TotalStake(s));
    (r.(pending := Accrue(r.pending, v, own)), if own <= pool then pool - own else 0)
  }

  function PayPool(r: Accumulators, v: Address, s: Stake, pool: nat): Accumulators
    requires TotalStake(s) > 0
  {
    var (r1, rest) := PayOwnStake(r, v, s, pool);
    var whole := Wrap(DelegatedTo(r.delegations, v));
    if rest == 0 || whole == 0 then r1
    else r1.(delegatorRewards := PayDelegators(r1.delegatorRewards, rest, whole, r.delegations, v))
  }

  /** Commission first, then the validator's own stake, then its delegators. */
  function PayOneSigner(r: Accumulators, v: Address, share: nat): Accumulators {
    if v !in r.validators then r
    else
      var s := r.validators[v];
      var (r1, pool) := TakeCommission(r, v, s.commissionRate, share);
      if TotalStake(s) == 0 || pool == 0 then r1 else PayPool(r1, v, s, pool)
  }

  /** The payout to one validator when there is no justification to weigh; the delegators' part is
      dropped. An unknown validator is an error and changes nothing. */
  function PaySingle(r: Accumulators, v: Address, reward: nat): Accumulators {
    if v !in r.validators then r
    else
      var s := r.validators[v];
      var (r1, pool) := TakeCommission(r, v, s.commissionRate, reward);
      if TotalStake(s) == 0 || pool == 0 then r1 else PayOwnStake(r1, v, s, pool).0
  }

  function SignerStake(signers: seq<(Address, nat)>): nat {
    if signers == [] then 0 else signers[0].1 + SignerStake(signers[1..])
  }

  function PaySigners(r: Accumulators, signers: seq<(Address, nat)>, reward: nat, whole: nat): Accumulators
    requires whole > 0
    decreases |signers|
  {
    if signers == [] then r
    else
      var share := Share(reward, signers[0].1, whole);
      PaySigners(if share == 0 then r else PayOneSigner(r, signers[0].0, share), signers[1..], reward, whole)
  }

  function Distribute(r: Accumulators, proposer: Address, signers: seq<(Address, nat)>, reward: nat): Accumulators {
    var whole := Wrap(SignerStake(signers));
    if signers == [] || whole == 0 then PaySingle(r, proposer, reward)
    else PaySigners(r, signers, reward, whole)
  }

  function Peek(r: Accumulators, a: Address): nat {
    var sum := Weight(r.delegatorRewards, a) + Weight(r.pending, a);
    if sum <= U64_MAX then sum else U64_MAX
  }

  function Drain(r: Accumulators, a: Address): Accumulators {
    r.(delegatorRewards := r.delegatorRewards - {a},
       pending := if a in r.pending then r.pending[a := 0] else r.pending)
  }

  /** Forgets what is owed. */
  function ResetRewards(r: Accumulators): Accumulators {
    r.(pending := map a | a in r.pending :: 0, delegatorRewards := map[])
  }

  // ---- the registry object ----

  class StakeRegistry {
    var validators: map<Address, Stake>
    var delegations: seq<Delegation>
    var pending: map<Address, nat>
    var delegatorRewards: map<Address, nat>

    ghost function View(): Accumulators
      reads this
    {
      Accumulators(validators, delegations, pending, delegatorRewards)
    }

    constructor (r: Accumulators)
      ensures View() == r
    {
      validators, delegations, pending, delegatorRewards := r.validators, r.delegations, r.pending, r.delegatorRewards;
    }

    method DistributeReward(proposer: Address, signers: seq<(Address, nat)>, reward: nat)
      modifies this
      ensures View() == Distribute(old(View()), proposer, signers, reward)
    {
      var whole := SumStakes(signers);
      if signers == [] || whole == 0 {
        PayOneValidator(proposer, reward);
        return;
      }
      var i := 0;
      while i < |signers|
        invariant 0 <= i <= |signers|
        invariant PaySigners(View(), signers[i..], reward, whole) == PaySigners(old(View()), signers, reward, whole)
      {
        var share := Share(reward, signers[i].1, whole);
        assert signers[i..][1..] == signers[i + 1..];
        if share != 0 {
          PaySigner(signers[i].0, share);
        }
        i := i + 1;
      }
    }

    method PayOneValidator(v: Address, reward: nat)
      modifies this`pending
      ensures View() == PaySingle(old(View()), v, reward)
    {
      if v !in validators {
        return;
      }
      var s := validators[v];
      var commission := Share(reward, s.commissionRate, BASIS_POINTS);
      var pool := if commission <= reward then reward - commission else 0;
      pending := Accrue(pending, v, commission);
      if TotalStake(s) == 0 || pool == 0 {
        return;
      }
      pending := Accrue(pending, v, Share(pool, s.selfStake, TotalStake(s)));
    }

    method PaySigner(v: Address, share: nat)
      modifies this`pending, this`delegatorRewards
      ensures View() == PayOneSigner(old(View()), v, share)
    {
      if v !in validators {
        return;
      }
      var s := validators[v];
      var commission := Share(share, s.commissionRate, BASIS_POINTS);
      var pool := if commission <= share then share - commission else 0;
      pending := Accrue(pending, v, commission);
      if TotalStake(s) == 0 || pool == 0 {
        return;
      }
      var selfShare := Share(pool, s.selfStake, TotalStake(s));
      pending := Accrue(pending, v, selfShare);
      var delegatorPool := if selfShare <= pool then pool - selfShare else 0;
      var whole := SumDelegations(delegations, v);
      if delegatorPool == 0 || whole == 0 {
        return;
      }
      delegatorRewards := SpreadOverDelegators(delegatorRewards, delegatorPool, whole, delegations, v);
    }

    method ClaimPaid(a: Address)
      modifies this`pending, this`delegatorRewards
      ensures View() == Drain(old(View()), a)
    {
      delegatorRewards := delegatorRewards - {a};
      if a in pending {
        pending := pending[a := 0];
      }
    }

    method ForgetRewards()
      modifies this`pending, this`delegatorRewards
      ensures View() == ResetRewards(old(View()))
    {
      pending := map a | a in pending :: 0;
      delegatorRewards := map[];
    }

    method Restore(r: Accumulators)
      modifies this
      ensures View() == r
    {
      validators, delegations, pending, delegatorRewards := r.validators, r.delegations, r.pending, r.delegatorRewards;
    }
  }

  /** Wrapping at every step is wrapping once. */
  lemma WrapAdds(x: nat, y: nat, rest: nat)
    ensures Wrap(Wrap(x + y) + rest) == Wrap(x + (y + rest))
  {
    var m := U64_MAX + 1;
    assert x + y == (x + y) / m * m + (x + y) % m;
    WrapShift((x + y) % m + rest, (x + y) / m);
  }

  lemma {:induction false} WrapShift(x: nat, k: nat)
    ensures Wrap(x + k * (U64_MAX + 1)) == Wrap(x)
  {
    if k > 0 {
      WrapShift(x, k - 1);
    }
  }

  method SumStakes(signers: seq<(Address, nat)>) returns (sum: u64)
    ensures sum == Wrap(SignerStake(signers))
  {
    sum := 0;
    for i := 0 to |signers|
      invariant Wrap(sum + SignerStake(signers[i..])) == Wrap(SignerStake(signers))
    {
      assert signers[i..][1..] == signers[i + 1..];
      WrapAdds(sum, signers[i].1, SignerStake(signers[i + 1..]));
      sum := Wrap(sum + signers[i].1);
    }
  }

  method SumDelegations(ds: seq<Delegation>, v: Address) returns (sum: u64)
    ensures sum == Wrap(DelegatedTo(ds, v))
  {
    sum := 0;
    for i := 0 to |ds|
      invariant Wrap(sum + DelegatedTo(ds[i..], v)) == Wrap(DelegatedTo(ds, v))
    {
      assert ds[i..][1..] == ds[i + 1..];
      if ds[i].validator == v {
        WrapAdds(sum, ds[i].amount, DelegatedTo(ds[i + 1..], v));
        sum := Wrap(sum + ds[i].amount);
      }
    }
  }

  method SpreadOverDelegators(m: map<Address, nat>, pool: nat, whole: nat, ds: seq<Delegation>, v: Address)
    returns (r: map<Address, nat>)
    requires whole > 0
    ensures r == PayDelegators(m, pool, whole, ds, v)
  {
    r := m;
    for i := 0 to |ds|
      invariant PayDelegators(r, pool, whole, ds[i..], v) == PayDelegators(m, pool, whole, ds, v)
    {
      assert ds[i..][1..] == ds[i + 1..];
      if ds[i].validator == v {
        var share := Share(pool, ds[i].amount, whole);
        if share != 0 {
          r := Accrue(r, ds[i].delegator, share);
        }
      }
    }
  }

  // ---- what is owed ----

  /** Everything the treasury owes. */
  ghost function Owed(r: Accumulators): nat {
    Total(r.pending) + Total(r.delegatorRewards)
  }

  lemma AccrueTotal(m: map<Address, nat>, a: Address, x: nat)
    ensures Total(Accrue(m, a, x)) <= Total(m) + x
  {
    TotalUpdate(m, a, if Weight(m, a) + x <= U64_MAX then Weight(m, a) + x else U64_MAX);
  }

  lemma DivMul(x: nat, d: nat)
    requires d > 0
    ensures x / d * d <= x
  {
  }

  lemma MulStrict(x: nat, y: nat, k: nat)
    requires k > 0 && x > y
    ensures x * k > y * k
  {
    assert x * k == y * k + (x - y) * k;
  }

  lemma CancelMul(x: nat, y: nat, k: nat)
    requires k > 0 && x * k <= y * k
    ensures x <= y
  {
    if x > y {
      MulStrict(x, y, k);
    }
  }

  lemma MulMonotone(k: nat, x: nat, y: nat)
    requires x <= y
    ensures k * x <= k * y
  {
  }

  lemma ShareBound(amount: nat, part: nat, whole: nat)
    requires whole > 0
    ensures Share(amount, part, whole) * whole <= amount * part
    ensures part <= whole ==> Share(amount, part, whole) <= amount
  {
    DivMul(amount * part, whole);
    MulMonotone(whole, Share(amount, part, whole), amount * part / whole);
    if part <= whole {
      MulMonotone(amount, part, whole);
      CancelMul(Share(amount, part, whole), amount, whole);
    }
  }

  lemma AddShares(share: nat, rest: nat, whole: nat, amount: nat, p: nat, q: nat)
    requires share * whole <= amount * p && rest * whole <= amount * q
    ensures (share + rest) * whole <= amount * (p + q)
  {
    assert (share + rest) * whole == share * whole + rest * whole;
    assert amount * (p + q) == amount * p + amount * q;
  }

  /** The shares of all delegators together stay within the pool. */
  lemma {:induction false} PayDelegatorsBound(m: map<Address, nat>, pool: nat, whole: nat, ds: seq<Delegation>, v: Address)
    returns (paid: nat)
    requires whole > 0
    ensures Total(PayDelegators(m, pool, whole, ds, v)) <= Total(m) + paid
    ensures paid * whole <= pool * DelegatedTo(ds, v)
    decreases |ds|
  {
    if ds == [] {
      paid := 0;
    } else {
      var mine := if ds[0].validator == v then ds[0].amount else 0;
      var share := if ds[0].validator == v then Share(pool, mine, whole) else 0;
      ShareBound(pool, mine, whole);
      var m1 := if share == 0 then m else Accrue(m, ds[0].delegator, share);
      AccrueTotal(m, ds[0].delegator, share);
      var rest := PayDelegatorsBound(m1, pool, whole, ds[1..], v);
      paid := share + rest;
      AddShares(share, rest, whole, pool, mine, DelegatedTo(ds[1..], v));
    }
  }

  ghost predicate CommissionsSane(r: Accumulators) {
    forall v :: v in r.validators ==> r.validators[v].commissionRate <= BASIS_POINTS
  }

  /** The delegations to one validator add up within 64 bits. */
  ghost predicate DelegationsFit(r: Accumulators) {
    forall v :: DelegatedTo(r.delegations, v) <= U64_MAX
  }

  /** The commission and what is left of the share are the share. */
  lemma CommissionBound(r: Accumulators, v: Address, rate: nat, share: nat)
    requires rate <= BASIS_POINTS
    ensures var (r1, pool) := TakeCommission(r, v, rate, share);
            pool <= share && Total(r1.pending) + pool <= Total(r.pending) + share
  {
    ShareBound(share, rate, BASIS_POINTS);
    AccrueTotal(r.pending, v, Share(share, rate, BASIS_POINTS));
  }

  lemma OwnStakeBound(r: Accumulators, v: Address, s: Stake, pool: nat)
    requires TotalStake(s) > 0
    ensures var (r1, rest) := PayOwnStake(r, v, s, pool);
            rest <= pool && Total(r1.pending) + rest <= Total(r.pending) + pool
  {
    ShareBound(pool, s.selfStake, TotalStake(s));
    AccrueTotal(r.pending, v, Share(pool, s.selfStake, TotalStake(s)));
  }

  lemma DelegatorsBound(m: map<Address, nat>, pool: nat, ds: seq<Delegation>, v: Address)
    requires DelegatedTo(ds, v) > 0
    ensures Total(PayDelegators(m, pool, DelegatedTo(ds, v), ds, v)) <= Total(m) + pool
  {
    var paid := PayDelegatorsBound(m, pool, DelegatedTo(ds, v), ds, v);
    CancelMul(paid, pool, DelegatedTo(ds, v));
  }

  lemma PayPoolBound(r: Accumulators, v: Address, s: Stake, pool: nat)
    requires TotalStake(s) > 0 && DelegatedTo(r.delegations, v) <= U64_MAX
    ensures Owed(PayPool(r, v, s, pool)) <= Owed(r) + pool
  {
    OwnStakeBound(r, v, s, pool);
    var (r1, rest) := PayOwnStake(r, v, s, pool);
    if DelegatedTo(r.delegations, v) > 0 {
      DelegatorsBound(r1.delegatorRewards, rest, r.delegations, v);
    }
  }

  /** One signer's payout credits at most its share. */
  lemma PayOneSignerBound(r: Accumulators, v: Address, share: nat)
    requires CommissionsSane(r) && DelegationsFit(r)
    ensures Owed(PayOneSigner(r, v, share)) <= Owed(r) + share
  {
    if v in r.validators {
      var s := r.validators[v];
      CommissionBound(r, v, s.commissionRate, share);
      var (r1, pool) := TakeCommission(r, v, s.commissionRate, share);
      if TotalStake(s) != 0 {
        PayPoolBound(r1, v, s, pool);
      }
    }
  }

  lemma PaySingleBound(r: Accumulators, v: Address, reward: nat)
    requires CommissionsSane(r)
    ensures Owed(PaySingle(r, v, reward)) <= Owed(r) + reward
  {
    if v in r.validators {
      var s := r.validators[v];
      CommissionBound(r, v, s.commissionRate, reward);
      var (r1, pool) := TakeCommission(r, v, s.commissionRate, reward);
      if TotalStake(s) != 0 {
        OwnStakeBound(r1, v, s, pool);
      }
    }
  }

  lemma {:induction false} PaySignersBound(r: Accumulators, signers: seq<(Address, nat)>, reward: nat, whole: nat)
    returns (paid: nat)
    requires CommissionsSane(r) && DelegationsFit(r) && whole > 0
    ensures Owed(PaySigners(r, signers, reward, whole)) <= Owed(r) + paid
    ensures paid * whole <= reward * SignerStake(signers)
    decreases |signers|
  {
    if signers == [] {
      paid := 0;
    } else {
      var share := Share(reward, signers[0].1, whole);
      ShareBound(reward, signers[0].1, whole);
      var r1 := if share == 0 then r else PayOneSigner(r, signers[0].0, share);
      PayOneSignerBound(r, signers[0].0, share);
      var rest := PaySignersBound(r1, signers[1..], reward, whole);
      paid := share + rest;
      AddShares(share, rest, whole, reward, signers[0].1, SignerStake(signers[1..]));
    }
  }

  lemma AllSignersBound(r: Accumulators, signers: seq<(Address, nat)>, reward: nat)
    requires CommissionsSane(r) && DelegationsFit(r) && SignerStake(signers) > 0
    ensures Owed(PaySigners(r, signers, reward, SignerStake(signers))) <= Owed(r) + reward
  {
    var paid := PaySignersBound(r, signers, reward, SignerStake(signers));
    CancelMul(paid, reward, SignerStake(signers));
  }

  /** One block's distribution never credits more than the reward, whatever the justification, the
      stakes and the delegations are, as long as their sums fit in 64 bits. */
  lemma DistributeBound(r: Accumulators, proposer: Address, signers: seq<(Address, nat)>, reward: nat)
    requires CommissionsSane(r) && DelegationsFit(r) && SignerStake(signers) <= U64_MAX
    ensures Owed(Distribute(r, proposer, signers, reward)) <= Owed(r) + reward
  {
    if signers == [] || SignerStake(signers) == 0 {
      PaySingleBound(r, proposer, reward);
    } else {
      AllSignersBound(r, signers, reward);
    }
  }

  // ---- when the stake sum wraps ----

  /** Each signer is named once, with a 64-bit weight. */
  predicate Weighted(signers: seq<(Address, nat)>) {
    && (forall i :: 0 <= i < |signers| ==> signers[i].1 <= U64_MAX)
    && (forall i, j :: 0 <= i < j < |signers| ==> signers[i].0 != signers[j].0)
  }

  /** A registry in which every signer has its own stake and nothing else. */
  function OwnStakes(signers: seq<(Address, nat)>): Accumulators {
    var named := set i | 0 <= i < |signers| :: signers[i].0;
    Accumulators(map a | a in named :: Stake(0, 1, 0), [], map[], map[])
  }

  /** Such a signer is paid its share in full. */
  lemma OwnStakePaid(r: Accumulators, a: Address, share: u64)
    requires a in r.validators && r.validators[a] == Stake(0, 1, 0) && r.delegations == [] && Weight(r.pending, a) == 0
    ensures PayOneSigner(r, a, share) == r.(pending := r.pending[a := share])
  {
    assert Share(share, 0, BASIS_POINTS) == 0 && Share(share, 1, 1) == share;
    assert Accrue(Accrue(r.pending, a, 0), a, share) == r.pending[a := share];
    assert r.pending[a := 0][a := share] == r.pending[a := share];
    if share == 0 {
      assert Accrue(r.pending, a, 0) == r.pending[a := 0];
    }
  }

  lemma ShareOfWhole(whole: nat, part: u64)
    requires whole > 0
    ensures Share(whole, part, whole) == part
  {
    QuotientExact(part, whole);
  }

  lemma QuotientExact(x: nat, d: nat)
    requires d > 0
    ensures d * x / d == x
  {
    assert d * x == x * d + 0;
    DivMul(d * x, d);
    CancelMul(d * x / d, x, d);
    if d * x / d < x {
      MulStrict(x, d * x / d, d);
      RemainderSmall(d * x, d);
      StepUp(x, d * x / d, d);
    }
  }

  lemma RemainderSmall(x: nat, d: nat)
    requires d > 0
    ensures x < x / d * d + d
  {
  }

  lemma StepUp(x: nat, q: nat, d: nat)
    requires q < x
    ensures x * d >= q * d + d
  {
    assert x * d == q * d + d + (x - q - 1) * d;
  }

  /** When the reward is what the shares are weighed against, each signer is credited its own weight. */
  lemma {:induction false} PaysWeights(r: Accumulators, signers: seq<(Address, nat)>, whole: nat)
    requires whole > 0 && Weighted(signers) && r.delegations == []
    requires forall i :: 0 <= i < |signers| ==>
               signers[i].0 in r.validators && r.validators[signers[i].0] == Stake(0, 1, 0) && Weight(r.pending, signers[i].0) == 0
    ensures Owed(PaySigners(r, signers, whole, whole)) == Owed(r) + SignerStake(signers)
    decreases |signers|
  {
    if signers != [] {
      var (a, w) := signers[0];
      ShareOfWhole(whole, w);
      OwnStakePaid(r, a, w);
      TotalUpdate(r.pending, a, w);
      var r1 := if w == 0 then r else r.(pending := r.pending[a := w]);
      forall i | 0 <= i < |signers[1..]|
        ensures signers[1..][i].0 in r1.validators && r1.validators[signers[1..][i].0] == Stake(0, 1, 0)
        ensures Weight(r1.pending, signers[1..][i].0) == 0
      {
        assert signers[1..][i] == signers[i + 1];
      }
      PaysWeights(r1, signers[1..], whole);
    }
  }

  /** Whenever the stake sum wraps to something positive, some registry and reward are overpaid. */
  lemma WrappedSumOverpays(signers: seq<(Address, nat)>, proposer: Address) returns (r: Accumulators, reward: u64)
    requires Weighted(signers) && SignerStake(signers) > U64_MAX && Wrap(SignerStake(signers)) > 0
    ensures CommissionsSane(r) && DelegationsFit(r) && Owed(Distribute(r, proposer, signers, reward)) > Owed(r) + reward
  {
    r, reward := OwnStakes(signers), Wrap(SignerStake(signers));
    PaysWeights(r, signers, reward);
    assert reward <= U64_MAX < SignerStake(signers);
  }

  /** The payout stays within the reward, for every sane registry, proposer and reward. */
  ghost predicate NeverOverpays(signers: seq<(Address, nat)>) {
    forall r: Accumulators, proposer: Address, reward: u64 :: CommissionsSane(r) && DelegationsFit(r)
      ==> Owed(Distribute(r, proposer, signers, reward)) <= Owed(r) + reward
  }

  /** It does so exactly when the stake sum fits in 64 bits, or wraps to nothing. */
  lemma NeverOverpaysIff(signers: seq<(Address, nat)>)
    requires Weighted(signers)
    ensures NeverOverpays(signers) <==> SignerStake(signers) <= U64_MAX || Wrap(SignerStake(signers)) == 0
  {
    if SignerStake(signers) <= U64_MAX || Wrap(SignerStake(signers)) == 0 {
      forall r: Accumulators, proposer: Address, reward: u64 | CommissionsSane(r) && DelegationsFit(r)
        ensures Owed(Distribute(r, proposer, signers, reward)) <= Owed(r) + reward
      {
        if SignerStake(signers) <= U64_MAX {
          DistributeBound(r, proposer, signers, reward);
        } else {
          PaySingleBound(r, proposer, reward);
        }
      }
    } else {
      var proposer := Address("");
      var r, reward := WrappedSumOverpays(signers, proposer);
      assert Owed(Distribute(r, proposer, signers, reward)) > Owed(r) + reward;
    }
  }

  /** Weights that do this can pass the justification gate: their wrapped sum reaches the threshold of
      any active stake up to 2^63. */
  lemma WrappedSumPassesGate(a: Address, b: Address, total: u64) returns (signers: seq<(Address, nat)>)
    requires a != b && 0 < total <= U64_MAX / 2
    ensures Weighted(signers) && SignerStake(signers) > U64_MAX
    ensures Wrap(SignerStake(signers)) >= SupermajorityThreshold(total) && !NeverOverpays(signers)
  {
    var half: nat := (U64_MAX + 1) / 2;
    signers := [(a, half), (b, half + SupermajorityThreshold(total))];
    assert signers[1..] == [(b, half + SupermajorityThreshold(total))];
    assert SignerStake(signers) == half + SignerStake(signers[1..]) == U64_MAX + 1 + SupermajorityThreshold(total);
    NeverOverpaysIff(signers);
  }

  /** It may credit less: the shares of two equal signers in a reward of one are both rounded to
      nothing, so what is owed does not keep pace with what is minted. */
  lemma DistributionLeavesDust(r: Accumulators, a: Address, b: Address)
    ensures Distribute(r, a, [(a, 1), (b, 1)], 1) == r
  {
    var signers: seq<(Address, nat)> := [(a, 1), (b, 1)];
    assert signers[1..] == [(b, 1)] && signers[1..][1..] == [];
    assert SignerStake(signers) == 1 + SignerStake(signers[1..]) == 2;
    assert Wrap(SignerStake(signers)) == 2;
    assert Share(1, 1, 2) == 0;
    assert PaySigners(r, signers, 1, 2) == PaySigners(r, signers[1..], 1, 2) == PaySigners(r, [], 1, 2);
  }

  lemma PeekWithinOwed(r: Accumulators, a: Address)
    ensures Peek(r, a) <= Weight(r.delegatorRewards, a) + Weight(r.pending, a) <= Owed(r)
  {
    if a in r.pending {
      SumMember(r.pending.Keys, r.pending, a);
    }
    if a in r.delegatorRewards {
      SumMember(r.delegatorRewards.Keys, r.delegatorRewards, a);
    }
  }

  /** A claim takes off the books exactly what it pays, as long as what is owed fits in 64 bits. */
  lemma DrainOwed(r: Accumulators, a: Address)
    requires Owed(r) <= U64_MAX
    ensures Owed(Drain(r, a)) + Peek(r, a) == Owed(r)
  {
    PeekWithinOwed(r, a);
    TotalRemove(r.delegatorRewards, a);
    TotalUpdate(r.pending, a, 0);
  }
}
