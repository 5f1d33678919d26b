/** Who is credited when a block's reward is distributed: the income of every single address. */
module Payouts {
  import opened Sums
  import opened BftTypes
  import opened Rewards

  /** Accumulators stop at the top of 64 bits. */
  function Capped(n: nat): nat {
    if n <= U64_MAX then n else U64_MAX
  }

  // ---- one validator's share of the reward ----

  /** The validator's commission on its share. */
  function Commission(s: Stake, share: nat): nat {
    Share(share, s.commissionRate, BASIS_POINTS)
  }

  /** What is left of the share for those who staked. */
  function StakersPart(s: Stake, share: nat): nat {
    if Commission(s, share) <= share then share - Commission(s, share) else 0
  }

  /** The validator's own stake is paid pro rata. */
  function OwnPart(s: Stake, share: nat): nat {
    if TotalStake(s) == 0 then 0 else Share(StakersPart(s, share), s.selfStake, TotalStake(s))
  }

  /** What is left for its delegators. */
  function DelegatorsPart(s: Stake, share: nat): nat {
    if TotalStake(s) > 0 && OwnPart(s, share) <= StakersPart(s, share)
    then StakersPart(s, share) - OwnPart(s, share) else 0
  }

  /** What `a` gets of a pool for the delegators of `v`, over all its delegations to `v`. */
  function FromPool(ds: seq<Delegation>, v: Address, pool: nat, whole: nat, a: Address): nat
    requires whole > 0
  {
    if ds == [] then 0
    else (if ds[0].validator == v && ds[0].delegator == a then Share(pool, ds[0].amount, whole) else 0)
         + FromPool(ds[1..], v, pool, whole, a)
  }

  function FromValidator(r: Accumulators, v: Address, share: nat, a: Address): nat {
    var whole := Wrap(DelegatedTo(r.delegations, v));
    if v !in r.validators || whole == 0 then 0
    else FromPool(r.delegations, v, DelegatorsPart(r.validators[v], share), whole, a)
  }

  function AsValidator(r: Accumulators, v: Address, share: nat, a: Address): nat {
    if v != a || v !in r.validators then 0 else Commission(r.validators[v], share) + OwnPart(r.validators[v], share)
  }

  // ---- one block's reward ----

  /** The validator income of `a`: over all signers, each with its share by weight. */
  function ValidatorIncome(r: Accumulators, signers: seq<(Address, nat)>, reward: nat, whole: nat, a: Address): nat
    requires whole > 0
  {
    if signers == [] then 0
    else AsValidator(r, signers[0].0, Share(reward, signers[0].1, whole), a)
         + ValidatorIncome(r, signers[1..], reward, whole, a)
  }

  /** The delegator income of `a`: over all signers it delegated to. */
  function DelegatorIncome(r: Accumulators, signers: seq<(Address, nat)>, reward: nat, whole: nat, a: Address): nat
    requires whole > 0
  {
    if signers == [] then 0
    else FromValidator(r, signers[0].0, Share(reward, signers[0].1, whole), a)
         + DelegatorIncome(r, signers[1..], reward, whole, a)
  }

  /** There is nothing to weigh: the proposer stands in for the signers. */
  predicate Unweighed(signers: seq<(Address, nat)>) {
    signers == [] || Wrap(SignerStake(signers)) == 0
  }

  /** Without weights, the proposer gets its own part of the whole reward. */
  function PendingIncome(r: Accumulators, proposer: Address, signers: seq<(Address, nat)>, reward: nat, a: Address): nat {
    if Unweighed(signers) then AsValidator(r, proposer, reward, a)
    else ValidatorIncome(r, signers, reward, Wrap(SignerStake(signers)), a)
  }

  /** Without weights, delegators get nothing. */
  function DelegationIncome(r: Accumulators, signers: seq<(Address, nat)>, reward: nat, a: Address): nat {
    if Unweighed(signers) then 0 else DelegatorIncome(r, signers, reward, Wrap(SignerStake(signers)), a)
  }

  // ---- proof ----

  lemma AccrueAt(m: map<Address, nat>, a: Address, x: nat, b: Address)
    ensures Weight(Accrue(m, a, x), b) == if a == b then Capped(Weight(m, a) + x) else Weight(m, b)
  {
  }

  lemma CappedTwice(x: nat, y: nat, z: nat)
    ensures Capped(Capped(x + y) + z) == Capped(x + (y + z))
  {
  }

  lemma ShareOfNothing(part: nat, whole: nat)
    requires whole > 0
    ensures Share(0, part, whole) == 0
  {
  }

  lemma {:induction false} PoolPaid(m: map<Address, nat>, pool: nat, whole: nat, ds: seq<Delegation>, v: Address, a: Address)
    requires whole > 0 && Weight(m, a) <= U64_MAX
    ensures Weight(PayDelegators(m, pool, whole, ds, v), a) == Capped(Weight(m, a) + FromPool(ds, v, pool, whole, a))
    decreases |ds|
  {
    if ds != [] {
      var share := if ds[0].validator == v then Share(pool, ds[0].amount, whole) else 0;
      var m1 := if share == 0 then m else Accrue(m, ds[0].delegator, share);
      AccrueAt(m, ds[0].delegator, share, a);
      PoolPaid(m1, pool, whole, ds[1..], v, a);
      CappedTwice(Weight(m, a), share, FromPool(ds[1..], v, pool, whole, a));
    }
  }

  lemma {:induction false} EmptyPool(ds: seq<Delegation>, v: Address, whole: nat, a: Address)
    requires whole > 0
    ensures FromPool(ds, v, 0, whole, a) == 0
  {
    if ds != [] {
      EmptyPool(ds[1..], v, whole, a);
      ShareOfNothing(ds[0].amount, whole);
    }
  }

  ghost predicate Fits(r: Accumulators, a: Address) {
    Weight(r.pending, a) <= U64_MAX && Weight(r.delegatorRewards, a) <= U64_MAX
  }

  /** The accumulators of `a` after it was paid `x` as a validator and `y` as a delegator. */
  ghost predicate PaidTo(r: Accumulators, r': Accumulators, a: Address, x: nat, y: nat) {
    && Weight(r'.pending, a) == Capped(Weight(r.pending, a) + x)
    && Weight(r'.delegatorRewards, a) == Capped(Weight(r.delegatorRewards, a) + y)
  }

  lemma PaidCompose(r: Accumulators, r1: Accumulators, r2: Accumulators, a: Address, x: nat, y: nat, x': nat, y': nat)
    requires Fits(r, a) && PaidTo(r, r1, a, x, y) && PaidTo(r1, r2, a, x', y')
    ensures PaidTo(r, r2, a, x + x', y + y')
  {
    CappedTwice(Weight(r.pending, a), x, x');
    CappedTwice(Weight(r.delegatorRewards, a), y, y');
  }

  lemma CommissionPaid(r: Accumulators, v: Address, s: Stake, share: nat, a: Address)
    requires Fits(r, a)
    ensures var (r1, pool) := TakeCommission(r, v, s.commissionRate, share);
            pool == StakersPart(s, share) && PaidTo(r, r1, a, if a == v then Commission(s, share) else 0, 0)
  {
    AccrueAt(r.pending, v, Commission(s, share), a);
  }

  lemma OwnStakePaid(r: Accumulators, v: Address, s: Stake, share: nat, a: Address)
    requires Fits(r, a) && TotalStake(s) > 0
    ensures var (r1, rest) := PayOwnStake(r, v, s, StakersPart(s, share));
            rest == DelegatorsPart(s, share) && PaidTo(r, r1, a, if a == v then OwnPart(s, share) else 0, 0)
  {
    AccrueAt(r.pending, v, OwnPart(s, share), a);
  }

  lemma PoolOf(r: Accumulators, v: Address, share: nat, a: Address)
    requires Fits(r, a) && v in r.validators && TotalStake(r.validators[v]) > 0
    ensures var s := r.validators[v];
            PaidTo(r, PayPool(r, v, s, StakersPart(s, share)), a, if a == v then OwnPart(s, share) else 0,
                   FromValidator(r, v, share, a))
  {
    var s, whole := r.validators[v], Wrap(DelegatedTo(r.delegations, v));
    OwnStakePaid(r, v, s, share, a);
    var (r1, rest) := PayOwnStake(r, v, s, StakersPart(s, share));
    if whole > 0 {
      PoolPaid(r1.delegatorRewards, rest, whole, r.delegations, v, a);
      EmptyPool(r.delegations, v, whole, a);
    }
  }

  lemma NothingStaked(r: Accumulators, v: Address, share: nat, a: Address)
    requires v in r.validators && (TotalStake(r.validators[v]) == 0 || StakersPart(r.validators[v], share) == 0)
    ensures OwnPart(r.validators[v], share) == 0 && FromValidator(r, v, share, a) == 0
  {
    var s, whole := r.validators[v], Wrap(DelegatedTo(r.delegations, v));
    if TotalStake(s) > 0 {
      ShareOfNothing(s.selfStake, TotalStake(s));
    }
    if whole > 0 {
      EmptyPool(r.delegations, v, whole, a);
    }
  }

  lemma SignerPaid(r: Accumulators, v: Address, share: nat, a: Address)
    requires Fits(r, a)
    ensures PaidTo(r, PayOneSigner(r, v, share), a, AsValidator(r, v, share, a), FromValidator(r, v, share, a))
  {
    if v in r.validators {
      var s := r.validators[v];
      var (r1, pool) := TakeCommission(r, v, s.commissionRate, share);
      CommissionPaid(r, v, s, share, a);
      if TotalStake(s) == 0 || pool == 0 {
        NothingStaked(r, v, share, a);
      } else {
        PoolOf(r1, v, share, a);
        PaidCompose(r, r1, PayPool(r1, v, s, pool), a, if a == v then Commission(s, share) else 0, 0,
                    if a == v then OwnPart(s, share) else 0, FromValidator(r, v, share, a));
      }
    }
  }

  ghost predicate SameStakes(r: Accumulators, r': Accumulators) {
    r'.validators == r.validators && r'.delegations == r.delegations
  }

  lemma NoShareNoIncome(r: Accumulators, v: Address, a: Address)
    ensures AsValidator(r, v, 0, a) == 0 && FromValidator(r, v, 0, a) == 0
  {
    if v in r.validators {
      ShareOfNothing(r.validators[v].commissionRate, BASIS_POINTS);
      NothingStaked(r, v, 0, a);
    }
  }

  /** The loop skips a signer without a share. */
  lemma ShareStep(r: Accumulators, v: Address, share: nat, a: Address)
    requires Fits(r, a)
    ensures var r1 := if share == 0 then r else PayOneSigner(r, v, share);
            && PaidTo(r, r1, a, AsValidator(r, v, share, a), FromValidator(r, v, share, a))
            && SameStakes(r, r1) && Fits(r1, a)
  {
    SignerPaid(r, v, share, a);
    if share == 0 {
      NoShareNoIncome(r, v, a);
    }
  }

  lemma {:induction false} IncomeByStakes(r: Accumulators, r': Accumulators, signers: seq<(Address, nat)>, reward: nat, whole: nat, a: Address)
    requires SameStakes(r, r') && whole > 0
    ensures ValidatorIncome(r, signers, reward, whole, a) == ValidatorIncome(r', signers, reward, whole, a)
    ensures DelegatorIncome(r, signers, reward, whole, a) == DelegatorIncome(r', signers, reward, whole, a)
  {
    if signers != [] {
      IncomeByStakes(r, r', signers[1..], reward, whole, a);
    }
  }

  lemma FirstThenRest(r: Accumulators, r1: Accumulators, r2: Accumulators, signers: seq<(Address, nat)>, reward: nat, whole: nat, a: Address)
    requires whole > 0 && signers != [] && Fits(r, a) && SameStakes(r, r1)
    requires var v, share := signers[0].0, Share(reward, signers[0].1, whole);
             PaidTo(r, r1, a, AsValidator(r, v, share, a), FromValidator(r, v, share, a))
    requires PaidTo(r1, r2, a, ValidatorIncome(r1, signers[1..], reward, whole, a),
                    DelegatorIncome(r1, signers[1..], reward, whole, a))
    ensures PaidTo(r, r2, a, ValidatorIncome(r, signers, reward, whole, a), DelegatorIncome(r, signers, reward, whole, a))
  {
    var v, share, rest := signers[0].0, Share(reward, signers[0].1, whole), signers[1..];
    IncomeByStakes(r, r1, rest, reward, whole, a);
    PaidCompose(r, r1, r2, a, AsValidator(r, v, share, a), FromValidator(r, v, share, a),
                ValidatorIncome(r, rest, reward, whole, a), DelegatorIncome(r, rest, reward, whole, a));
  }

  lemma {:induction false} SignersPaid(r: Accumulators, signers: seq<(Address, nat)>, reward: nat, whole: nat, a: Address)
    requires whole > 0 && Fits(r, a)
    ensures PaidTo(r, PaySigners(r, signers, reward, whole), a, ValidatorIncome(r, signers, reward, whole, a),
                   DelegatorIncome(r, signers, reward, whole, a))
    decreases |signers|
  {
    if signers != [] {
      var v, share := signers[0].0, Share(reward, signers[0].1, whole);
      var r1 := if share == 0 then r else PayOneSigner(r, v, share);
      ShareStep(r, v, share, a);
      SignersPaid(r1, signers[1..], reward, whole, a);
      FirstThenRest(r, r1, PaySigners(r1, signers[1..], reward, whole), signers, reward, whole, a);
    }
  }

  lemma ProposerPaid(r: Accumulators, v: Address, reward: nat, a: Address)
    requires Fits(r, a)
    ensures PaidTo(r, PaySingle(r, v, reward), a, AsValidator(r, v, reward, a), 0)
  {
    if v in r.validators {
      var s := r.validators[v];
      var (r1, pool) := TakeCommission(r, v, s.commissionRate, reward);
      CommissionPaid(r, v, s, reward, a);
      if TotalStake(s) == 0 || pool == 0 {
        NothingStaked(r, v, reward, a);
      } else {
        OwnStakePaid(r1, v, s, reward, a);
        PaidCompose(r, r1, PayOwnStake(r1, v, s, pool).0, a, if a == v then Commission(s, reward) else 0, 0,
                    if a == v then OwnPart(s, reward) else 0, 0);
      }
    }
  }

  /** Everyone is paid their income and nothing else: each signing validator its commission and the
      part of its own stake, each delegator its part of the pools it delegated to, and without
      weights the proposer alone. */
  lemma EveryonePaid(r: Accumulators, proposer: Address, signers: seq<(Address, nat)>, reward: nat, a: Address)
    requires Fits(r, a)
    ensures PaidTo(r, Distribute(r, proposer, signers, reward), a, PendingIncome(r, proposer, signers, reward, a),
                   DelegationIncome(r, signers, reward, a))
  {
    if Unweighed(signers) {
      ProposerPaid(r, proposer, reward, a);
    } else {
      SignersPaid(r, signers, reward, Wrap(SignerStake(signers)), a);
    }
  }
}
