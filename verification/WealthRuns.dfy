/** What an address has over whole runs: it changes by the flows of the blocks and by nothing else,
    and it never falls but by transactions the address signed. */
module WealthRuns {
  import opened Sums
  import opened BftTypes
  import opened Ledger
  import opened Rewards
  import opened ExecutorSpec
  import opened Conservation
  import opened Solvency
  import opened SolventRuns
  import opened Admission
  import opened AccountFlows
  import opened Wealth
  import Payouts
  import T = Tokenomics

  // ---- the dues fit in every sound state ----

  /** One address earns at most the reward. */
  lemma IncomeBounded(r: Accumulators, proposer: Address, signers: seq<(Address, nat)>, reward: nat, a: Address)
    requires StakesSane(r) && SignerStake(signers) <= U64_MAX && reward < U64_MAX
    ensures Payouts.PendingIncome(r, proposer, signers, reward, a) + Payouts.DelegationIncome(r, signers, reward, a) <= reward
  {
    var none := r.(pending := map[], delegatorRewards := map[]);
    var paid := Distribute(none, proposer, signers, reward);
    DistributeBound(none, proposer, signers, reward);
    Payouts.EveryonePaid(none, proposer, signers, reward, a);
    PeekWithinOwed(paid, a);
    if !Payouts.Unweighed(signers) {
      Payouts.IncomeByStakes(r, none, signers, reward, Wrap(SignerStake(signers)), a);
    }
  }

  lemma EarnedBounded(p: Params, c: Chain, b: Block, a: Address)
    requires StakesSane(c.rewards) && SignersFit(b) && WithinCap(p, c) && ForkIsEarly(p, c)
    requires b.index == Height(c.blocks) + 1 && b.coinbase.amount == Reward(p, c.blocks, c.minted)
    ensures Earned(p, c.rewards, b, c.minted + b.coinbase.amount, a) <= b.coinbase.amount
  {
    var reward := T.BlockReward(p.tokenomicsV2, b.index, c.minted + b.coinbase.amount);
    NextRewardFits(p, c, b);
    if Distributes(p, b) {
      IncomeBounded(c.rewards, b.validator, b.signers.value, reward, a);
    }
  }

  /** What is owed fits, because the treasury holds it. */
  lemma SoundDuesFit(p: Params, c: Chain, b: Block, env: Env, a: Address)
    requires AddBlock(p, c, b, env).1.Pass? && Sound(p, c) && SignersFit(b) && ForkIsEarly(p, c)
    requires T.Active(p.rewardV2, Height(c.blocks))
    ensures DuesFit(p, c, b, AddBlock(p, c, b, env).0.minted, a)
  {
    AcceptedPasses(p, c, b, env);
    AcceptedHeight(p, c, b, env);
    AcceptedMoney(p, c, b, env);
    EarnedBounded(p, c, b, a);
    PeekWithinOwed(c.rewards, a);
    assert Mint(p, OpenBlock(p, c, b), b).1.Pass?;
    TreasuryHolds(p, c, b);
  }

  lemma TreasuryHolds(p: Params, c: Chain, b: Block)
    requires Mint(p, OpenBlock(p, c, b), b).1.Pass? && T.Active(p.rewardV2, b.index)
    ensures Balance(c.ledger, TREASURY) + b.coinbase.amount <= U64_MAX
  {
  }

  // ---- runs ----

  function SpentIn(bs: seq<Block>, n: nat, a: Address): nat
    requires n <= |bs|
  {
    if n == 0 then 0 else SpentIn(bs, n - 1, a) + Spent(bs[n - 1].txs, |bs[n - 1].txs|, a)
  }

  function GainedIn(p: Params, cs: seq<Chain>, bs: seq<Block>, n: nat, a: Address): nat
    requires n <= |bs| == |cs| - 1
  {
    if n == 0 then 0 else GainedIn(p, cs, bs, n - 1, a) + Gained(p, cs[n - 1], bs[n - 1], cs[n].minted, a)
  }

  function ForgottenIn(p: Params, cs: seq<Chain>, bs: seq<Block>, n: nat, a: Address): nat
    requires n <= |bs| == |cs| - 1
  {
    if n == 0 then 0 else ForgottenIn(p, cs, bs, n - 1, a) + Forgotten(p, cs[n - 1], bs[n - 1], a)
  }

  ghost predicate DuesFitAt(p: Params, cs: seq<Chain>, bs: seq<Block>, a: Address, i: nat)
    requires i < |bs| == |cs| - 1
  {
    DuesFit(p, cs[i], bs[i], cs[i + 1].minted, a)
  }

  ghost predicate WealthAt(p: Params, cs: seq<Chain>, bs: seq<Block>, a: Address, i: nat)
    requires i < |bs| == |cs| - 1
  {
    WealthStep(p, cs[i], bs[i], cs[i + 1], a)
  }

  lemma {:induction false} WealthAlong(p: Params, cs: seq<Chain>, bs: seq<Block>, n: nat, a: Address)
    requires n <= |bs| == |cs| - 1 && forall i :: 0 <= i < |bs| ==> WealthAt(p, cs, bs, a, i)
    ensures WealthOf(cs[n], a) + SpentIn(bs, n, a) + ForgottenIn(p, cs, bs, n, a)
            == WealthOf(cs[0], a) + GainedIn(p, cs, bs, n, a)
  {
    if n > 0 {
      WealthAlong(p, cs, bs, n - 1, a);
      assert WealthAt(p, cs, bs, a, n - 1);
    }
  }

  /** Over every run, what an address has, counting what it is owed, changes by exactly what it spent,
      what it gained, and what the reward fork made the node forget. */
  lemma RunWealth(p: Params, cs: seq<Chain>, bs: seq<Block>, es: seq<Env>, n: nat, a: Address)
    requires IsRun(p, cs, bs, es) && n <= |bs| && a != TREASURY
    requires forall i :: 0 <= i < |bs| ==> DuesFitAt(p, cs, bs, a, i)
    ensures WealthOf(cs[n], a) + SpentIn(bs, n, a) + ForgottenIn(p, cs, bs, n, a)
            == WealthOf(cs[0], a) + GainedIn(p, cs, bs, n, a)
  {
    forall i | 0 <= i < |bs|
      ensures WealthAt(p, cs, bs, a, i)
    {
      assert AcceptedAt(p, cs, bs, es, i) && DuesFitAt(p, cs, bs, a, i);
      BlockWealth(p, cs[i], bs[i], es[i], a);
    }
    WealthAlong(p, cs, bs, n, a);
  }

  // ---- sound runs behind the reward fork ----

  lemma {:induction false} StaysActive(p: Params, cs: seq<Chain>, bs: seq<Block>, es: seq<Env>, n: nat)
    requires IsRun(p, cs, bs, es) && n <= |bs| && T.Active(p.rewardV2, Height(cs[0].blocks))
    ensures T.Active(p.rewardV2, Height(cs[n].blocks))
    ensures n < |bs| ==> bs[n].index == Height(cs[n].blocks) + 1
  {
    if n > 0 {
      StaysActive(p, cs, bs, es, n - 1);
      HeightAt(p, cs, bs, es, n - 1);
    }
    if n < |bs| {
      HeightAt(p, cs, bs, es, n);
    }
  }

  lemma HeightAt(p: Params, cs: seq<Chain>, bs: seq<Block>, es: seq<Env>, i: nat)
    requires IsRun(p, cs, bs, es) && i < |bs|
    ensures bs[i].index == Height(cs[i].blocks) + 1 == Height(cs[i + 1].blocks)
  {
    assert AcceptedAt(p, cs, bs, es, i);
    AcceptedHeight(p, cs[i], bs[i], es[i]);
  }

  lemma SoundRunFits(p: Params, cs: seq<Chain>, bs: seq<Block>, es: seq<Env>, i: nat, a: Address)
    requires LawfulRun(p, cs, bs, es) && Sound(p, cs[0]) && T.Active(p.rewardV2, Height(cs[0].blocks)) && i < |bs|
    ensures DuesFitAt(p, cs, bs, a, i) && Forgotten(p, cs[i], bs[i], a) == 0
  {
    RunSolvent(p, cs, bs, es, i);
    StaysActive(p, cs, bs, es, i);
    assert AcceptedAt(p, cs, bs, es, i);
    SoundDuesFit(p, cs[i], bs[i], es[i], a);
  }

  lemma {:induction false} NothingForgotten(p: Params, cs: seq<Chain>, bs: seq<Block>, n: nat, a: Address)
    requires n <= |bs| == |cs| - 1 && forall i :: 0 <= i < |bs| ==> Forgotten(p, cs[i], bs[i], a) == 0
    ensures ForgottenIn(p, cs, bs, n, a) == 0
  {
    if n > 0 {
      NothingForgotten(p, cs, bs, n - 1, a);
    }
  }

  /** Behind the reward fork, from a sound state: the account is exact in every lawful run, with no
      further condition on what is owed. */
  lemma SoundRunWealth(p: Params, cs: seq<Chain>, bs: seq<Block>, es: seq<Env>, n: nat, a: Address)
    requires LawfulRun(p, cs, bs, es) && Sound(p, cs[0]) && T.Active(p.rewardV2, Height(cs[0].blocks))
    requires n <= |bs| && a != TREASURY
    ensures WealthOf(cs[n], a) + SpentIn(bs, n, a) == WealthOf(cs[0], a) + GainedIn(p, cs, bs, n, a)
  {
    forall i | 0 <= i < |bs|
      ensures DuesFitAt(p, cs, bs, a, i) && Forgotten(p, cs[i], bs[i], a) == 0
    {
      SoundRunFits(p, cs, bs, es, i, a);
    }
    RunWealth(p, cs, bs, es, n, a);
    NothingForgotten(p, cs, bs, n, a);
  }

  /** `a` signed something for this chain in the first `n` blocks. */
  predicate SignedIn(bs: seq<Block>, chainId: nat, n: nat, a: Address)
    requires n <= |bs|
  {
    exists i :: 0 <= i < n && SignedInBlock(bs[i], chainId, a)
  }

  predicate SignedInBlock(b: Block, chainId: nat, a: Address) {
    exists k :: 0 <= k < |b.txs| && b.txs[k].from == a && b.txs[k].signed && b.txs[k].chainId == chainId
  }

  lemma {:induction false} SpendsNothing(l: Ledger, txs: seq<Tx>, chainId: nat, k: nat, a: Address)
    requires k <= |txs| && AdmittedUpTo(l, txs, chainId, |txs|)
    requires forall i :: 0 <= i < |txs| ==> !(txs[i].from == a && txs[i].signed && txs[i].chainId == chainId)
    ensures Spent(txs, k, a) == 0
  {
    if k > 0 {
      SpendsNothing(l, txs, chainId, k - 1, a);
      assert Admitted(l, txs, chainId, k - 1);
    }
  }

  lemma {:induction false} UnsignedSpendsNothing(p: Params, cs: seq<Chain>, bs: seq<Block>, es: seq<Env>, n: nat, a: Address)
    requires IsRun(p, cs, bs, es) && n <= |bs| && !SignedIn(bs, p.chainId, n, a)
    ensures SpentIn(bs, n, a) == 0
  {
    if n > 0 {
      UnsignedSpendsNothing(p, cs, bs, es, n - 1, a);
      RunAdmitted(p, cs, bs, es, n - 1);
      assert !SignedInBlock(bs[n - 1], p.chainId, a);
      SpendsNothing(cs[n - 1].ledger, bs[n - 1].txs, p.chainId, |bs[n - 1].txs|, a);
    }
  }

  /** No address loses anything, of what it has or of what it is owed, in a run in which it signs
      nothing for this chain. */
  lemma NothingLeavesUnsigned(p: Params, cs: seq<Chain>, bs: seq<Block>, es: seq<Env>, n: nat, a: Address)
    requires LawfulRun(p, cs, bs, es) && Sound(p, cs[0]) && T.Active(p.rewardV2, Height(cs[0].blocks))
    requires n <= |bs| && a != TREASURY && !SignedIn(bs, p.chainId, n, a)
    ensures WealthOf(cs[0], a) <= WealthOf(cs[n], a)
  {
    SoundRunWealth(p, cs, bs, es, n, a);
    UnsignedSpendsNothing(p, cs, bs, es, n, a);
  }
}
