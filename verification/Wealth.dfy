/** What an address has, counting what it is owed: how one accepted block changes it, and every run. */
module Wealth {
  import opened Sums
  import opened BftTypes
  import opened Ledger
  import opened Rewards
  import opened ExecutorSpec
  import opened Conservation
  import opened Solvency
  import opened SolventRuns
  import opened Admission
  import opened AccountFlows
  import Payouts
  import T = Tokenomics

  // ---- what a block earns ----

  /** The bookkeeping runs, and there is a justification to weigh. */
  predicate Distributes(p: Params, b: Block) {
    T.Active(p.applyPath, b.index) && b.signers.Some?
  }

  /** What `a` earns as a validator; `minted` is the mint after the block. */
  function PendingEarned(p: Params, r: Accumulators, b: Block, minted: nat, a: Address): nat {
    if Distributes(p, b)
    then Payouts.PendingIncome(r, b.validator, b.signers.value, T.BlockReward(p.tokenomicsV2, b.index, minted), a)
    else 0
  }

  /** What `a` earns as a delegator. */
  function DelegationEarned(p: Params, r: Accumulators, b: Block, minted: nat, a: Address): nat {
    if Distributes(p, b)
    then Payouts.DelegationIncome(r, b.signers.value, T.BlockReward(p.tokenomicsV2, b.index, minted), a)
    else 0
  }

  function Earned(p: Params, r: Accumulators, b: Block, minted: nat, a: Address): nat {
    PendingEarned(p, r, b, minted, a) + DelegationEarned(p, r, b, minted, a)
  }

  lemma EarnedByStakes(p: Params, r: Accumulators, r': Accumulators, b: Block, minted: nat, a: Address)
    requires Payouts.SameStakes(r, r')
    ensures PendingEarned(p, r, b, minted, a) == PendingEarned(p, r', b, minted, a)
    ensures DelegationEarned(p, r, b, minted, a) == DelegationEarned(p, r', b, minted, a)
  {
    if Distributes(p, b) && !Payouts.Unweighed(b.signers.value) {
      var signers := b.signers.value;
      Payouts.IncomeByStakes(r, r', signers, T.BlockReward(p.tokenomicsV2, b.index, minted), Wrap(SignerStake(signers)), a);
    }
  }

  lemma CommitPays(p: Params, c: Chain, b: Block, env: Env, a: Address)
    requires Commit(p, c, b, env).1.Pass? && Payouts.Fits(c.rewards, a)
    ensures var c' := Commit(p, c, b, env).0;
            Payouts.PaidTo(c.rewards, c'.rewards, a, PendingEarned(p, c.rewards, b, c'.minted, a),
                           DelegationEarned(p, c.rewards, b, c'.minted, a))
  {
    AppendHeight(c, b);
    if Distributes(p, b) {
      Payouts.EveryonePaid(c.rewards, b.validator, b.signers.value, T.BlockReward(p.tokenomicsV2, b.index, c.minted), a);
    }
  }

  // ---- one block ----

  /** The accumulators of `a` are emptied by a claim, or forgotten at the reward fork. */
  ghost predicate Emptied(p: Params, b: Block, a: Address) {
    Activates(p.rewardV2, b.index) || (T.Active(p.rewardV2, b.index) && Claims(b.txs, |b.txs|, a))
  }

  /** The accumulators of `a` after a block: what was there, unless it was emptied, and what the block
      earns. */
  ghost predicate Accrues(p: Params, c: Chain, b: Block, c': Chain, a: Address) {
    var kept := !Emptied(p, b, a);
    && Weight(c'.rewards.pending, a)
       == Payouts.Capped((if kept then Weight(c.rewards.pending, a) else 0) + PendingEarned(p, c.rewards, b, c'.minted, a))
    && Weight(c'.rewards.delegatorRewards, a)
       == Payouts.Capped((if kept then Weight(c.rewards.delegatorRewards, a) else 0)
                         + DelegationEarned(p, c.rewards, b, c'.minted, a))
  }

  lemma LeftFits(p: Params, c: Chain, b: Block, r: Accumulators, a: Address)
    requires Payouts.Fits(c.rewards, a) && Left(T.Active(p.rewardV2, b.index), Carried(p, c, b), b.txs, |b.txs|, r, a)
    ensures Payouts.Fits(r, a)
    ensures Weight(r.pending, a) == (if Emptied(p, b, a) then 0 else Weight(c.rewards.pending, a))
    ensures Weight(r.delegatorRewards, a) == (if Emptied(p, b, a) then 0 else Weight(c.rewards.delegatorRewards, a))
  {
  }

  lemma PaidAccrues(p: Params, c: Chain, b: Block, r: Accumulators, c': Chain, a: Address)
    requires Payouts.Fits(c.rewards, a) && Left(T.Active(p.rewardV2, b.index), Carried(p, c, b), b.txs, |b.txs|, r, a)
    requires Payouts.SameStakes(c.rewards, r)
    requires Payouts.PaidTo(r, c'.rewards, a, PendingEarned(p, r, b, c'.minted, a), DelegationEarned(p, r, b, c'.minted, a))
    ensures Accrues(p, c, b, c', a)
  {
    LeftFits(p, c, b, r, a);
    EarnedByStakes(p, c.rewards, r, b, c'.minted, a);
  }

  /** An accepted block, address by address: balance, nonce and accumulators. */
  lemma BlockExact(p: Params, c: Chain, b: Block, env: Env, a: Address)
    requires AddBlock(p, c, b, env).1.Pass? && Payouts.Fits(c.rewards, a)
    ensures var c' := AddBlock(p, c, b, env).0;
            Flows(p, c.ledger, Carried(p, c, b), b, c'.ledger, a) && Accrues(p, c, b, c', a)
  {
    AcceptedPasses(p, c, b, env);
    var c1, c' := Execute(p, c, b).0, AddBlock(p, c, b, env).0;
    ExecuteExact(p, c, b, a);
    LeftFits(p, c, b, c1.rewards, a);
    CommitPays(p, c1, b, env, a);
    ExecuteKeepsStakes(p, c, b);
    PaidAccrues(p, c, b, c1.rewards, c', a);
    CommitKeepsMoney(p, c1, b, env);
    FlowsByAccounts(p, c, b, c1.ledger, c'.ledger, a);
  }

  lemma FlowsByAccounts(p: Params, c: Chain, b: Block, l: Ledger, l': Ledger, a: Address)
    requires Flows(p, c.ledger, Carried(p, c, b), b, l, a) && l'.accounts == l.accounts
    ensures Flows(p, c.ledger, Carried(p, c, b), b, l', a)
  {
  }

  /** What an address has, counting what it is owed. */
  function WealthOf(c: Chain, a: Address): nat {
    Balance(c.ledger, a) + OwedTo(c.rewards, a)
  }

  /** What `a` gains by a block: transfers to it, coinbase and fees, and what it earns. */
  function Gained(p: Params, c: Chain, b: Block, minted: nat, a: Address): nat {
    Received(b.txs, |b.txs|, a) + Granted(p, b, a) + Earned(p, c.rewards, b, minted, a)
  }

  function Forgotten(p: Params, c: Chain, b: Block, a: Address): nat {
    if Activates(p.rewardV2, b.index) then OwedTo(c.rewards, a) else 0
  }

  /** What `a` is owed, and what it is about to earn, fits in 64 bits. */
  predicate DuesFit(p: Params, c: Chain, b: Block, minted: nat, a: Address) {
    OwedTo(c.rewards, a) + Earned(p, c.rewards, b, minted, a) <= U64_MAX
  }

  ghost predicate WealthStep(p: Params, c: Chain, b: Block, c': Chain, a: Address) {
    WealthOf(c', a) + Spent(b.txs, |b.txs|, a) + Forgotten(p, c, b, a) == WealthOf(c, a) + Gained(p, c, b, c'.minted, a)
  }

  lemma FlowsAndAccruesAddUp(p: Params, c: Chain, b: Block, c': Chain, a: Address)
    requires Flows(p, c.ledger, Carried(p, c, b), b, c'.ledger, a) && Accrues(p, c, b, c', a)
    requires a != TREASURY && DuesFit(p, c, b, c'.minted, a)
    ensures WealthStep(p, c, b, c', a)
  {
  }

  /** Claims do not change what an address has, counting what it is owed; only transfers, the coinbase,
      fees and earnings do. */
  lemma BlockWealth(p: Params, c: Chain, b: Block, env: Env, a: Address)
    requires AddBlock(p, c, b, env).1.Pass? && a != TREASURY
    requires DuesFit(p, c, b, AddBlock(p, c, b, env).0.minted, a)
    ensures WealthStep(p, c, b, AddBlock(p, c, b, env).0, a)
  {
    BlockExact(p, c, b, env, a);
    FlowsAndAccruesAddUp(p, c, b, AddBlock(p, c, b, env).0, a);
  }
}
