/** The treasury over whole runs: what is owed never exceeds what is held, so no block that Pass 1
    accepts is refused by Pass 2 for lack of funds. */
module SolventRuns {
  import opened Sums
  import opened BftTypes
  import opened Ledger
  import opened Rewards
  import RewardDust
  import opened ExecutorSpec
  import opened Conservation
  import opened Solvency
  import T = Tokenomics

  /** Once rewards go through the treasury, it covers them. */
  ghost predicate TreasuryCovers(p: Params, c: Chain) {
    T.Active(p.rewardV2, Height(c.blocks)) ==> Solvent(c.ledger, c.rewards, 0)
  }

  /** The emission fork, if it is the next height, comes in the first era and before the old cap
      bites. */
  predicate ForkIsEarly(p: Params, c: Chain) {
    p.tokenomicsV2 != U64_MAX && p.tokenomicsV2 == Height(c.blocks) + 1 ==>
      Height(c.blocks) < T.HALVING_INTERVAL && c.minted + T.BLOCK_REWARD <= T.MAX_SUPPLY
  }

  /** What the stake registry sees to: commissions of at most 100 percent, delegations within 64 bits. */
  ghost predicate StakesSane(r: Accumulators) {
    CommissionsSane(r) && DelegationsFit(r)
  }

  /** The weights of the block's justification add up within 64 bits. */
  predicate SignersFit(b: Block) {
    b.signers.Some? ==> SignerStake(b.signers.value) <= U64_MAX
  }

  // ---- Execute ----

  lemma ResetOwesNothing(r: Accumulators)
    ensures Owed(ResetRewards(r)) == 0
  {
    var zeros := ResetRewards(r).pending;
    var none: map<Address, nat> := map[];
    SumAgree(zeros.Keys, zeros, none);
    SumOutside(zeros.Keys, none);
  }

  /** After the coinbase, the treasury is ahead by the amount minted. */
  lemma MintAhead(p: Params, c: Chain, b: Block)
    requires TreasuryCovers(p, c) && b.index == Height(c.blocks) + 1
    requires Mint(p, OpenBlock(p, c, b), b).1.Pass? && T.Active(p.rewardV2, b.index)
    ensures var c1 := Mint(p, OpenBlock(p, c, b), b).0; Solvent(c1.ledger, c1.rewards, b.coinbase.amount)
  {
    if Activates(p.rewardV2, b.index) {
      ResetOwesNothing(c.rewards);
    }
  }

  lemma PayFeesKeepsTreasury(c: Chain, b: Block, fees: u64)
    ensures var (c', o) := PayFees(c, b, fees);
            !Short(o) && c'.rewards == c.rewards && Balance(c.ledger, TREASURY) <= Balance(c'.ledger, TREASURY)
  {
  }

  /** No transfer and no claim of a block that passed Pass 1 fails for lack of funds, and the
      treasury ends ahead by the coinbase. */
  lemma ExecuteNeverShort(p: Params, c: Chain, b: Block, now: nat)
    requires Pass1(p, c, b, now).Pass? && TreasuryUnsigned(b.txs) && TreasuryCovers(p, c)
    ensures !Short(Execute(p, c, b).1)
    ensures var (c', o) := Execute(p, c, b);
            o.Pass? && T.Active(p.rewardV2, b.index) ==> Solvent(c'.ledger, c'.rewards, b.coinbase.amount)
  {
    var (c1, o1) := Mint(p, OpenBlock(p, c, b), b);
    if o1.Pass? {
      var claims := T.Active(p.rewardV2, b.index);
      MintCovers(p, c, b);
      if claims {
        MintAhead(p, c, b);
      }
      TxsCovered(c.ledger, NO_WORK, claims, Applying(c1.ledger, c1.rewards, 0), b.txs, p.chainId, b.coinbase.amount);
      var (c2, fees, o2) := RunTxs(p, c1, b);
      PayFeesKeepsTreasury(c2, b, fees);
    }
  }

  /** With room left in the supply and in the treasury's nonce, such a block executes if and only if
      its transactions are executable. */
  lemma ExecutePassesIff(p: Params, c: Chain, b: Block, now: nat)
    requires Pass1(p, c, b, now).Pass? && TreasuryUnsigned(b.txs) && TreasuryCovers(p, c)
    requires Supply(c.ledger) + b.coinbase.amount <= U64_MAX && Nonce(c.ledger, TREASURY) + |b.txs| <= U64_MAX
    ensures Execute(p, c, b).1.Pass? <==> AllExecutable(T.Active(p.rewardV2, b.index), b.txs)
  {
    MintPasses(p, c, b);
    MintCovers(p, c, b);
    var c1 := Mint(p, OpenBlock(p, c, b), b).0;
    var claims := T.Active(p.rewardV2, b.index);
    if claims {
      MintAhead(p, c, b);
    }
    var s := Applying(c1.ledger, c1.rewards, 0);
    TxsPassIff(c.ledger, NO_WORK, claims, s, b.txs, p.chainId);
    if ApplyTxs(claims, s, b.txs).1.Pass? {
      FeesPass(p, c1, b);
    }
  }

  lemma MintPasses(p: Params, c: Chain, b: Block)
    requires Supply(c.ledger) + b.coinbase.amount <= U64_MAX
    ensures var (c1, o) := Mint(p, OpenBlock(p, c, b), b);
            && o.Pass? && Supply(c1.ledger) == Supply(c.ledger) + b.coinbase.amount
            && Nonce(c1.ledger, TREASURY) == Nonce(c.ledger, TREASURY)
  {
    var c0 := OpenBlock(p, c, b);
    assert Supply(c0.ledger) == Supply(c.ledger);
    CreditSupply(c0.ledger, CoinbaseRecipient(p, b), b.coinbase.amount);
  }

  lemma FeesPass(p: Params, c: Chain, b: Block)
    requires Supply(c.ledger) <= U64_MAX && RunTxs(p, c, b).2.Pass?
    ensures var (c1, fees, o) := RunTxs(p, c, b); PayFees(c1, b, fees).1.Pass?
  {
    var s := Applying(c.ledger, c.rewards, 0);
    ApplyTxsCharge(T.Active(p.rewardV2, b.index), s, b.txs);
    var (c1, fees, o) := RunTxs(p, c, b);
    CreditSupply(c1.ledger, b.validator, fees - CeilHalf(fees));
  }

  // ---- Commit ----

  predicate SameStakes(r: Accumulators, r': Accumulators) {
    r'.validators == r.validators && r'.delegations == r.delegations
  }

  lemma {:induction false} PaySignersKeepStakes(r: Accumulators, signers: seq<(Address, nat)>, reward: nat, whole: nat)
    requires whole > 0
    ensures SameStakes(r, PaySigners(r, signers, reward, whole))
    decreases |signers|
  {
    if signers != [] {
      var share := Share(reward, signers[0].1, whole);
      PaySignersKeepStakes(if share == 0 then r else PayOneSigner(r, signers[0].0, share), signers[1..], reward, whole);
    }
  }

  lemma DistributeKeepsStakes(r: Accumulators, proposer: Address, signers: seq<(Address, nat)>, reward: nat)
    ensures SameStakes(r, Distribute(r, proposer, signers, reward))
  {
    if signers != [] && Wrap(SignerStake(signers)) != 0 {
      PaySignersKeepStakes(r, signers, reward, Wrap(SignerStake(signers)));
    }
  }

  lemma {:induction false} ApplyTxsKeepStakes(claims: bool, s: Applying, txs: seq<Tx>)
    ensures SameStakes(s.rewards, ApplyTxs(claims, s, txs).0.rewards)
    decreases |txs|
  {
    if txs != [] {
      ApplyTxsKeepStakes(claims, ApplyTx(claims, s, txs[0]).0, txs[1..]);
    }
  }

  lemma ExecuteKeepsStakes(p: Params, c: Chain, b: Block)
    ensures SameStakes(c.rewards, Execute(p, c, b).0.rewards)
  {
    var (c1, o1) := Mint(p, OpenBlock(p, c, b), b);
    ApplyTxsKeepStakes(T.Active(p.rewardV2, b.index), Applying(c1.ledger, c1.rewards, 0), b.txs);
  }

  /** The reward distributed for a block, computed one height later, is at most the one it minted. */
  lemma NextRewardFits(p: Params, c: Chain, b: Block)
    requires WithinCap(p, c) && ForkIsEarly(p, c)
    requires b.index == Height(c.blocks) + 1 && b.coinbase.amount == Reward(p, c.blocks, c.minted)
    ensures T.BlockReward(p.tokenomicsV2, b.index, c.minted + b.coinbase.amount) <= b.coinbase.amount
  {
    var h := Height(c.blocks);
    if p.tokenomicsV2 != U64_MAX && p.tokenomicsV2 == h + 1 {
      T.RewardFallsAcrossForkIff(p.tokenomicsV2, h, c.minted);
    } else {
      T.RewardFalls(p.tokenomicsV2, h, c.minted);
    }
  }

  lemma BookkeepOwes(p: Params, c: Chain, b: Block)
    requires StakesSane(c.rewards) && SignersFit(b) && c.blocks != [] && c.blocks[|c.blocks| - 1] == b
    ensures var c' := Bookkeep(p, c, b);
            && Owed(c'.rewards) <= Owed(c.rewards) + T.BlockReward(p.tokenomicsV2, b.index, c.minted)
            && SameStakes(c.rewards, c'.rewards) && c'.ledger == c.ledger
  {
    if T.Active(p.applyPath, b.index) && b.signers.Some? {
      DistributeBound(c.rewards, b.validator, b.signers.value, Reward(p, c.blocks, c.minted));
      DistributeKeepsStakes(c.rewards, b.validator, b.signers.value, Reward(p, c.blocks, c.minted));
    }
  }

  /** The bookkeeping pays out: over fully staked signers it credits the reward up to dust. */
  lemma BookkeepPays(p: Params, c: Chain, b: Block, signers: seq<(Address, nat)>)
    requires c.blocks != [] && c.blocks[|c.blocks| - 1] == b
    requires T.Active(p.applyPath, b.index) && b.signers == Some(signers) && 0 < SignerStake(signers) <= U64_MAX
    requires CommissionsSane(c.rewards) && DelegationsFit(c.rewards) && RewardDust.AllFullyStaked(c.rewards, signers)
    requires Owed(c.rewards) + T.BlockReward(p.tokenomicsV2, b.index, c.minted) <= U64_MAX
    ensures Owed(Bookkeep(p, c, b).rewards) + RewardDust.Dust(c.rewards.delegations, signers)
            >= Owed(c.rewards) + T.BlockReward(p.tokenomicsV2, b.index, c.minted)
  {
    RewardDust.OnlyDustIsLost(c.rewards, b.validator, signers, Reward(p, c.blocks, c.minted));
  }

  lemma CommitOwes(p: Params, c: Chain, b: Block, env: Env)
    requires StakesSane(c.rewards) && SignersFit(b) && Commit(p, c, b, env).1.Pass?
    ensures var c' := Commit(p, c, b, env).0;
            && Owed(c'.rewards) <= Owed(c.rewards) + T.BlockReward(p.tokenomicsV2, b.index, c.minted)
            && SameStakes(c.rewards, c'.rewards) && c'.ledger.accounts == c.ledger.accounts
  {
    AppendHeight(c, b);
    BookkeepOwes(p, Append(c, b), b);
  }

  // ---- runs ----

  ghost predicate Sound(p: Params, c: Chain) {
    TreasuryCovers(p, c) && WithinCap(p, c) && StakesSane(c.rewards)
  }

  lemma AcceptedStaysSolvent(p: Params, c: Chain, b: Block, env: Env)
    requires AddBlock(p, c, b, env).1.Pass? && TreasuryUnsigned(b.txs) && ForkIsEarly(p, c)
    requires Sound(p, c) && SignersFit(b)
    ensures Sound(p, AddBlock(p, c, b, env).0)
  {
    AcceptedPasses(p, c, b, env);
    AcceptedHeight(p, c, b, env);
    AcceptedMoney(p, c, b, env);
    var c1 := Execute(p, c, b).0;
    ExecuteNeverShort(p, c, b, env.now);
    ExecuteKeepsStakes(p, c, b);
    CommitKeepsMoney(p, c1, b, env);
    CommitOwes(p, c1, b, env);
    NextRewardFits(p, c, b);
  }

  ghost predicate LawfulRun(p: Params, cs: seq<Chain>, bs: seq<Block>, es: seq<Env>) {
    && IsRun(p, cs, bs, es)
    && forall i :: 0 <= i < |bs| ==> TreasuryUnsigned(bs[i].txs) && ForkIsEarly(p, cs[i]) && SignersFit(bs[i])
  }

  ghost predicate KeepsSound(p: Params, cs: seq<Chain>, i: nat)
    requires i < |cs| - 1
  {
    Sound(p, cs[i]) ==> Sound(p, cs[i + 1])
  }

  lemma StepsKeepSound(p: Params, cs: seq<Chain>, bs: seq<Block>, es: seq<Env>)
    requires LawfulRun(p, cs, bs, es)
    ensures forall i :: 0 <= i < |bs| ==> KeepsSound(p, cs, i)
  {
    forall i | 0 <= i < |bs|
      ensures KeepsSound(p, cs, i)
    {
      assert AcceptedAt(p, cs, bs, es, i);
      if Sound(p, cs[i]) {
        AcceptedStaysSolvent(p, cs[i], bs[i], es[i]);
      }
    }
  }

  lemma {:induction false} SoundAlong(p: Params, cs: seq<Chain>, n: nat)
    requires n < |cs| && Sound(p, cs[0])
    requires forall i :: 0 <= i < |cs| - 1 ==> KeepsSound(p, cs, i)
    ensures Sound(p, cs[n])
  {
    if n > 0 {
      SoundAlong(p, cs, n - 1);
      assert KeepsSound(p, cs, n - 1);
    }
  }

  /** Every state of a run is solvent, from one that is. */
  lemma RunSolvent(p: Params, cs: seq<Chain>, bs: seq<Block>, es: seq<Env>, n: nat)
    requires LawfulRun(p, cs, bs, es) && Sound(p, cs[0]) && n < |cs|
    ensures Sound(p, cs[n])
  {
    StepsKeepSound(p, cs, bs, es);
    SoundAlong(p, cs, n);
  }

  /** In every state of every run: a block that Pass 1 accepts there is never refused by Pass 2 for
      lack of funds. */
  lemma NoBlockRunsShort(p: Params, cs: seq<Chain>, bs: seq<Block>, es: seq<Env>, n: nat, b: Block, env: Env)
    requires LawfulRun(p, cs, bs, es) && Sound(p, cs[0]) && n < |cs|
    requires Pass1(p, cs[n], b, env.now).Pass? && TreasuryUnsigned(b.txs)
    ensures !Short(AddBlock(p, cs[n], b, env).1)
  {
    RunSolvent(p, cs, bs, es, n);
    ExecuteNeverShort(p, cs[n], b, env.now);
    CommitNeverShort(p, Execute(p, cs[n], b).0, b, env);
  }

  lemma CommitNeverShort(p: Params, c: Chain, b: Block, env: Env)
    ensures !Short(Commit(p, c, b, env).1)
  {
  }
}
