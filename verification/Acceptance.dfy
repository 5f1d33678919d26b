/** Which blocks a node accepts, told from the block, the accounts and the environment, in every state
    that a run can reach. */
module Acceptance {
  import opened BftTypes
  import opened Ledger
  import opened ExecutorSpec
  import opened Conservation
  import opened Solvency
  import opened SolventRuns
  import opened Admission
  import opened StateRoots
  import T = Tokenomics

  /** All coins in circulation were minted. */
  ghost predicate Backed(c: Chain) {
    Supply(c.ledger) <= c.minted
  }

  /** What makes a block acceptable: its header, its transactions, and its root. */
  ghost predicate Acceptable(p: Params, c: Chain, b: Block, env: Env) {
    && HeaderOk(p, c, b, env.now)
    && AdmittedUpTo(c.ledger, b.txs, p.chainId, |b.txs|)
    && AllExecutable(T.Active(p.rewardV2, b.index), b.txs)
    && env.trieOk && !RootMissing(p, b, env) && !RootWrong(b, WrittenTrie(p, c, b), env)
  }

  lemma RoomForReward(p: Params, c: Chain)
    requires Backed(c) && WithinCap(p, c)
    ensures Supply(c.ledger) + Reward(p, c.blocks, c.minted) <= U64_MAX
  {
    T.MintWithinCap(p.tokenomicsV2, Height(c.blocks), c.minted);
  }

  /** A block is accepted if and only if it is acceptable. */
  lemma AcceptedIff(p: Params, c: Chain, b: Block, env: Env)
    requires TreasuryUnsigned(b.txs) && TreasuryCovers(p, c) && Backed(c) && WithinCap(p, c)
    requires Nonce(c.ledger, TREASURY) + |b.txs| <= U64_MAX
    ensures AddBlock(p, c, b, env).1.Pass? <==> Acceptable(p, c, b, env)
  {
    Pass1Exact(p, c, b, env.now);
    if Pass1(p, c, b, env.now).Pass? {
      RoomForReward(p, c);
      ExecutePassesIff(p, c, b, env.now);
      if Execute(p, c, b).1.Pass? {
        RefusedForRootIff(p, c, b, env);
      }
    }
  }

  // ---- runs ----

  lemma AcceptedStaysBacked(p: Params, c: Chain, b: Block, env: Env)
    requires AddBlock(p, c, b, env).1.Pass? && Backed(c) && WithinCap(p, c)
    ensures Backed(AddBlock(p, c, b, env).0)
  {
    AcceptedMoney(p, c, b, env);
  }

  ghost predicate KeepsBacked(p: Params, cs: seq<Chain>, i: nat)
    requires i < |cs| - 1
  {
    Backed(cs[i]) && WithinCap(p, cs[i]) ==> Backed(cs[i + 1])
  }

  lemma {:induction false} BackedAlong(p: Params, cs: seq<Chain>, n: nat)
    requires n < |cs| && Backed(cs[0]) && (forall i :: 0 <= i < |cs| ==> WithinCap(p, cs[i]))
    requires forall i :: 0 <= i < |cs| - 1 ==> KeepsBacked(p, cs, i)
    ensures Backed(cs[n])
  {
    if n > 0 {
      BackedAlong(p, cs, n - 1);
      assert KeepsBacked(p, cs, n - 1);
    }
  }

  lemma RunBacked(p: Params, cs: seq<Chain>, bs: seq<Block>, es: seq<Env>, n: nat)
    requires LawfulRun(p, cs, bs, es) && Sound(p, cs[0]) && Backed(cs[0]) && n < |cs|
    ensures Backed(cs[n]) && Sound(p, cs[n])
  {
    forall i | 0 <= i < |cs|
      ensures Sound(p, cs[i])
    {
      RunSolvent(p, cs, bs, es, i);
    }
    forall i | 0 <= i < |cs| - 1
      ensures KeepsBacked(p, cs, i)
    {
      assert AcceptedAt(p, cs, bs, es, i);
      if Backed(cs[i]) && WithinCap(p, cs[i]) {
        AcceptedStaysBacked(p, cs[i], bs[i], es[i]);
      }
    }
    BackedAlong(p, cs, n);
  }

  /** In every state of every lawful run: the next block is accepted if and only if it is acceptable,
      so nothing that Pass 1 cannot see makes an acceptable block fail. */
  lemma RunAcceptsIff(p: Params, cs: seq<Chain>, bs: seq<Block>, es: seq<Env>, n: nat, b: Block, env: Env)
    requires LawfulRun(p, cs, bs, es) && Sound(p, cs[0]) && Backed(cs[0]) && n < |cs|
    requires TreasuryUnsigned(b.txs) && Nonce(cs[n].ledger, TREASURY) + |b.txs| <= U64_MAX
    ensures AddBlock(p, cs[n], b, env).1.Pass? <==> Acceptable(p, cs[n], b, env)
  {
    RunBacked(p, cs, bs, es, n);
    AcceptedIff(p, cs[n], b, env);
  }
}
