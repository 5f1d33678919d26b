/** Where the coins go: one block, then every run of accepted blocks. */
module Conservation {
  import opened BftTypes
  import opened Ledger
  import opened Rewards
  import opened StateTrie
  import opened ExecutorSpec
  import T = Tokenomics

  function Fees(txs: seq<Tx>): nat {
    if txs == [] then 0 else txs[0].fee + Fees(txs[1..])
  }

  /** What the burn counter adds up for a block: each fee is halved and rounded up on its own. */
  function Counted(txs: seq<Tx>): nat {
    if txs == [] then 0 else CeilHalf(txs[0].fee) + Counted(txs[1..])
  }

  function OddFees(txs: seq<Tx>): nat {
    if txs == [] then 0 else txs[0].fee % 2 + OddFees(txs[1..])
  }

  function Sat(x: nat): u64 {
    if x <= U64_MAX then x else U64_MAX
  }

  // ---- one block ----

  lemma PayClaimSupply(s: Applying, claimer: Address)
    requires PayClaim(s, claimer).1.Pass?
    ensures var s' := PayClaim(s, claimer).0;
            Supply(s'.ledger) == Supply(s.ledger) && s'.fees == s.fees && s'.ledger.burned == s.ledger.burned
  {
    if Peek(s.rewards, claimer) > 0 {
      TransferSupply(s.ledger, TREASURY, claimer, Peek(s.rewards, claimer), 0);
    }
  }

  /** Fees leave circulation, the burn counter counts its share of them. */
  ghost predicate Charges(s: Applying, fees: nat, counted: nat, s': Applying) {
    && Supply(s'.ledger) + fees == Supply(s.ledger)
    && s'.fees == s.fees + fees
    && s'.ledger.burned == Sat(s.ledger.burned + counted)
  }

  lemma ApplyTxCharges(claims: bool, s: Applying, tx: Tx)
    requires ApplyTx(claims, s, tx).1.Pass?
    ensures Charges(s, tx.fee, CeilHalf(tx.fee), ApplyTx(claims, s, tx).0)
  {
    TransferSupply(s.ledger, tx.from, tx.to, tx.amount, tx.fee);
    var l := Transfer(s.ledger, tx.from, tx.to, tx.amount, tx.fee).0;
    if tx.kind == ClaimRewards && claims {
      PayClaimSupply(s.(ledger := l, fees := s.fees + tx.fee), tx.from);
    }
  }

  lemma ChargesCompose(s: Applying, s1: Applying, s2: Applying, fee: nat, counted: nat, fees: nat, countedRest: nat)
    requires Charges(s, fee, counted, s1) && Charges(s1, fees, countedRest, s2)
    ensures Charges(s, fee + fees, counted + countedRest, s2)
  {
  }

  lemma {:induction false} ApplyTxsCharge(claims: bool, s: Applying, txs: seq<Tx>)
    requires ApplyTxs(claims, s, txs).1.Pass?
    ensures Charges(s, Fees(txs), Counted(txs), ApplyTxs(claims, s, txs).0)
    decreases |txs|
  {
    if txs != [] {
      var tx, rest := txs[0], txs[1..];
      var (s1, o) := ApplyTx(claims, s, tx);
      ApplyTxCharges(claims, s, tx);
      ApplyTxsCharge(claims, s1, rest);
      ChargesCompose(s, s1, ApplyTxs(claims, s1, rest).0, tx.fee, CeilHalf(tx.fee), Fees(rest), Counted(rest));
    }
  }

  /** What one executed block does to the money: the coinbase is added, exactly half of the fees,
      rounded up, disappears. */
  ghost predicate Settles(c: Chain, b: Block, c': Chain) {
    && Supply(c'.ledger) + CeilHalf(Fees(b.txs)) == Supply(c.ledger) + b.coinbase.amount
    && c'.ledger.burned == Sat(c.ledger.burned + Counted(b.txs))
    && c'.minted == SatAdd(c.minted, b.coinbase.amount)
  }

  lemma MintSupply(p: Params, c: Chain, b: Block)
    requires Mint(p, c, b).1.Pass?
    ensures var c' := Mint(p, c, b).0;
            && Supply(c'.ledger) == Supply(c.ledger) + b.coinbase.amount && c'.ledger.burned == c.ledger.burned
            && c'.minted == SatAdd(c.minted, b.coinbase.amount)
  {
    CreditSupply(c.ledger, CoinbaseRecipient(p, b), b.coinbase.amount);
  }

  lemma PayFeesSupply(c: Chain, b: Block, fees: u64)
    requires PayFees(c, b, fees).1.Pass?
    ensures var c' := PayFees(c, b, fees).0;
            && Supply(c'.ledger) + CeilHalf(fees) == Supply(c.ledger) + fees && c'.ledger.burned == c.ledger.burned
            && c'.minted == c.minted
  {
    if fees - CeilHalf(fees) > 0 {
      CreditSupply(c.ledger, b.validator, fees - CeilHalf(fees));
    }
  }

  lemma ExecuteSettles(p: Params, c: Chain, b: Block)
    requires Execute(p, c, b).1.Pass?
    ensures Settles(c, b, Execute(p, c, b).0)
  {
    var c0 := OpenBlock(p, c, b);
    assert Supply(c0.ledger) == Supply(c.ledger);
    MintSupply(p, c0, b);
    var c1 := Mint(p, c0, b).0;
    ApplyTxsCharge(T.Active(p.rewardV2, b.index), Applying(c1.ledger, c1.rewards, 0), b.txs);
    var (c2, fees, o) := RunTxs(p, c1, b);
    PayFeesSupply(c2, b, fees);
  }

  /** The steps after the append leave the money alone. */
  lemma CommitKeepsMoney(p: Params, c: Chain, b: Block, env: Env)
    requires Commit(p, c, b, env).1.Pass?
    ensures var c' := Commit(p, c, b, env).0;
            c'.ledger.accounts == c.ledger.accounts && c'.ledger.burned == c.ledger.burned && c'.minted == c.minted
  {
  }

  /** What an accepted block says about its two passes. */
  lemma AcceptedPasses(p: Params, c: Chain, b: Block, env: Env)
    requires AddBlock(p, c, b, env).1.Pass?
    ensures Pass1(p, c, b, env.now).Pass? && Execute(p, c, b).1.Pass?
    ensures Commit(p, Execute(p, c, b).0, b, env) == AddBlock(p, c, b, env)
  {
  }

  lemma AcceptedSettles(p: Params, c: Chain, b: Block, env: Env)
    requires AddBlock(p, c, b, env).1.Pass?
    ensures Settles(c, b, AddBlock(p, c, b, env).0)
  {
    AcceptedPasses(p, c, b, env);
    ExecuteSettles(p, c, b);
    CommitKeepsMoney(p, Execute(p, c, b).0, b, env);
  }

  // ---- height ----

  lemma AppendHeight(c: Chain, b: Block)
    ensures var blocks := Append(c, b).blocks; blocks != [] && blocks[|blocks| - 1] == b
  {
  }

  lemma SealKeepsIndex(p: Params, last: Block, root: Trie, env: Env)
    ensures SealBlock(p, last, root, env).0.index == last.index
  {
  }

  /** An accepted block has the next index, pays the scheduled reward and becomes the tip. */
  lemma AcceptedHeight(p: Params, c: Chain, b: Block, env: Env)
    requires AddBlock(p, c, b, env).1.Pass?
    ensures b.index == Height(c.blocks) + 1 == Height(AddBlock(p, c, b, env).0.blocks)
    ensures b.coinbase.amount == Reward(p, c.blocks, c.minted)
  {
    AcceptedPasses(p, c, b, env);
    var c1 := Execute(p, c, b).0;
    AppendHeight(c1, b);
    var c2 := UpdateTrie(p, Bookkeep(p, Append(c1, b), b), b);
    SealKeepsIndex(p, c2.blocks[|c2.blocks| - 1], c2.trie, env);
  }

  // ---- runs ----

  ghost predicate AcceptedAt(p: Params, cs: seq<Chain>, bs: seq<Block>, es: seq<Env>, i: nat)
    requires i < |bs| == |es| == |cs| - 1
  {
    AddBlock(p, cs[i], bs[i], es[i]) == (cs[i + 1], Pass)
  }

  /** A run of accepted blocks: `cs` lists the states before, between and after them. */
  ghost predicate IsRun(p: Params, cs: seq<Chain>, bs: seq<Block>, es: seq<Env>) {
    |bs| == |es| == |cs| - 1 && forall i :: 0 <= i < |bs| ==> AcceptedAt(p, cs, bs, es, i)
  }

  /** The fees that really left circulation. */
  function Burnt(bs: seq<Block>): nat {
    if bs == [] then 0 else Burnt(bs[..|bs| - 1]) + CeilHalf(Fees(bs[|bs| - 1].txs))
  }

  function CountedBurn(bs: seq<Block>): nat {
    if bs == [] then 0 else CountedBurn(bs[..|bs| - 1]) + Counted(bs[|bs| - 1].txs)
  }

  ghost predicate WithinCap(p: Params, c: Chain) {
    c.minted <= T.MaxSupply(p.tokenomicsV2, Height(c.blocks))
  }

  /** What one accepted block does to supply and mint. */
  ghost predicate MoneyStep(p: Params, c: Chain, b: Block, c': Chain) {
    && Settles(c, b, c')
    && (WithinCap(p, c) ==> WithinCap(p, c') && c'.minted == c.minted + b.coinbase.amount)
  }

  lemma AcceptedMoney(p: Params, c: Chain, b: Block, env: Env)
    requires AddBlock(p, c, b, env).1.Pass?
    ensures MoneyStep(p, c, b, AddBlock(p, c, b, env).0)
  {
    AcceptedSettles(p, c, b, env);
    AcceptedHeight(p, c, b, env);
    if WithinCap(p, c) {
      T.MintWithinCap(p.tokenomicsV2, Height(c.blocks), c.minted);
    }
  }

  ghost predicate MoneyAt(p: Params, cs: seq<Chain>, bs: seq<Block>, i: nat)
    requires i < |bs| == |cs| - 1
  {
    MoneyStep(p, cs[i], bs[i], cs[i + 1])
  }

  ghost predicate MoneyRun(p: Params, cs: seq<Chain>, bs: seq<Block>) {
    |bs| == |cs| - 1 && forall i :: 0 <= i < |bs| ==> MoneyAt(p, cs, bs, i)
  }

  lemma MoneyPrefix(p: Params, cs: seq<Chain>, bs: seq<Block>)
    requires MoneyRun(p, cs, bs) && bs != []
    ensures MoneyRun(p, cs[..|bs|], bs[..|bs| - 1])
  {
    var cs', bs' := cs[..|bs|], bs[..|bs| - 1];
    forall i | 0 <= i < |bs'|
      ensures MoneyAt(p, cs', bs', i)
    {
      assert MoneyAt(p, cs, bs, i);
    }
  }

  lemma RunIsMoneyRun(p: Params, cs: seq<Chain>, bs: seq<Block>, es: seq<Env>)
    requires IsRun(p, cs, bs, es)
    ensures MoneyRun(p, cs, bs)
  {
    forall i | 0 <= i < |bs|
      ensures MoneyAt(p, cs, bs, i)
    {
      assert AcceptedAt(p, cs, bs, es, i);
      AcceptedMoney(p, cs[i], bs[i], es[i]);
    }
  }

  ghost predicate Conserved(p: Params, c0: Chain, bs: seq<Block>, c: Chain) {
    && Supply(c.ledger) + Burnt(bs) + c0.minted == Supply(c0.ledger) + c.minted
    && c.ledger.burned == Sat(c0.ledger.burned + CountedBurn(bs))
    && WithinCap(p, c) && c0.minted <= c.minted
  }

  lemma {:induction false} MoneyRunConserves(p: Params, cs: seq<Chain>, bs: seq<Block>)
    requires MoneyRun(p, cs, bs) && WithinCap(p, cs[0])
    ensures Conserved(p, cs[0], bs, cs[|bs|])
    decreases |bs|
  {
    if bs != [] {
      var n := |bs| - 1;
      MoneyPrefix(p, cs, bs);
      MoneyRunConserves(p, cs[..n + 1], bs[..n]);
      assert MoneyAt(p, cs, bs, n);
    }
  }

  /** Over every run of accepted blocks, balances plus burnt fees minus minted coins is constant,
      the mint never passes the cap, and the burn counter follows its own sum. */
  lemma RunConserves(p: Params, cs: seq<Chain>, bs: seq<Block>, es: seq<Env>)
    requires IsRun(p, cs, bs, es) && WithinCap(p, cs[0])
    ensures Conserved(p, cs[0], bs, cs[|bs|])
  {
    RunIsMoneyRun(p, cs, bs, es);
    MoneyRunConserves(p, cs, bs);
  }

  // ---- the burn counter against the burn ----

  lemma {:induction false} CountedTwice(txs: seq<Tx>)
    ensures 2 * Counted(txs) == Fees(txs) + OddFees(txs)
  {
    if txs != [] {
      CountedTwice(txs[1..]);
      HalfUp(txs[0].fee);
    }
  }

  lemma HalfUp(fee: nat)
    ensures 2 * CeilHalf(fee) == fee + fee % 2
  {
  }

  lemma HalfSplit(counted: nat, fees: nat, odd: nat)
    requires 2 * counted == fees + odd
    ensures counted == CeilHalf(fees) + odd / 2
  {
  }

  lemma CountedExcess(txs: seq<Tx>)
    ensures Counted(txs) == CeilHalf(Fees(txs)) + OddFees(txs) / 2
  {
    CountedTwice(txs);
    HalfSplit(Counted(txs), Fees(txs), OddFees(txs));
  }

  ghost predicate AtMostOneOddFee(bs: seq<Block>) {
    forall i :: 0 <= i < |bs| ==> OddFees(bs[i].txs) <= 1
  }

  lemma {:induction false} CounterExactIff(bs: seq<Block>)
    ensures Burnt(bs) <= CountedBurn(bs)
    ensures CountedBurn(bs) == Burnt(bs) <==> AtMostOneOddFee(bs)
  {
    if bs != [] {
      var n := |bs| - 1;
      CounterExactIff(bs[..n]);
      CountedExcess(bs[n].txs);
      assert AtMostOneOddFee(bs) <==> AtMostOneOddFee(bs[..n]) && OddFees(bs[n].txs) <= 1 by {
        assert bs == bs[..n] + [bs[n]];
      }
    }
  }

  ghost predicate CounterConserves(c0: Chain, c: Chain) {
    Supply(c.ledger) + c.ledger.burned + c0.minted == Supply(c0.ledger) + c0.ledger.burned + c.minted
  }

  lemma MoneyRunCounter(p: Params, cs: seq<Chain>, bs: seq<Block>)
    requires MoneyRun(p, cs, bs) && WithinCap(p, cs[0])
    requires cs[0].ledger.burned + CountedBurn(bs) <= U64_MAX
    ensures CounterConserves(cs[0], cs[|bs|]) <==> AtMostOneOddFee(bs)
  {
    MoneyRunConserves(p, cs, bs);
    CounterExactIff(bs);
  }

  /** Conservation told with the node's own burn counter holds over a run exactly when no block of
      it has two fees that are odd; the counter runs ahead otherwise. */
  lemma CounterConservesIff(p: Params, cs: seq<Chain>, bs: seq<Block>, es: seq<Env>)
    requires IsRun(p, cs, bs, es) && WithinCap(p, cs[0])
    requires cs[0].ledger.burned + CountedBurn(bs) <= U64_MAX
    ensures CounterConserves(cs[0], cs[|bs|]) <==> AtMostOneOddFee(bs)
  {
    RunIsMoneyRun(p, cs, bs, es);
    MoneyRunCounter(p, cs, bs);
  }
}
