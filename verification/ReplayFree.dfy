/** Nonces over whole runs: no signed transaction is ever applied twice. */
module ReplayFree {
  import opened BftTypes
  import opened Ledger
  import opened Rewards
  import opened ExecutorSpec
  import opened Conservation
  import opened Solvency
  import T = Tokenomics

  /** No nonce falls. */
  ghost predicate NoncesGrow(l: Ledger, l': Ledger) {
    forall a :: Nonce(l, a) <= Nonce(l', a)
  }

  /** The nonce was free before and is used up after. */
  ghost predicate Spends(l: Ledger, tx: Tx, l': Ledger) {
    Nonce(l, tx.from) <= tx.nonce < Nonce(l', tx.from)
  }

  lemma TransferNonces(l: Ledger, from: Address, to: Address, amount: u64, fee: u64)
    requires Transfer(l, from, to, amount, fee).1.Pass?
    ensures NoncesGrow(l, Transfer(l, from, to, amount, fee).0)
    ensures Nonce(Transfer(l, from, to, amount, fee).0, from) == Nonce(l, from) + 1
  {
    var l' := Transfer(l, from, to, amount, fee).0;
    forall a
      ensures Nonce(l, a) <= Nonce(l', a)
    {
      TransferBalances(l, from, to, amount, fee, a);
    }
    TransferBalances(l, from, to, amount, fee, from);
  }

  /** A claim moves nobody's nonce but the treasury's. */
  lemma ClaimNonces(l0: Ledger, w: Working, s: Applying, claimer: Address)
    requires PayClaim(s, claimer).1.Pass? && claimer != TREASURY && Covers(l0, w, s.ledger)
    ensures NoncesGrow(s.ledger, PayClaim(s, claimer).0.ledger) && Covers(l0, w, PayClaim(s, claimer).0.ledger)
  {
    var amount := Peek(s.rewards, claimer);
    if amount > 0 {
      TransferNonces(s.ledger, TREASURY, claimer, amount, 0);
      var l' := Transfer(s.ledger, TREASURY, claimer, amount, 0).0;
      forall a | a != TREASURY
        ensures Balance(s.ledger, a) <= Balance(l', a) && Nonce(l', a) == Nonce(s.ledger, a)
      {
        TransferBalances(s.ledger, TREASURY, claimer, amount, 0, a);
      }
    }
  }

  lemma TxNonces(l0: Ledger, w: Working, claims: bool, s: Applying, tx: Tx, chainId: nat)
    requires CheckTx(l0, w, tx, chainId).1.Pass? && Covers(l0, w, s.ledger) && tx.from != TREASURY
    requires ApplyTx(claims, s, tx).1.Pass?
    ensures var l' := ApplyTx(claims, s, tx).0.ledger;
            && Covers(l0, CheckTx(l0, w, tx, chainId).0, l')
            && NoncesGrow(s.ledger, l') && Spends(s.ledger, tx, l') && tx.nonce == Nonce(s.ledger, tx.from)
  {
    CheckTxWorks(l0, w, tx, chainId, tx.from);
    TransferCovers(l0, w, s.ledger, tx, chainId);
    TransferNonces(s.ledger, tx.from, tx.to, tx.amount, tx.fee);
    var l := Transfer(s.ledger, tx.from, tx.to, tx.amount, tx.fee).0;
    if tx.kind == ClaimRewards && claims {
      ClaimNonces(l0, CheckTx(l0, w, tx, chainId).0, s.(ledger := l, fees := s.fees + tx.fee), tx.from);
    }
  }

  /** One sender's transactions carry increasing nonces, all of them spent. */
  ghost predicate SpendsAll(l: Ledger, txs: seq<Tx>, l': Ledger) {
    && NoncesGrow(l, l')
    && (forall i :: 0 <= i < |txs| ==> Spends(l, txs[i], l'))
    && (forall i, j :: 0 <= i < j < |txs| && txs[i].from == txs[j].from ==> txs[i].nonce < txs[j].nonce)
  }

  lemma SpendsCons(l: Ledger, l1: Ledger, l2: Ledger, txs: seq<Tx>)
    requires txs != [] && NoncesGrow(l, l1) && Spends(l, txs[0], l1) && SpendsAll(l1, txs[1..], l2)
    ensures SpendsAll(l, txs, l2)
  {
    forall a
      ensures Nonce(l, a) <= Nonce(l2, a)
    {
      assert Nonce(l, a) <= Nonce(l1, a);
    }
    forall i | 0 < i < |txs|
      ensures Nonce(l1, txs[i].from) <= txs[i].nonce < Nonce(l2, txs[i].from) && Spends(l, txs[i], l2)
    {
      assert txs[i] == txs[1..][i - 1];
      assert Spends(l1, txs[1..][i - 1], l2);
    }
    forall i, j | 0 <= i < j < |txs| && txs[i].from == txs[j].from
      ensures txs[i].nonce < txs[j].nonce
    {
      if i > 0 {
        assert txs[1..][i - 1] == txs[i] && txs[1..][j - 1] == txs[j];
      }
    }
  }

  lemma {:induction false} TxsSpend(l0: Ledger, w: Working, claims: bool, s: Applying, txs: seq<Tx>, chainId: nat)
    requires CheckTxs(l0, w, txs, chainId).Pass? && Covers(l0, w, s.ledger) && TreasuryUnsigned(txs)
    requires ApplyTxs(claims, s, txs).1.Pass?
    ensures SpendsAll(s.ledger, txs, ApplyTxs(claims, s, txs).0.ledger)
    decreases |txs|
  {
    if txs != [] {
      TxNonces(l0, w, claims, s, txs[0], chainId);
      var (w1, o1) := CheckTx(l0, w, txs[0], chainId);
      var (s1, o) := ApplyTx(claims, s, txs[0]);
      TxsSpend(l0, w1, claims, s1, txs[1..], chainId);
      SpendsCons(s.ledger, s1.ledger, ApplyTxs(claims, s1, txs[1..]).0.ledger, txs);
    }
  }

  lemma CreditNonces(l: Ledger, a: Address, amount: u64)
    ensures forall b :: Nonce(Credit(l, a, amount).0, b) == Nonce(l, b)
  {
  }

  lemma SpendsAllShift(l: Ledger, l1: Ledger, txs: seq<Tx>, l2: Ledger, l3: Ledger)
    requires SpendsAll(l1, txs, l2)
    requires (forall a :: Nonce(l, a) == Nonce(l1, a)) && (forall a :: Nonce(l2, a) == Nonce(l3, a))
    ensures SpendsAll(l, txs, l3)
  {
    forall a
      ensures Nonce(l, a) <= Nonce(l3, a)
    {
      assert Nonce(l1, a) <= Nonce(l2, a);
    }
    forall i | 0 <= i < |txs|
      ensures Spends(l, txs[i], l3)
    {
      assert Spends(l1, txs[i], l2);
    }
  }

  lemma ExecuteSpends(p: Params, c: Chain, b: Block, now: nat)
    requires Pass1(p, c, b, now).Pass? && Execute(p, c, b).1.Pass? && TreasuryUnsigned(b.txs)
    ensures SpendsAll(c.ledger, b.txs, Execute(p, c, b).0.ledger)
  {
    var c0 := OpenBlock(p, c, b);
    CreditNonces(c0.ledger, CoinbaseRecipient(p, b), b.coinbase.amount);
    var c1 := Mint(p, c0, b).0;
    var claims := T.Active(p.rewardV2, b.index);
    MintCovers(p, c, b);
    TxsSpend(c.ledger, NO_WORK, claims, Applying(c1.ledger, c1.rewards, 0), b.txs, p.chainId);
    var (c2, fees, o) := RunTxs(p, c1, b);
    PayFeesNonces(c2, b, fees);
    SpendsAllShift(c.ledger, c1.ledger, b.txs, c2.ledger, PayFees(c2, b, fees).0.ledger);
  }

  lemma PayFeesNonces(c: Chain, b: Block, fees: u64)
    ensures forall a :: Nonce(c.ledger, a) == Nonce(PayFees(c, b, fees).0.ledger, a)
  {
    CreditNonces(c.ledger, b.validator, fees - CeilHalf(fees));
  }

  lemma AcceptedSpends(p: Params, c: Chain, b: Block, env: Env)
    requires AddBlock(p, c, b, env).1.Pass? && TreasuryUnsigned(b.txs)
    ensures SpendsAll(c.ledger, b.txs, AddBlock(p, c, b, env).0.ledger)
  {
    AcceptedPasses(p, c, b, env);
    ExecuteSpends(p, c, b, env.now);
    var c1 := Execute(p, c, b).0;
    CommitKeepsMoney(p, c1, b, env);
    SpendsAllShift(c.ledger, c.ledger, b.txs, c1.ledger, AddBlock(p, c, b, env).0.ledger);
  }

  // ---- runs ----

  ghost predicate SpendsAt(cs: seq<Chain>, bs: seq<Block>, i: nat)
    requires i < |bs| == |cs| - 1
  {
    SpendsAll(cs[i].ledger, bs[i].txs, cs[i + 1].ledger)
  }

  lemma RunSpends(p: Params, cs: seq<Chain>, bs: seq<Block>, es: seq<Env>)
    requires IsRun(p, cs, bs, es) && forall i :: 0 <= i < |bs| ==> TreasuryUnsigned(bs[i].txs)
    ensures forall i :: 0 <= i < |bs| ==> SpendsAt(cs, bs, i)
  {
    forall i | 0 <= i < |bs|
      ensures SpendsAt(cs, bs, i)
    {
      assert AcceptedAt(p, cs, bs, es, i);
      AcceptedSpends(p, cs[i], bs[i], es[i]);
    }
  }

  lemma {:induction false} NoncesGrowAlong(cs: seq<Chain>, bs: seq<Block>, i: nat, j: nat)
    requires |bs| == |cs| - 1 && i <= j < |cs| && forall k :: 0 <= k < |bs| ==> SpendsAt(cs, bs, k)
    ensures NoncesGrow(cs[i].ledger, cs[j].ledger)
    decreases j - i
  {
    if i < j {
      NoncesGrowAlong(cs, bs, i, j - 1);
      assert SpendsAt(cs, bs, j - 1);
    }
  }

  /** Over every run of accepted blocks, any two transactions of one sender carry nonces in the
      order in which they were applied. */
  lemma NoReplay(p: Params, cs: seq<Chain>, bs: seq<Block>, es: seq<Env>, i: nat, k: nat, j: nat, m: nat)
    requires IsRun(p, cs, bs, es) && forall n :: 0 <= n < |bs| ==> TreasuryUnsigned(bs[n].txs)
    requires i < |bs| && k < |bs[i].txs| && j < |bs| && m < |bs[j].txs| && (i < j || (i == j && k < m))
    requires bs[i].txs[k].from == bs[j].txs[m].from
    ensures bs[i].txs[k].nonce < bs[j].txs[m].nonce
  {
    RunSpends(p, cs, bs, es);
    AppliedInOrder(cs, bs, i, k, j, m);
  }

  lemma AppliedInOrder(cs: seq<Chain>, bs: seq<Block>, i: nat, k: nat, j: nat, m: nat)
    requires |bs| == |cs| - 1 && forall n :: 0 <= n < |bs| ==> SpendsAt(cs, bs, n)
    requires i < |bs| && k < |bs[i].txs| && j < |bs| && m < |bs[j].txs| && (i < j || (i == j && k < m))
    requires bs[i].txs[k].from == bs[j].txs[m].from
    ensures bs[i].txs[k].nonce < bs[j].txs[m].nonce
  {
    assert SpendsAt(cs, bs, i) && SpendsAt(cs, bs, j);
    if i < j {
      NoncesGrowAlong(cs, bs, i + 1, j);
      assert Spends(cs[i].ledger, bs[i].txs[k], cs[i + 1].ledger);
      assert Spends(cs[j].ledger, bs[j].txs[m], cs[j + 1].ledger);
    }
  }
}
