/** Account by account: what a claim and what a whole block do to the balance, the nonce and the
    accumulators of every address. */
module AccountFlows {
  import opened Sums
  import opened BftTypes
  import opened Ledger
  import opened Rewards
  import opened ExecutorSpec
  import opened Conservation
  import opened Admission
  import Payouts
  import T = Tokenomics

  /** What the treasury owes one address. */
  function OwedTo(r: Accumulators, a: Address): nat {
    Weight(r.pending, a) + Weight(r.delegatorRewards, a)
  }

  // ---- one claim ----

  lemma DrainAt(r: Accumulators, claimer: Address, a: Address)
    ensures var r' := Drain(r, claimer);
            && Weight(r'.pending, a) == (if a == claimer then 0 else Weight(r.pending, a))
            && Weight(r'.delegatorRewards, a) == (if a == claimer then 0 else Weight(r.delegatorRewards, a))
  {
  }

  /** What a claim does to one address: the claimer is paid what it is owed, the treasury pays it,
      and the claimer is owed nothing any more. */
  ghost predicate ClaimMoves(s: Applying, claimer: Address, s': Applying, a: Address) {
    var paid := Payouts.Capped(OwedTo(s.rewards, claimer));
    && Balance(s'.ledger, a) + (if a == TREASURY then paid else 0) == Balance(s.ledger, a) + (if a == claimer then paid else 0)
    && Nonce(s'.ledger, a) == Nonce(s.ledger, a) + (if a == TREASURY && paid > 0 then 1 else 0)
    && Weight(s'.rewards.pending, a) == (if a == claimer then 0 else Weight(s.rewards.pending, a))
    && Weight(s'.rewards.delegatorRewards, a) == (if a == claimer then 0 else Weight(s.rewards.delegatorRewards, a))
  }

  lemma ClaimExact(s: Applying, claimer: Address, a: Address)
    requires PayClaim(s, claimer).1.Pass?
    ensures ClaimMoves(s, claimer, PayClaim(s, claimer).0, a)
  {
    var amount := Peek(s.rewards, claimer);
    if amount > 0 {
      TransferBalances(s.ledger, TREASURY, claimer, amount, 0, a);
      DrainAt(s.rewards, claimer, a);
    }
  }

  /** What `a` has and what it is owed. */
  function Holdings(s: Applying, a: Address): nat {
    Balance(s.ledger, a) + OwedTo(s.rewards, a)
  }

  /** A claim only moves what was owed into the balance, if and only if what is owed fits in 64 bits;
      the excess is lost otherwise. Nobody else is affected. */
  lemma ClaimKeepsWealthIff(s: Applying, claimer: Address, a: Address)
    requires PayClaim(s, claimer).1.Pass? && a != TREASURY
    ensures Holdings(PayClaim(s, claimer).0, a) == Holdings(s, a)
       <==> (a == claimer ==> OwedTo(s.rewards, claimer) <= U64_MAX)
  {
    ClaimExact(s, claimer, a);
  }

  // ---- the transactions of a block ----

  /** The amounts sent to `a` in the first `k` transactions. */
  function Received(txs: seq<Tx>, k: nat, a: Address): nat
    requires k <= |txs|
  {
    if k == 0 then 0 else Received(txs, k - 1, a) + (if txs[k - 1].to == a then txs[k - 1].amount else 0)
  }

  /** `a` claims its rewards among the first `k` transactions. */
  predicate Claims(txs: seq<Tx>, k: nat, a: Address)
    requires k <= |txs|
  {
    exists i :: 0 <= i < k && txs[i].from == a && txs[i].kind == ClaimRewards
  }

  /** What `a` collects by claiming: all it was owed, once. */
  function Collected(claims: bool, r: Accumulators, txs: seq<Tx>, k: nat, a: Address): nat
    requires k <= |txs|
  {
    if claims && Claims(txs, k, a) then Payouts.Capped(OwedTo(r, a)) else 0
  }

  /** Transaction `i` is the first claim of its sender. */
  predicate FirstClaim(txs: seq<Tx>, i: nat)
    requires i < |txs|
  {
    txs[i].kind == ClaimRewards && !Claims(txs, i, txs[i].from)
  }

  /** What the treasury pays out for the first `k` transactions. */
  function PaidOut(claims: bool, r: Accumulators, txs: seq<Tx>, k: nat): nat
    requires k <= |txs|
  {
    if k == 0 || !claims then 0
    else PaidOut(claims, r, txs, k - 1)
         + (if FirstClaim(txs, k - 1) then Payouts.Capped(OwedTo(r, txs[k - 1].from)) else 0)
  }

  /** How many payments that takes. */
  function Payments(claims: bool, r: Accumulators, txs: seq<Tx>, k: nat): nat
    requires k <= |txs|
  {
    if k == 0 || !claims then 0
    else Payments(claims, r, txs, k - 1) + (if FirstClaim(txs, k - 1) && OwedTo(r, txs[k - 1].from) > 0 then 1 else 0)
  }

  /** Where address `a` stands after the first `k` transactions. */
  ghost predicate Moved(claims: bool, s0: Applying, txs: seq<Tx>, k: nat, s: Applying, a: Address)
    requires k <= |txs|
  {
    && Balance(s.ledger, a) + Spent(txs, k, a) + (if a == TREASURY then PaidOut(claims, s0.rewards, txs, k) else 0)
       == Balance(s0.ledger, a) + Received(txs, k, a) + Collected(claims, s0.rewards, txs, k, a)
    && Nonce(s.ledger, a)
       == Nonce(s0.ledger, a) + Sent(txs, k, a) + (if a == TREASURY then Payments(claims, s0.rewards, txs, k) else 0)
    && Left(claims, s0.rewards, txs, k, s.rewards, a)
  }

  /** The accumulators of `a` are as before the block until it claims. */
  ghost predicate Left(claims: bool, r0: Accumulators, txs: seq<Tx>, k: nat, r: Accumulators, a: Address)
    requires k <= |txs|
  {
    && Weight(r.pending, a) == (if claims && Claims(txs, k, a) then 0 else Weight(r0.pending, a))
    && Weight(r.delegatorRewards, a) == (if claims && Claims(txs, k, a) then 0 else Weight(r0.delegatorRewards, a))
  }

  lemma ClaimsNext(txs: seq<Tx>, k: nat, a: Address)
    requires k < |txs|
    ensures Claims(txs, k + 1, a) <==> Claims(txs, k, a) || (txs[k].from == a && txs[k].kind == ClaimRewards)
  {
  }

  /** A transaction that dispatches no claim is a transfer. */
  lemma TransferMoves(claims: bool, s0: Applying, txs: seq<Tx>, k: nat, s: Applying, l: Ledger, fees: u64, a: Address)
    requires k < |txs| && Moved(claims, s0, txs, k, s, a)
    requires Transfer(s.ledger, txs[k].from, txs[k].to, txs[k].amount, txs[k].fee) == (l, Pass)
    requires !claims || txs[k].kind != ClaimRewards
    ensures Moved(claims, s0, txs, k + 1, s.(ledger := l, fees := fees), a)
  {
    TransferBalances(s.ledger, txs[k].from, txs[k].to, txs[k].amount, txs[k].fee, a);
    ClaimsNext(txs, k, a);
  }

  /** What a dispatched claim pays: everything at the first claim, nothing at a later one. */
  lemma ClaimPays(r0: Accumulators, txs: seq<Tx>, k: nat, r: Accumulators)
    requires k < |txs| && txs[k].kind == ClaimRewards && Left(true, r0, txs, k, r, txs[k].from)
    ensures OwedTo(r, txs[k].from) == if FirstClaim(txs, k) then OwedTo(r0, txs[k].from) else 0
  {
  }

  /** A dispatched claim is a transfer and then a payment. */
  lemma ClaimMovesOn(s0: Applying, txs: seq<Tx>, k: nat, s: Applying, s1: Applying, s2: Applying, a: Address)
    requires k < |txs| && txs[k].kind == ClaimRewards && Moved(true, s0, txs, k, s, a)
    requires Left(true, s0.rewards, txs, k, s.rewards, txs[k].from)
    requires Transfer(s.ledger, txs[k].from, txs[k].to, txs[k].amount, txs[k].fee) == (s1.ledger, Pass)
    requires s1.rewards == s.rewards && ClaimMoves(s1, txs[k].from, s2, a)
    ensures Moved(true, s0, txs, k + 1, s2, a)
  {
    TransferBalances(s.ledger, txs[k].from, txs[k].to, txs[k].amount, txs[k].fee, a);
    ClaimPays(s0.rewards, txs, k, s.rewards);
    ClaimsNext(txs, k, a);
  }

  lemma TxMoves(claims: bool, s0: Applying, txs: seq<Tx>, k: nat, s: Applying, a: Address)
    requires k < |txs| && ApplyTx(claims, s, txs[k]).1.Pass?
    requires Moved(claims, s0, txs, k, s, a) && Left(claims, s0.rewards, txs, k, s.rewards, txs[k].from)
    ensures Moved(claims, s0, txs, k + 1, ApplyTx(claims, s, txs[k]).0, a)
  {
    var tx := txs[k];
    var l := Transfer(s.ledger, tx.from, tx.to, tx.amount, tx.fee).0;
    if claims && tx.kind == ClaimRewards {
      var s1 := s.(ledger := l, fees := s.fees + tx.fee);
      ClaimExact(s1, tx.from, a);
      ClaimMovesOn(s0, txs, k, s, s1, PayClaim(s1, tx.from).0, a);
    } else {
      TransferMoves(claims, s0, txs, k, s, l, s.fees + tx.fee, a);
    }
  }

  lemma {:induction false} TxsMove(claims: bool, s0: Applying, txs: seq<Tx>, k: nat, s: Applying)
    requires k <= |txs| && ApplyTxs(claims, s, txs[k..]).1.Pass? && forall a :: Moved(claims, s0, txs, k, s, a)
    ensures forall a :: Moved(claims, s0, txs, |txs|, ApplyTxs(claims, s, txs[k..]).0, a)
    decreases |txs| - k
  {
    if k < |txs| {
      var rest := txs[k..];
      assert rest[0] == txs[k] && rest[1..] == txs[k + 1..];
      var s1, k1 := ApplyTx(claims, s, txs[k]).0, k + 1;
      assert Moved(claims, s0, txs, k, s, txs[k].from);
      forall a
        ensures Moved(claims, s0, txs, k1, s1, a)
      {
        TxMoves(claims, s0, txs, k, s, a);
      }
      TxsMove(claims, s0, txs, k1, s1);
    }
  }

  /** Where everyone stands after all the transactions of a block. */
  lemma AllTxsMove(claims: bool, s: Applying, txs: seq<Tx>, a: Address)
    requires ApplyTxs(claims, s, txs).1.Pass?
    ensures Moved(claims, s, txs, |txs|, ApplyTxs(claims, s, txs).0, a)
  {
    assert txs[0..] == txs;
    TxsMove(claims, s, txs, 0, s);
  }

  // ---- a block ----

  /** What is owed when a block starts: at the reward fork everything before it is forgotten. */
  function Carried(p: Params, c: Chain, b: Block): Accumulators {
    if Activates(p.rewardV2, b.index) then c.rewards.(pending := map[], delegatorRewards := map[]) else c.rewards
  }

  ghost predicate SameDues(r: Accumulators, r': Accumulators) {
    forall a :: Weight(r.pending, a) == Weight(r'.pending, a) && Weight(r.delegatorRewards, a) == Weight(r'.delegatorRewards, a)
  }

  lemma OpenCarries(p: Params, c: Chain, b: Block)
    ensures SameDues(OpenBlock(p, c, b).rewards, Carried(p, c, b))
  {
  }

  lemma {:induction false} PaidByDues(claims: bool, r: Accumulators, r': Accumulators, txs: seq<Tx>, k: nat)
    requires SameDues(r, r') && k <= |txs|
    ensures PaidOut(claims, r, txs, k) == PaidOut(claims, r', txs, k) && Payments(claims, r, txs, k) == Payments(claims, r', txs, k)
  {
    if k > 0 {
      PaidByDues(claims, r, r', txs, k - 1);
    }
  }

  /** What a block brings `a` besides transfers and claims: the coinbase goes to the treasury once
      rewards go through it and to the validator before, half of the fees to the validator. */
  function Granted(p: Params, b: Block, a: Address): nat {
    (if a == (if T.Active(p.rewardV2, b.index) then TREASURY else b.validator) then b.coinbase.amount else 0)
    + (if a == b.validator then Fees(b.txs) / 2 else 0)
  }

  /** The balance and the nonce of `a` after a block, `r` being what was owed before it. */
  ghost predicate Flows(p: Params, l: Ledger, r: Accumulators, b: Block, l': Ledger, a: Address) {
    var claims, n := T.Active(p.rewardV2, b.index), |b.txs|;
    && Balance(l', a) + Spent(b.txs, n, a) + (if a == TREASURY then PaidOut(claims, r, b.txs, n) else 0)
       == Balance(l, a) + Received(b.txs, n, a) + Collected(claims, r, b.txs, n, a) + Granted(p, b, a)
    && Nonce(l', a) == Nonce(l, a) + Sent(b.txs, n, a) + (if a == TREASURY then Payments(claims, r, b.txs, n) else 0)
  }

  lemma MintMoves(p: Params, c: Chain, b: Block, a: Address)
    requires Mint(p, c, b).1.Pass?
    ensures var c' := Mint(p, c, b).0;
            && Nonce(c'.ledger, a) == Nonce(c.ledger, a) && c'.rewards == c.rewards
            && Balance(c'.ledger, a) == Balance(c.ledger, a)
               + (if a == (if T.Active(p.rewardV2, b.index) then TREASURY else b.validator) then b.coinbase.amount else 0)
  {
  }

  lemma PayFeesMoves(c: Chain, b: Block, fees: u64, a: Address)
    requires PayFees(c, b, fees).1.Pass?
    ensures var c' := PayFees(c, b, fees).0;
            && Nonce(c'.ledger, a) == Nonce(c.ledger, a) && c'.rewards == c.rewards
            && Balance(c'.ledger, a) == Balance(c.ledger, a) + (if a == b.validator then fees / 2 else 0)
  {
  }

  /** The three parts of a block put together. */
  lemma FlowsCompose(p: Params, c: Chain, r: Accumulators, c1: Chain, s: Applying, b: Block, l: Ledger, a: Address)
    requires Nonce(c1.ledger, a) == Nonce(c.ledger, a) && Nonce(l, a) == Nonce(s.ledger, a)
    requires Balance(c1.ledger, a) == Balance(c.ledger, a)
             + (if a == (if T.Active(p.rewardV2, b.index) then TREASURY else b.validator) then b.coinbase.amount else 0)
    requires Moved(T.Active(p.rewardV2, b.index), Applying(c1.ledger, r, 0), b.txs, |b.txs|, s, a)
    requires Balance(l, a) == Balance(s.ledger, a) + (if a == b.validator then Fees(b.txs) / 2 else 0)
    ensures Flows(p, c.ledger, r, b, l, a)
  {
  }

  lemma ExecuteFlows(p: Params, c: Chain, b: Block, a: Address)
    requires Execute(p, c, b).1.Pass?
    ensures Flows(p, c.ledger, OpenBlock(p, c, b).rewards, b, Execute(p, c, b).0.ledger, a)
    ensures Left(T.Active(p.rewardV2, b.index), OpenBlock(p, c, b).rewards, b.txs, |b.txs|, Execute(p, c, b).0.rewards, a)
  {
    var c0 := OpenBlock(p, c, b);
    MintMoves(p, c0, b, a);
    var c1 := Mint(p, c0, b).0;
    var claims, s := T.Active(p.rewardV2, b.index), Applying(c1.ledger, c1.rewards, 0);
    AllTxsMove(claims, s, b.txs, a);
    ApplyTxsCharge(claims, s, b.txs);
    var (c2, fees, o) := RunTxs(p, c1, b);
    PayFeesMoves(c2, b, fees, a);
    FlowsCompose(p, c, c0.rewards, c1, ApplyTxs(claims, s, b.txs).0, b, PayFees(c2, b, fees).0.ledger, a);
  }

  /** An executed block, address by address. */
  lemma ExecuteExact(p: Params, c: Chain, b: Block, a: Address)
    requires Execute(p, c, b).1.Pass?
    ensures Flows(p, c.ledger, Carried(p, c, b), b, Execute(p, c, b).0.ledger, a)
    ensures Left(T.Active(p.rewardV2, b.index), Carried(p, c, b), b.txs, |b.txs|, Execute(p, c, b).0.rewards, a)
  {
    ExecuteFlows(p, c, b, a);
    OpenCarries(p, c, b);
    var l := Execute(p, c, b).0.ledger;
    FlowsByDues(p, c.ledger, OpenBlock(p, c, b).rewards, Carried(p, c, b), b, l, a);
  }

  lemma FlowsByDues(p: Params, l: Ledger, r: Accumulators, r': Accumulators, b: Block, l': Ledger, a: Address)
    requires SameDues(r, r') && Flows(p, l, r, b, l', a)
    ensures Flows(p, l, r', b, l', a)
  {
    PaidByDues(T.Active(p.rewardV2, b.index), r, r', b.txs, |b.txs|);
  }
}
