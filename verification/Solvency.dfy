/** Pass 1 against Pass 2, and the treasury against what it owes: an accepted block never runs out
    of money half way, neither for a transfer nor for a claim. */
module Solvency {
  import opened Sums
  import opened BftTypes
  import opened Ledger
  import opened Rewards
  import opened ExecutorSpec
  import opened Conservation
  import T = Tokenomics

  /** Nobody holds the key of the treasury. */
  ghost predicate TreasuryUnsigned(txs: seq<Tx>) {
    forall i :: 0 <= i < |txs| ==> txs[i].from != TREASURY
  }

  /** Pass 2 has at least what Pass 1 works with, for everyone who can sign. */
  ghost predicate Covers(l0: Ledger, w: Working, l: Ledger) {
    forall a :: a != TREASURY ==> WorkingBalance(l0, w, a) <= Balance(l, a) && WorkingNonce(l0, w, a) == Nonce(l, a)
  }

  /** The treasury can pay everything it owes and has `slack` to spare. */
  ghost predicate Solvent(l: Ledger, r: Accumulators, slack: nat) {
    Owed(r) + slack <= Balance(l, TREASURY)
  }

  ghost predicate Short(o: Outcome) {
    o.Fail? && o.error.InsufficientBalance?
  }

  // ---- one transaction ----

  lemma CheckTxWorks(l0: Ledger, w: Working, tx: Tx, chainId: nat, a: Address)
    requires CheckTx(l0, w, tx, chainId).1.Pass?
    ensures var w' := CheckTx(l0, w, tx, chainId).0;
            && tx.nonce == WorkingNonce(l0, w, tx.from) && tx.amount + tx.fee <= WorkingBalance(l0, w, tx.from)
            && WorkingBalance(l0, w', a) == WorkingBalance(l0, w, a) - (if a == tx.from then tx.amount + tx.fee else 0)
            && WorkingNonce(l0, w', a)
               == if a == tx.from then (tx.nonce + 1) % (U64_MAX + 1) else WorkingNonce(l0, w, a)
  {
  }

  lemma TransferCovers(l0: Ledger, w: Working, l: Ledger, tx: Tx, chainId: nat)
    requires CheckTx(l0, w, tx, chainId).1.Pass? && Covers(l0, w, l) && tx.from != TREASURY
    ensures var (l', o) := Transfer(l, tx.from, tx.to, tx.amount, tx.fee);
            && !Short(o)
            && (o.Pass? ==> Covers(l0, CheckTx(l0, w, tx, chainId).0, l') && Balance(l, TREASURY) <= Balance(l', TREASURY))
  {
    CheckTxWorks(l0, w, tx, chainId, tx.from);
    var (l', o) := Transfer(l, tx.from, tx.to, tx.amount, tx.fee);
    if o.Pass? {
      forall a | a != TREASURY
        ensures var w' := CheckTx(l0, w, tx, chainId).0;
                WorkingBalance(l0, w', a) <= Balance(l', a) && WorkingNonce(l0, w', a) == Nonce(l', a)
      {
        CheckTxWorks(l0, w, tx, chainId, a);
        TransferBalances(l, tx.from, tx.to, tx.amount, tx.fee, a);
      }
      TransferBalances(l, tx.from, tx.to, tx.amount, tx.fee, TREASURY);
    }
  }

  /** A claim is always covered by a solvent treasury, and leaves it as solvent as it was. */
  lemma ClaimCovered(l0: Ledger, w: Working, s: Applying, claimer: Address, slack: nat)
    requires Covers(l0, w, s.ledger) && Solvent(s.ledger, s.rewards, slack) && claimer != TREASURY
    ensures var (s', o) := PayClaim(s, claimer);
            !Short(o) && (o.Pass? ==> Covers(l0, w, s'.ledger) && Solvent(s'.ledger, s'.rewards, slack))
  {
    var amount := Peek(s.rewards, claimer);
    PeekWithinOwed(s.rewards, claimer);
    DrainOwed(s.rewards, claimer);
    var (l', o) := Transfer(s.ledger, TREASURY, claimer, amount, 0);
    if o.Pass? {
      TransferBalances(s.ledger, TREASURY, claimer, amount, 0, TREASURY);
      forall a | a != TREASURY
        ensures Balance(s.ledger, a) <= Balance(l', a) && Nonce(l', a) == Nonce(s.ledger, a)
      {
        TransferBalances(s.ledger, TREASURY, claimer, amount, 0, a);
      }
    }
  }

  /** What one transaction of an accepted block does in Pass 2. */
  lemma TxCovered(l0: Ledger, w: Working, claims: bool, s: Applying, tx: Tx, chainId: nat, slack: nat)
    requires CheckTx(l0, w, tx, chainId).1.Pass? && Covers(l0, w, s.ledger) && tx.from != TREASURY
    requires claims ==> Solvent(s.ledger, s.rewards, slack)
    ensures var (s', o) := ApplyTx(claims, s, tx);
            && !Short(o)
            && (o.Pass? ==> Covers(l0, CheckTx(l0, w, tx, chainId).0, s'.ledger)
                            && (claims ==> Solvent(s'.ledger, s'.rewards, slack)))
  {
    TransferCovers(l0, w, s.ledger, tx, chainId);
    var (l, o) := Transfer(s.ledger, tx.from, tx.to, tx.amount, tx.fee);
    if o.Pass? && claims && s.fees + tx.fee <= U64_MAX {
      ClaimCovered(l0, CheckTx(l0, w, tx, chainId).0, s.(ledger := l, fees := s.fees + tx.fee), tx.from, slack);
    }
  }

  // ---- all transactions of a block ----

  /** The coinbase leaves Pass 1's view of the accounts intact. */
  lemma MintCovers(p: Params, c: Chain, b: Block)
    requires Mint(p, OpenBlock(p, c, b), b).1.Pass?
    ensures Covers(c.ledger, NO_WORK, Mint(p, OpenBlock(p, c, b), b).0.ledger)
  {
  }

  ghost predicate Covered(claims: bool, s: Applying, o: Outcome, slack: nat) {
    !Short(o) && (o.Pass? && claims ==> Solvent(s.ledger, s.rewards, slack))
  }

  lemma {:induction false} TxsCovered(l0: Ledger, w: Working, claims: bool, s: Applying, txs: seq<Tx>, chainId: nat, slack: nat)
    requires CheckTxs(l0, w, txs, chainId).Pass? && Covers(l0, w, s.ledger) && TreasuryUnsigned(txs)
    requires claims ==> Solvent(s.ledger, s.rewards, slack)
    ensures var (s', o) := ApplyTxs(claims, s, txs); Covered(claims, s', o, slack)
    decreases |txs|
  {
    if txs != [] {
      TxCovered(l0, w, claims, s, txs[0], chainId, slack);
      var (w1, o1) := CheckTx(l0, w, txs[0], chainId);
      var (s1, o) := ApplyTx(claims, s, txs[0]);
      if o.Pass? {
        TxsCovered(l0, w1, claims, s1, txs[1..], chainId, slack);
      }
    }
  }

  // ---- what can still fail ----

  /** A nonce to spare and, for a claim that is dispatched, the right recipient. */
  predicate Executable(claims: bool, tx: Tx) {
    tx.nonce < U64_MAX && (claims && tx.kind == ClaimRewards ==> tx.to == TREASURY)
  }

  ghost predicate Roomy(s: Applying, n: nat) {
    Supply(s.ledger) + s.fees <= U64_MAX && Nonce(s.ledger, TREASURY) + n <= U64_MAX
  }

  lemma ClaimPasses(s: Applying, claimer: Address, n: nat)
    requires Solvent(s.ledger, s.rewards, 0) && Roomy(s, n + 1)
    ensures PayClaim(s, claimer).1.Pass? && Roomy(PayClaim(s, claimer).0, n)
  {
    var amount := Peek(s.rewards, claimer);
    PeekWithinOwed(s.rewards, claimer);
    TransferPassesIff(s.ledger, TREASURY, claimer, amount, 0);
    PayClaimSupply(s, claimer);
    if amount > 0 {
      TransferBalances(s.ledger, TREASURY, claimer, amount, 0, TREASURY);
    }
  }

  lemma TxPassesIff(l0: Ledger, w: Working, claims: bool, s: Applying, tx: Tx, chainId: nat, n: nat)
    requires CheckTx(l0, w, tx, chainId).1.Pass? && Covers(l0, w, s.ledger) && tx.from != TREASURY
    requires claims ==> Solvent(s.ledger, s.rewards, 0)
    requires Roomy(s, n + 1)
    ensures ApplyTx(claims, s, tx).1.Pass? <==> Executable(claims, tx)
    ensures ApplyTx(claims, s, tx).1.Pass? ==> Roomy(ApplyTx(claims, s, tx).0, n)
  {
    CheckTxWorks(l0, w, tx, chainId, tx.from);
    TransferPassesIff(s.ledger, tx.from, tx.to, tx.amount, tx.fee);
    if tx.nonce < U64_MAX {
      BalanceWithinSupply(s.ledger, tx.from);
      TransferSupply(s.ledger, tx.from, tx.to, tx.amount, tx.fee);
      TransferBalances(s.ledger, tx.from, tx.to, tx.amount, tx.fee, TREASURY);
      var l := Transfer(s.ledger, tx.from, tx.to, tx.amount, tx.fee).0;
      if claims {
        ClaimPasses(s.(ledger := l, fees := s.fees + tx.fee), tx.from, n);
      }
    }
  }

  ghost predicate AllExecutable(claims: bool, txs: seq<Tx>) {
    forall i :: 0 <= i < |txs| ==> Executable(claims, txs[i])
  }

  lemma ExecutableCons(claims: bool, txs: seq<Tx>)
    requires txs != []
    ensures AllExecutable(claims, txs) <==> Executable(claims, txs[0]) && AllExecutable(claims, txs[1..])
  {
    assert txs == [txs[0]] + txs[1..];
  }

  /** The transactions of a block that Pass 1 accepted all go through if and only if each of them is
      executable. */
  lemma {:induction false} TxsPassIff(l0: Ledger, w: Working, claims: bool, s: Applying, txs: seq<Tx>, chainId: nat)
    requires CheckTxs(l0, w, txs, chainId).Pass? && Covers(l0, w, s.ledger) && TreasuryUnsigned(txs)
    requires claims ==> Solvent(s.ledger, s.rewards, 0)
    requires Roomy(s, |txs|)
    ensures ApplyTxs(claims, s, txs).1.Pass? <==> AllExecutable(claims, txs)
    decreases |txs|
  {
    if txs != [] {
      TxCovered(l0, w, claims, s, txs[0], chainId, 0);
      TxPassesIff(l0, w, claims, s, txs[0], chainId, |txs| - 1);
      var (w1, o1) := CheckTx(l0, w, txs[0], chainId);
      var (s1, o) := ApplyTx(claims, s, txs[0]);
      if o.Pass? {
        TxsPassIff(l0, w1, claims, s1, txs[1..], chainId);
      }
      ExecutableCons(claims, txs);
    }
  }
}
