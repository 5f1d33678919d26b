/** Pass 1 read off the block and the ledger alone: which blocks it lets through, and what it
    answers to the others. */
module Admission {
  import opened BftTypes
  import opened Ledger
  import opened StateTrie
  import opened ExecutorSpec
  import opened Conservation
  import opened Solvency
  import T = Tokenomics

  /** How many of the first `k` transactions `a` sent. */
  function Sent(txs: seq<Tx>, k: nat, a: Address): nat
    requires k <= |txs|
  {
    if k == 0 then 0 else Sent(txs, k - 1, a) + (if txs[k - 1].from == a then 1 else 0)
  }

  /** The amounts and fees `a` offers in the first `k` transactions. */
  function Spent(txs: seq<Tx>, k: nat, a: Address): nat
    requires k <= |txs|
  {
    if k == 0 then 0
    else Spent(txs, k - 1, a) + (if txs[k - 1].from == a then txs[k - 1].amount + txs[k - 1].fee else 0)
  }

  /** The nonce a transaction must carry; the working nonce of Pass 1 wraps. */
  function ExpectedNonce(l: Ledger, txs: seq<Tx>, i: nat): u64
    requires i < |txs|
  {
    (Nonce(l, txs[i].from) + Sent(txs, i, txs[i].from)) % (U64_MAX + 1)
  }

  /** What a transaction must be on its own: signed for this chain, with the minimum fee, and moving
      something unless it is a staking operation. */
  predicate WellFormed(tx: Tx, chainId: nat) {
    && tx.signed && tx.chainId == chainId
    && tx.fee >= MIN_TX_FEE
    && (tx.kind == Native ==> tx.amount > 0)
    && tx.amount + tx.fee <= U64_MAX
  }

  /** It carries the nonce that is due, and its sender can pay for it. */
  predicate Fits(tx: Tx, chainId: nat, expected: u64, have: int) {
    WellFormed(tx, chainId) && tx.nonce == expected && tx.amount + tx.fee <= have
  }

  /** What it must be at its place in the block: next in the sender's count, and paid for by what
      the sender had before the block, less what it spent since. */
  predicate Admitted(l: Ledger, txs: seq<Tx>, chainId: nat, i: nat)
    requires i < |txs|
  {
    Fits(txs[i], chainId, ExpectedNonce(l, txs, i), Balance(l, txs[i].from) - Spent(txs, i, txs[i].from))
  }

  predicate AdmittedUpTo(l: Ledger, txs: seq<Tx>, chainId: nat, k: nat)
    requires k <= |txs|
  {
    forall i :: 0 <= i < k ==> Admitted(l, txs, chainId, i)
  }

  /** An earlier transaction of the same sender carries the same nonce. */
  predicate Repeats(txs: seq<Tx>, i: nat)
    requires i < |txs|
  {
    exists j :: 0 <= j < i && txs[j].from == txs[i].from && txs[j].nonce == txs[i].nonce
  }

  /** The answer to a transaction that is not admitted, in the order of the checks: `expected` is the
      nonce it should carry and `have` what its sender has left. */
  function RefusalOf(tx: Tx, chainId: nat, repeats: bool, expected: u64, have: nat): Error {
    if repeats then InvalidBlock
    else if tx.fee < MIN_TX_FEE || (tx.amount == 0 && tx.kind == Native) then InvalidTransaction
    else if tx.nonce != expected then InvalidNonce(expected, tx.nonce)
    else if !WellFormed(tx, chainId) then InvalidTransaction
    else InsufficientBalance(have, tx.amount + tx.fee)
  }

  function Refusal(l: Ledger, txs: seq<Tx>, chainId: nat, i: nat): Error
    requires i < |txs| && Spent(txs, i, txs[i].from) <= Balance(l, txs[i].from)
  {
    RefusalOf(txs[i], chainId, Repeats(txs, i), ExpectedNonce(l, txs, i),
              Balance(l, txs[i].from) - Spent(txs, i, txs[i].from))
  }

  // ---- the working copies ----

  /** The working copies after `k` transactions. */
  ghost predicate Tracks(l: Ledger, w: Working, txs: seq<Tx>, k: nat)
    requires k <= |txs|
  {
    (forall a :: Copies(l, w, txs, k, a)) && SeenIs(w.seen, txs, k)
  }

  ghost predicate Copies(l: Ledger, w: Working, txs: seq<Tx>, k: nat, a: Address)
    requires k <= |txs|
  {
    && WorkingBalance(l, w, a) + Spent(txs, k, a) == Balance(l, a)
    && WorkingNonce(l, w, a) == (Nonce(l, a) + Sent(txs, k, a)) % (U64_MAX + 1)
  }

  ghost predicate SeenIs(seen: set<(Address, u64)>, txs: seq<Tx>, k: nat)
    requires k <= |txs|
  {
    && (forall i :: 0 <= i < k ==> (txs[i].from, txs[i].nonce) in seen)
    && (forall e :: e in seen ==> exists i :: 0 <= i < k && (txs[i].from, txs[i].nonce) == e)
  }

  /** Every admitted transaction costs its sender the minimum fee. */
  lemma {:induction false} FeesAddUp(l: Ledger, txs: seq<Tx>, chainId: nat, k: nat, a: Address)
    requires k <= |txs| && AdmittedUpTo(l, txs, chainId, k)
    ensures Sent(txs, k, a) * MIN_TX_FEE <= Spent(txs, k, a) <= Balance(l, a)
  {
    if k > 0 {
      FeesAddUp(l, txs, chainId, k - 1, a);
      assert Admitted(l, txs, chainId, k - 1);
    }
  }

  lemma {:induction false} SentGrows(txs: seq<Tx>, j: nat, k: nat)
    requires j < k <= |txs|
    ensures Sent(txs, j, txs[j].from) < Sent(txs, k, txs[j].from)
  {
    if k > j + 1 {
      SentGrows(txs, j, k - 1);
    }
  }

  lemma WrapsApart(n: nat, x: nat, y: nat)
    requires x < y <= U64_MAX
    ensures (n + x) % (U64_MAX + 1) != (n + y) % (U64_MAX + 1)
  {
  }

  /** A sender cannot afford enough transactions for the nonces to come round again, so the check
      for repeated nonces never decides on its own. */
  lemma NeverRepeats(l: Ledger, txs: seq<Tx>, chainId: nat, i: nat)
    requires i < |txs| && AdmittedUpTo(l, txs, chainId, i) && txs[i].nonce == ExpectedNonce(l, txs, i)
    ensures !Repeats(txs, i)
  {
    var a := txs[i].from;
    FeesAddUp(l, txs, chainId, i, a);
    forall j | 0 <= j < i && txs[j].from == a
      ensures txs[j].nonce != txs[i].nonce
    {
      SentGrows(txs, j, i);
      assert Admitted(l, txs, chainId, j);
      WrapsApart(Nonce(l, a), Sent(txs, j, a), Sent(txs, i, a));
    }
  }

  /** One account's working copy after the next transaction. */
  lemma CopyNext(l: Ledger, w: Working, txs: seq<Tx>, k: nat, chainId: nat, a: Address)
    requires k < |txs| && CheckTx(l, w, txs[k], chainId).1.Pass? && Copies(l, w, txs, k, a)
    ensures Copies(l, CheckTx(l, w, txs[k], chainId).0, txs, k + 1, a)
  {
    CheckTxWorks(l, w, txs[k], chainId, a);
    NextWraps(Nonce(l, a) + Sent(txs, k, a));
  }

  lemma SeenNext(seen: set<(Address, u64)>, txs: seq<Tx>, k: nat)
    requires k < |txs| && SeenIs(seen, txs, k)
    ensures SeenIs(seen + {(txs[k].from, txs[k].nonce)}, txs, k + 1)
  {
  }

  lemma TracksNext(l: Ledger, w: Working, txs: seq<Tx>, k: nat, chainId: nat)
    requires k < |txs| && Tracks(l, w, txs, k) && CheckTx(l, w, txs[k], chainId).1.Pass?
    ensures Tracks(l, CheckTx(l, w, txs[k], chainId).0, txs, k + 1)
  {
    SeenNext(w.seen, txs, k);
    var w', k' := CheckTx(l, w, txs[k], chainId).0, k + 1;
    forall a
      ensures Copies(l, w', txs, k', a)
    {
      CopyNext(l, w, txs, k, chainId, a);
    }
  }

  lemma NextWraps(n: nat)
    ensures (n % (U64_MAX + 1) + 1) % (U64_MAX + 1) == (n + 1) % (U64_MAX + 1)
  {
  }

  /** What the working copies say about the next transaction. */
  ghost predicate Reads(l: Ledger, w: Working, txs: seq<Tx>, k: nat)
    requires k < |txs|
  {
    && (Repeats(txs, k) <==> (txs[k].from, txs[k].nonce) in w.seen)
    && WorkingBalance(l, w, txs[k].from) + Spent(txs, k, txs[k].from) == Balance(l, txs[k].from)
    && WorkingNonce(l, w, txs[k].from) == ExpectedNonce(l, txs, k)
  }

  lemma TracksReads(l: Ledger, w: Working, txs: seq<Tx>, k: nat)
    requires k < |txs| && Tracks(l, w, txs, k)
    ensures Reads(l, w, txs, k)
  {
    var tx := txs[k];
    assert Copies(l, w, txs, k, tx.from);
    if (tx.from, tx.nonce) in w.seen {
      var i :| 0 <= i < k && (txs[i].from, txs[i].nonce) == (tx.from, tx.nonce);
      assert Repeats(txs, k);
    }
  }

  lemma CheckVerdict(l: Ledger, w: Working, tx: Tx, chainId: nat, repeats: bool, expected: u64, have: nat)
    requires repeats <==> (tx.from, tx.nonce) in w.seen
    requires WorkingNonce(l, w, tx.from) == expected && WorkingBalance(l, w, tx.from) == have
    requires Fits(tx, chainId, expected, have) ==> !repeats
    ensures CheckTx(l, w, tx, chainId).1
            == if Fits(tx, chainId, expected, have) then Pass else Fail(RefusalOf(tx, chainId, repeats, expected, have))
  {
  }

  /** One transaction: let through exactly when it is admitted. */
  lemma CheckedExactly(l: Ledger, w: Working, txs: seq<Tx>, k: nat, chainId: nat)
    requires k < |txs| && Reads(l, w, txs, k) && (Admitted(l, txs, chainId, k) ==> !Repeats(txs, k))
    ensures Spent(txs, k, txs[k].from) <= Balance(l, txs[k].from)
    ensures CheckTx(l, w, txs[k], chainId).1
            == if Admitted(l, txs, chainId, k) then Pass else Fail(Refusal(l, txs, chainId, k))
  {
    var a := txs[k].from;
    CheckVerdict(l, w, txs[k], chainId, Repeats(txs, k), ExpectedNonce(l, txs, k), Balance(l, a) - Spent(txs, k, a));
  }

  /** The first transaction that is not admitted. */
  predicate FirstRefused(l: Ledger, txs: seq<Tx>, chainId: nat, i: nat)
    requires i < |txs|
  {
    AdmittedUpTo(l, txs, chainId, i) && !Admitted(l, txs, chainId, i)
  }

  /** The answer to a whole list. */
  ghost predicate Answers(l: Ledger, txs: seq<Tx>, chainId: nat, o: Outcome) {
    && (o.Pass? <==> AdmittedUpTo(l, txs, chainId, |txs|))
    && (o.Fail? ==> exists i :: 0 <= i < |txs| && RefusedAt(l, txs, chainId, i, o))
  }

  predicate RefusedAt(l: Ledger, txs: seq<Tx>, chainId: nat, i: nat, o: Outcome)
    requires i < |txs|
  {
    && FirstRefused(l, txs, chainId, i)
    && Spent(txs, i, txs[i].from) <= Balance(l, txs[i].from)
    && o == Fail(Refusal(l, txs, chainId, i))
  }

  lemma {:induction false} ListAnswered(l: Ledger, w: Working, txs: seq<Tx>, k: nat, chainId: nat)
    requires k <= |txs| && Tracks(l, w, txs, k) && AdmittedUpTo(l, txs, chainId, k)
    ensures Answers(l, txs, chainId, CheckTxs(l, w, txs[k..], chainId))
    decreases |txs| - k
  {
    if k < |txs| {
      var rest := txs[k..];
      assert rest[0] == txs[k] && rest[1..] == txs[k + 1..];
      TracksReads(l, w, txs, k);
      if Admitted(l, txs, chainId, k) {
        NeverRepeats(l, txs, chainId, k);
      }
      CheckedExactly(l, w, txs, k, chainId);
      if Admitted(l, txs, chainId, k) {
        TracksNext(l, w, txs, k, chainId);
        ListAnswered(l, CheckTx(l, w, txs[k], chainId).0, txs, k + 1, chainId);
      } else {
        assert RefusedAt(l, txs, chainId, k, CheckTxs(l, w, rest, chainId));
      }
    }
  }

  // ---- the whole of Pass 1 ----

  /** The block follows the last one, in place, in hash and in time. */
  predicate Succeeds(last: Block, b: Block, now: nat) {
    && b.index == last.index + 1
    && b.previousHash == last.hash
    && b.hash == CalculateHash(b)
    && last.timestamp <= b.timestamp <= now + 15
  }

  /** No transaction stands in the block twice, and the only coinbase is the first one. */
  predicate NoTxTwice(b: Block) {
    && (forall i :: 0 <= i < |b.txs| ==> b.txs[i].from != COINBASE && b.txs[i].id != b.coinbase.id)
    && (forall i, j :: 0 <= i < j < |b.txs| ==> b.txs[i].id != b.txs[j].id)
  }

  predicate HeaderOk(p: Params, c: Chain, b: Block, now: nat) {
    && c.blocks != []
    && Succeeds(c.blocks[|c.blocks| - 1], b, now)
    && NoTxTwice(b)
    && b.coinbase.to == b.validator
    && b.coinbase.amount == Reward(p, c.blocks, c.minted)
  }

  lemma DistinctIds(b: Block)
    ensures Distinct(AllIds(b)) && (forall i :: 0 <= i < |b.txs| ==> b.txs[i].from != COINBASE) <==> NoTxTwice(b)
  {
    var ids := AllIds(b);
    assert ids[0] == b.coinbase.id && forall i :: 0 <= i < |b.txs| ==> ids[i + 1] == b.txs[i].id;
    if Distinct(ids) {
      forall i, j | 0 <= i < j < |b.txs|
        ensures b.txs[i].id != b.txs[j].id
      {
        assert ids[i + 1] != ids[j + 1];
      }
    }
  }

  /** Pass 1 lets a block through if and only if its header is right and every transaction is
      admitted; a bad header is answered first, then the first transaction that is not admitted. */
  lemma Pass1Exact(p: Params, c: Chain, b: Block, now: nat)
    ensures Pass1(p, c, b, now).Pass? <==> HeaderOk(p, c, b, now) && AdmittedUpTo(c.ledger, b.txs, p.chainId, |b.txs|)
    ensures !HeaderOk(p, c, b, now) ==> Pass1(p, c, b, now) == Fail(InvalidBlock)
    ensures HeaderOk(p, c, b, now) ==> Answers(c.ledger, b.txs, p.chainId, Pass1(p, c, b, now))
  {
    DistinctIds(b);
    assert b.txs[0..] == b.txs;
    StartTracks(c.ledger, b.txs);
    ListAnswered(c.ledger, NO_WORK, b.txs, 0, p.chainId);
  }

  lemma StartTracks(l: Ledger, txs: seq<Tx>)
    ensures Tracks(l, NO_WORK, txs, 0)
  {
  }

  /** A block that is not let through changes nothing and is answered as Pass 1 says. */
  lemma RefusedUntouched(p: Params, c: Chain, b: Block, env: Env)
    requires !(HeaderOk(p, c, b, env.now) && AdmittedUpTo(c.ledger, b.txs, p.chainId, |b.txs|))
    ensures AddBlock(p, c, b, env).0 == c && AddBlock(p, c, b, env).1.Fail?
  {
    Pass1Exact(p, c, b, env.now);
  }

  /** Over every run: each transaction of each accepted block was signed for this chain, is next in
      its sender's count and was paid for by what its sender held before the block; each block
      followed the last one and the clock, and paid its validator the scheduled reward. */
  lemma RunAdmitted(p: Params, cs: seq<Chain>, bs: seq<Block>, es: seq<Env>, n: nat)
    requires IsRun(p, cs, bs, es) && n < |bs|
    ensures HeaderOk(p, cs[n], bs[n], es[n].now)
    ensures AdmittedUpTo(cs[n].ledger, bs[n].txs, p.chainId, |bs[n].txs|)
  {
    assert AcceptedAt(p, cs, bs, es, n);
    Pass1Exact(p, cs[n], bs[n], es[n].now);
  }
}
