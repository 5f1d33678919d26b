/** The trie over whole runs: once every touched address is rewritten, incremental updates agree with
    a trie built from scratch after every block. */
module TrieMirror {
  import opened BftTypes
  import opened Ledger
  import Rewards
  import opened StateTrie
  import opened ExecutorSpec
  import opened Conservation
  import T = Tokenomics

  // ---- what a block touches ----

  /** Changed and new accounts are touched, touched accounts exist, and accounts are never removed. */
  ghost predicate Tracked(l: Ledger, l': Ledger) {
    && TouchesChanges(l, l')
    && l'.touched <= l.touched + l'.accounts.Keys
    && l.accounts.Keys <= l'.accounts.Keys <= l.accounts.Keys + l'.touched
  }

  lemma TrackedCompose(l: Ledger, l1: Ledger, l2: Ledger)
    requires Tracked(l, l1) && Tracked(l1, l2)
    ensures Tracked(l, l2)
  {
    forall a | a !in l2.touched
      ensures Balance(l2, a) == Balance(l, a) && Nonce(l2, a) == Nonce(l, a)
    {
      assert Balance(l2, a) == Balance(l1, a);
    }
  }

  lemma CreditTracked(l: Ledger, a: Address, amount: u64)
    ensures Tracked(l, Credit(l, a, amount).0)
  {
  }

  lemma TransferTracked(l: Ledger, from: Address, to: Address, amount: u64, fee: u64)
    requires Transfer(l, from, to, amount, fee).1.Pass?
    ensures Tracked(l, Transfer(l, from, to, amount, fee).0)
  {
    TransferTouches(l, from, to, amount, fee);
  }

  lemma ApplyTxTracked(claims: bool, s: Applying, tx: Tx)
    requires ApplyTx(claims, s, tx).1.Pass?
    ensures Tracked(s.ledger, ApplyTx(claims, s, tx).0.ledger)
  {
    TransferTracked(s.ledger, tx.from, tx.to, tx.amount, tx.fee);
    var l := Transfer(s.ledger, tx.from, tx.to, tx.amount, tx.fee).0;
    var l' := ApplyTx(claims, s, tx).0.ledger;
    if l' != l {
      var amount := Rewards.Peek(s.rewards, tx.from);
      TransferTracked(l, TREASURY, tx.from, amount, 0);
      TrackedCompose(s.ledger, l, l');
    }
  }

  lemma {:induction false} ApplyTxsTracked(claims: bool, s: Applying, txs: seq<Tx>)
    requires ApplyTxs(claims, s, txs).1.Pass?
    ensures Tracked(s.ledger, ApplyTxs(claims, s, txs).0.ledger)
    decreases |txs|
  {
    if txs != [] {
      ApplyTxTracked(claims, s, txs[0]);
      var s1 := ApplyTx(claims, s, txs[0]).0;
      ApplyTxsTracked(claims, s1, txs[1..]);
      var l' := ApplyTxs(claims, s1, txs[1..]).0.ledger;
      TrackedCompose(s.ledger, s1.ledger, l');
    }
  }

  lemma PayFeesTracked(c: Chain, b: Block, fees: u64)
    ensures Tracked(c.ledger, PayFees(c, b, fees).0.ledger)
  {
    if fees - CeilHalf(fees) > 0 {
      CreditTracked(c.ledger, b.validator, fees - CeilHalf(fees));
    }
  }

  lemma ExecuteTracked(p: Params, c: Chain, b: Block)
    requires Execute(p, c, b).1.Pass?
    ensures Tracked(c.ledger.(touched := {}), Execute(p, c, b).0.ledger)
  {
    var c0 := OpenBlock(p, c, b);
    CreditTracked(c0.ledger, CoinbaseRecipient(p, b), b.coinbase.amount);
    var c1 := Mint(p, c0, b).0;
    ApplyTxsTracked(T.Active(p.rewardV2, b.index), Applying(c1.ledger, c1.rewards, 0), b.txs);
    var (c2, fees, o) := RunTxs(p, c1, b);
    PayFeesTracked(c2, b, fees);
    var c3 := PayFees(c2, b, fees).0;
    TrackedCompose(c0.ledger, c1.ledger, c2.ledger);
    TrackedCompose(c0.ledger, c2.ledger, c3.ledger);
  }

  // ---- one block ----

  /** The trie is the one a fresh backfill would build. */
  ghost predicate Mirrors(c: Chain) {
    Holds(c.trie, c.ledger, c.ledger.accounts.Keys)
  }

  lemma CommittedTrie(p: Params, c: Chain, b: Block, env: Env)
    requires Commit(p, c, b, env).1.Pass?
    ensures var c' := Commit(p, c, b, env).0;
            c'.ledger.accounts == c.ledger.accounts && c'.trie == Refresh(c.trie, c.ledger, TouchList(p, c.ledger, b))
  {
  }

  lemma HoldsByAccounts(t: Trie, l: Ledger, l': Ledger, s: set<Address>)
    requires l.accounts == l'.accounts
    ensures Holds(t, l, s) <==> Holds(t, l', s)
  {
    assert forall a :: LeafOf(l, a) == LeafOf(l', a);
  }

  lemma WrittenMirrorsIff(c: Chain, l1: Ledger, touched: set<Address>, c': Chain)
    requires Mirrors(c) && Tracked(c.ledger.(touched := {}), l1)
    requires c'.ledger.accounts == l1.accounts && c'.trie == Refresh(c.trie, l1, touched)
    ensures Mirrors(c') <==> !Missed(c.ledger, l1, touched) && SpellingsAgree(l1, touched)
  {
    RefreshHoldsIff(c.trie, c.ledger, l1, touched);
    HoldsByAccounts(c'.trie, c'.ledger, l1, l1.accounts.Keys);
  }

  /** No two spellings of one address get in each other's way: accounts that share a key share a leaf,
      and no address without an account erases the leaf of one that has it. */
  ghost predicate SpellingsAgree(l: Ledger, touched: set<Address>) {
    LeavesAgree(l, l.accounts.Keys) && !Erased(l, touched)
  }

  /** An accepted block keeps the trie in step with the accounts if and only if its touch list misses no
      changed leaf and the spellings agree. */
  lemma AcceptedMirrorsIff(p: Params, c: Chain, b: Block, env: Env)
    requires AddBlock(p, c, b, env).1.Pass? && Mirrors(c)
    ensures var l1 := Execute(p, c, b).0.ledger;
            var touched := TouchList(p, l1, b);
            Mirrors(AddBlock(p, c, b, env).0) <==> !Missed(c.ledger, l1, touched) && SpellingsAgree(l1, touched)
  {
    AcceptedPasses(p, c, b, env);
    ExecuteTracked(p, c, b);
    ExecuteKeepsTrie(p, c, b);
    var c1 := Execute(p, c, b).0;
    CommittedTrie(p, c1, b, env);
    WrittenMirrorsIff(c, c1.ledger, TouchList(p, c1.ledger, b), AddBlock(p, c, b, env).0);
  }

  lemma ExecuteKeepsTrie(p: Params, c: Chain, b: Block)
    ensures Execute(p, c, b).0.trie == c.trie
  {
  }

  lemma KeyLeafIs(l: Ledger, a: Address)
    requires LeavesAgree(l, l.accounts.Keys) && a in l.accounts
    ensures KeyLeaf(l, KeyOf(a)) == LeafOf(l, a)
  {
  }

  lemma UntouchedLeaf(l: Ledger, l1: Ledger, a: Address)
    requires Tracked(l.(touched := {}), l1) && a in l1.accounts && a !in l1.touched
    ensures a in l.accounts && LeafOf(l1, a) == LeafOf(l, a)
  {
    var l0 := l.(touched := {});
    assert Balance(l1, a) == Balance(l0, a) && Nonce(l1, a) == Nonce(l0, a);
  }

  lemma TouchedMissesNothing(l: Ledger, l1: Ledger, touched: set<Address>)
    requires Tracked(l.(touched := {}), l1) && l1.touched <= touched && LeavesAgree(l, l.accounts.Keys)
    ensures !Missed(l, l1, touched)
  {
    forall a | a in l1.accounts && !Writes(touched, KeyOf(a))
      ensures LeafOf(l1, a) == KeyLeaf(l, KeyOf(a))
    {
      UntouchedLeaf(l, l1, a);
      KeyLeafIs(l, a);
    }
  }

  /** With the extended touch list nothing is missed. */
  lemma ExtendedListMissesNothing(p: Params, c: Chain, b: Block)
    requires Execute(p, c, b).1.Pass? && T.Active(p.extendedTouch, b.index) && Mirrors(c)
    ensures var l1 := Execute(p, c, b).0.ledger; !Missed(c.ledger, l1, TouchList(p, l1, b))
  {
    ExecuteTracked(p, c, b);
    var l1 := Execute(p, c, b).0.ledger;
    TouchedMissesNothing(c.ledger, l1, TouchList(p, l1, b));
  }

  // ---- runs ----

  /** The spellings agree once block `i` is executed. */
  ghost predicate SpelledAt(p: Params, cs: seq<Chain>, bs: seq<Block>, i: nat)
    requires i < |bs| == |cs| - 1
  {
    var l1 := Execute(p, cs[i], bs[i]).0.ledger;
    SpellingsAgree(l1, TouchList(p, l1, bs[i]))
  }

  ghost predicate ExtendedRun(p: Params, cs: seq<Chain>, bs: seq<Block>, es: seq<Env>) {
    IsRun(p, cs, bs, es) && forall i :: 0 <= i < |bs| ==> T.Active(p.extendedTouch, bs[i].index)
  }

  /** From a state in step, block `i` leaves one in step if and only if the spellings agree. */
  ghost predicate StepMirrors(p: Params, cs: seq<Chain>, bs: seq<Block>, i: nat)
    requires i < |bs| == |cs| - 1
  {
    Mirrors(cs[i]) ==> (Mirrors(cs[i + 1]) <==> SpelledAt(p, cs, bs, i))
  }

  lemma StepsMirror(p: Params, cs: seq<Chain>, bs: seq<Block>, es: seq<Env>)
    requires ExtendedRun(p, cs, bs, es)
    ensures forall i :: 0 <= i < |bs| ==> StepMirrors(p, cs, bs, i)
  {
    forall i | 0 <= i < |bs|
      ensures StepMirrors(p, cs, bs, i)
    {
      assert AcceptedAt(p, cs, bs, es, i);
      if Mirrors(cs[i]) {
        AcceptedPasses(p, cs[i], bs[i], es[i]);
        ExtendedListMissesNothing(p, cs[i], bs[i]);
        AcceptedMirrorsIff(p, cs[i], bs[i], es[i]);
      }
    }
  }

  ghost predicate MirrorsUpTo(cs: seq<Chain>, n: nat)
    requires n < |cs|
  {
    forall i :: 0 <= i <= n ==> Mirrors(cs[i])
  }

  ghost predicate SpelledUpTo(p: Params, cs: seq<Chain>, bs: seq<Block>, n: nat)
    requires n <= |bs| == |cs| - 1
  {
    forall i :: 0 <= i < n ==> SpelledAt(p, cs, bs, i)
  }

  lemma {:induction false} SpelledThenMirrors(p: Params, cs: seq<Chain>, bs: seq<Block>, n: nat, i: nat)
    requires i <= n <= |bs| == |cs| - 1 && Mirrors(cs[0]) && SpelledUpTo(p, cs, bs, n)
    requires forall k :: 0 <= k < |bs| ==> StepMirrors(p, cs, bs, k)
    ensures Mirrors(cs[i])
    decreases i
  {
    if i > 0 {
      SpelledThenMirrors(p, cs, bs, n, i - 1);
      assert StepMirrors(p, cs, bs, i - 1) && SpelledAt(p, cs, bs, i - 1);
    }
  }

  lemma MirrorsThenSpelled(p: Params, cs: seq<Chain>, bs: seq<Block>, n: nat, i: nat)
    requires i < n <= |bs| == |cs| - 1 && Mirrors(cs[i]) && Mirrors(cs[i + 1]) && StepMirrors(p, cs, bs, i)
    ensures SpelledAt(p, cs, bs, i)
  {
  }

  /** Over every run with the extended touch list, from a state in step: the trie stays in step with
      the accounts up to block `n` if and only if the spellings agree up to there. */
  lemma RunMirrorsIff(p: Params, cs: seq<Chain>, bs: seq<Block>, es: seq<Env>, n: nat)
    requires ExtendedRun(p, cs, bs, es) && n <= |bs| && Mirrors(cs[0])
    ensures MirrorsUpTo(cs, n) <==> SpelledUpTo(p, cs, bs, n)
  {
    StepsMirror(p, cs, bs, es);
    if SpelledUpTo(p, cs, bs, n) {
      forall i | 0 <= i <= n
        ensures Mirrors(cs[i])
      {
        SpelledThenMirrors(p, cs, bs, n, i);
      }
    }
    if MirrorsUpTo(cs, n) {
      forall i | 0 <= i < n
        ensures SpelledAt(p, cs, bs, i)
      {
        MirrorsThenSpelled(p, cs, bs, n, i);
      }
    }
  }

  /** And a trie in step is the one a fresh backfill of the accounts would build: the funded accounts
      and nothing else. */
  lemma IncrementalIsBackfill(p: Params, cs: seq<Chain>, bs: seq<Block>, es: seq<Env>, n: nat)
    requires ExtendedRun(p, cs, bs, es) && n <= |bs| && SpelledUpTo(p, cs, bs, n)
    requires cs[0].trie == Backfill(cs[0].ledger) && LeavesAgree(cs[0].ledger, cs[0].ledger.accounts.Keys)
    ensures cs[n].trie == Backfill(cs[n].ledger)
    ensures forall a :: a in cs[n].ledger.accounts ==> Leaf(cs[n].trie, KeyOf(a)) == LeafOf(cs[n].ledger, a)
    ensures forall k :: k in cs[n].trie.leaves ==> exists a :: a in cs[n].ledger.accounts && KeyOf(a) == k
  {
    BackfillHoldsIff(cs[0].ledger);
    RunMirrorsIff(p, cs, bs, es, n);
    assert Mirrors(cs[n]);
    HoldsIsBackfill(cs[n].trie, cs[n].ledger);
  }

  // ---- a condition that can be tested beforehand ----

  /** Everyone a block names. */
  function Parties(b: Block): set<Address> {
    (set i | 0 <= i < |b.txs| :: b.txs[i].from) + (set i | 0 <= i < |b.txs| :: b.txs[i].to)
    + {b.validator, b.coinbase.to, TREASURY}
  }

  /** One spelling per address: no two of these share a leaf. */
  ghost predicate OneSpelling(s: set<Address>) {
    forall a, b :: a in s && b in s && KeyOf(a) == KeyOf(b) ==> a == b
  }

  lemma {:induction false} ApplyTxsWithin(claims: bool, s: Applying, txs: seq<Tx>, all: set<Address>)
    requires ApplyTxs(claims, s, txs).1.Pass? && s.ledger.accounts.Keys + {TREASURY} <= all
    requires forall i :: 0 <= i < |txs| ==> txs[i].from in all && txs[i].to in all
    ensures ApplyTxs(claims, s, txs).0.ledger.accounts.Keys <= all
    decreases |txs|
  {
    if txs != [] {
      var s1 := ApplyTx(claims, s, txs[0]).0;
      assert txs[0].from in all && txs[0].to in all;
      ApplyTxWithin(claims, s, txs[0], all);
      ApplyTxsWithin(claims, s1, txs[1..], all);
    }
  }

  lemma ApplyTxWithin(claims: bool, s: Applying, tx: Tx, all: set<Address>)
    requires ApplyTx(claims, s, tx).1.Pass? && s.ledger.accounts.Keys + {TREASURY, tx.from, tx.to} <= all
    ensures ApplyTx(claims, s, tx).0.ledger.accounts.Keys <= all
  {
    var l := Transfer(s.ledger, tx.from, tx.to, tx.amount, tx.fee).0;
    assert l.accounts.Keys <= all;
  }

  /** A block opens accounts only for those it names. */
  lemma ExecuteWithin(p: Params, c: Chain, b: Block)
    requires Execute(p, c, b).1.Pass?
    ensures Execute(p, c, b).0.ledger.accounts.Keys <= c.ledger.accounts.Keys + Parties(b)
  {
    var all := c.ledger.accounts.Keys + Parties(b);
    var c1 := Mint(p, OpenBlock(p, c, b), b).0;
    ApplyTxsWithin(T.Active(p.rewardV2, b.index), Applying(c1.ledger, c1.rewards, 0), b.txs, all);
  }

  lemma TouchListWithin(p: Params, l: Ledger, b: Block, all: set<Address>)
    requires Parties(b) <= all && l.touched <= all
    ensures TouchList(p, l, b) <= all
  {
    forall a | a in TouchList(p, l, b)
      ensures a in all
    {
      if a in Named(b.txs) {
        var i :| 0 <= i < |b.txs| && a in {b.txs[i].from, b.txs[i].to};
      }
    }
  }

  lemma OneSpellingAgrees(l: Ledger, touched: set<Address>, all: set<Address>)
    requires OneSpelling(all) && l.accounts.Keys <= all && touched <= all
    ensures SpellingsAgree(l, touched)
  {
  }

  /** If the accounts and the parties of a block have one spelling each, its spellings agree. */
  lemma SpelledOnceAgrees(p: Params, c: Chain, b: Block, all: set<Address>)
    requires Execute(p, c, b).1.Pass? && OneSpelling(all) && c.ledger.accounts.Keys + Parties(b) <= all
    ensures var l1 := Execute(p, c, b).0.ledger; l1.accounts.Keys <= all && SpellingsAgree(l1, TouchList(p, l1, b))
  {
    var l1 := Execute(p, c, b).0.ledger;
    ExecuteWithin(p, c, b);
    ExecuteTracked(p, c, b);
    TouchListWithin(p, l1, b, all);
    OneSpellingAgrees(l1, TouchList(p, l1, b), all);
  }

  /** Testable before the block is applied: one spelling each for the accounts and the parties of the
      block keeps the trie in step. */
  lemma SpelledOnceMirrors(p: Params, c: Chain, b: Block, env: Env)
    requires AddBlock(p, c, b, env).1.Pass? && T.Active(p.extendedTouch, b.index) && Mirrors(c)
    requires OneSpelling(c.ledger.accounts.Keys + Parties(b))
    ensures Mirrors(AddBlock(p, c, b, env).0)
  {
    AcceptedPasses(p, c, b, env);
    SpelledOnceAgrees(p, c, b, c.ledger.accounts.Keys + Parties(b));
    ExtendedListMissesNothing(p, c, b);
    AcceptedMirrorsIff(p, c, b, env);
  }

  function AllParties(bs: seq<Block>): set<Address> {
    if bs == [] then {} else Parties(bs[0]) + AllParties(bs[1..])
  }

  lemma {:induction false} PartyOf(bs: seq<Block>, i: nat)
    requires i < |bs|
    ensures Parties(bs[i]) <= AllParties(bs)
  {
    if i > 0 {
      PartyOf(bs[1..], i - 1);
    }
  }

  /** What block `i` does with accounts that have one spelling each. */
  ghost predicate WithinAt(p: Params, cs: seq<Chain>, bs: seq<Block>, all: set<Address>, i: nat)
    requires i < |bs| == |cs| - 1
  {
    cs[i].ledger.accounts.Keys <= all ==> cs[i + 1].ledger.accounts.Keys <= all && SpelledAt(p, cs, bs, i)
  }

  lemma StepsWithin(p: Params, cs: seq<Chain>, bs: seq<Block>, es: seq<Env>, all: set<Address>)
    requires IsRun(p, cs, bs, es) && OneSpelling(all) && AllParties(bs) <= all
    ensures forall i :: 0 <= i < |bs| ==> WithinAt(p, cs, bs, all, i)
  {
    forall i | 0 <= i < |bs|
      ensures WithinAt(p, cs, bs, all, i)
    {
      assert AcceptedAt(p, cs, bs, es, i);
      PartyOf(bs, i);
      if cs[i].ledger.accounts.Keys <= all {
        AcceptedPasses(p, cs[i], bs[i], es[i]);
        SpelledOnceAgrees(p, cs[i], bs[i], all);
        CommitKeepsMoney(p, Execute(p, cs[i], bs[i]).0, bs[i], es[i]);
      }
    }
  }

  lemma {:induction false} WithinAlong(p: Params, cs: seq<Chain>, bs: seq<Block>, all: set<Address>, n: nat)
    requires n <= |bs| == |cs| - 1 && cs[0].ledger.accounts.Keys <= all
    requires forall i :: 0 <= i < |bs| ==> WithinAt(p, cs, bs, all, i)
    ensures cs[n].ledger.accounts.Keys <= all && (n < |bs| ==> SpelledAt(p, cs, bs, n))
  {
    if n > 0 {
      WithinAlong(p, cs, bs, all, n - 1);
      assert WithinAt(p, cs, bs, all, n - 1);
    }
    if n < |bs| {
      assert WithinAt(p, cs, bs, all, n);
    }
  }

  lemma BackfillSpelled(l: Ledger, all: set<Address>)
    requires OneSpelling(all) && l.accounts.Keys <= all
    ensures LeavesAgree(l, l.accounts.Keys)
  {
  }

  /** Testable before the run: if the accounts at its start and everyone its blocks name have one
      spelling each, the trie after every block is the one a fresh backfill would build. */
  lemma SpelledOnceIsBackfill(p: Params, cs: seq<Chain>, bs: seq<Block>, es: seq<Env>, n: nat)
    requires ExtendedRun(p, cs, bs, es) && n <= |bs| && cs[0].trie == Backfill(cs[0].ledger)
    requires OneSpelling(cs[0].ledger.accounts.Keys + AllParties(bs))
    ensures cs[n].trie == Backfill(cs[n].ledger)
    ensures forall a :: a in cs[n].ledger.accounts ==> Leaf(cs[n].trie, KeyOf(a)) == LeafOf(cs[n].ledger, a)
  {
    var all := cs[0].ledger.accounts.Keys + AllParties(bs);
    StepsWithin(p, cs, bs, es, all);
    BackfillSpelled(cs[0].ledger, all);
    forall i | 0 <= i < n
      ensures SpelledAt(p, cs, bs, i)
    {
      WithinAlong(p, cs, bs, all, i);
    }
    IncrementalIsBackfill(p, cs, bs, es, n);
  }
}
