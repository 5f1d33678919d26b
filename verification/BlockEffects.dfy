/** What an accepted block leaves in the rest of the node: the waiting transactions, the production
    count, the transaction index and the trie leaves; and the first three over whole runs. */
module BlockEffects {
  import opened BftTypes
  import opened Ledger
  import opened StateTrie
  import opened ExecutorSpec
  import opened Conservation
  import opened ChainWindow
  import opened StateRoots
  import T = Tokenomics

  // ---- waiting transactions ----

  /** Neither mined nor overtaken: its id is not in the block, and if its sender is, its nonce has not
      been used up. */
  predicate StaysWaiting(l: Ledger, b: Block, tx: Tx) {
    && tx.id != b.coinbase.id
    && (forall i :: 0 <= i < |b.txs| ==> b.txs[i].id != tx.id)
    && (forall i :: 0 <= i < |b.txs| && b.txs[i].from == tx.from ==> Nonce(l, tx.from) <= tx.nonce)
  }

  lemma SurvivesIff(l: Ledger, b: Block, tx: Tx)
    ensures Survives(l, b, tx) <==> StaysWaiting(l, b, tx)
  {
    var ids := AllIds(b);
    assert ids[0] == b.coinbase.id && forall i :: 0 <= i < |b.txs| ==> ids[i + 1] == b.txs[i].id;
  }

  /** `t` is what `s` has at the positions `f`, in order. */
  ghost predicate At(s: seq<Tx>, t: seq<Tx>, f: seq<nat>) {
    && |f| == |t|
    && (forall i :: 0 <= i < |f| ==> f[i] < |s| && t[i] == s[f[i]])
    && (forall i, j :: 0 <= i < j < |f| ==> f[i] < f[j])
  }

  /** `f` holds exactly the positions to keep. */
  ghost predicate Exactly(keep: seq<bool>, f: seq<nat>) {
    forall k :: 0 <= k < |keep| ==> (k in f <==> keep[k])
  }

  function Later(f: seq<nat>): (g: seq<nat>)
    ensures |g| == |f| && forall i :: 0 <= i < |f| ==> g[i] == f[i] + 1
  {
    seq(|f|, i requires 0 <= i < |f| => f[i] + 1)
  }

  lemma AtCons(x: Tx, s: seq<Tx>, t: seq<Tx>, f: seq<nat>)
    requires At(s, t, f)
    ensures At([x] + s, t, Later(f)) && At([x] + s, [x] + t, [0] + Later(f))
  {
    var s', g := [x] + s, Later(f);
    assert forall i :: 0 <= i < |g| ==> s'[g[i]] == s[f[i]];
  }

  lemma ExactlyCons(kept: bool, keep: seq<bool>, f: seq<nat>)
    requires Exactly(keep, f)
    ensures Exactly([kept] + keep, (if kept then [0] else []) + Later(f))
  {
    var keep', g := [kept] + keep, (if kept then [0] else []) + Later(f);
    forall k | 0 <= k < |keep'|
      ensures k in g <==> keep'[k]
    {
      assert k in g <==> (kept && k == 0) || k in Later(f);
      if k > 0 {
        ShiftIn(f, Later(f), k - 1);
        assert keep'[k] == keep[k - 1];
      }
    }
  }

  lemma ShiftIn(f: seq<nat>, later: seq<nat>, k: nat)
    requires |later| == |f| && forall i :: 0 <= i < |f| ==> later[i] == f[i] + 1
    ensures k + 1 in later <==> k in f
  {
    if k in f {
      var i :| 0 <= i < |f| && f[i] == k;
      assert later[i] == k + 1;
    }
  }

  function Verdicts(l: Ledger, b: Block, s: seq<Tx>): seq<bool> {
    seq(|s|, i requires 0 <= i < |s| => StaysWaiting(l, b, s[i]))
  }

  /** `t` is what is left of the waiting list `s`: those that stay, in order. */
  ghost predicate KeepsAt(l: Ledger, b: Block, s: seq<Tx>, t: seq<Tx>, f: seq<nat>) {
    At(s, t, f) && Exactly(Verdicts(l, b, s), f)
  }

  lemma {:induction false} RetainedInOrder(l: Ledger, b: Block, s: seq<Tx>) returns (f: seq<nat>)
    ensures KeepsAt(l, b, s, Retained(l, b, s), f)
  {
    if s == [] {
      f := [];
    } else {
      var rest, kept := s[1..], StaysWaiting(l, b, s[0]);
      var g := RetainedInOrder(l, b, rest);
      SurvivesIff(l, b, s[0]);
      AtCons(s[0], rest, Retained(l, b, rest), g);
      ExactlyCons(kept, Verdicts(l, b, rest), g);
      f := (if kept then [0] else []) + Later(g);
      assert [s[0]] + rest == s && [kept] + Verdicts(l, b, rest) == Verdicts(l, b, s);
      assert [] + Later(g) == Later(g) && [] + Retained(l, b, rest) == Retained(l, b, rest);
    }
  }

  predicate SameRest(c: Chain, c': Chain) {
    c'.mempool == c.mempool && c'.produced == c.produced && c'.index == c.index
  }

  lemma BookkeepKeepsRest(p: Params, c: Chain, b: Block)
    ensures SameRest(c, Bookkeep(p, c, b))
  {
  }

  lemma SealKeepsRest(p: Params, c: Chain, b: Block, env: Env)
    requires c.blocks != []
    ensures SameRest(c, Seal(p, UpdateTrie(p, c, b), env).0)
  {
  }

  lemma CommitRest(p: Params, c: Chain, b: Block, env: Env)
    requires Commit(p, c, b, env).1.Pass?
    ensures SameRest(Append(c, b), Commit(p, c, b, env).0)
  {
    AppendHeight(c, b);
    var c1 := Bookkeep(p, Append(c, b), b);
    BookkeepKeepsRest(p, Append(c, b), b);
    SealKeepsRest(p, c1, b, env);
  }

  lemma ExecuteKeepsRest(p: Params, c: Chain, b: Block)
    ensures SameRest(c, Execute(p, c, b).0)
  {
  }

  lemma KeepsByNonces(l: Ledger, l': Ledger, b: Block, s: seq<Tx>, t: seq<Tx>, f: seq<nat>)
    requires l.accounts == l'.accounts && KeepsAt(l, b, s, t, f)
    ensures KeepsAt(l', b, s, t, f)
  {
    assert Verdicts(l, b, s) == Verdicts(l', b, s);
  }

  /** After an accepted block exactly the transactions that are neither mined nor overtaken wait, in the
      order in which they waited. */
  lemma AcceptedMempool(p: Params, c: Chain, b: Block, env: Env) returns (f: seq<nat>)
    requires AddBlock(p, c, b, env).1.Pass?
    ensures var c' := AddBlock(p, c, b, env).0; KeepsAt(c'.ledger, b, c.mempool, c'.mempool, f)
  {
    AcceptedPasses(p, c, b, env);
    ExecuteKeepsRest(p, c, b);
    var c1 := Execute(p, c, b).0;
    CommitRest(p, c1, b, env);
    CommitKeepsMoney(p, c1, b, env);
    f := RetainedInOrder(c1.ledger, b, c.mempool);
    var c' := AddBlock(p, c, b, env).0;
    KeepsByNonces(c1.ledger, c'.ledger, b, c.mempool, c'.mempool, f);
  }

  // ---- production count and transaction index ----

  function Produced(c: Chain, v: Address): nat {
    if v in c.produced then c.produced[v] else 0
  }

  predicate HasId(b: Block, id: string) {
    id == b.coinbase.id || exists i :: 0 <= i < |b.txs| && b.txs[i].id == id
  }

  lemma HasIdIff(b: Block, id: string)
    ensures HasId(b, id) <==> id in AllIds(b)
  {
    var ids := AllIds(b);
    assert ids[0] == b.coinbase.id && forall i :: 0 <= i < |b.txs| ==> ids[i + 1] == b.txs[i].id;
  }

  function Lookup(c: Chain, id: string): Option<nat> {
    if id in c.index then Some(c.index[id]) else None
  }

  ghost predicate Counts(c: Chain, b: Block, c': Chain) {
    && (forall v :: Produced(c', v) == Produced(c, v) + (if v == b.validator then 1 else 0))
    && (forall id :: Lookup(c', id) == if HasId(b, id) then Some(b.index) else Lookup(c, id))
  }

  /** An accepted block is counted for its validator, and its transactions are found at its height. */
  lemma AcceptedCounts(p: Params, c: Chain, b: Block, env: Env)
    requires AddBlock(p, c, b, env).1.Pass?
    ensures Counts(c, b, AddBlock(p, c, b, env).0)
  {
    AcceptedPasses(p, c, b, env);
    ExecuteKeepsRest(p, c, b);
    CommitRest(p, Execute(p, c, b).0, b, env);
    var c' := AddBlock(p, c, b, env).0;
    forall id
      ensures Lookup(c', id) == if HasId(b, id) then Some(b.index) else Lookup(c, id)
    {
      HasIdIff(b, id);
      IndexedAt(c.index, AllIds(b), b.index, id);
    }
  }

  function BlocksBy(bs: seq<Block>, n: nat, v: Address): nat
    requires n <= |bs|
  {
    if n == 0 then 0 else BlocksBy(bs, n - 1, v) + (if bs[n - 1].validator == v then 1 else 0)
  }

  ghost predicate CountsAt(cs: seq<Chain>, bs: seq<Block>, i: nat)
    requires i < |bs| == |cs| - 1
  {
    Counts(cs[i], bs[i], cs[i + 1])
  }

  lemma RunCounts(p: Params, cs: seq<Chain>, bs: seq<Block>, es: seq<Env>)
    requires IsRun(p, cs, bs, es)
    ensures forall i :: 0 <= i < |bs| ==> CountsAt(cs, bs, i)
  {
    forall i | 0 <= i < |bs|
      ensures CountsAt(cs, bs, i)
    {
      assert AcceptedAt(p, cs, bs, es, i);
      AcceptedCounts(p, cs[i], bs[i], es[i]);
    }
  }

  lemma {:induction false} ProducedAlong(cs: seq<Chain>, bs: seq<Block>, n: nat, v: Address)
    requires n <= |bs| == |cs| - 1 && forall i :: 0 <= i < |bs| ==> CountsAt(cs, bs, i)
    ensures Produced(cs[n], v) == Produced(cs[0], v) + BlocksBy(bs, n, v)
  {
    if n > 0 {
      ProducedAlong(cs, bs, n - 1, v);
      assert CountsAt(cs, bs, n - 1);
    }
  }

  /** Block `i` is the last of the first `n` with this id. */
  predicate LastWith(bs: seq<Block>, n: nat, id: string, i: nat)
    requires n <= |bs|
  {
    i < n && HasId(bs[i], id) && forall j :: i < j < n ==> !HasId(bs[j], id)
  }

  lemma {:induction false} IndexAlong(cs: seq<Chain>, bs: seq<Block>, n: nat, id: string)
    requires n <= |bs| == |cs| - 1 && forall i :: 0 <= i < |bs| ==> CountsAt(cs, bs, i)
    ensures (exists i: nat :: LastWith(bs, n, id, i) && Lookup(cs[n], id) == Some(bs[i].index))
         || ((forall i :: 0 <= i < n ==> !HasId(bs[i], id)) && Lookup(cs[n], id) == Lookup(cs[0], id))
  {
    if n > 0 {
      IndexAlong(cs, bs, n - 1, id);
      assert CountsAt(cs, bs, n - 1);
      if HasId(bs[n - 1], id) {
        assert LastWith(bs, n, id, n - 1);
      } else if i: nat :| LastWith(bs, n - 1, id, i) && Lookup(cs[n - 1], id) == Some(bs[i].index) {
        assert LastWith(bs, n, id, i);
      }
    }
  }

  /** Over every run: each validator is credited with exactly the blocks it produced, and each id is
      found at the height of the last block that has it. */
  lemma RunStatistics(p: Params, cs: seq<Chain>, bs: seq<Block>, es: seq<Env>, n: nat, v: Address, id: string)
    requires IsRun(p, cs, bs, es) && n <= |bs|
    ensures Produced(cs[n], v) == Produced(cs[0], v) + BlocksBy(bs, n, v)
    ensures (exists i: nat :: LastWith(bs, n, id, i) && Lookup(cs[n], id) == Some(bs[i].index))
         || ((forall i :: 0 <= i < n ==> !HasId(bs[i], id)) && Lookup(cs[n], id) == Lookup(cs[0], id))
  {
    RunCounts(p, cs, bs, es);
    ProducedAlong(cs, bs, n, v);
    IndexAlong(cs, bs, n, id);
  }

  // ---- trie leaves ----

  /** An address whose leaf the block rewrites: a valid sender, a valid recipient other than the token
      marker, the validator, the treasury once the root covers it, and everything touched once the list
      is extended. */
  predicate Rewritten(p: Params, l: Ledger, b: Block, a: Address) {
    || (IsValidAddress(a) && exists i :: 0 <= i < |b.txs| && b.txs[i].from == a)
    || (IsValidAddress(a) && a != TOKEN_OP_ADDRESS && exists i :: 0 <= i < |b.txs| && b.txs[i].to == a)
    || (IsValidAddress(a) && a != TOKEN_OP_ADDRESS && a == b.coinbase.to)
    || (IsValidAddress(a) && a == b.validator)
    || (a == TREASURY && b.index >= p.stateRootV2)
    || (a in l.touched && T.Active(p.extendedTouch, b.index))
  }

  lemma RewrittenIff(p: Params, l: Ledger, b: Block, a: Address)
    ensures a in TouchList(p, l, b) <==> Rewritten(p, l, b, a)
  {
  }

  /** A rewritten leaf is the one of its address, if no later rewritten address shares its key; a key
      that no rewritten address has keeps its leaf. */
  lemma AcceptedLeaves(p: Params, c: Chain, b: Block, env: Env, k: Key)
    requires AddBlock(p, c, b, env).1.Pass?
    ensures var c', l := AddBlock(p, c, b, env).0, Execute(p, c, b).0.ledger;
            || (exists a :: && Rewritten(p, l, b, a) && KeyOf(a) == k && Leaf(c'.trie, k) == LeafOf(c'.ledger, a)
                            && forall a' :: Rewritten(p, l, b, a') && KeyOf(a') == k && a' != a ==> Before(a'.text, a.text))
            || ((forall a :: Rewritten(p, l, b, a) ==> KeyOf(a) != k) && Leaf(c'.trie, k) == Leaf(c.trie, k))
  {
    AcceptedSealed(p, c, b, env);
    AcceptedPasses(p, c, b, env);
    var c1, c' := Execute(p, c, b).0, AddBlock(p, c, b, env).0;
    CommitKeepsMoney(p, c1, b, env);
    var touched := TouchList(p, c1.ledger, b);
    RefreshLeaf(c.trie, c1.ledger, touched, k);
    forall a
      ensures a in touched <==> Rewritten(p, c1.ledger, b, a)
    {
      RewrittenIff(p, c1.ledger, b, a);
    }
    if a :| IsLastWriter(a, touched, k) && Leaf(c'.trie, k) == LeafOf(c1.ledger, a) {
      assert Rewritten(p, c1.ledger, b, a) && LeafOf(c1.ledger, a) == LeafOf(c'.ledger, a);
    }
  }

  /** From the extended fork on, the touch list is drained by the block that filled it. */
  lemma AcceptedDrained(p: Params, c: Chain, b: Block, env: Env)
    requires AddBlock(p, c, b, env).1.Pass? && T.Active(p.extendedTouch, b.index)
    ensures AddBlock(p, c, b, env).0.ledger.touched == {}
  {
    AcceptedPasses(p, c, b, env);
    CommitDrains(p, Execute(p, c, b).0, b, env);
  }

  lemma CommitDrains(p: Params, c: Chain, b: Block, env: Env)
    requires Commit(p, c, b, env).1.Pass? && T.Active(p.extendedTouch, b.index)
    ensures Commit(p, c, b, env).0.ledger.touched == {}
  {
  }
}
