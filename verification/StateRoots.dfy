/** State roots: when a block is refused for its root, what root every stored block carries, and what
    the hash of the tip therefore commits. */
module StateRoots {
  import opened BftTypes
  import opened Ledger
  import opened StateTrie
  import opened ExecutorSpec
  import opened Conservation
  import opened ChainWindow
  import TM = TrieMirror
  import T = Tokenomics

  /** The trie once the leaves of an executed block are written. */
  ghost function WrittenTrie(p: Params, c: Chain, b: Block): Trie {
    var l := Execute(p, c, b).0.ledger;
    Refresh(c.trie, l, TouchList(p, l, b))
  }

  /** A peer's block whose justification was verified keeps its root whatever the node computes. */
  predicate TakenOnTrust(env: Env) {
    env.source == Peer && env.justified
  }

  /** From the fork on, a root is missing that nobody here may fill in. */
  predicate RootMissing(p: Params, b: Block, env: Env) {
    b.index >= STATE_ROOT_FORK_HEIGHT && b.stateRoot == None && (env.source == Peer || T.Active(p.speculative, b.index))
  }

  /** From the fork on, the root is not the one of the written trie. */
  predicate RootWrong(b: Block, root: Trie, env: Env) {
    b.index >= STATE_ROOT_FORK_HEIGHT && b.stateRoot.Some? && b.stateRoot.value != root && !TakenOnTrust(env)
  }

  /** How the block stands at the tip: with the root of the written trie, unless it brought one and
      was taken on trust. Only a root that the node fills in after the fork changes the hash. */
  ghost predicate SealedAs(b: Block, root: Trie, env: Env, stored: Block) {
    && SameBlock(b, stored)
    && stored.stateRoot == (if b.index >= STATE_ROOT_FORK_HEIGHT && b.stateRoot.Some? then b.stateRoot else Some(root))
    && (stored.stateRoot == Some(root) || (TakenOnTrust(env) && b.index >= STATE_ROOT_FORK_HEIGHT))
    && (if b.index >= STATE_ROOT_FORK_HEIGHT && b.stateRoot == None
        then stored.hash == SealedHash(b.index, b.previousHash, AllIds(b), b.timestamp, b.validator, Some(root))
        else stored.hash == b.hash)
  }

  ghost function RootVerdict(p: Params, b: Block, root: Trie, env: Env): Outcome {
    if RootMissing(p, b, env) || RootWrong(b, root, env) then Fail(StateRootMismatch) else Pass
  }

  lemma SealExact(p: Params, b: Block, root: Trie, env: Env)
    ensures SealBlock(p, b, root, env).1 == RootVerdict(p, b, root, env)
    ensures SealBlock(p, b, root, env).1.Pass? ==> SealedAs(b, root, env, SealBlock(p, b, root, env).0)
  {
  }

  lemma CommitIsSeal(p: Params, c: Chain, b: Block, env: Env)
    requires env.trieOk
    ensures var (c', o) := Commit(p, c, b, env);
            var root := Refresh(c.trie, c.ledger, TouchList(p, c.ledger, b));
            c'.trie == root && c'.blocks != [] && (Tip(c'), o) == SealBlock(p, b, root, env)
  {
    AppendHeight(c, b);
    var c2 := UpdateTrie(p, Bookkeep(p, Append(c, b), b), b);
    assert c2.blocks[|c2.blocks| - 1] == b;
  }

  /** A block that executed is refused if and only if the trie cannot be written, its root is missing,
      or its root is wrong. */
  lemma RefusedForRootIff(p: Params, c: Chain, b: Block, env: Env)
    requires Pass1(p, c, b, env.now).Pass? && Execute(p, c, b).1.Pass?
    ensures var root := WrittenTrie(p, c, b);
            AddBlock(p, c, b, env).1
            == if !env.trieOk then Fail(TrieFailed)
               else if RootMissing(p, b, env) || RootWrong(b, root, env) then Fail(StateRootMismatch)
               else Pass
  {
    ExecuteKeepsTrie(p, c, b);
    if env.trieOk {
      CommitIsSeal(p, Execute(p, c, b).0, b, env);
      SealExact(p, b, WrittenTrie(p, c, b), env);
    }
  }

  lemma ExecuteKeepsTrie(p: Params, c: Chain, b: Block)
    ensures Execute(p, c, b).0.trie == c.trie
  {
  }

  /** An accepted block stands at the tip with the root of the trie the node is left with, unless it
      was taken on trust. */
  lemma AcceptedSealed(p: Params, c: Chain, b: Block, env: Env)
    requires AddBlock(p, c, b, env).1.Pass?
    ensures var c' := AddBlock(p, c, b, env).0;
            c'.trie == WrittenTrie(p, c, b) && c'.blocks != [] && SealedAs(b, c'.trie, env, Tip(c'))
  {
    AcceptedPasses(p, c, b, env);
    ExecuteKeepsTrie(p, c, b);
    if env.trieOk {
      CommitIsSeal(p, Execute(p, c, b).0, b, env);
      SealExact(p, b, WrittenTrie(p, c, b), env);
    }
  }

  // ---- runs ----

  /** Block `n` of the run, from the fork on and not taken on trust. */
  predicate Checked(bs: seq<Block>, es: seq<Env>, n: nat)
    requires n < |bs| == |es|
  {
    bs[n].index >= STATE_ROOT_FORK_HEIGHT && !TakenOnTrust(es[n])
  }

  /** The hash of the tip commits the trie. */
  ghost predicate TipCommits(c: Chain, b: Block, t: Trie) {
    && c.blocks != []
    && Tip(c).stateRoot == Some(t)
    && Tip(c).hash == SealedHash(b.index, b.previousHash, AllIds(b), b.timestamp, b.validator, Some(t))
  }

  /** Over every run: the hash of every such tip commits the trie of its state. */
  lemma RunCommitsTrie(p: Params, cs: seq<Chain>, bs: seq<Block>, es: seq<Env>, n: nat)
    requires IsRun(p, cs, bs, es) && n < |bs| && Checked(bs, es, n)
    ensures TipCommits(cs[n + 1], bs[n], cs[n + 1].trie)
  {
    assert AcceptedAt(p, cs, bs, es, n);
    AcceptedSealed(p, cs[n], bs[n], es[n]);
    AcceptedHash(p, cs[n], bs[n], es[n]);
  }

  lemma AcceptedHash(p: Params, c: Chain, b: Block, env: Env)
    requires AddBlock(p, c, b, env).1.Pass?
    ensures b.hash == CalculateHash(b)
  {
  }

  /** And a block taken on trust carries the root of its state if and only if it brought it. */
  lemma TrustedRootIff(p: Params, cs: seq<Chain>, bs: seq<Block>, es: seq<Env>, n: nat)
    requires IsRun(p, cs, bs, es) && n < |bs| && bs[n].index >= STATE_ROOT_FORK_HEIGHT && TakenOnTrust(es[n])
    ensures cs[n + 1].blocks != [] && (Tip(cs[n + 1]).stateRoot == Some(cs[n + 1].trie) <==> bs[n].stateRoot == Some(cs[n + 1].trie))
  {
    assert AcceptedAt(p, cs, bs, es, n);
    AcceptedSealed(p, cs[n], bs[n], es[n]);
    AcceptedHasRoot(p, cs[n], bs[n], es[n]);
  }

  lemma AcceptedHasRoot(p: Params, c: Chain, b: Block, env: Env)
    requires AddBlock(p, c, b, env).1.Pass? && b.index >= STATE_ROOT_FORK_HEIGHT && env.source == Peer
    ensures b.stateRoot.Some?
  {
    AcceptedPasses(p, c, b, env);
    RefusedForRootIff(p, c, b, env);
  }

  /** A run of blocks from the fork on, none of them taken on trust, from a trie that was built from
      the accounts, in which everyone has one spelling. */
  ghost predicate CommittedRun(p: Params, cs: seq<Chain>, bs: seq<Block>, es: seq<Env>) {
    && TM.ExtendedRun(p, cs, bs, es)
    && (forall i :: 0 <= i < |bs| ==> Checked(bs, es, i))
    && cs[0].trie == Backfill(cs[0].ledger)
    && TM.OneSpelling(cs[0].ledger.accounts.Keys + TM.AllParties(bs))
  }

  /** The hash of the tip commits every account: it contains the trie a fresh backfill would build. */
  lemma RunCommitsAccounts(p: Params, cs: seq<Chain>, bs: seq<Block>, es: seq<Env>, n: nat)
    requires CommittedRun(p, cs, bs, es) && n < |bs|
    ensures TipCommits(cs[n + 1], bs[n], Backfill(cs[n + 1].ledger))
    ensures Holds(Backfill(cs[n + 1].ledger), cs[n + 1].ledger, cs[n + 1].ledger.accounts.Keys)
  {
    RunCommitsTrie(p, cs, bs, es, n);
    TM.SpelledOnceIsBackfill(p, cs, bs, es, n + 1);
    BackfillHoldsIff(cs[n + 1].ledger);
    LeavesFromTrie(cs[n + 1].trie, cs[n + 1].ledger);
  }

  lemma LeavesFromTrie(t: Trie, l: Ledger)
    requires forall a :: a in l.accounts ==> Leaf(t, KeyOf(a)) == LeafOf(l, a)
    ensures LeavesAgree(l, l.accounts.Keys)
  {
  }

  lemma HeldLeafComesFrom(t: Trie, l: Ledger, l': Ledger, a: Address)
    requires Holds(t, l, l.accounts.Keys) && Holds(t, l', l'.accounts.Keys)
    requires TM.OneSpelling(l.accounts.Keys + l'.accounts.Keys) && LeafOf(l, a).Some?
    ensures LeafOf(l', a) == LeafOf(l, a)
  {
    assert a in l.accounts && Leaf(t, KeyOf(a)) == LeafOf(l, a);
    assert KeyOf(a) in t.leaves;
    var b :| b in l'.accounts && KeyOf(b) == KeyOf(a);
    assert b in l.accounts.Keys + l'.accounts.Keys && a in l.accounts.Keys + l'.accounts.Keys;
  }

  /** One trie, one set of accounts. */
  lemma SameTrieSameAccounts(t: Trie, l: Ledger, l': Ledger, a: Address)
    requires Holds(t, l, l.accounts.Keys) && Holds(t, l', l'.accounts.Keys)
    requires TM.OneSpelling(l.accounts.Keys + l'.accounts.Keys)
    ensures LeafOf(l, a) == LeafOf(l', a)
  {
    if LeafOf(l, a).Some? {
      HeldLeafComesFrom(t, l, l', a);
    }
  }

  /** Two nodes with the same tip hash hold the same accounts: every balance, and the nonce of everyone
      who holds anything. */
  lemma SameTipSameAccounts(p: Params, cs: seq<Chain>, bs: seq<Block>, es: seq<Env>, n: nat,
                            p': Params, cs': seq<Chain>, bs': seq<Block>, es': seq<Env>, n': nat, a: Address)
    requires CommittedRun(p, cs, bs, es) && n < |bs| && CommittedRun(p', cs', bs', es') && n' < |bs'|
    requires cs[n + 1].blocks != [] && cs'[n' + 1].blocks != [] && Tip(cs[n + 1]).hash == Tip(cs'[n' + 1]).hash
    requires TM.OneSpelling(cs[n + 1].ledger.accounts.Keys + cs'[n' + 1].ledger.accounts.Keys)
    ensures Balance(cs[n + 1].ledger, a) == Balance(cs'[n' + 1].ledger, a)
    ensures Balance(cs[n + 1].ledger, a) > 0 ==> Nonce(cs[n + 1].ledger, a) == Nonce(cs'[n' + 1].ledger, a)
  {
    var l, l' := cs[n + 1].ledger, cs'[n' + 1].ledger;
    RunCommitsAccounts(p, cs, bs, es, n);
    RunCommitsAccounts(p', cs', bs', es', n');
    SameTrieSameAccounts(Backfill(l), l, l', a);
  }

  // ---- the chain of hashes ----

  /** What a hash commits: place, parent, transactions, time, validator and, from the fork on, root. */
  predicate SameContent(a: Block, b: Block) {
    && a.index == b.index && a.previousHash == b.previousHash && AllIds(a) == AllIds(b)
    && a.timestamp == b.timestamp && a.validator == b.validator
    && (a.index >= STATE_ROOT_FORK_HEIGHT ==> a.stateRoot == b.stateRoot)
  }

  lemma HashCommitsIff(a: Block, b: Block)
    ensures CalculateHash(a) == CalculateHash(b) <==> SameContent(a, b)
  {
  }

  /** The hash of the tip commits the whole history behind it. */
  lemma {:induction false} SameTipSameHistory(h: seq<Block>, g: seq<Block>, k: nat)
    requires Linked(h) && Linked(g) && h[|h| - 1].hash == g[|g| - 1].hash && k < |h| && k < |g|
    ensures h[|h| - 1 - k].hash == g[|g| - 1 - k].hash && SameContent(h[|h| - 1 - k], g[|g| - 1 - k])
  {
    var i, j := |h| - 1 - k, |g| - 1 - k;
    if k > 0 {
      SameTipSameHistory(h, g, k - 1);
      assert LinkedAt(h, i + 1) && LinkedAt(g, j + 1);
    }
    assert LinkedAt(h, i) && LinkedAt(g, j);
    HashCommitsIff(h[i], g[j]);
  }
}
