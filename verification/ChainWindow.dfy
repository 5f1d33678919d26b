/** The list of blocks kept in memory: what a failed application leaves behind, and how the window
    refines the full history over every run. */
module ChainWindow {
  import opened BftTypes
  import opened Ledger
  import opened StateTrie
  import opened ExecutorSpec
  import opened Conservation

  // ---- rollback ----

  lemma ExecuteKeepsBlocks(p: Params, c: Chain, b: Block)
    ensures Execute(p, c, b).0.blocks == c.blocks
  {
  }

  /** A failed seal leaves the block as it was. */
  lemma FailedCommitBlocks(p: Params, c: Chain, b: Block, env: Env)
    requires Commit(p, c, b, env).1.Fail?
    ensures Commit(p, c, b, env).0.blocks == Windowed(c.blocks + [b])
  {
    var c1 := Bookkeep(p, Append(c, b), b);
    if env.trieOk {
      var c2 := UpdateTrie(p, c1, b);
      var n := |c2.blocks| - 1;
      assert SealBlock(p, c2.blocks[n], c2.trie, env).0 == c2.blocks[n];
      assert c2.blocks[n := c2.blocks[n]] == c2.blocks;
    }
  }

  lemma WindowAfterCut(blocks: seq<Block>, b: Block)
    requires blocks != [] && b.index != blocks[|blocks| - 1].index
    ensures Truncated(Windowed(blocks + [b]), |blocks|) == blocks <==> |blocks| < CHAIN_WINDOW_SIZE
    ensures |blocks| >= CHAIN_WINDOW_SIZE ==> Truncated(Windowed(blocks + [b]), |blocks|) == Windowed(blocks + [b])
  {
    if |blocks| < CHAIN_WINDOW_SIZE {
      assert (blocks + [b])[..|blocks|] == blocks;
    } else {
      var kept := Windowed(blocks + [b]);
      assert kept[|kept| - 1] == b;
    }
  }

  /** Everything but the transaction index is as it was. */
  predicate Restored(c: Chain, c': Chain) {
    c'.(index := c.index) == c
  }

  /** All or nothing, exactly: a failed application restores the chain if and only if it failed before
      the block was appended or the window was not full. */
  lemma RollbackExactIff(p: Params, c: Chain, b: Block, env: Env)
    requires AddBlock(p, c, b, env).1.Fail?
    ensures Restored(c, AddBlock(p, c, b, env).0)
       <==> Pass1(p, c, b, env.now).Fail? || Execute(p, c, b).1.Fail? || |c.blocks| < CHAIN_WINDOW_SIZE
  {
    if Pass1(p, c, b, env.now).Pass? {
      var (c1, o) := Execute(p, c, b);
      ExecuteKeepsBlocks(p, c, b);
      if o.Pass? {
        FailedCommitBlocks(p, c1, b, env);
        WindowAfterCut(c.blocks, b);
      } else {
        assert Truncated(c.blocks, |c.blocks|) == c.blocks;
      }
    }
  }

  /** What is left otherwise: the rejected block stays at the tip, in place of the oldest one. */
  lemma FullWindowKeepsRejected(p: Params, c: Chain, b: Block, env: Env)
    requires Pass1(p, c, b, env.now).Pass? && Execute(p, c, b).1.Pass?
    requires AddBlock(p, c, b, env).1.Fail? && |c.blocks| == CHAIN_WINDOW_SIZE
    ensures Restored(c.(blocks := c.blocks[1..] + [b]), AddBlock(p, c, b, env).0)
  {
    var c1 := Execute(p, c, b).0;
    ExecuteKeepsBlocks(p, c, b);
    FailedCommitBlocks(p, c1, b, env);
    WindowAfterCut(c.blocks, b);
    assert Windowed(c.blocks + [b]) == c.blocks[1..] + [b];
  }

  lemma {:induction false} IndexedAt(index: map<string, nat>, ids: seq<string>, height: nat, id: string)
    ensures id in ids ==> id in Indexed(index, ids, height) && Indexed(index, ids, height)[id] == height
    ensures id !in ids ==> (id in Indexed(index, ids, height) <==> id in index)
    ensures id !in ids && id in index ==> Indexed(index, ids, height)[id] == index[id]
    decreases |ids|
  {
    if ids != [] {
      IndexedAt(index[ids[0] := height], ids[1..], height, id);
      assert ids == [ids[0]] + ids[1..];
    }
  }

  /** The transaction index is not rolled back: it answers for a block that failed after the append,
      and for no other failed block. */
  lemma IndexAfterFailure(p: Params, c: Chain, b: Block, env: Env, id: string)
    requires AddBlock(p, c, b, env).1.Fail?
    ensures var index := AddBlock(p, c, b, env).0.index;
            if Pass1(p, c, b, env.now).Pass? && Execute(p, c, b).1.Pass? && id in AllIds(b)
            then id in index && index[id] == b.index
            else (id in index <==> id in c.index) && (id in index ==> index[id] == c.index[id])
  {
    if Pass1(p, c, b, env.now).Pass? && Execute(p, c, b).1.Pass? {
      IndexedAt(c.index, AllIds(b), b.index, id);
      CommitIndexes(p, Execute(p, c, b).0, b, env);
    }
  }

  lemma CommitIndexes(p: Params, c: Chain, b: Block, env: Env)
    ensures Commit(p, c, b, env).0.index == Indexed(c.index, AllIds(b), b.index)
  {
  }

  // ---- history ----

  predicate Follows(b: Block, a: Block) {
    b.index == a.index + 1 && b.previousHash == a.hash && b.timestamp >= a.timestamp
  }

  /** The hash of block `i` is valid, and it follows the block before it. */
  ghost predicate LinkedAt(h: seq<Block>, i: nat)
    requires i < |h|
  {
    h[i].hash == CalculateHash(h[i]) && (i > 0 ==> Follows(h[i], h[i - 1]))
  }

  ghost predicate Linked(h: seq<Block>) {
    h != [] && forall i :: 0 <= i < |h| ==> LinkedAt(h, i)
  }

  /** The window is the newest part of a linked history. */
  ghost predicate Tracks(blocks: seq<Block>, h: seq<Block>) {
    && Linked(h)
    && |blocks| == (if |h| < CHAIN_WINDOW_SIZE then |h| else CHAIN_WINDOW_SIZE)
    && blocks == h[|h| - |blocks|..]
  }

  function Tip(c: Chain): Block
    requires c.blocks != []
  {
    c.blocks[|c.blocks| - 1]
  }

  /** The block as it was received, whatever root it was stamped with. */
  predicate SameBlock(b: Block, stored: Block) {
    stored == b.(stateRoot := stored.stateRoot, hash := stored.hash)
  }

  lemma LinkedExtends(h: seq<Block>, b: Block)
    requires Linked(h) && b.hash == CalculateHash(b) && Follows(b, h[|h| - 1])
    ensures Linked(h + [b])
  {
    forall i | 0 <= i < |h + [b]|
      ensures LinkedAt(h + [b], i)
    {
      if i < |h| {
        assert LinkedAt(h, i);
      }
    }
  }

  lemma WindowExtends(blocks: seq<Block>, h: seq<Block>, b: Block, stored: Block)
    requires Tracks(blocks, h) && Linked(h + [stored])
    ensures var pushed := Windowed(blocks + [b]);
            pushed != [] && Tracks(pushed[|pushed| - 1 := stored], h + [stored])
  {
    var pushed := Windowed(blocks + [b]);
    var h' := h + [stored];
    assert pushed[|pushed| - 1 := stored] == h'[|h'| - |pushed|..];
  }

  /** Sealing may stamp a root and hash the block again; the hash stays valid and the block stays
      where it was. */
  lemma SealedBlock(p: Params, b: Block, root: Trie, env: Env)
    requires b.hash == CalculateHash(b)
    ensures var stored := SealBlock(p, b, root, env).0;
            stored.hash == CalculateHash(stored) && SameBlock(b, stored)
  {
  }

  lemma CommittedBlocks(p: Params, c: Chain, b: Block, env: Env) returns (stored: Block)
    requires Commit(p, c, b, env).1.Pass? && b.hash == CalculateHash(b)
    ensures stored.hash == CalculateHash(stored) && SameBlock(b, stored)
    ensures var pushed := Windowed(c.blocks + [b]);
            pushed != [] && Commit(p, c, b, env).0.blocks == pushed[|pushed| - 1 := stored]
  {
    var c2 := UpdateTrie(p, Bookkeep(p, Append(c, b), b), b);
    AppendHeight(c, b);
    stored := SealBlock(p, b, c2.trie, env).0;
    SealedBlock(p, b, c2.trie, env);
  }

  /** An accepted block extends the history by itself, sealed. */
  lemma AcceptedExtends(p: Params, c: Chain, b: Block, env: Env, h: seq<Block>)
    requires AddBlock(p, c, b, env).1.Pass? && Tracks(c.blocks, h)
    ensures var c' := AddBlock(p, c, b, env).0;
            c'.blocks != [] && SameBlock(b, Tip(c')) && Tracks(c'.blocks, h + [Tip(c')])
  {
    AcceptedPasses(p, c, b, env);
    ExecuteKeepsBlocks(p, c, b);
    var stored := CommittedBlocks(p, Execute(p, c, b).0, b, env);
    assert c.blocks[|c.blocks| - 1] == h[|h| - 1];
    LinkedExtends(h, stored);
    WindowExtends(c.blocks, h, b, stored);
  }

  // ---- runs ----

  /** Block `i` of the run, as it became the tip. */
  ghost predicate StoredAt(cs: seq<Chain>, bs: seq<Block>, i: nat, stored: Block)
    requires i < |bs| == |cs| - 1
  {
    cs[i + 1].blocks != [] && stored == Tip(cs[i + 1]) && SameBlock(bs[i], stored)
  }

  ghost predicate InPlace(cs: seq<Chain>, bs: seq<Block>, h: seq<Block>, g: seq<Block>, i: nat)
    requires i < |bs| == |cs| - 1 && |h| + i < |g|
  {
    StoredAt(cs, bs, i, g[|h| + i])
  }

  /** The history after `n` blocks: the old one and then those blocks, as they were stored. */
  ghost predicate IsHistory(cs: seq<Chain>, bs: seq<Block>, h: seq<Block>, n: nat, g: seq<Block>)
    requires n <= |bs| == |cs| - 1
  {
    |g| == |h| + n && g[..|h|] == h && forall i :: 0 <= i < n ==> InPlace(cs, bs, h, g, i)
  }

  lemma HistoryGrows(cs: seq<Chain>, bs: seq<Block>, h: seq<Block>, n: nat, g: seq<Block>, stored: Block)
    requires n < |bs| == |cs| - 1 && IsHistory(cs, bs, h, n, g) && StoredAt(cs, bs, n, stored)
    ensures IsHistory(cs, bs, h, n + 1, g + [stored])
  {
    var g' := g + [stored];
    forall i | 0 <= i < n + 1
      ensures InPlace(cs, bs, h, g', i)
    {
      if i < n {
        assert InPlace(cs, bs, h, g, i);
      }
    }
    assert g'[..|h|] == g[..|h|];
  }

  lemma TrackedStep(p: Params, cs: seq<Chain>, bs: seq<Block>, es: seq<Env>, n: nat, g: seq<Block>) returns (stored: Block)
    requires IsRun(p, cs, bs, es) && n < |bs| && Tracks(cs[n].blocks, g)
    ensures StoredAt(cs, bs, n, stored) && Tracks(cs[n + 1].blocks, g + [stored])
  {
    assert AcceptedAt(p, cs, bs, es, n);
    AcceptedExtends(p, cs[n], bs[n], es[n], g);
    stored := Tip(cs[n + 1]);
  }

  /** Over every run, the window is the newest part of the full history, which is linked, hashed
      correctly and consists of the blocks that were applied. */
  lemma {:induction false} WindowRefinesHistory(p: Params, cs: seq<Chain>, bs: seq<Block>, es: seq<Env>, h: seq<Block>, n: nat)
    returns (g: seq<Block>)
    requires IsRun(p, cs, bs, es) && n < |cs| && Tracks(cs[0].blocks, h)
    ensures IsHistory(cs, bs, h, n, g) && Tracks(cs[n].blocks, g)
  {
    if n == 0 {
      g := h;
    } else {
      var before := WindowRefinesHistory(p, cs, bs, es, h, n - 1);
      var stored := TrackedStep(p, cs, bs, es, n - 1, before);
      HistoryGrows(cs, bs, h, n - 1, before, stored);
      g := before + [stored];
    }
  }

  // ---- lookup ----

  function WindowStart(blocks: seq<Block>): nat {
    if blocks == [] then 0 else blocks[0].index
  }

  function GetBlock(blocks: seq<Block>, index: nat): Option<Block> {
    if index < WindowStart(blocks) then None
    else if index - WindowStart(blocks) < |blocks| then Some(blocks[index - WindowStart(blocks)])
    else None
  }

  lemma {:induction false} ConsecutiveIndices(h: seq<Block>, i: nat)
    requires Linked(h) && i < |h|
    ensures h[i].index == h[0].index + i
  {
    if i > 0 {
      ConsecutiveIndices(h, i - 1);
      assert LinkedAt(h, i);
    }
  }

  /** A lookup by index finds the block of the history with that index if it is among the newest
      ones, and nothing otherwise. */
  lemma GetBlockExact(blocks: seq<Block>, h: seq<Block>, index: nat)
    requires Tracks(blocks, h)
    ensures var first := h[0].index;
            GetBlock(blocks, index)
            == if first + |h| - |blocks| <= index < first + |h| then Some(h[index - first]) else None
    ensures GetBlock(blocks, index).Some? ==> GetBlock(blocks, index).value.index == index
  {
    ConsecutiveIndices(h, |h| - |blocks|);
    assert blocks[0] == h[|h| - |blocks|];
    var first := h[0].index;
    if first + |h| - |blocks| <= index < first + |h| {
      ConsecutiveIndices(h, index - first);
    }
  }
}
