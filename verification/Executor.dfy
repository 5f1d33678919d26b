/** The block executor as the node runs it: an object whose fields are changed step by step, with a
    snapshot taken before Pass 2 and put back when it fails. */
module Executor {
  import opened BftTypes
  import opened Ledger
  import opened Rewards
  import opened StateTrie
  import opened ExecutorSpec
  import T = Tokenomics

  /** Whether the ids are distinct, with a set of those already seen. */
  method AllDistinct(ids: seq<string>) returns (distinct: bool)
    ensures distinct <==> Distinct(ids)
  {
    var seen: set<string> := {};
    for i := 0 to |ids|
      invariant Distinct(ids[..i])
      invariant forall id :: id in seen <==> id in ids[..i]
    {
      if ids[i] in seen {
        var j :| 0 <= j < i && ids[j] == ids[i];
        return false;
      }
      seen := seen + {ids[i]};
      assert ids[..i + 1] == ids[..i] + [ids[i]];
    }
    assert ids[..|ids|] == ids;
    return true;
  }

  /** The two sets and the nonce decide who survives. */
  lemma SurvivesBySets(l: Ledger, b: Block, mined: set<string>, senders: set<Address>, tx: Tx)
    requires mined == (set id | id in AllIds(b)) && senders == (set i | 0 <= i < |b.txs| :: b.txs[i].from)
    ensures Survives(l, b, tx) <==> tx.id !in mined && (tx.from !in senders || tx.nonce >= Nonce(l, tx.from))
  {
  }

  lemma RetainedStep(l: Ledger, b: Block, mempool: seq<Tx>, i: nat, kept: seq<Tx>)
    requires i < |mempool|
    ensures kept + Retained(l, b, mempool[i..])
         == (if Survives(l, b, mempool[i]) then kept + [mempool[i]] else kept) + Retained(l, b, mempool[i + 1..])
  {
    assert mempool[i..][0] == mempool[i] && mempool[i..][1..] == mempool[i + 1..];
  }

  method RetainWaiting(db: AccountDB, b: Block, mempool: seq<Tx>) returns (kept: seq<Tx>)
    ensures kept == Retained(db.View(), b, mempool)
  {
    kept := [];
    var mined := set id | id in AllIds(b);
    var senders := set i | 0 <= i < |b.txs| :: b.txs[i].from;
    for i := 0 to |mempool|
      invariant kept + Retained(db.View(), b, mempool[i..]) == Retained(db.View(), b, mempool)
    {
      var tx := mempool[i];
      RetainedStep(db.View(), b, mempool, i, kept);
      SurvivesBySets(db.View(), b, mined, senders, tx);
      var nonce := db.GetNonce(tx.from);
      if tx.id !in mined && (tx.from !in senders || tx.nonce >= nonce) {
        kept := kept + [tx];
      }
    }
  }

  method RecordIds(index: map<string, nat>, ids: seq<string>, height: nat) returns (r: map<string, nat>)
    ensures r == Indexed(index, ids, height)
  {
    r := index;
    for i := 0 to |ids|
      invariant Indexed(r, ids[i..], height) == Indexed(index, ids, height)
    {
      assert ids[i..][1..] == ids[i + 1..];
      r := r[ids[i] := height];
    }
  }

  /** What is saved before Pass 2; of the list of blocks only its length, of the index nothing. */
  datatype Snapshot = Snapshot(ledger: Ledger, rewards: Accumulators, minted: u64, mempool: seq<Tx>,
                               produced: map<Address, nat>, length: nat, trie: Trie)

  ghost predicate SnapshotOf(s: Snapshot, c: Chain) {
    s == Snapshot(c.ledger, c.rewards, c.minted, c.mempool, c.produced, |c.blocks|, c.trie)
  }

  class Blockchain {
    const params: Params
    const accounts: AccountDB
    const stakes: StakeRegistry
    var totalMinted: u64
    var mempool: seq<Tx>
    var produced: map<Address, nat>
    var chain: seq<Block>
    var trie: Trie
    var txIndex: map<string, nat>

    ghost function View(): Chain
      reads this, accounts, stakes
    {
      Chain(accounts.View(), stakes.View(), totalMinted, mempool, produced, chain, trie, txIndex)
    }

    constructor (p: Params, c: Chain)
      ensures View() == c && params == p && fresh(accounts) && fresh(stakes)
    {
      params := p;
      accounts := new AccountDB(c.ledger);
      stakes := new StakeRegistry(c.rewards);
      totalMinted, mempool, produced, chain, trie, txIndex := c.minted, c.mempool, c.produced, c.blocks, c.trie, c.index;
    }

    method CurrentHeight() returns (h: nat)
      ensures h == Height(chain)
    {
      h := if chain == [] then 0 else chain[|chain| - 1].index;
    }

    method GetBlockReward() returns (reward: nat)
      ensures reward == Reward(params, chain, totalMinted)
    {
      var h := CurrentHeight();
      var cap := T.MaxSupply(params.tokenomicsV2, h);
      var remaining := if totalMinted <= cap then cap - totalMinted else 0;
      if remaining == 0 {
        return 0;
      }
      var era := T.EraReward(T.HalvingsAt(params.tokenomicsV2, h));
      reward := if era <= remaining then era else remaining;
    }

    // ---- Pass 1 ----

    method CheckHeader(b: Block, now: nat) returns (o: Outcome)
      ensures o == CheckBlock(params, chain, totalMinted, b, now)
    {
      if chain == [] {
        return Fail(InvalidBlock);
      }
      var last := chain[|chain| - 1];
      var distinct := AllDistinct(AllIds(b));
      if b.index != last.index + 1 || b.previousHash != last.hash || b.hash != CalculateHash(b) || !distinct
         || exists i :: 0 <= i < |b.txs| && b.txs[i].from == COINBASE {
        return Fail(InvalidBlock);
      }
      if b.timestamp < last.timestamp || b.timestamp > now + MAX_CLOCK_SKEW {
        return Fail(InvalidBlock);
      }
      var reward := GetBlockReward();
      if b.coinbase.amount != reward || b.coinbase.to != b.validator {
        return Fail(InvalidBlock);
      }
      return Pass;
    }

    method CheckTransactions(txs: seq<Tx>) returns (o: Outcome)
      ensures o == CheckTxs(accounts.View(), NO_WORK, txs, params.chainId)
    {
      var balances: map<Address, u64> := map[];
      var nonces: map<Address, u64> := map[];
      var seen: set<(Address, u64)> := {};
      for i := 0 to |txs|
        invariant CheckTxs(accounts.View(), Working(balances, nonces, seen), txs[i..], params.chainId)
               == CheckTxs(accounts.View(), NO_WORK, txs, params.chainId)
      {
        var tx := txs[i];
        assert txs[i..][0] == tx && txs[i..][1..] == txs[i + 1..];
        if (tx.from, tx.nonce) in seen {
          return Fail(InvalidBlock);
        }
        ghost var before := Working(balances, nonces, seen);
        seen := seen + {(tx.from, tx.nonce)};
        var balance := accounts.GetBalance(tx.from);
        var nonce := accounts.GetNonce(tx.from);
        balance := if tx.from in balances then balances[tx.from] else balance;
        nonce := if tx.from in nonces then nonces[tx.from] else nonce;
        o := ValidateTx(tx, nonce, params.chainId);
        if o.Fail? {
          return;
        }
        var needed := tx.amount + tx.fee;
        if needed > U64_MAX {
          return Fail(InvalidTransaction);
        }
        if balance < needed {
          return Fail(InsufficientBalance(balance, needed));
        }
        balances := balances[tx.from := balance - needed];
        nonces := nonces[tx.from := (nonce + 1) % (U64_MAX + 1)];
        assert CheckTx(accounts.View(), before, tx, params.chainId) == (Working(balances, nonces, seen), Pass);
      }
      return Pass;
    }

    // ---- Pass 2 ----

    method BeginBlock(b: Block)
      modifies accounts, stakes
      ensures View() == OpenBlock(params, old(View()), b)
    {
      accounts.ClearTouched();
      if Activates(params.rewardV2, b.index) {
        stakes.ForgetRewards();
      }
    }

    method MintReward(b: Block) returns (o: Outcome)
      modifies this`totalMinted, accounts
      ensures (View(), o) == Mint(params, old(View()), b)
    {
      var recipient := if T.Active(params.rewardV2, b.index) then TREASURY else b.validator;
      o := accounts.DoCredit(recipient, b.coinbase.amount);
      if o.Fail? {
        return;
      }
      totalMinted := SatAdd(totalMinted, b.coinbase.amount);
    }

    method DoPayClaim(claimer: Address) returns (o: Outcome)
      modifies accounts, stakes
      ensures forall fees: u64 ::
                (Applying(accounts.View(), stakes.View(), fees), o)
                == PayClaim(Applying(old(accounts.View()), old(stakes.View()), fees), claimer)
    {
      var amount := Peek(Accumulators(stakes.validators, stakes.delegations, stakes.pending, stakes.delegatorRewards), claimer);
      if amount == 0 {
        return Pass;
      }
      o := accounts.DoTransfer(TREASURY, claimer, amount, 0);
      if o.Fail? {
        return;
      }
      stakes.ClaimPaid(claimer);
    }

    method ApplyTransactions(claims: bool, txs: seq<Tx>) returns (totalFee: u64, o: Outcome)
      modifies accounts, stakes
      ensures (Applying(accounts.View(), stakes.View(), totalFee), o)
           == ApplyTxs(claims, Applying(old(accounts.View()), old(stakes.View()), 0), txs)
    {
      totalFee := 0;
      for i := 0 to |txs|
        invariant ApplyTxs(claims, Applying(accounts.View(), stakes.View(), totalFee), txs[i..])
               == ApplyTxs(claims, Applying(old(accounts.View()), old(stakes.View()), 0), txs)
      {
        assert txs[i..][0] == txs[i] && txs[i..][1..] == txs[i + 1..];
        totalFee, o := ApplyTransaction(claims, txs[i], totalFee);
        if o.Fail? {
          return;
        }
      }
      return totalFee, Pass;
    }

    method ApplyTransaction(claims: bool, tx: Tx, fees: u64) returns (totalFee: u64, o: Outcome)
      modifies accounts, stakes
      ensures (Applying(accounts.View(), stakes.View(), totalFee), o)
           == ApplyTx(claims, Applying(old(accounts.View()), old(stakes.View()), fees), tx)
    {
      totalFee := fees;
      o := accounts.DoTransfer(tx.from, tx.to, tx.amount, tx.fee);
      if o.Fail? {
        return;
      }
      if totalFee + tx.fee > U64_MAX {
        return totalFee, Fail(Overflow);
      }
      totalFee := totalFee + tx.fee;
      if tx.kind == ClaimRewards && claims {
        if tx.to != TREASURY {
          return totalFee, Fail(InvalidTransaction);
        }
        o := DoPayClaim(tx.from);
      }
    }

    method PayFeeShare(b: Block, totalFee: u64) returns (o: Outcome)
      modifies accounts
      ensures (View(), o) == PayFees(old(View()), b, totalFee)
    {
      var burnShare := (totalFee + 1) / 2;
      var validatorShare := totalFee - burnShare;
      if validatorShare > 0 {
        o := accounts.DoCredit(b.validator, validatorShare);
      } else {
        o := Pass;
      }
    }

    method ExecuteBlock(b: Block) returns (o: Outcome)
      modifies this`totalMinted, accounts, stakes
      ensures (View(), o) == Execute(params, old(View()), b)
    {
      BeginBlock(b);
      o := MintReward(b);
      if o.Fail? {
        return;
      }
      var totalFee;
      totalFee, o := ApplyTransactions(T.Active(params.rewardV2, b.index), b.txs);
      if o.Fail? {
        return;
      }
      o := PayFeeShare(b, totalFee);
    }

    method PushBlock(b: Block)
      modifies this`produced, this`mempool, this`chain, this`txIndex
      ensures View() == Append(old(View()), b)
    {
      produced := CountFor(produced, b.validator);
      mempool := RetainWaiting(accounts, b, mempool);
      txIndex := RecordIds(txIndex, AllIds(b), b.index);
      chain := chain + [b];
      if |chain| > CHAIN_WINDOW_SIZE {
        var excess := |chain| - CHAIN_WINDOW_SIZE;
        chain := chain[excess..];
      }
    }

    method ApplyRewardBookkeeping(b: Block)
      requires chain != [] && chain[|chain| - 1] == b
      modifies stakes
      ensures View() == Bookkeep(params, old(View()), b)
    {
      if T.Active(params.applyPath, b.index) {
        match b.signers {
          case None =>
          case Some(signers) =>
            var reward := GetBlockReward();
            stakes.DistributeReward(b.validator, signers, reward);
        }
      }
    }

    method WriteTrie(b: Block)
      modifies this`trie, accounts
      ensures View() == UpdateTrie(params, old(View()), b)
    {
      var touched := TouchList(params, Ledger(accounts.accounts, accounts.totalBurned, accounts.touchedInBlock), b);
      trie := WriteTouched(trie, accounts, touched);
      if T.Active(params.extendedTouch, b.index) {
        accounts.ClearTouched();
      }
    }

    method SealLast(env: Env) returns (o: Outcome)
      requires chain != []
      modifies this`chain
      ensures (View(), o) == Seal(params, old(View()), env)
    {
      var n := |chain| - 1;
      var last := chain[n];
      if last.index < STATE_ROOT_FORK_HEIGHT {
        chain := chain[n := last.(stateRoot := Some(trie))];
        return Pass;
      }
      assert chain == chain[n := last];
      if last.stateRoot == None {
        if env.source == Peer || T.Active(params.speculative, last.index) {
          return Fail(StateRootMismatch);
        }
        var stamped := last.(stateRoot := Some(trie));
        chain := chain[n := stamped.(hash := CalculateHash(stamped))];
        return Pass;
      }
      if last.stateRoot.value != trie && !(env.source == Peer && env.justified) {
        return Fail(StateRootMismatch);
      }
      return Pass;
    }

    method ApplyBlockPass2(b: Block, env: Env) returns (o: Outcome)
      modifies this, accounts, stakes
      ensures (View(), o) == Pass2(params, old(View()), b, env)
    {
      o := ExecuteBlock(b);
      if o.Fail? {
        return;
      }
      o := CommitBlock(b, env);
    }

    method CommitBlock(b: Block, env: Env) returns (o: Outcome)
      modifies this, accounts, stakes
      ensures (View(), o) == Commit(params, old(View()), b, env)
    {
      PushBlock(b);
      ApplyRewardBookkeeping(b);
      if !env.trieOk {
        trie := env.torn;
        return Fail(TrieFailed);
      }
      WriteTrie(b);
      o := SealLast(env);
    }

    // ---- both passes ----

    method TakeSnapshot() returns (s: Snapshot)
      ensures SnapshotOf(s, View())
    {
      var ledger := Ledger(accounts.accounts, accounts.totalBurned, accounts.touchedInBlock);
      var rewards := Accumulators(stakes.validators, stakes.delegations, stakes.pending, stakes.delegatorRewards);
      s := Snapshot(ledger, rewards, totalMinted, mempool, produced, |chain|, trie);
    }

    method RollBackTo(s: Snapshot, ghost c: Chain)
      requires SnapshotOf(s, c)
      modifies this, accounts, stakes
      ensures View() == Rollback(c, old(View()))
    {
      accounts.Restore(s.ledger);
      stakes.Restore(s.rewards);
      totalMinted, mempool, produced, trie := s.minted, s.mempool, s.produced, s.trie;
      if |chain| > s.length {
        chain := chain[..s.length];
      }
    }

    method AppendBlock(b: Block, env: Env) returns (o: Outcome)
      modifies this, accounts, stakes
      ensures (View(), o) == AddBlock(params, old(View()), b, env)
    {
      o := CheckHeader(b, env.now);
      if o.Fail? {
        return;
      }
      o := CheckTransactions(b.txs);
      if o.Fail? {
        return;
      }
      var s := TakeSnapshot();
      o := ApplyBlockPass2(b, env);
      if o.Fail? {
        RollBackTo(s, old(View()));
      }
    }
  }
}
