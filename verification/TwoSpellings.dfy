/** Where the trie falls behind: nothing forces one spelling per address, so one transfer between two
    spellings makes two accounts share a leaf. */
module TwoSpellings {
  import opened Sums
  import opened BftTypes
  import opened Ledger
  import opened Rewards
  import opened StateTrie
  import opened ExecutorSpec
  import opened Conservation
  import opened Solvency
  import opened SolventRuns
  import opened TrieMirror
  import T = Tokenomics

  function Spelled(digit: char): Address {
    Address("0x" + seq(40, i => digit))
  }

  /** The same forty digits in both cases: two accounts, one leaf. */
  lemma OneLeafTwoAccounts(lower: Address, upper: Address)
    requires lower == Spelled('a') && upper == Spelled('A')
    ensures IsValidAddress(lower) && IsValidAddress(upper) && lower != upper && KeyOf(lower) == KeyOf(upper)
  {
    assert lower.text[2] == 'a' && upper.text[2] == 'A';
    assert LowerAll(lower.text) == LowerAll(upper.text);
    ValidKeysEqualIff(lower, upper);
  }

  // ---- a chain of one funded account, and a block that pays its other spelling ----

  /** Every fork but the extended touch list is disabled. */
  const PARAMS: Params := Params(1, U64_MAX, U64_MAX, 0, U64_MAX, U64_MAX, U64_MAX)
  const VALIDATOR: Address := Address("validator")
  const FUNDS: u64 := 1_000_000
  const ENV: Env := Env(0, SelfProduced, false, true, EMPTY)

  function Genesis(): Block {
    Block(0, GenesisParent, 0, VALIDATOR, Coinbase("genesis", VALIDATOR, 0), [], None, None, GenesisParent)
  }

  function Funds(a: Address): Ledger {
    Ledger(map[a := Account(FUNDS, 0)], 0, {})
  }

  ghost function Start(a: Address): Chain {
    Chain(Funds(a), Accumulators(map[], [], map[], map[]), 0, [], map[], [Genesis()], Backfill(Funds(a)), map[])
  }

  function Payment(from: Address, to: Address): Tx {
    Tx("payment", from, to, 5, MIN_TX_FEE, 0, 1, Native, true)
  }

  function PaymentBlock(from: Address, to: Address): Block {
    var b := Block(1, GenesisParent, 0, VALIDATOR, Coinbase("coinbase", VALIDATOR, T.BLOCK_REWARD), [Payment(from, to)],
                   None, None, GenesisParent);
    b.(hash := CalculateHash(b))
  }

  lemma StartMirrors(a: Address)
    ensures Mirrors(Start(a)) && Supply(Start(a).ledger) == FUNDS
  {
    BackfillHoldsIff(Funds(a));
    var none: map<Address, nat> := map[];
    TotalUpdate(none, a, FUNDS);
    assert Balances(Funds(a).accounts) == none[a := FUNDS];
  }

  lemma PaymentChecked(from: Address, to: Address)
    requires from != COINBASE
    ensures Pass1(PARAMS, Start(from), PaymentBlock(from, to), 0).Pass?
  {
    var c, b := Start(from), PaymentBlock(from, to);
    assert T.HalvingsAt(U64_MAX, 0) == 0 && T.EraReward(0) == T.BLOCK_REWARD;
    assert AllIds(b) == ["coinbase", "payment"];
    assert "coinbase"[0] != "payment"[0];
    assert FollowsLast(b, Genesis());
    assert CheckBlock(PARAMS, c.blocks, c.minted, b, 0).Pass?;
    var (w, o) := CheckTx(c.ledger, NO_WORK, b.txs[0], 1);
    assert b.txs[1..] == [] && CheckTxs(c.ledger, w, [], 1).Pass?;
    assert CheckTxs(c.ledger, NO_WORK, b.txs, 1) == CheckTxs(c.ledger, w, b.txs[1..], 1);
  }

  lemma PaymentAccepted(from: Address, to: Address)
    requires from != COINBASE && from != TREASURY
    ensures AddBlock(PARAMS, Start(from), PaymentBlock(from, to), ENV).1.Pass?
  {
    var c, b := Start(from), PaymentBlock(from, to);
    PaymentChecked(from, to);
    StartMirrors(from);
    ExecutePassesIff(PARAMS, c, b, 0);
    CommitPasses(Execute(PARAMS, c, b).0, b);
  }

  lemma CommitPasses(c: Chain, b: Block)
    requires b.index < STATE_ROOT_FORK_HEIGHT
    ensures Commit(PARAMS, c, b, ENV).1.Pass?
  {
    AppendHeight(c, b);
  }

  /** Afterwards both spellings hold accounts, with different leaves. */
  lemma PaymentLeaves(from: Address, to: Address)
    requires from != COINBASE && from != TREASURY && from != to && from != VALIDATOR && to != VALIDATOR
    requires Execute(PARAMS, Start(from), PaymentBlock(from, to)).1.Pass?
    ensures var l := Execute(PARAMS, Start(from), PaymentBlock(from, to)).0.ledger;
            from in l.accounts && to in l.accounts && Nonce(l, from) == 1 && Nonce(l, to) == 0
            && Balance(l, from) > 0 && Balance(l, to) > 0
  {
    var c, b := Start(from), PaymentBlock(from, to);
    var c1 := Mint(PARAMS, OpenBlock(PARAMS, c, b), b).0;
    var s := Applying(c1.ledger, c1.rewards, 0);
    assert b.txs[1..] == [];
    assert ApplyTxs(false, s, b.txs) == ApplyTx(false, s, b.txs[0]);
    TransferBalances(c1.ledger, from, to, 5, MIN_TX_FEE, from);
    TransferBalances(c1.ledger, from, to, 5, MIN_TX_FEE, to);
  }

  /** The accepted block leaves a trie that no longer represents the accounts. */
  lemma PaymentBreaksMirror() returns (p: Params, c: Chain, b: Block, env: Env)
    ensures T.Active(p.extendedTouch, b.index) && Mirrors(c) && c.trie == Backfill(c.ledger)
    ensures AddBlock(p, c, b, env).1.Pass? && !Mirrors(AddBlock(p, c, b, env).0)
  {
    var from, to := Spelled('a'), Spelled('A');
    OneLeafTwoAccounts(from, to);
    p, c, b, env := PARAMS, Start(from), PaymentBlock(from, to), ENV;
    assert |from.text| == 42 && |COINBASE.text| == 8 && |VALIDATOR.text| == 9;
    assert from.text[2] == 'a' && to.text[2] == 'A' && TREASURY.text[2] == '0';
    StartMirrors(from);
    PaymentAccepted(from, to);
    AcceptedPasses(p, c, b, env);
    PaymentLeaves(from, to);
    AcceptedMirrorsIff(p, c, b, env);
    var l := Execute(p, c, b).0.ledger;
    assert LeafOf(l, from) != LeafOf(l, to);
  }
}
