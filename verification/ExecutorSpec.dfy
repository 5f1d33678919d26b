/** Two-pass block execution on values: Pass 1 checks a block on working copies, Pass 2 applies it
    step by step and may fail at several of them, and a failure is rolled back from a snapshot. */
module ExecutorSpec {
  import opened BftTypes
  import opened Ledger
  import opened Rewards
  import opened StateTrie
  import T = Tokenomics

  /** The escrow account of the rewards. */
  const TREASURY: Address := Address("0x0000000000000000000000000000000000000002")

  /** A marker recipient whose leaf the block's own list leaves out. */
  const TOKEN_OP_ADDRESS: Address := Address("0x0000000000000000000000000000000000000000")

  const COINBASE: Address := Address("COINBASE")

  const MIN_TX_FEE: nat := 10_000
  const MAX_CLOCK_SKEW: nat := 15
  const CHAIN_WINDOW_SIZE: nat := 1_000
  const STATE_ROOT_FORK_HEIGHT: nat := 100_000

  datatype TxKind = Native | ClaimRewards

  /** A transaction; `signed` is the verdict of the signature check. */
  datatype Tx = Tx(id: string, from: Address, to: Address, amount: u64, fee: u64, nonce: u64, chainId: nat,
                   kind: TxKind, signed: bool)

  datatype Coinbase = Coinbase(id: string, to: Address, amount: u64)

  /** Block hashes, taken to be free of collisions: a hash is what was hashed. */
  datatype BlockHash =
    | GenesisParent
    | LegacyHash(index: nat, parent: BlockHash, ids: seq<string>, timestamp: nat, validator: Address)
    | SealedHash(index: nat, parent: BlockHash, ids: seq<string>, timestamp: nat, validator: Address, root: Option<Trie>)

  /** A block: its coinbase, its other transactions, and the weights of the precommits that
      justify it. */
  datatype Block = Block(index: nat, previousHash: BlockHash, timestamp: nat, validator: Address,
                         coinbase: Coinbase, txs: seq<Tx>, signers: Option<seq<(Address, nat)>>,
                         stateRoot: Option<Trie>, hash: BlockHash)

  function TxIds(txs: seq<Tx>): seq<string> {
    seq(|txs|, i requires 0 <= i < |txs| => txs[i].id)
  }

  function AllIds(b: Block): seq<string> {
    [b.coinbase.id] + TxIds(b.txs)
  }

  /** From the fork on, the hash commits the state root. */
  function CalculateHash(b: Block): BlockHash {
    if b.index >= STATE_ROOT_FORK_HEIGHT
    then SealedHash(b.index, b.previousHash, AllIds(b), b.timestamp, b.validator, b.stateRoot)
    else LegacyHash(b.index, b.previousHash, AllIds(b), b.timestamp, b.validator)
  }

  /** Fork heights; 2^64 - 1 disables a fork. */
  datatype Params = Params(chainId: nat, rewardV2: u64, applyPath: u64, extendedTouch: u64, stateRootV2: u64,
                           tokenomicsV2: u64, speculative: u64)

  datatype Source = SelfProduced | Peer

  /** What the world contributes to one application: the clock, where the block came from, whether
      its justification was verified, and whether the trie can be written (and what it is left as
      when it cannot). */
  datatype Env = Env(now: nat, source: Source, justified: bool, trieOk: bool, torn: Trie)

  /** The node's state; `index` is the stored map from transaction ids to block heights. */
  datatype Chain = Chain(ledger: Ledger, rewards: Accumulators, minted: u64, mempool: seq<Tx>,
                         produced: map<Address, nat>, blocks: seq<Block>, trie: Trie, index: map<string, nat>)

  function Height(blocks: seq<Block>): nat {
    if blocks == [] then 0 else blocks[|blocks| - 1].index
  }

  function Reward(p: Params, blocks: seq<Block>, minted: u64): nat {
    T.BlockReward(p.tokenomicsV2, Height(blocks), minted)
  }

  // ---- Pass 1 ----

  /** The structure of the block and its place after the last one. */
  predicate FollowsLast(b: Block, last: Block) {
    && b.index == last.index + 1
    && b.previousHash == last.hash
    && b.hash == CalculateHash(b)
    && (forall i :: 0 <= i < |b.txs| ==> b.txs[i].from != COINBASE)
    && Distinct(AllIds(b))
  }

  function CheckBlock(p: Params, blocks: seq<Block>, minted: u64, b: Block, now: nat): Outcome {
    if blocks == [] then Fail(InvalidBlock)
    else
      var last := blocks[|blocks| - 1];
      if !FollowsLast(b, last) then Fail(InvalidBlock)
      else if b.timestamp < last.timestamp || b.timestamp > now + MAX_CLOCK_SKEW then Fail(InvalidBlock)
      else if b.coinbase.amount != Reward(p, blocks, minted) || b.coinbase.to != b.validator then Fail(InvalidBlock)
      else Pass
  }

  /** Working balances and nonces shadow the real ones of the senders already seen. */
  datatype Working = Working(balances: map<Address, u64>, nonces: map<Address, u64>, seen: set<(Address, u64)>)

  const NO_WORK: Working := Working(map[], map[], {})

  function WorkingBalance(l: Ledger, w: Working, a: Address): u64 {
    if a in w.balances then w.balances[a] else Balance(l, a)
  }

  function WorkingNonce(l: Ledger, w: Working, a: Address): u64 {
    if a in w.nonces then w.nonces[a] else Nonce(l, a)
  }

  function ValidateTx(tx: Tx, nonce: u64, chainId: nat): Outcome {
    if tx.fee < MIN_TX_FEE then Fail(InvalidTransaction)
    else if tx.amount == 0 && tx.kind == Native then Fail(InvalidTransaction)
    else if tx.nonce != nonce then Fail(InvalidNonce(nonce, tx.nonce))
    else if tx.chainId != chainId || !tx.signed then Fail(InvalidTransaction)
    else Pass
  }

  function CheckTx(l: Ledger, w: Working, tx: Tx, chainId: nat): (Working, Outcome) {
    if (tx.from, tx.nonce) in w.seen then (w, Fail(InvalidBlock))
    else
      var w1 := w.(seen := w.seen + {(tx.from, tx.nonce)});
      var balance, nonce := WorkingBalance(l, w, tx.from), WorkingNonce(l, w, tx.from);
      var o := ValidateTx(tx, nonce, chainId);
      if o.Fail? then (w1, o)
      else if tx.amount + tx.fee > U64_MAX then (w1, Fail(InvalidTransaction))
      else if balance < tx.amount + tx.fee then (w1, Fail(InsufficientBalance(balance, tx.amount + tx.fee)))
      else (w1.(balances := w1.balances[tx.from := balance - (tx.amount + tx.fee)],
                nonces := w1.nonces[tx.from := (nonce + 1) % (U64_MAX + 1)]), Pass)
  }

  function CheckTxs(l: Ledger, w: Working, txs: seq<Tx>, chainId: nat): Outcome
    decreases |txs|
  {
    if txs == [] then Pass
    else
      var (w1, o) := CheckTx(l, w, txs[0], chainId);
      if o.Fail? then o else CheckTxs(l, w1, txs[1..], chainId)
  }

  function Pass1(p: Params, c: Chain, b: Block, now: nat): Outcome {
    var o := CheckBlock(p, c.blocks, c.minted, b, now);
    if o.Fail? then o else CheckTxs(c.ledger, NO_WORK, b.txs, p.chainId)
  }

  // ---- Pass 2 ----

  predicate Activates(fork: u64, index: nat) {
    T.Active(fork, index) && !T.Active(fork, if index > 0 then index - 1 else 0)
  }

  /** A fresh touch list; at the reward fork the old accumulators are forgotten. */
  function OpenBlock(p: Params, c: Chain, b: Block): Chain {
    c.(ledger := c.ledger.(touched := {}),
       rewards := if Activates(p.rewardV2, b.index) then ResetRewards(c.rewards) else c.rewards)
  }

  function CoinbaseRecipient(p: Params, b: Block): Address {
    if T.Active(p.rewardV2, b.index) then TREASURY else b.validator
  }

  function Mint(p: Params, c: Chain, b: Block): (Chain, Outcome) {
    var (l, o) := Credit(c.ledger, CoinbaseRecipient(p, b), b.coinbase.amount);
    if o.Fail? then (c.(ledger := l), o)
    else (c.(ledger := l, minted := SatAdd(c.minted, b.coinbase.amount)), Pass)
  }

  /** The part of the state that transactions change, and the fees collected so far. */
  datatype Applying = Applying(ledger: Ledger, rewards: Accumulators, fees: u64)

  /** A claim is paid from the treasury first; the accumulators are drained only then. */
  function PayClaim(s: Applying, claimer: Address): (Applying, Outcome) {
    var amount := Peek(s.rewards, claimer);
    if amount == 0 then (s, Pass)
    else
      var (l, o) := Transfer(s.ledger, TREASURY, claimer, amount, 0);
      if o.Fail? then (s.(ledger := l), o) else (s.(ledger := l, rewards := Drain(s.rewards, claimer)), Pass)
  }

  function ApplyTx(claims: bool, s: Applying, tx: Tx): (Applying, Outcome) {
    var (l, o) := Transfer(s.ledger, tx.from, tx.to, tx.amount, tx.fee);
    if o.Fail? then (s.(ledger := l), o)
    else if s.fees + tx.fee > U64_MAX then (s.(ledger := l), Fail(Overflow))
    else
      var s1 := s.(ledger := l, fees := s.fees + tx.fee);
      if tx.kind != ClaimRewards || !claims then (s1, Pass)
      else if tx.to != TREASURY then (s1, Fail(InvalidTransaction))
      else PayClaim(s1, tx.from)
  }

  /** `claims` says whether staking operations are dispatched at this height. */
  function ApplyTxs(claims: bool, s: Applying, txs: seq<Tx>): (Applying, Outcome)
    decreases |txs|
  {
    if txs == [] then (s, Pass)
    else
      var (s1, o) := ApplyTx(claims, s, txs[0]);
      if o.Fail? then (s1, o) else ApplyTxs(claims, s1, txs[1..])
  }

  function RunTxs(p: Params, c: Chain, b: Block): (Chain, u64, Outcome) {
    var (s, o) := ApplyTxs(T.Active(p.rewardV2, b.index), Applying(c.ledger, c.rewards, 0), b.txs);
    (c.(ledger := s.ledger, rewards := s.rewards), s.fees, o)
  }

  /** The validator's half of the fees, rounded down; the rest is never credited to anyone. */
  function PayFees(c: Chain, b: Block, fees: u64): (Chain, Outcome) {
    var share: u64 := fees - CeilHalf(fees);
    if share == 0 then (c, Pass)
    else
      var (l, o) := Credit(c.ledger, b.validator, share);
      (c.(ledger := l), o)
  }

  /** Everything up to the statistics; nothing here touches the list of blocks. */
  function Execute(p: Params, c: Chain, b: Block): (Chain, Outcome) {
    var (c1, o1) := Mint(p, OpenBlock(p, c, b), b);
    if o1.Fail? then (c1, o1)
    else
      var (c2, fees, o2) := RunTxs(p, c1, b);
      if o2.Fail? then (c2, o2) else PayFees(c2, b, fees)
  }

  /** A waiting transaction stays unless it was mined or one of the block's senders moved past it. */
  predicate Survives(l: Ledger, b: Block, tx: Tx) {
    tx.id !in AllIds(b) && ((exists i :: 0 <= i < |b.txs| && b.txs[i].from == tx.from) ==> tx.nonce >= Nonce(l, tx.from))
  }

  function Retained(l: Ledger, b: Block, mempool: seq<Tx>): seq<Tx> {
    if mempool == [] then []
    else (if Survives(l, b, mempool[0]) then [mempool[0]] else []) + Retained(l, b, mempool[1..])
  }

  /** Exactly the surviving transactions stay waiting. */
  lemma {:induction false} RetainedIff(l: Ledger, b: Block, mempool: seq<Tx>, tx: Tx)
    ensures tx in Retained(l, b, mempool) <==> tx in mempool && Survives(l, b, tx)
  {
    if mempool != [] {
      RetainedIff(l, b, mempool[1..], tx);
      assert mempool == [mempool[0]] + mempool[1..];
    }
  }

  function CountFor(produced: map<Address, nat>, v: Address): map<Address, nat> {
    produced[v := (if v in produced then produced[v] else 0) + 1]
  }

  /** The window keeps the newest blocks only. */
  function Windowed(blocks: seq<Block>): seq<Block> {
    if |blocks| > CHAIN_WINDOW_SIZE then blocks[|blocks| - CHAIN_WINDOW_SIZE..] else blocks
  }

  function Indexed(index: map<string, nat>, ids: seq<string>, height: nat): map<string, nat>
    decreases |ids|
  {
    if ids == [] then index else Indexed(index[ids[0] := height], ids[1..], height)
  }

  /** Statistics, the mempool, the transaction index and the list of blocks. */
  function Append(c: Chain, b: Block): Chain {
    c.(produced := CountFor(c.produced, b.validator),
       mempool := Retained(c.ledger, b, c.mempool),
       index := Indexed(c.index, AllIds(b), b.index),
       blocks := Windowed(c.blocks + [b]))
  }

  /** The reward is distributed over the signers of the block's justification. It is computed again
      after the append, so it is the reward of the next height. */
  function Bookkeep(p: Params, c: Chain, b: Block): Chain {
    if T.Active(p.applyPath, b.index) && b.signers.Some?
    then c.(rewards := Distribute(c.rewards, b.validator, b.signers.value, Reward(p, c.blocks, c.minted)))
    else c
  }

  function Named(txs: seq<Tx>): set<Address> {
    (set i | 0 <= i < |txs| && IsValidAddress(txs[i].from) :: txs[i].from)
    + (set i | 0 <= i < |txs| && IsValidAddress(txs[i].to) && txs[i].to != TOKEN_OP_ADDRESS :: txs[i].to)
  }

  /** The addresses whose leaves are rewritten: those the block names, the treasury once the root
      covers it and, from the fork on, everything the block touched. */
  function TouchList(p: Params, l: Ledger, b: Block): set<Address> {
    Named(b.txs)
    + (set a | a in {b.coinbase.to} && IsValidAddress(a) && a != TOKEN_OP_ADDRESS)
    + (set a | a in {b.validator} && IsValidAddress(a))
    + (if b.index >= p.stateRootV2 then {TREASURY} else {})
    + (if T.Active(p.extendedTouch, b.index) then l.touched else {})
  }

  ghost function UpdateTrie(p: Params, c: Chain, b: Block): Chain {
    c.(trie := Refresh(c.trie, c.ledger, TouchList(p, c.ledger, b)),
       ledger := if T.Active(p.extendedTouch, b.index) then c.ledger.(touched := {}) else c.ledger)
  }

  /** The last block receives the computed root, or is checked against it. */
  function SealBlock(p: Params, last: Block, root: Trie, env: Env): (Block, Outcome) {
    if last.index < STATE_ROOT_FORK_HEIGHT then (last.(stateRoot := Some(root)), Pass)
    else match last.stateRoot
      case None =>
        if env.source == Peer || T.Active(p.speculative, last.index) then (last, Fail(StateRootMismatch))
        else
          var stamped := last.(stateRoot := Some(root));
          (stamped.(hash := CalculateHash(stamped)), Pass)
      case Some(received) =>
        if received != root && !(env.source == Peer && env.justified) then (last, Fail(StateRootMismatch))
        else (last, Pass)
  }

  function Seal(p: Params, c: Chain, env: Env): (Chain, Outcome)
    requires c.blocks != []
  {
    var n := |c.blocks| - 1;
    var (b, o) := SealBlock(p, c.blocks[n], c.trie, env);
    (c.(blocks := c.blocks[n := b]), o)
  }

  /** The steps from the statistics on. */
  ghost function Commit(p: Params, c: Chain, b: Block, env: Env): (Chain, Outcome) {
    var c1 := Bookkeep(p, Append(c, b), b);
    if !env.trieOk then (c1.(trie := env.torn), Fail(TrieFailed))
    else Seal(p, UpdateTrie(p, c1, b), env)
  }

  ghost function Pass2(p: Params, c: Chain, b: Block, env: Env): (Chain, Outcome) {
    var (c1, o) := Execute(p, c, b);
    if o.Fail? then (c1, o) else Commit(p, c1, b, env)
  }

  // ---- rollback ----

  function Truncated(blocks: seq<Block>, n: nat): seq<Block> {
    if |blocks| > n then blocks[..n] else blocks
  }

  /** The snapshotted fields are put back and the list of blocks is cut back to its old length; the
      transaction index is on disk and stays as it is. */
  function Rollback(snap: Chain, c: Chain): Chain {
    snap.(blocks := Truncated(c.blocks, |snap.blocks|), index := c.index)
  }

  ghost function AddBlock(p: Params, c: Chain, b: Block, env: Env): (Chain, Outcome) {
    var o := Pass1(p, c, b, env.now);
    if o.Fail? then (c, o)
    else
      var (c', o') := Pass2(p, c, b, env);
      if o'.Fail? then (Rollback(c, c'), o') else (c', Pass)
  }
}
