/** The emission schedule: the halving reward, the supply cap, and how both behave from one block
    to the next, across the fork that changes them. */
module Tokenomics {
  import opened BftTypes

  const MAX_SUPPLY: nat := 210_000_000 * 100_000_000
  const MAX_SUPPLY_V2: nat := 315_000_000 * 100_000_000
  const BLOCK_REWARD: nat := 100_000_000
  const HALVING_INTERVAL: nat := 42_000_000
  const HALVING_INTERVAL_V2: nat := 126_000_000

  /** A fork height of 2^64 - 1 means the fork is disabled. */
  predicate Active(fork: u64, height: nat) {
    fork != U64_MAX && height >= fork
  }

  function MaxSupply(fork: u64, height: nat): nat {
    if Active(fork, height) then MAX_SUPPLY_V2 else MAX_SUPPLY
  }

  function HalvingsAt(fork: u64, height: nat): nat {
    if Active(fork, height) then (height - fork) / HALVING_INTERVAL_V2 else height / HALVING_INTERVAL
  }

  function ShiftRight(x: nat, n: nat): nat {
    if n == 0 then x else ShiftRight(x, n - 1) / 2
  }

  /** The era reward: a right shift, zero once the shift leaves the word. */
  function EraReward(halvings: nat): nat {
    if halvings >= 64 then 0 else ShiftRight(BLOCK_REWARD, halvings)
  }

  /** The reward for the block after `height`, given what has been minted. */
  function BlockReward(fork: u64, height: nat, minted: nat): nat {
    var cap := MaxSupply(fork, height);
    var remaining := if minted <= cap then cap - minted else 0;
    var era := EraReward(HalvingsAt(fork, height));
    if era <= remaining then era else remaining
  }

  /** Minting the reward never passes the cap in force, and the cap never falls. */
  lemma MintWithinCap(fork: u64, height: nat, minted: nat)
    requires minted <= MaxSupply(fork, height)
    ensures minted + BlockReward(fork, height, minted) <= MaxSupply(fork, height) <= MaxSupply(fork, height + 1)
  {
  }

  lemma {:induction false} ShiftFalls(x: nat, m: nat, n: nat)
    requires m <= n
    ensures ShiftRight(x, n) <= ShiftRight(x, m)
    decreases n
  {
    if m < n {
      ShiftFalls(x, m, n - 1);
    }
  }

  lemma EraRewardFalls(m: nat, n: nat)
    requires m <= n
    ensures EraReward(n) <= EraReward(m)
  {
    ShiftFalls(BLOCK_REWARD, m, n);
  }

  lemma HalvingsGrow(fork: u64, height: nat)
    requires height + 1 != fork || fork == U64_MAX
    ensures HalvingsAt(fork, height) <= HalvingsAt(fork, height + 1)
  {
    if Active(fork, height) {
      DivMonotone(height - fork, height + 1 - fork, HALVING_INTERVAL_V2);
    } else {
      DivMonotone(height, height + 1, HALVING_INTERVAL);
    }
  }

  lemma DivMonotone(x: nat, y: nat, d: nat)
    requires d > 0 && x <= y
    ensures x / d <= y / d
  {
    if x / d > y / d {
      StepOver(x / d, y / d, d);
    }
  }

  lemma StepOver(q: nat, p: nat, d: nat)
    requires q > p
    ensures q * d >= p * d + d
  {
    assert q * d == (p + 1) * d + (q - p - 1) * d;
  }

  /** Away from the fork, the reward computed after a block is applied is never more than the one
      that block minted. */
  lemma RewardFalls(fork: u64, height: nat, minted: nat)
    requires height + 1 != fork || fork == U64_MAX
    ensures var reward := BlockReward(fork, height, minted);
            BlockReward(fork, height + 1, minted + reward) <= reward
  {
    HalvingsGrow(fork, height);
    EraRewardFalls(HalvingsAt(fork, height), HalvingsAt(fork, height + 1));
  }

  /** Across the fork it holds exactly when no halving has happened before the fork and the old cap
      has not started to bite. */
  lemma RewardFallsAcrossForkIff(fork: u64, height: nat, minted: nat)
    requires fork != U64_MAX && height + 1 == fork && minted <= MAX_SUPPLY
    ensures var reward := BlockReward(fork, height, minted);
            BlockReward(fork, height + 1, minted + reward) <= reward
            <==> height < HALVING_INTERVAL && MAX_SUPPLY - minted >= BLOCK_REWARD
  {
    assert HalvingsAt(fork, height + 1) == 0 && EraReward(0) == BLOCK_REWARD;
    if height < HALVING_INTERVAL {
      assert HalvingsAt(fork, height) == 0;
    } else {
      DivMonotone(HALVING_INTERVAL, height, HALVING_INTERVAL);
      EraRewardFalls(1, HalvingsAt(fork, height));
      assert EraReward(1) == ShiftRight(BLOCK_REWARD, 0) / 2 == 50_000_000;
    }
  }

  // ---- the schedule ----

  function Pow2(n: nat): (p: nat)
    ensures p > 0
  {
    if n == 0 then 1 else 2 * Pow2(n - 1)
  }

  lemma HalfStep(x: nat, q: nat, d: nat)
    requires d > 0 && q * d <= x < (q + 1) * d
    ensures q / 2 * (2 * d) <= x < (q / 2 + 1) * (2 * d)
  {
    var h := q / 2;
    assert q == 2 * h || q == 2 * h + 1;
    assert (2 * h) * d == h * (2 * d) && (2 * h + 2) * d == (h + 1) * (2 * d);
  }

  /** Shifting is dividing by a power of two, rounded down. */
  lemma {:induction false} ShiftDivides(x: nat, n: nat)
    ensures ShiftRight(x, n) * Pow2(n) <= x < (ShiftRight(x, n) + 1) * Pow2(n)
  {
    if n > 0 {
      ShiftDivides(x, n - 1);
      HalfStep(x, ShiftRight(x, n - 1), Pow2(n - 1));
    }
  }

  /** The reward of an era is the first one divided by a power of two. */
  lemma EraRewardExact(halvings: nat)
    requires halvings < 64
    ensures EraReward(halvings) * Pow2(halvings) <= BLOCK_REWARD < (EraReward(halvings) + 1) * Pow2(halvings)
  {
    ShiftDivides(BLOCK_REWARD, halvings);
  }

  lemma {:induction false} BigPower(n: nat)
    requires n >= 27
    ensures Pow2(n) > BLOCK_REWARD
  {
    if n > 27 {
      BigPower(n - 1);
    } else {
      assert Pow2(9) == 512;
      assert Pow2(18) == 262_144;
      assert Pow2(27) == 134_217_728;
    }
  }

  /** Emission ends with the 27th halving, before that every era pays. */
  lemma EmissionEndsIff(halvings: nat)
    ensures EraReward(halvings) == 0 <==> halvings >= 27
  {
    if halvings >= 27 {
      BigPower(halvings);
      if halvings < 64 {
        EraRewardExact(halvings);
        if EraReward(halvings) > 0 {
          StepOver(EraReward(halvings), 0, Pow2(halvings));
        }
      }
    } else {
      EraRewardFalls(halvings, 26);
      assert ShiftRight(BLOCK_REWARD, 9) == 195_312;
      assert ShiftRight(BLOCK_REWARD, 18) == 381;
      assert ShiftRight(BLOCK_REWARD, 26) == 1;
    }
  }

  lemma DivShift(x: nat, d: nat)
    requires d > 0
    ensures (x + d) / d == x / d + 1
  {
    assert x + d == (x / d + 1) * d + x % d;
    DivUnique(x + d, d, x / d + 1, x % d);
  }

  lemma DivUnique(x: nat, d: nat, q: nat, r: nat)
    requires d > 0 && x == q * d + r && r < d
    ensures x / d == q
  {
    if x / d > q {
      StepOver(x / d, q, d);
    } else if x / d < q {
      StepOver(q, x / d, d);
    }
  }

  /** The reward halves every interval, under either schedule: 42 million blocks before the fork and 126
      million after it, counted from the fork. */
  lemma RewardHalves(fork: u64, height: nat)
    ensures var next := height + if Active(fork, height) then 126_000_000 else 42_000_000;
            Active(fork, height) == Active(fork, next) ==>
              EraReward(HalvingsAt(fork, next)) == EraReward(HalvingsAt(fork, height)) / 2
  {
    if Active(fork, height) {
      DivShift(height - fork, HALVING_INTERVAL_V2);
    } else {
      DivShift(height, HALVING_INTERVAL);
    }
    EraHalves(HalvingsAt(fork, height));
  }

  lemma EraHalves(h: nat)
    ensures EraReward(h + 1) == EraReward(h) / 2
  {
    if h >= 63 {
      EmissionEndsIff(h);
    }
  }

  /** The reward is the full one in the first interval of either schedule. */
  lemma FirstEra(fork: u64, height: nat)
    requires if Active(fork, height) then height < fork + 126_000_000 else height < 42_000_000
    ensures EraReward(HalvingsAt(fork, height)) == 100_000_000
  {
    if Active(fork, height) {
      DivUnique(height - fork, HALVING_INTERVAL_V2, 0, height - fork);
    } else {
      DivUnique(height, HALVING_INTERVAL, 0, height);
    }
  }

  /** The reward is the largest amount that is within the era reward and keeps the mint within the cap. */
  lemma RewardIsLargest(fork: u64, height: nat, minted: nat, amount: nat)
    requires minted <= MaxSupply(fork, height)
    ensures amount <= BlockReward(fork, height, minted)
       <==> amount <= EraReward(HalvingsAt(fork, height))
            && minted + amount <= if fork != U64_MAX && height >= fork then 31_500_000_000_000_000 else 21_000_000_000_000_000
  {
  }
}
