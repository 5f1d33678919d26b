/** The rotation of proposers: in as many consecutive rounds as there are active validators, each is
    elected once. */
module Election {
  import opened BftTypes

  lemma StepOver(q: nat, p: nat, d: nat)
    requires q > p
    ensures q * d >= p * d + d
  {
    assert q * d == (p + 1) * d + (q - p - 1) * d;
  }

  lemma RemainderIs(x: nat, d: nat, q: nat, r: nat)
    requires d > 0 && x == q * d + r && r < d
    ensures x % d == r && x / d == q
  {
    if x / d > q {
      StepOver(x / d, q, d);
    } else if x / d < q {
      StepOver(q, x / d, d);
    }
  }

  /** How many steps it takes from position `s % n` to position `i`, going round. */
  function StepsTo(s: nat, n: nat, i: nat): nat
    requires i < n
  {
    if s % n <= i then i - s % n else i + n - s % n
  }

  /** Going round from `s`, position `i` comes up exactly once in `n` steps. */
  lemma RoundTrip(s: nat, n: nat, i: nat, k: nat)
    requires i < n && k < n
    ensures StepsTo(s, n, i) < n && ((s + k) % n == i <==> k == StepsTo(s, n, i))
  {
    var p, q := s % n, s / n;
    assert s == q * n + p;
    if p + k < n {
      RemainderIs(s + k, n, q, p + k);
    } else {
      assert (q + 1) * n == q * n + n;
      RemainderIs(s + k, n, q + 1, p + k - n);
    }
  }

  /** Among any `n` consecutive rounds of a height, each of the `n` active validators is elected in
      exactly one, as long as height and round do not run over. */
  lemma EveryoneProposes(reg: Registry, height: nat, from: u32, i: nat, k: nat)
    requires i < |reg.activeSet| && k < |reg.activeSet| && Distinct(reg.activeSet)
    requires from + |reg.activeSet| <= U32_MAX && height + from + |reg.activeSet| <= U64_MAX
    ensures reg.WeightedProposer(height, from + k) == Some(reg.activeSet[i])
       <==> k == StepsTo(height + from, |reg.activeSet|, i)
    ensures StepsTo(height + from, |reg.activeSet|, i) < |reg.activeSet|
  {
    var n := |reg.activeSet|;
    RoundTrip(height + from, n, i, k);
    var j := (height + from + k) % n;
    assert reg.WeightedProposer(height, from + k) == Some(reg.activeSet[j]);
  }

  /** Nobody outside the active set is elected, and without one nobody is. */
  lemma OnlyActiveElected(reg: Registry, height: nat, round: u32)
    ensures reg.WeightedProposer(height, round).None? <==> reg.activeSet == []
    ensures reg.WeightedProposer(height, round).Some? ==> reg.WeightedProposer(height, round).value in reg.activeSet
  {
  }
}
