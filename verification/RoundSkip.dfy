/** The peer scans behind round skipping: the largest round that enough peer stake has
    reached, found by sorting the peers ahead of us and adding up from the top. */
module RoundSkip {
  import opened Sums
  import opened BftTypes

  type Peers = map<Address, (u32, nat)>

  function Stakes(peers: Peers): map<Address, nat> {
    map a | a in peers :: peers[a].1
  }

  /** The peers that reported round `r` or a later one. */
  function AtLeast(peers: Peers, r: nat): set<Address> {
    set a | a in peers && peers[a].0 >= r
  }

  /** Enough stake of peers ahead of `ours` is at `r` or later, and some peer is at `r` itself. */
  ghost predicate Reached(peers: Peers, ours: nat, threshold: nat, r: u32) {
    r > ours && (exists a :: a in peers && peers[a].0 == r) && Sum(AtLeast(peers, r), Stakes(peers)) >= threshold
  }

  /** The largest round reached, or nothing when no round is. */
  ghost predicate IsSkipTarget(peers: Peers, ours: nat, threshold: nat, target: Option<u32>) {
    match target
    case Some(r) => Reached(peers, ours, threshold, r) && forall r': u32 :: Reached(peers, ours, threshold, r') ==> r' <= r
    case None => forall r': u32 :: !Reached(peers, ours, threshold, r')
  }

  /** With no active stake the engine does not scan. */
  ghost predicate IsScanAnswer(peers: Peers, ours: nat, total: u64, threshold: nat, target: Option<u32>) {
    if total == 0 then target.None? else IsSkipTarget(peers, ours, threshold, target)
  }

  /** The answer does not depend on the order in which peers are stored or scanned. */
  lemma SkipTargetUnique(peers: Peers, ours: nat, threshold: nat, t: Option<u32>, t': Option<u32>)
    requires IsSkipTarget(peers, ours, threshold, t) && IsSkipTarget(peers, ours, threshold, t')
    ensures t == t'
  {
    if t.Some? && t'.Some? {
      assert Reached(peers, ours, threshold, t.value) && Reached(peers, ours, threshold, t'.value);
    }
  }

  /** Peers that together hold less than the threshold cannot drag an engine past every
      round the other peers reported: some peer outside the coalition is at the target or
      beyond it. */
  lemma CoalitionCannotDrag(peers: Peers, ours: nat, threshold: nat, target: u32, coalition: set<Address>)
    returns (peer: Address)
    requires IsSkipTarget(peers, ours, threshold, Some(target))
    requires Sum(coalition, Stakes(peers)) < threshold
    ensures peer in peers && peer !in coalition && peers[peer].0 >= target > ours
  {
    var ahead := AtLeast(peers, target);
    SumMonotone(ahead * coalition, coalition, Stakes(peers));
    SumUnion(ahead - coalition, ahead * coalition, Stakes(peers));
    assert (ahead - coalition) + (ahead * coalition) == ahead;
    assert (ahead - coalition) * (ahead * coalition) == {};
    peer := SumPositive(ahead - coalition, Stakes(peers));
  }

  /** In the engine's own terms: a third of the stake or less cannot trigger the f+1 skip
      by itself, and however it reports it cannot choose a round beyond all others. */
  lemma ThirdCannotDrag(peers: Peers, ours: nat, total: u64, target: u32, coalition: set<Address>)
    returns (peer: Address)
    requires IsSkipTarget(peers, ours, FPlusOneThreshold(total), Some(target))
    requires 3 * Sum(coalition, Stakes(peers)) <= total
    ensures peer in peers && peer !in coalition && peers[peer].0 >= target > ours
  {
    peer := CoalitionCannotDrag(peers, ours, FPlusOneThreshold(total), target, coalition);
  }

  // ---- the scan ----

  predicate Descending(peers: Peers, s: seq<Address>) {
    (forall i :: 0 <= i < |s| ==> s[i] in peers)
    && forall i, j :: 0 <= i < j < |s| ==> peers[s[i]].0 >= peers[s[j]].0
  }

  function Elements(s: seq<Address>): set<Address> {
    set a | a in s
  }

  function InsertAt(s: seq<Address>, i: nat, a: Address): (r: seq<Address>)
    requires i <= |s|
    ensures |r| == |s| + 1
    ensures forall k :: 0 <= k < |r| ==> r[k] == if k < i then s[k] else if k == i then a else s[k - 1]
  {
    s[..i] + [a] + s[i..]
  }

  lemma InsertKeepsOrder(peers: Peers, s: seq<Address>, a: Address, i: nat)
    requires Descending(peers, s) && a in peers && i <= |s|
    requires i > 0 ==> peers[s[i - 1]].0 >= peers[a].0
    requires i < |s| ==> peers[a].0 >= peers[s[i]].0
    ensures Descending(peers, InsertAt(s, i, a))
  {
    assert forall j :: 0 <= j < i ==> peers[s[j]].0 >= peers[s[i - 1]].0;
    assert forall j :: i <= j < |s| ==> peers[s[i]].0 >= peers[s[j]].0;
  }

  lemma InsertAddsOne(s: seq<Address>, a: Address, i: nat)
    requires Distinct(s) && a !in s && i <= |s|
    ensures Distinct(InsertAt(s, i, a)) && Elements(InsertAt(s, i, a)) == Elements(s) + {a}
  {
    var r := InsertAt(s, i, a);
    assert r[i] == a;
    forall x | x in s ensures x in r {
      var j :| 0 <= j < |s| && s[j] == x;
      assert r[if j < i then j else j + 1] == x;
    }
  }

  /** Insertion of one more peer into a list sorted by descending round. */
  method Insert(peers: Peers, s: seq<Address>, a: Address) returns (r: seq<Address>)
    requires Descending(peers, s) && Distinct(s) && a in peers && a !in s
    ensures Descending(peers, r) && Distinct(r) && Elements(r) == Elements(s) + {a}
  {
    var i := 0;
    while i < |s| && peers[s[i]].0 >= peers[a].0
      invariant 0 <= i <= |s|
      invariant i > 0 ==> peers[s[i - 1]].0 >= peers[a].0
    {
      i := i + 1;
    }
    r := InsertAt(s, i, a);
    InsertKeepsOrder(peers, s, a, i);
    InsertAddsOne(s, a, i);
  }

  /** The peers strictly ahead of `ours`, taken from the map in an arbitrary order and
      sorted by descending round. */
  method SortedAhead(peers: Peers, ours: nat) returns (s: seq<Address>)
    ensures Descending(peers, s) && Distinct(s) && Elements(s) == AtLeast(peers, ours + 1)
  {
    s := [];
    var rest := peers.Keys;
    while rest != {}
      invariant rest <= peers.Keys && Descending(peers, s) && Distinct(s)
      invariant Elements(s) == AtLeast(peers, ours + 1) - rest
      decreases |rest|
    {
      var a :| a in rest;
      if peers[a].0 > ours {
        assert a !in Elements(s);
        s := Insert(peers, s, a);
      }
      rest := rest - {a};
    }
  }

  /** Everyone at a round beyond that of position `i` stands before position `i`. */
  lemma BeyondIsBefore(peers: Peers, s: seq<Address>, i: nat, ours: nat, r: nat)
    requires Descending(peers, s) && Elements(s) == AtLeast(peers, ours + 1) && i <= |s|
    requires r > ours && (i < |s| ==> r > peers[s[i]].0)
    ensures AtLeast(peers, r) <= Elements(s[..i])
  {
    forall a | a in AtLeast(peers, r) ensures a in Elements(s[..i]) {
      assert a in Elements(s);
      var j :| 0 <= j < |s| && s[j] == a;
      assert j < i;
      assert s[..i][j] == a;
    }
  }

  /** The scan: add stakes from the highest round down, saturating at 64 bits, and stop at
      the first peer where the threshold is met. */
  method Scan(peers: Peers, ours: nat, threshold: u64) returns (target: Option<u32>)
    requires threshold > 0
    ensures IsSkipTarget(peers, ours, threshold, target)
  {
    var s := SortedAhead(peers, ours);
    var accumulated: u64 := 0;
    var i := 0;
    while i < |s|
      invariant 0 <= i <= |s|
      invariant accumulated == Min(Sum(Elements(s[..i]), Stakes(peers)), U64_MAX)
      invariant accumulated < threshold
    {
      accumulated := Min(accumulated + peers[s[i]].1, U64_MAX);
      PrefixSum(peers, s, i);
      if accumulated >= threshold {
        StopsAtLargest(peers, ours, threshold, s, i);
        return Some(peers[s[i]].0);
      }
      i := i + 1;
    }
    forall r: u32 ensures !Reached(peers, ours, threshold, r) {
      if r > ours {
        BeyondIsBefore(peers, s, |s|, ours, r);
        assert s[..|s|] == s;
        SumMonotone(AtLeast(peers, r), Elements(s), Stakes(peers));
      }
    }
    return None;
  }

  function Min(a: nat, b: nat): nat {
    if a <= b then a else b
  }

  lemma PrefixSum(peers: Peers, s: seq<Address>, i: nat)
    requires i < |s| && Distinct(s) && s[i] in peers
    ensures Sum(Elements(s[..i + 1]), Stakes(peers)) == Sum(Elements(s[..i]), Stakes(peers)) + peers[s[i]].1
  {
    assert s[..i + 1] == s[..i] + [s[i]];
    assert Elements(s[..i + 1]) == Elements(s[..i]) + {s[i]};
    SumAdd(Elements(s[..i]), Stakes(peers), s[i]);
  }

  /** Stopping at position `i` names the largest round reached. */
  lemma StopsAtLargest(peers: Peers, ours: nat, threshold: nat, s: seq<Address>, i: nat)
    requires i < |s| && Descending(peers, s) && Distinct(s) && Elements(s) == AtLeast(peers, ours + 1)
    requires Sum(Elements(s[..i]), Stakes(peers)) < threshold <= Sum(Elements(s[..i + 1]), Stakes(peers))
    ensures IsSkipTarget(peers, ours, threshold, Some(peers[s[i]].0))
  {
    var r := peers[s[i]].0;
    assert s[i] in Elements(s);
    assert Elements(s[..i + 1]) <= AtLeast(peers, r);
    SumMonotone(Elements(s[..i + 1]), AtLeast(peers, r), Stakes(peers));
    forall r': u32 | Reached(peers, ours, threshold, r') ensures r' <= r {
      if r' > r {
        BeyondIsBefore(peers, s, i, ours, r');
        SumMonotone(AtLeast(peers, r'), Elements(s[..i]), Stakes(peers));
      }
    }
  }
}
