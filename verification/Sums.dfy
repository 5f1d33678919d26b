/** Finite sums of natural-number weights over sets of keys, as used for stake,
    balances and reward accumulators. A key that is missing from a map weighs 0,
    which is what every `unwrap_or(0)` lookup of the node computes. */
module Sums {

  function Weight<K>(w: map<K, nat>, k: K): nat {
    if k in w then w[k] else 0
  }

  ghost function Sum<K>(s: set<K>, w: map<K, nat>): nat {
    if s == {} then 0 else
    var k :| k in s;
    Weight(w, k) + Sum(s - {k}, w)
  }

  /** The weight of the whole map. */
  ghost function Total<K>(w: map<K, nat>): nat {
    Sum(w.Keys, w)
  }

  /** The sum may be peeled at any member, not only at the one chosen by the definition. */
  lemma {:induction false} SumRemove<K>(s: set<K>, w: map<K, nat>, k: K)
    requires k in s
    ensures Sum(s, w) == Weight(w, k) + Sum(s - {k}, w)
  {
    var c :| c in s && Sum(s, w) == Weight(w, c) + Sum(s - {c}, w);
    if c != k {
      SumRemove(s - {c}, w, k);
      SumRemove(s - {k}, w, c);
      assert s - {c} - {k} == s - {k} - {c};
    }
  }

  lemma SumAdd<K>(s: set<K>, w: map<K, nat>, k: K)
    requires k !in s
    ensures Sum(s + {k}, w) == Sum(s, w) + Weight(w, k)
  {
    SumRemove(s + {k}, w, k);
    assert s + {k} - {k} == s;
  }

  lemma {:induction false} SumAgree<K>(s: set<K>, w: map<K, nat>, w': map<K, nat>)
    requires forall k :: k in s ==> Weight(w, k) == Weight(w', k)
    ensures Sum(s, w) == Sum(s, w')
  {
    if s != {} {
      var k :| k in s;
      SumRemove(s, w, k);
      SumRemove(s, w', k);
      SumAgree(s - {k}, w, w');
    }
  }

  /** Inclusion and exclusion: the fact behind every quorum intersection. */
  lemma {:induction false} SumUnion<K>(a: set<K>, b: set<K>, w: map<K, nat>)
    ensures Sum(a + b, w) + Sum(a * b, w) == Sum(a, w) + Sum(b, w)
    decreases a
  {
    if a == {} {
      assert a + b == b && a * b == {};
    } else {
      var k :| k in a;
      SumUnion(a - {k}, b, w);
      SumRemove(a, w, k);
      if k in b {
        assert a - {k} + b == a + b;
        assert (a - {k}) * b == a * b - {k};
        SumRemove(a * b, w, k);
      } else {
        assert a - {k} + b == a + b - {k};
        assert (a - {k}) * b == a * b;
        SumRemove(a + b, w, k);
      }
    }
  }

  lemma SumMonotone<K>(a: set<K>, b: set<K>, w: map<K, nat>)
    requires a <= b
    ensures Sum(a, w) <= Sum(b, w)
  {
    SumUnion(a, b - a, w);
    assert a + (b - a) == b && a * (b - a) == {};
  }

  /** Keys outside the map weigh nothing. */
  lemma {:induction false} SumWithin<K>(s: set<K>, w: map<K, nat>)
    ensures Sum(s, w) <= Total(w)
  {
    SumUnion(s * w.Keys, s - w.Keys, w);
    assert s * w.Keys + (s - w.Keys) == s && (s * w.Keys) * (s - w.Keys) == {};
    SumOutside(s - w.Keys, w);
    SumMonotone(s * w.Keys, w.Keys, w);
  }

  lemma {:induction false} SumOutside<K>(s: set<K>, w: map<K, nat>)
    requires s !! w.Keys
    ensures Sum(s, w) == 0
  {
    if s != {} {
      var k :| k in s;
      SumRemove(s, w, k);
      SumOutside(s - {k}, w);
    }
  }

  lemma SumMember<K>(s: set<K>, w: map<K, nat>, k: K)
    requires k in s
    ensures Weight(w, k) <= Sum(s, w)
  {
    SumRemove(s, w, k);
  }

  /** A set of positive weight has a member. */
  lemma SumPositive<K>(s: set<K>, w: map<K, nat>) returns (k: K)
    requires Sum(s, w) > 0
    ensures k in s
  {
    k :| k in s;
  }

  /** Overwriting one entry moves the total by exactly the difference of the two values. */
  lemma TotalUpdate<K>(w: map<K, nat>, k: K, v: nat)
    ensures Total(w[k := v]) + Weight(w, k) == Total(w) + v
  {
    var w' := w[k := v];
    assert w'.Keys == w.Keys + {k};
    SumRemove(w'.Keys, w', k);
    SumAgree(w'.Keys - {k}, w', w);
    if k in w {
      SumRemove(w.Keys, w, k);
      assert w'.Keys - {k} == w.Keys - {k};
    } else {
      assert w'.Keys - {k} == w.Keys;
    }
  }

  /** Removing an entry takes exactly its weight away. */
  lemma TotalRemove<K>(w: map<K, nat>, k: K)
    ensures Total(w - {k}) + Weight(w, k) == Total(w)
  {
    if k in w {
      SumRemove(w.Keys, w, k);
      assert (w - {k}).Keys == w.Keys - {k};
      SumAgree(w.Keys - {k}, w, w - {k});
    } else {
      assert w - {k} == w;
    }
  }
}
