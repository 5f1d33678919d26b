/** The state trie as the map it represents, from address keys to (balance, nonce): how a leaf is
    found, how a block's touched addresses are written, and when the result agrees with a trie built
    from scratch out of the account table. */
module StateTrie {
  import opened BftTypes
  import opened Ledger

  /** What is hashed into a trie key; the hash is taken to be free of collisions. */
  datatype Key = Key(bytes: seq<nat>)

  datatype Trie = Trie(leaves: map<Key, Account>)

  const EMPTY: Trie := Trie(map[])

  // ---- keys ----

  predicate IsHexDigit(c: char) {
    '0' <= c <= '9' || 'a' <= c <= 'f' || 'A' <= c <= 'F'
  }

  predicate IsValidAddress(a: Address) {
    |a.text| == 42 && a.text[..2] == "0x" && forall i :: 2 <= i < 42 ==> IsHexDigit(a.text[i])
  }

  function Lower(c: char): char {
    if 'A' <= c <= 'Z' then c - 'A' + 'a' else c
  }

  function LowerAll(s: string): string {
    seq(|s|, i requires 0 <= i < |s| => Lower(s[i]))
  }

  /** Every leading "0x" goes. */
  function Strip(s: string): string {
    if |s| >= 2 && s[..2] == "0x" then Strip(s[2..]) else s
  }

  function HexValue(c: char): nat
    requires IsHexDigit(c)
  {
    if c <= '9' then (c - '0') as nat else (Lower(c) - 'a') as nat + 10
  }

  function DecodeHex(s: string): Option<seq<nat>> {
    if s == [] then Some([])
    else if |s| == 1 || !IsHexDigit(s[0]) || !IsHexDigit(s[1]) then None
    else match DecodeHex(s[2..])
      case None => None
      case Some(rest) => Some([16 * HexValue(s[0]) + HexValue(s[1])] + rest)
  }

  function TextBytes(s: string): seq<nat> {
    seq(|s|, i requires 0 <= i < |s| => s[i] as nat)
  }

  function KeyOf(a: Address): Key {
    var text := LowerAll(Strip(a.text));
    match DecodeHex(text)
    case Some(bytes) => Key(bytes)
    case None => Key(TextBytes(text))
  }

  predicate IsLowerHex(c: char) {
    IsHexDigit(c) && Lower(c) == c
  }

  predicate AllHex(s: string) {
    forall i :: 0 <= i < |s| ==> IsLowerHex(s[i])
  }

  lemma HexValueInjective(c: char, d: char)
    requires IsLowerHex(c) && IsLowerHex(d)
    ensures HexValue(c) < 16 && (HexValue(c) == HexValue(d) ==> c == d)
  {
  }

  /** One byte determines its two digits. */
  lemma ByteInjective(c: char, d: char, c': char, d': char)
    requires IsLowerHex(c) && IsLowerHex(d) && IsLowerHex(c') && IsLowerHex(d')
    requires 16 * HexValue(c) + HexValue(d) == 16 * HexValue(c') + HexValue(d')
    ensures c == c' && d == d'
  {
    HexValueInjective(c, c');
    HexValueInjective(d, d');
    HexValueInjective(d', d);
  }

  lemma DecodeStep(s: string)
    requires |s| >= 2 && AllHex(s) && DecodeHex(s[2..]).Some?
    ensures DecodeHex(s) == Some([16 * HexValue(s[0]) + HexValue(s[1])] + DecodeHex(s[2..]).value)
  {
  }

  lemma ConsInjective(x: nat, xs: seq<nat>, y: nat, ys: seq<nat>)
    requires [x] + xs == [y] + ys
    ensures x == y && xs == ys
  {
    assert ([x] + xs)[0] == x && ([y] + ys)[0] == y;
    assert ([x] + xs)[1..] == xs && ([y] + ys)[1..] == ys;
  }

  lemma {:induction false} DecodeHexInjective(s: string, t: string)
    requires AllHex(s) && AllHex(t) && |s| == |t| && |s| % 2 == 0
    ensures DecodeHex(s).Some? && DecodeHex(t).Some?
    ensures DecodeHex(s) == DecodeHex(t) ==> s == t
  {
    if s != [] {
      DecodeHexInjective(s[2..], t[2..]);
      DecodeStep(s);
      DecodeStep(t);
      if DecodeHex(s) == DecodeHex(t) {
        ConsInjective(16 * HexValue(s[0]) + HexValue(s[1]), DecodeHex(s[2..]).value,
                      16 * HexValue(t[0]) + HexValue(t[1]), DecodeHex(t[2..]).value);
        ByteInjective(s[0], s[1], t[0], t[1]);
        assert s == [s[0], s[1]] + s[2..] && t == [t[0], t[1]] + t[2..];
      }
    }
  }

  lemma ValidKey(a: Address)
    requires IsValidAddress(a)
    ensures var text := LowerAll(a.text[2..]);
            && |text| == 40 && AllHex(text) && Strip(a.text) == a.text[2..]
            && LowerAll(a.text) == "0x" + text
  {
    assert a.text == a.text[..2] + a.text[2..];
    assert a.text[2..][..2][1] == a.text[3] && "0x"[1] == 'x' && !IsHexDigit('x');
  }

  /** Two well-formed addresses share a leaf exactly when they differ at most in the case of their
      hex digits. */
  lemma ValidKeysEqualIff(a: Address, b: Address)
    requires IsValidAddress(a) && IsValidAddress(b)
    ensures KeyOf(a) == KeyOf(b) <==> LowerAll(a.text) == LowerAll(b.text)
  {
    ValidKey(a);
    ValidKey(b);
    var s, t := LowerAll(a.text[2..]), LowerAll(b.text[2..]);
    DecodeHexInjective(s, t);
    assert ("0x" + s)[2..] == s && ("0x" + t)[2..] == t;
  }

  /** A prefix "0x" more or less makes no difference. */
  lemma PrefixIgnored(text: string)
    ensures KeyOf(Address("0x" + text)) == KeyOf(Address(text))
  {
    assert ("0x" + text)[..2] == "0x" && ("0x" + text)[2..] == text;
  }

  /** Texts that are not hexadecimal share a leaf exactly when they differ at most in prefixes and case. */
  lemma TextKeysEqualIff(a: Address, b: Address)
    requires DecodeHex(LowerAll(Strip(a.text))).None? && DecodeHex(LowerAll(Strip(b.text))).None?
    ensures KeyOf(a) == KeyOf(b) <==> LowerAll(Strip(a.text)) == LowerAll(Strip(b.text))
  {
    var s, t := LowerAll(Strip(a.text)), LowerAll(Strip(b.text));
    if TextBytes(s) == TextBytes(t) {
      assert |s| == |TextBytes(s)| && |t| == |TextBytes(t)|;
      forall i | 0 <= i < |s|
        ensures s[i] == t[i]
      {
        assert TextBytes(s)[i] == TextBytes(t)[i];
      }
    }
  }

  // ---- the order of writing ----

  predicate Before(s: string, t: string) {
    t != [] && (s == [] || s[0] < t[0] || (s[0] == t[0] && Before(s[1..], t[1..])))
  }

  lemma {:induction false} BeforeTotal(s: string, t: string)
    ensures s == t || Before(s, t) || Before(t, s)
  {
    if s != [] && t != [] {
      BeforeTotal(s[1..], t[1..]);
      assert s == [s[0]] + s[1..] && t == [t[0]] + t[1..];
    }
  }

  lemma {:induction false} BeforeIrreflexive(s: string)
    ensures !Before(s, s)
  {
    if s != [] {
      BeforeIrreflexive(s[1..]);
    }
  }

  lemma {:induction false} BeforeTransitive(s: string, t: string, u: string)
    requires Before(s, t) && Before(t, u)
    ensures Before(s, u)
  {
    if s != [] && s[0] == t[0] == u[0] {
      BeforeTransitive(s[1..], t[1..], u[1..]);
    }
  }

  ghost predicate IsLeast(a: Address, s: set<Address>) {
    a in s && forall b :: b in s && b != a ==> Before(a.text, b.text)
  }

  lemma LeastUnique(a: Address, b: Address, s: set<Address>)
    requires IsLeast(a, s) && IsLeast(b, s)
    ensures a == b
  {
    if a != b {
      BeforeTransitive(a.text, b.text, a.text);
      BeforeIrreflexive(a.text);
    }
  }

  /** The next address of a sorted set. */
  method PickLeast(s: set<Address>) returns (a: Address)
    requires s != {}
    ensures IsLeast(a, s)
  {
    a :| a in s;
    var rest := s - {a};
    while rest != {}
      invariant rest <= s && a in s - rest
      invariant forall b :: b in s - rest && b != a ==> Before(a.text, b.text)
    {
      var b :| b in rest;
      BeforeTotal(a.text, b.text);
      if Before(b.text, a.text) {
        forall c | c in s - rest && c != a
          ensures Before(b.text, c.text)
        {
          BeforeTransitive(b.text, a.text, c.text);
        }
        a := b;
      }
      rest := rest - {b};
    }
  }

  lemma {:induction false} LeastExists(s: set<Address>) returns (a: Address)
    requires s != {}
    ensures IsLeast(a, s)
  {
    a :| a in s;
    if s != {a} {
      var b := LeastExists(s - {a});
      BeforeTotal(a.text, b.text);
      if Before(b.text, a.text) {
        a := b;
      } else {
        forall c | c in s && c != a && c != b
          ensures Before(a.text, c.text)
        {
          BeforeTransitive(a.text, b.text, c.text);
        }
      }
    }
  }

  ghost function Least(s: set<Address>): (a: Address)
    requires s != {}
    ensures IsLeast(a, s)
  {
    assert exists b :: IsLeast(b, s) by {
      var b := LeastExists(s);
    }
    var b :| IsLeast(b, s);
    b
  }

  // ---- writing ----

  /** What the trie should hold for an address. */
  function LeafOf(l: Ledger, a: Address): Option<Account> {
    if Balance(l, a) == 0 then None else Some(Account(Balance(l, a), Nonce(l, a)))
  }

  function Leaf(t: Trie, k: Key): Option<Account> {
    if k in t.leaves then Some(t.leaves[k]) else None
  }

  /** An account without a balance loses its leaf. */
  function WriteLeaf(t: Trie, l: Ledger, a: Address): Trie {
    match LeafOf(l, a)
    case None => Trie(t.leaves - {KeyOf(a)})
    case Some(account) => Trie(t.leaves[KeyOf(a) := account])
  }

  ghost function Refresh(t: Trie, l: Ledger, touched: set<Address>): Trie
    decreases touched
  {
    if touched == {} then t
    else
      var a := Least(touched);
      Refresh(WriteLeaf(t, l, a), l, touched - {a})
  }

  function Funded(l: Ledger): set<Address> {
    set a | a in l.accounts && l.accounts[a].balance > 0
  }

  /** A trie built from scratch. */
  ghost function Backfill(l: Ledger): Trie {
    Refresh(EMPTY, l, Funded(l))
  }

  method WriteTouched(t: Trie, db: AccountDB, touched: set<Address>) returns (r: Trie)
    ensures r == Refresh(t, db.View(), touched)
  {
    r := t;
    var rest := touched;
    while rest != {}
      invariant Refresh(r, db.View(), rest) == Refresh(t, db.View(), touched)
    {
      var a := PickLeast(rest);
      LeastUnique(a, Least(rest), rest);
      var balance := db.GetBalance(a);
      if balance == 0 {
        r := Trie(r.leaves - {KeyOf(a)});
      } else {
        var nonce := db.GetNonce(a);
        r := Trie(r.leaves[KeyOf(a) := Account(balance, nonce)]);
      }
      rest := rest - {a};
    }
  }

  method BackfillTrie(db: AccountDB) returns (r: Trie)
    ensures r == Backfill(db.View())
  {
    var funded := set a | a in db.accounts && db.accounts[a].balance > 0;
    r := WriteTouched(EMPTY, db, funded);
  }

  // ---- agreement with the accounts ----

  /** Addresses that share a key have the same leaf. */
  ghost predicate LeavesAgree(l: Ledger, s: set<Address>) {
    forall a, b :: a in s && b in s && KeyOf(a) == KeyOf(b) ==> LeafOf(l, a) == LeafOf(l, b)
  }

  predicate Writes(touched: set<Address>, k: Key) {
    exists a :: a in touched && KeyOf(a) == k
  }

  /** Of the touched addresses with key `k`, the one that is written last. */
  ghost predicate IsLastWriter(a: Address, touched: set<Address>, k: Key) {
    a in touched && KeyOf(a) == k && forall b :: b in touched && KeyOf(b) == k && b != a ==> Before(b.text, a.text)
  }

  /** A written leaf is that of the last writer of its key; every other leaf is left alone. */
  lemma {:induction false} RefreshLeaf(t: Trie, l: Ledger, touched: set<Address>, k: Key)
    ensures (exists a :: IsLastWriter(a, touched, k) && Leaf(Refresh(t, l, touched), k) == LeafOf(l, a))
         || (!Writes(touched, k) && Leaf(Refresh(t, l, touched), k) == Leaf(t, k))
    decreases touched
  {
    if touched != {} {
      var a := Least(touched);
      var t1, rest := WriteLeaf(t, l, a), touched - {a};
      RefreshLeaf(t1, l, rest, k);
      if b :| IsLastWriter(b, rest, k) && Leaf(Refresh(t1, l, rest), k) == LeafOf(l, b) {
        assert IsLastWriter(b, touched, k);
      } else if KeyOf(a) == k {
        assert Leaf(t1, k) == LeafOf(l, a);
        assert IsLastWriter(a, touched, k);
      }
    }
  }

  /** The trie holds exactly the funded accounts among `s`. */
  ghost predicate Holds(t: Trie, l: Ledger, s: set<Address>) {
    && (forall a :: a in s ==> Leaf(t, KeyOf(a)) == LeafOf(l, a))
    && (forall k :: k in t.leaves ==> exists a :: a in s && KeyOf(a) == k)
  }

  lemma BackfillLeaf(l: Ledger, k: Key)
    ensures (exists a :: a in Funded(l) && KeyOf(a) == k && Leaf(Backfill(l), k) == LeafOf(l, a))
         || ((forall a :: a in Funded(l) ==> KeyOf(a) != k) && Leaf(Backfill(l), k) == None)
  {
    RefreshLeaf(EMPTY, l, Funded(l), k);
  }

  /** A trie built from scratch represents the account table exactly when the accounts that share a
      key also share a leaf. */
  lemma BackfillHoldsIff(l: Ledger)
    ensures Holds(Backfill(l), l, l.accounts.Keys) <==> LeavesAgree(l, l.accounts.Keys)
  {
    if LeavesAgree(l, l.accounts.Keys) {
      forall a | a in l.accounts
        ensures Leaf(Backfill(l), KeyOf(a)) == LeafOf(l, a)
      {
        BackfillLeaf(l, KeyOf(a));
      }
      forall k | k in Backfill(l).leaves
        ensures exists a :: a in l.accounts.Keys && KeyOf(a) == k
      {
        BackfillLeaf(l, k);
      }
    }
  }

  /** A trie that represents the accounts is the one built from scratch. */
  lemma HoldsIsBackfill(t: Trie, l: Ledger)
    requires Holds(t, l, l.accounts.Keys)
    ensures t == Backfill(l)
  {
    forall k
      ensures Leaf(t, k) == Leaf(Backfill(l), k)
    {
      BackfillLeaf(l, k);
    }
    LeavesDecide(t, Backfill(l));
  }

  lemma LeavesDecide(t: Trie, u: Trie)
    requires forall k :: Leaf(t, k) == Leaf(u, k)
    ensures t == u
  {
    forall k
      ensures k in t.leaves <==> k in u.leaves
      ensures k in t.leaves ==> t.leaves[k] == u.leaves[k]
    {
      assert Leaf(t, k) == Leaf(u, k);
    }
    assert t.leaves == u.leaves;
  }

  // ---- when an update keeps the agreement ----

  /** The leaf an account table gives to a key. */
  ghost function KeyLeaf(l: Ledger, k: Key): Option<Account> {
    if a :| a in l.accounts && KeyOf(a) == k then LeafOf(l, a) else None
  }

  /** Some account has another leaf than its key had, and the key is not written. */
  ghost predicate Missed(l: Ledger, l': Ledger, touched: set<Address>) {
    exists a :: a in l'.accounts && !Writes(touched, KeyOf(a)) && LeafOf(l', a) != KeyLeaf(l, KeyOf(a))
  }

  /** An address without an account is written last to the key of a funded account. */
  ghost predicate Erased(l: Ledger, touched: set<Address>) {
    exists a, b :: a in l.accounts && LeafOf(l, a).Some? && b !in l.accounts && IsLastWriter(b, touched, KeyOf(a))
  }

  lemma HeldLeaf(t: Trie, l: Ledger, k: Key)
    requires Holds(t, l, l.accounts.Keys)
    ensures Leaf(t, k) == KeyLeaf(l, k)
  {
  }

  /** One account's leaf after the update. */
  lemma UpdatedLeaf(t: Trie, l: Ledger, l': Ledger, touched: set<Address>, a: Address)
    requires Holds(t, l, l.accounts.Keys) && a in l'.accounts
    ensures !Writes(touched, KeyOf(a)) ==> Leaf(Refresh(t, l', touched), KeyOf(a)) == KeyLeaf(l, KeyOf(a))
    ensures Writes(touched, KeyOf(a)) ==>
              exists b :: IsLastWriter(b, touched, KeyOf(a)) && Leaf(Refresh(t, l', touched), KeyOf(a)) == LeafOf(l', b)
  {
    RefreshLeaf(t, l', touched, KeyOf(a));
    HeldLeaf(t, l, KeyOf(a));
  }

  /** Every leaf after the update belongs to an account. */
  lemma UpdatedKeys(t: Trie, l: Ledger, l': Ledger, touched: set<Address>, k: Key)
    requires Holds(t, l, l.accounts.Keys) && l.accounts.Keys <= l'.accounts.Keys && k in Refresh(t, l', touched).leaves
    ensures exists a :: a in l'.accounts.Keys && KeyOf(a) == k
  {
    RefreshLeaf(t, l', touched, k);
    if a :| IsLastWriter(a, touched, k) && Leaf(Refresh(t, l', touched), k) == LeafOf(l', a) {
      assert a in l'.accounts.Keys;
    } else {
      var a :| a in l.accounts.Keys && KeyOf(a) == k;
      assert a in l'.accounts.Keys;
    }
  }

  lemma LastWriterUnique(a: Address, b: Address, touched: set<Address>, k: Key)
    requires IsLastWriter(a, touched, k) && IsLastWriter(b, touched, k)
    ensures a == b
  {
    if a != b {
      BeforeTransitive(a.text, b.text, a.text);
      BeforeIrreflexive(a.text);
    }
  }

  /** Rewriting the touched leaves keeps the trie in step with the accounts if and only if no changed
      leaf is missed, none is erased under another spelling, and accounts that share a key share a
      leaf. */
  lemma RefreshHoldsIff(t: Trie, l: Ledger, l': Ledger, touched: set<Address>)
    requires Holds(t, l, l.accounts.Keys) && l.accounts.Keys <= l'.accounts.Keys
    ensures Holds(Refresh(t, l', touched), l', l'.accounts.Keys)
       <==> !Missed(l, l', touched) && !Erased(l', touched) && LeavesAgree(l', l'.accounts.Keys)
  {
    if Holds(Refresh(t, l', touched), l', l'.accounts.Keys) {
      HoldsThenAgrees(t, l, l', touched);
    } else if !Missed(l, l', touched) && !Erased(l', touched) && LeavesAgree(l', l'.accounts.Keys) {
      AgreesThenHolds(t, l, l', touched);
    }
  }

  lemma HoldsThenAgrees(t: Trie, l: Ledger, l': Ledger, touched: set<Address>)
    requires Holds(t, l, l.accounts.Keys) && Holds(Refresh(t, l', touched), l', l'.accounts.Keys)
    ensures !Missed(l, l', touched) && !Erased(l', touched) && LeavesAgree(l', l'.accounts.Keys)
  {
    forall a | a in l'.accounts && !Writes(touched, KeyOf(a))
      ensures LeafOf(l', a) == KeyLeaf(l, KeyOf(a))
    {
      UpdatedLeaf(t, l, l', touched, a);
    }
    forall a, b | a in l'.accounts && b !in l'.accounts && IsLastWriter(b, touched, KeyOf(a))
      ensures LeafOf(l', a).None?
    {
      UpdatedLeaf(t, l, l', touched, a);
      var w :| IsLastWriter(w, touched, KeyOf(a)) && Leaf(Refresh(t, l', touched), KeyOf(a)) == LeafOf(l', w);
      LastWriterUnique(b, w, touched, KeyOf(a));
    }
  }

  lemma AgreesThenHolds(t: Trie, l: Ledger, l': Ledger, touched: set<Address>)
    requires Holds(t, l, l.accounts.Keys) && l.accounts.Keys <= l'.accounts.Keys
    requires !Missed(l, l', touched) && !Erased(l', touched) && LeavesAgree(l', l'.accounts.Keys)
    ensures Holds(Refresh(t, l', touched), l', l'.accounts.Keys)
  {
    forall a | a in l'.accounts
      ensures Leaf(Refresh(t, l', touched), KeyOf(a)) == LeafOf(l', a)
    {
      UpdatedLeaf(t, l, l', touched, a);
    }
    forall k | k in Refresh(t, l', touched).leaves
      ensures exists a :: a in l'.accounts.Keys && KeyOf(a) == k
    {
      UpdatedKeys(t, l, l', touched, k);
    }
  }
}
