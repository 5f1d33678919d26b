/** Native balances: the account table with its checked arithmetic, the burn counter and the
    record of touched addresses. */
module Ledger {
  import opened Sums
  import opened BftTypes

  datatype Account = Account(balance: u64, nonce: u64)

  datatype Ledger = Ledger(accounts: map<Address, Account>, burned: u64, touched: set<Address>)

  datatype Error =
    | InsufficientBalance(have: nat, need: nat)
    | Overflow
    | InvalidBlock
    | InvalidTransaction
    | InvalidNonce(expected: nat, got: nat)
    | TrieFailed
    | StateRootMismatch

  datatype Outcome = Pass | Fail(error: Error)

  function Balance(l: Ledger, a: Address): u64 {
    if a in l.accounts then l.accounts[a].balance else 0
  }

  function Nonce(l: Ledger, a: Address): u64 {
    if a in l.accounts then l.accounts[a].nonce else 0
  }

  function SatAdd(x: u64, y: u64): u64 {
    if x + y <= U64_MAX then x + y else U64_MAX
  }

  function CeilHalf(x: nat): nat {
    (x + 1) / 2
  }

  /** Writing an account touches its address. */
  function Put(l: Ledger, a: Address, balance: u64, nonce: u64): Ledger {
    l.(accounts := l.accounts[a := Account(balance, nonce)], touched := l.touched + {a})
  }

  /** The account is created and touched even when the sum does not fit. */
  function Credit(l: Ledger, a: Address, amount: u64): (Ledger, Outcome) {
    if Balance(l, a) + amount <= U64_MAX
    then (Put(l, a, Balance(l, a) + amount, Nonce(l, a)), Pass)
    else (Put(l, a, Balance(l, a), Nonce(l, a)), Fail(Overflow))
  }

  /** Amount and fee leave the sender, the amount reaches the recipient, half of the fee, rounded
      up, is added to the burn counter. A failure half way leaves what was done so far. */
  function Transfer(l: Ledger, from: Address, to: Address, amount: u64, fee: u64): (Ledger, Outcome) {
    if amount + fee > U64_MAX then (l, Fail(Overflow))
    else if Balance(l, from) < amount + fee then (l, Fail(InsufficientBalance(Balance(l, from), amount + fee)))
    else
      var l1 := l.(touched := l.touched + {from, to});
      var left: u64 := Balance(l, from) - (amount + fee);
      if Nonce(l, from) == U64_MAX then (Put(l1, from, left, Nonce(l, from)), Fail(Overflow))
      else
        var (l2, o) := Credit(Put(l1, from, left, Nonce(l, from) + 1), to, amount);
        if o.Fail? then (l2, o) else (l2.(burned := SatAdd(l2.burned, CeilHalf(fee))), Pass)
  }

  class AccountDB {
    var accounts: map<Address, Account>
    var totalBurned: u64
    var touchedInBlock: set<Address>

    ghost function View(): Ledger
      reads this
    {
      Ledger(accounts, totalBurned, touchedInBlock)
    }

    constructor (l: Ledger)
      ensures View() == l
    {
      accounts, totalBurned, touchedInBlock := l.accounts, l.burned, l.touched;
    }

    method GetBalance(a: Address) returns (b: u64)
      ensures b == Balance(View(), a)
    {
      b := if a in accounts then accounts[a].balance else 0;
    }

    method GetNonce(a: Address) returns (n: u64)
      ensures n == Nonce(View(), a)
    {
      n := if a in accounts then accounts[a].nonce else 0;
    }

    /** Makes sure the account exists. */
    method GetOrCreate(a: Address) returns (account: Account)
      modifies this`accounts
      ensures account == Account(Balance(old(View()), a), Nonce(old(View()), a))
      ensures accounts == old(accounts)[a := account]
    {
      if a !in accounts {
        accounts := accounts[a := Account(0, 0)];
      }
      account := accounts[a];
      assert accounts == old(accounts)[a := account];
    }

    method DoCredit(a: Address, amount: u64) returns (o: Outcome)
      modifies this
      ensures (View(), o) == Credit(old(View()), a, amount)
    {
      touchedInBlock := touchedInBlock + {a};
      var account := GetOrCreate(a);
      if account.balance + amount > U64_MAX {
        return Fail(Overflow);
      }
      accounts := accounts[a := account.(balance := account.balance + amount)];
      assert accounts == old(accounts)[a := Account(account.balance + amount, account.nonce)];
      return Pass;
    }

    method DoTransfer(from: Address, to: Address, amount: u64, fee: u64) returns (o: Outcome)
      modifies this
      ensures (View(), o) == Transfer(old(View()), from, to, amount, fee)
    {
      if amount + fee > U64_MAX {
        return Fail(Overflow);
      }
      var have := GetBalance(from);
      if have < amount + fee {
        return Fail(InsufficientBalance(have, amount + fee));
      }
      touchedInBlock := touchedInBlock + {from, to};
      var sender := GetOrCreate(from);
      accounts := accounts[from := sender.(balance := sender.balance - (amount + fee))];
      if sender.nonce == U64_MAX {
        assert View() == Transfer(old(View()), from, to, amount, fee).0;
        return Fail(Overflow);
      }
      accounts := accounts[from := Account(sender.balance - (amount + fee), sender.nonce + 1)];
      assert View() == Put(old(View()).(touched := old(View()).touched + {from, to}), from,
                           sender.balance - (amount + fee), sender.nonce + 1);
      o := DoCredit(to, amount);
      if o.Fail? {
        return;
      }
      totalBurned := SatAdd(totalBurned, CeilHalf(fee));
    }

    method ClearTouched()
      modifies this`touchedInBlock
      ensures View() == old(View()).(touched := {})
    {
      touchedInBlock := {};
    }

    method Restore(l: Ledger)
      modifies this
      ensures View() == l
    {
      accounts, totalBurned, touchedInBlock := l.accounts, l.burned, l.touched;
    }
  }

  // ---- supply ----

  function Balances(accounts: map<Address, Account>): map<Address, nat> {
    map a | a in accounts :: accounts[a].balance
  }

  /** The sum of all balances. */
  ghost function Supply(l: Ledger): nat {
    Total(Balances(l.accounts))
  }

  lemma PutSupply(l: Ledger, a: Address, balance: u64, nonce: u64)
    ensures Supply(Put(l, a, balance, nonce)) + Balance(l, a) == Supply(l) + balance
  {
    TotalUpdate(Balances(l.accounts), a, balance);
    assert Balances(Put(l, a, balance, nonce).accounts) == Balances(l.accounts)[a := balance];
  }

  lemma BalanceWithinSupply(l: Ledger, a: Address)
    ensures Balance(l, a) <= Supply(l)
  {
    if a in l.accounts {
      SumMember(Balances(l.accounts).Keys, Balances(l.accounts), a);
    }
  }

  /** A credit succeeds whenever the whole supply still fits, and adds exactly its amount. */
  lemma CreditSupply(l: Ledger, a: Address, amount: u64)
    ensures Credit(l, a, amount).1.Pass? ==> Supply(Credit(l, a, amount).0) == Supply(l) + amount
    ensures Supply(l) + amount <= U64_MAX ==> Credit(l, a, amount).1.Pass?
    ensures Credit(l, a, amount).0.burned == l.burned
  {
    BalanceWithinSupply(l, a);
    PutSupply(l, a, SatAdd(Balance(l, a), amount), Nonce(l, a));
  }

  /** The sender's side of a transfer. */
  function Debited(l: Ledger, from: Address, to: Address, total: nat): Ledger
    requires total <= Balance(l, from) && Nonce(l, from) < U64_MAX
  {
    Put(l.(touched := l.touched + {from, to}), from, Balance(l, from) - total, Nonce(l, from) + 1)
  }

  lemma DebitedSupply(l: Ledger, from: Address, to: Address, total: nat)
    requires total <= Balance(l, from) && Nonce(l, from) < U64_MAX
    ensures Supply(Debited(l, from, to, total)) + total == Supply(l) && Debited(l, from, to, total).burned == l.burned
  {
    PutSupply(l.(touched := l.touched + {from, to}), from, Balance(l, from) - total, Nonce(l, from) + 1);
  }

  /** While the supply fits in 64 bits, a transfer succeeds if and only if the sender can pay and
      has a nonce left. */
  lemma TransferPassesIff(l: Ledger, from: Address, to: Address, amount: u64, fee: u64)
    requires Supply(l) <= U64_MAX
    ensures Transfer(l, from, to, amount, fee).1.Pass?
       <==> Balance(l, from) >= amount + fee && Nonce(l, from) < U64_MAX
  {
    if amount + fee <= Balance(l, from) && Nonce(l, from) < U64_MAX {
      DebitedSupply(l, from, to, amount + fee);
      CreditSupply(Debited(l, from, to, amount + fee), to, amount);
    }
  }

  /** A transfer takes exactly its fee out of circulation and counts half of it as burned. */
  lemma TransferSupply(l: Ledger, from: Address, to: Address, amount: u64, fee: u64)
    requires Transfer(l, from, to, amount, fee).1.Pass?
    ensures var l' := Transfer(l, from, to, amount, fee).0;
            Supply(l') + fee == Supply(l) && l'.burned == SatAdd(l.burned, CeilHalf(fee))
  {
    DebitedSupply(l, from, to, amount + fee);
    CreditSupply(Debited(l, from, to, amount + fee), to, amount);
  }

  /** What a successful transfer does to each account. */
  lemma TransferBalances(l: Ledger, from: Address, to: Address, amount: u64, fee: u64, a: Address)
    requires Transfer(l, from, to, amount, fee).1.Pass?
    ensures var l' := Transfer(l, from, to, amount, fee).0;
            && Balance(l', a) == Balance(l, a) - (if a == from then amount + fee else 0) + (if a == to then amount else 0)
            && Nonce(l', a) == Nonce(l, a) + (if a == from then 1 else 0)
  {
  }

  /** Operations touch what they change. */
  ghost predicate TouchesChanges(l: Ledger, l': Ledger) {
    l.touched <= l'.touched && forall a :: a !in l'.touched ==> Balance(l', a) == Balance(l, a) && Nonce(l', a) == Nonce(l, a)
  }

  lemma TransferTouches(l: Ledger, from: Address, to: Address, amount: u64, fee: u64)
    ensures TouchesChanges(l, Transfer(l, from, to, amount, fee).0)
    ensures Transfer(l, from, to, amount, fee).0.touched
            == if amount + fee <= U64_MAX && amount + fee <= Balance(l, from) then l.touched + {from, to} else l.touched
  {
  }
}
