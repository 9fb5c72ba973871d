/** The balance book (internal/blockchain/balance_ledger.go). */
module Ledger {
  import opened Basics
  import opened Sums

  datatype Account = Account(balance: u64, nonce: u64)

  type Accounts = map<Key, Account>

  function BalanceOf(a: Accounts, k: Key): u64 {
    if k in a then a[k].balance else 0
  }

  function NonceOf(a: Accounts, k: Key): u64 {
    if k in a then a[k].nonce else 0
  }

  /** The account of k, created empty when it is missing. */
  function Ensured(a: Accounts, k: Key): Account {
    if k in a then a[k] else Account(0, 0)
  }

  predicate CanDebit(a: Accounts, k: Key, x: u64) {
    x <= BalanceOf(a, k)
  }

  /** A debit that the balance does not cover leaves the book as it is. */
  function Debited(a: Accounts, k: Key, x: u64): Accounts {
    if CanDebit(a, k, x) then a[k := Ensured(a, k).(balance := BalanceOf(a, k) - x)] else a
  }

  function Credited(a: Accounts, k: Key, x: u64): Accounts {
    a[k := Ensured(a, k).(balance := Add64(BalanceOf(a, k), x))]
  }

  function Bumped(a: Accounts, k: Key): Accounts {
    a[k := Ensured(a, k).(nonce := Add64(NonceOf(a, k), 1))]
  }

  function Balances(a: Accounts): map<Key, u64> {
    map k | k in a :: a[k].balance
  }

  /** All liquid coins. */
  ghost function Liquid(a: Accounts): nat {
    Total(Balances(a))
  }

  lemma LiquidCovers(a: Accounts, k: Key)
    ensures BalanceOf(a, k) <= Liquid(a)
  {
    TotalBounds(Balances(a), k);
  }

  lemma LiquidSet(a: Accounts, k: Key, c: Account)
    ensures Liquid(a[k := c]) == Liquid(a) - BalanceOf(a, k) + c.balance
  {
    TotalUpdate(Balances(a), k, c.balance);
    assert Balances(a[k := c]) == Balances(a)[k := c.balance];
  }

  /** A debit that succeeds takes exactly x out; one that fails takes nothing. */
  lemma LiquidDebited(a: Accounts, k: Key, x: u64)
    ensures Liquid(Debited(a, k, x)) == Liquid(a) - (if CanDebit(a, k, x) then x else 0)
  {
    if CanDebit(a, k, x) {
      LiquidSet(a, k, Ensured(a, k).(balance := BalanceOf(a, k) - x));
    }
  }

  /** A credit puts exactly x in, as long as the book stays below 2^64 coins. */
  lemma LiquidCredited(a: Accounts, k: Key, x: u64)
    requires Liquid(a) + x < TWO64
    ensures Liquid(Credited(a, k, x)) == Liquid(a) + x
    ensures BalanceOf(Credited(a, k, x), k) == BalanceOf(a, k) + x
  {
    LiquidCovers(a, k);
    LiquidSet(a, k, Ensured(a, k).(balance := Add64(BalanceOf(a, k), x)));
  }

  lemma LiquidBumped(a: Accounts, k: Key)
    ensures Liquid(Bumped(a, k)) == Liquid(a)
  {
    LiquidSet(a, k, Ensured(a, k).(nonce := Add64(NonceOf(a, k), 1)));
  }

  class BalanceLedger {
    var accounts: Accounts

    constructor ()
      ensures accounts == map[]
    {
      accounts := map[];
    }

    method Seed(k: Key, initial: u64)
      modifies this
      ensures accounts == old(accounts)[k := Account(initial, 0)]
    {
      accounts := accounts[k := Account(initial, 0)];
    }

    method GetBalance(k: Key) returns (b: u64)
      ensures b == BalanceOf(accounts, k)
    {
      if k in accounts {
        return accounts[k].balance;
      }
      b := 0;
    }

    method EnsureAccount(k: Key)
      modifies this
      ensures accounts == old(accounts)[k := Ensured(old(accounts), k)]
    {
      if k !in accounts {
        accounts := accounts[k := Account(0, 0)];
      }
      assert accounts == old(accounts)[k := Ensured(old(accounts), k)];
    }

    method Debit(k: Key, x: u64) returns (ok: bool)
      modifies this
      ensures ok == CanDebit(old(accounts), k, x)
      ensures accounts == Debited(old(accounts), k, x)
    {
      var b := GetBalance(k);
      if b < x {
        return false;
      }
      EnsureAccount(k);
      accounts := accounts[k := accounts[k].(balance := accounts[k].balance - x)];
      ok := true;
    }

    method Credit(k: Key, x: u64)
      modifies this
      ensures accounts == Credited(old(accounts), k, x)
    {
      EnsureAccount(k);
      accounts := accounts[k := accounts[k].(balance := Add64(accounts[k].balance, x))];
    }

    method IncrementNonce(k: Key)
      modifies this
      ensures accounts == Bumped(old(accounts), k)
    {
      EnsureAccount(k);
      accounts := accounts[k := accounts[k].(nonce := Add64(accounts[k].nonce, 1))];
    }

    method Clone() returns (c: BalanceLedger)
      ensures fresh(c) && c.accounts == accounts
    {
      c := new BalanceLedger();
      c.accounts := accounts;
    }
  }
}
