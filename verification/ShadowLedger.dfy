/** Validation's running nonces and balances against the ledger that is later built. */
module ShadowLedger {
  import opened Basics
  import opened Transactions
  import opened Ledger
  import opened Validation
  import opened Application

  // ----- Nonces -----

  lemma LedgerNonce(a: Accounts, tx: Tx, k: Key)
    ensures NonceOf(ApplyLedger(a, tx), k) ==
            if tx.owner != [] && k == tx.owner then Add64(NonceOf(a, k), 1) else NonceOf(a, k)
  {
  }

  /** The shadow nonce is the applied nonce, after every list, accepted or not. */
  lemma {:induction false} NonceSimulation(c: Ctx, txs: seq<Tx>, k: Key)
    ensures NonceOf(LedgerRun(c.ledger, txs), k) == Nonce(c, ShadowRun(c, txs), k)
  {
    if txs == [] {
    } else {
      NonceSimulation(c, txs[..|txs| - 1], k);
      LedgerNonce(LedgerRun(c.ledger, txs[..|txs| - 1]), txs[|txs| - 1], k);
    }
  }

  // ----- Balances -----

  /** What one transaction takes out of its owner's balance in phase A. */
  function Outflow(tx: Tx): nat {
    if tx.owner == [] then 0
    else
      match tx.typ
      case FUND => tx.fee + tx.listPrice
      case STAKE => tx.fee + tx.stakeAmount
      case _ => tx.fee
  }

  /** The owner can pay for the transaction: none of its debits fails. */
  predicate Pays(a: Accounts, tx: Tx) {
    tx.owner != [] ==> Outflow(tx) <= BalanceOf(a, tx.owner)
  }

  predicate FundsSomebody(tx: Tx) {
    tx.owner != [] && tx.typ.FUND? && tx.recipient != [] && tx.listPrice > 0
  }

  /** A FUND that passes the gates names a recipient and an amount. */
  predicate Meaningful(tx: Tx) {
    tx.typ.FUND? ==> tx.recipient != [] && tx.listPrice > 0
  }

  function Inflow(tx: Tx, k: Key): nat {
    if FundsSomebody(tx) && k == tx.recipient then tx.listPrice else 0
  }

  ghost function Paid(tx: Tx, k: Key): nat {
    if k == tx.owner then Outflow(tx) else 0
  }

  /** The ledger after the fee has been taken. */
  function AfterFeeDebit(a: Accounts, tx: Tx): Accounts {
    var b := Bumped(a, tx.owner);
    if tx.fee > 0 then Debited(b, tx.owner, tx.fee) else b
  }

  lemma FeeStep(a: Accounts, tx: Tx, k: Key)
    requires tx.owner != [] && tx.fee <= BalanceOf(a, tx.owner)
    ensures BalanceOf(AfterFeeDebit(a, tx), k) == BalanceOf(a, k) - (if k == tx.owner then tx.fee else 0)
    ensures Liquid(AfterFeeDebit(a, tx)) == Liquid(a) - tx.fee
  {
    LiquidBumped(a, tx.owner);
    LiquidDebited(Bumped(a, tx.owner), tx.owner, tx.fee);
  }

  lemma FundStep(a: Accounts, from: Key, to: Key, x: u64, k: Key)
    requires x <= BalanceOf(a, from) && Liquid(a) < TWO64
    ensures var b := Credited(Debited(a, from, x), to, x);
            && BalanceOf(b, k) == BalanceOf(a, k) - (if k == from then x else 0) + (if k == to then x else 0)
            && Liquid(b) == Liquid(a)
  {
    LiquidDebited(a, from, x);
    LiquidCredited(Debited(a, from, x), to, x);
  }

  /** Phase A on a transaction that pays: exactly the outflow leaves, exactly the funds arrive. */
  lemma LedgerStep(a: Accounts, tx: Tx, k: Key)
    requires Pays(a, tx) && Meaningful(tx) && Liquid(a) < TWO64
    ensures BalanceOf(ApplyLedger(a, tx), k) == BalanceOf(a, k) - Paid(tx, k) + Inflow(tx, k)
    ensures Liquid(ApplyLedger(a, tx)) == Liquid(a) - FeeOf(tx) - StakedBy(tx)
  {
    if tx.owner != [] {
      FeeStep(a, tx, k);
      FeeStep(a, tx, tx.owner);
      var b := AfterFeeDebit(a, tx);
      if tx.typ.FUND? {
        FundStep(b, tx.owner, tx.recipient, tx.listPrice, k);
      } else if tx.typ.STAKE? {
        LiquidDebited(b, tx.owner, tx.stakeAmount);
      }
    }
  }

  /** The fee that phase A debits: an auto-revocation pays none. */
  function FeeOf(tx: Tx): nat {
    if tx.owner == [] then 0 else tx.fee
  }

  /** The coins that phase A takes for staking. */
  function StakedBy(tx: Tx): nat {
    if tx.owner != [] && tx.typ.STAKE? then tx.stakeAmount else 0
  }

  function FeesPaid(txs: seq<Tx>): nat {
    if txs == [] then 0 else FeesPaid(txs[..|txs| - 1]) + FeeOf(txs[|txs| - 1])
  }

  function CoinsStaked(txs: seq<Tx>): nat {
    if txs == [] then 0 else CoinsStaked(txs[..|txs| - 1]) + StakedBy(txs[|txs| - 1])
  }

  /** The gates compare everything that phase A will debit with the running balance. */
  lemma GatesCover(c: Ctx, sh: Shadow, tx: Tx)
    requires Gates(c, sh, tx) && tx.owner != []
    ensures Outflow(tx) <= Balance(c, sh, tx.owner)
    ensures Meaningful(tx)
    ensures NextBalance(c, sh, tx) <= Balance(c, sh, tx.owner) - Outflow(tx)
  {
  }

  lemma GatesMeaningful(c: Ctx, sh: Shadow, tx: Tx)
    requires Gates(c, sh, tx)
    ensures Meaningful(tx)
  {
    if tx.owner != [] { GatesCover(c, sh, tx); }
  }

  /**
   * For every accepted list the running balance is a lower bound of the real one,
   * so no fee, FUND or STAKE debit of phase A can fail, and phase A loses
   * exactly the fees and the staked coins.
   */
  lemma {:induction false} BalanceSimulation(c: Ctx, txs: seq<Tx>)
    requires Accepts(c, txs) && Liquid(c.ledger) < TWO64
    ensures forall k :: Balance(c, ShadowRun(c, txs), k) <= BalanceOf(LedgerRun(c.ledger, txs), k)
    ensures Liquid(LedgerRun(c.ledger, txs)) + FeesPaid(txs) + CoinsStaked(txs) == Liquid(c.ledger)
  {
    if txs == [] {
    } else {
      var p, tx := txs[..|txs| - 1], txs[|txs| - 1];
      BalanceSimulation(c, p);
      BalanceStep(c, ShadowRun(c, p), LedgerRun(c.ledger, p), tx);
    }
  }

  lemma BalanceStep(c: Ctx, sh: Shadow, a: Accounts, tx: Tx)
    requires Gates(c, sh, tx) && Liquid(a) < TWO64
    requires forall k :: Balance(c, sh, k) <= BalanceOf(a, k)
    ensures Pays(a, tx)
    ensures forall k :: Balance(c, NextShadow(c, sh, tx), k) <= BalanceOf(ApplyLedger(a, tx), k)
    ensures Liquid(ApplyLedger(a, tx)) == Liquid(a) - FeeOf(tx) - StakedBy(tx)
  {
    GatesMeaningful(c, sh, tx);
    if tx.owner != [] { GatesCover(c, sh, tx); }
    hide Gates;
    forall k ensures Balance(c, NextShadow(c, sh, tx), k) <= BalanceOf(ApplyLedger(a, tx), k) {
      LedgerStep(a, tx, k);
    }
    LedgerStep(a, tx, tx.owner);
  }

  /** The log-and-continue branches of phase A are never taken in an accepted block. */
  lemma NoDebitFails(c: Ctx, txs: seq<Tx>, i: nat)
    requires Accepts(c, txs) && Liquid(c.ledger) < TWO64 && i < |txs|
    ensures Pays(LedgerRun(c.ledger, txs[..i]), txs[i])
  {
    AcceptsPrefix(c, txs, i);
    BalanceSimulation(c, txs[..i]);
    BalanceStep(c, ShadowRun(c, txs[..i]), LedgerRun(c.ledger, txs[..i]), txs[i]);
  }
}
