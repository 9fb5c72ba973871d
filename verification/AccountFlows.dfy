/** What an accepted block does to one account: who pays whom, to the coin. */
module AccountFlows {
  import opened Basics
  import opened Transactions
  import opened Ledger
  import opened Validation
  import opened Application
  import opened Blocks
  import opened ShadowLedger
  import BuyTransfers
  import Supply

  /** Fees, FUNDs and STAKEs that k pays for. */
  ghost function Spent(txs: seq<Tx>, k: Key): nat {
    if txs == [] then 0 else Spent(txs[..|txs| - 1], k) + Paid(txs[|txs| - 1], k)
  }

  /** FUNDs that k receives. */
  function Received(txs: seq<Tx>, k: Key): nat {
    if txs == [] then 0 else Received(txs[..|txs| - 1], k) + Inflow(txs[|txs| - 1], k)
  }

  lemma {:induction false} PhaseAFlows(c: Ctx, txs: seq<Tx>, k: Key)
    requires Accepts(c, txs) && Liquid(c.ledger) < TWO64
    ensures BalanceOf(LedgerRun(c.ledger, txs), k) + Spent(txs, k) == BalanceOf(c.ledger, k) + Received(txs, k)
  {
    hide ApplyLedger;
    hide Gates;
    hide NextShadow;
    hide Pays;
    hide Meaningful;
    if txs == [] {
    } else {
      var n := |txs| - 1;
      PhaseAFlows(c, txs[..n], k);
      BalanceSimulation(c, txs[..n]);
      NoDebitFails(c, txs, n);
      GatesMeaningful(c, ShadowRun(c, txs[..n]), txs[n]);
      ShadowLedger.LedgerStep(LedgerRun(c.ledger, txs[..n]), txs[n], k);
    }
  }

  /** The leader's account gets the fees, and no other account does. */
  lemma FeesFlow(a: Accounts, leader: Key, fees: u64, k: Key)
    requires Liquid(a) + fees < TWO64
    ensures BalanceOf(WithFees(a, leader, fees), k) == BalanceOf(a, k) + (if k == leader then fees else 0)
  {
    LiquidCredited(a, leader, fees);
  }

  /** What the BUYs of the block add to the balance of k. */
  function Traded(w: World, s: State, st: Step, k: Key): int
    requires |st.founds| == |st.block.txs|
  {
    BuyTransfers.Net(PlaceOf(w, st.block), StartB(s, st.block), st.block.txs, st.founds, k)
  }

  /** The balance of every account after an accepted block, to the coin. */
  lemma BlockFlows(w: World, s: State, st: Step, s': State, k: Key)
    requires Transition(w, s, st, s') && Liquid(s.ledger) + Supply.AutoFees(st.block.txs) < TWO64
    ensures |st.founds| == |st.block.txs|
    ensures var txs := st.block.txs;
            BalanceOf(s'.ledger, k) ==
              BalanceOf(s.ledger, k) - Spent(txs, k) + Received(txs, k) + Traded(w, s, st, k)
              + (if k == st.block.leader then FeesPaid(txs) + Supply.AutoFees(txs) else 0)
  {
    hide Accepts;
    hide HashesOk;
    hide NoCrash;
    hide PurgesPresent;
    hide LedgerRun;
    hide DomainRun;
    hide Spent;
    hide Received;
    hide BuyTransfers.Net;
    hide TotalFees;
    hide WithFees;
    var c, txs := ContextOf(w, s, st.block, st.lookup), st.block.txs;
    PhaseAFlows(c, txs, k);
    BalanceSimulation(c, txs);
    Supply.TotalFeesExact(txs);
    Supply.PhaseALiquid(c, txs, st.block.leader);
    FeesFlow(LedgerRun(s.ledger, txs), st.block.leader, TotalFees(txs), k);
    BuyTransfers.LedgerAfter(PlaceOf(w, st.block), StartB(s, st.block), txs, st.founds, k);
  }

  // ----- Accounts that send nothing -----

  ghost predicate SendsNothing(txs: seq<Tx>, k: Key) {
    forall i :: 0 <= i < |txs| ==> txs[i].owner != k
  }

  lemma {:induction false} SendsNothingSpends(txs: seq<Tx>, k: Key)
    requires SendsNothing(txs, k)
    ensures Spent(txs, k) == 0
  {
    if txs == [] {
    } else {
      SendsNothingSpends(txs[..|txs| - 1], k);
    }
  }

  lemma {:induction false} SendsNothingBuys(x: Place, st: DomState, txs: seq<Tx>, founds: seq<Option<Tx>>, k: Key)
    requires |founds| == |txs| && SendsNothing(txs, k)
    ensures BuyTransfers.Net(x, st, txs, founds, k) >= 0
  {
    hide ApplyDomain;
    if txs == [] {
    } else {
      var n := |txs| - 1;
      SendsNothingBuys(x, st, txs[..n], founds[..n], k);
    }
  }

  /** An account loses coins in a block only if the block holds a transaction of its own. */
  lemma OnlyOwnTransactionsSpend(w: World, s: State, st: Step, s': State, k: Key)
    requires Transition(w, s, st, s') && Liquid(s.ledger) + Supply.AutoFees(st.block.txs) < TWO64
    requires SendsNothing(st.block.txs, k)
    ensures BalanceOf(s'.ledger, k) >= BalanceOf(s.ledger, k)
  {
    BlockFlows(w, s, st, s', k);
    assert |st.founds| == |st.block.txs|;
    hide Transition;
    hide Spent;
    hide BuyTransfers.Net;
    hide SendsNothing;
    SendsNothingSpends(st.block.txs, k);
    SendsNothingBuys(PlaceOf(w, st.block), StartB(s, st.block), st.block.txs, st.founds, k);
  }

  /** And over a run. */
  lemma {:induction false} SilentAccountsKeepCoins(w: World, states: seq<State>, steps: seq<Step>, n: nat, k: Key)
    requires ValidRun(w, states, steps) && n <= |steps|
    requires forall i :: 0 <= i < n ==>
               && Liquid(states[i].ledger) + Supply.AutoFees(steps[i].block.txs) < TWO64
               && SendsNothing(steps[i].block.txs, k)
    ensures BalanceOf(states[n].ledger, k) >= BalanceOf(states[0].ledger, k)
  {
    hide Transition;
    hide SendsNothing;
    if n == 0 {
    } else {
      SilentAccountsKeepCoins(w, states, steps, n - 1, k);
      assert Transition(w, states[n - 1], steps[n - 1], states[n]);
      OnlyOwnTransactionsSpend(w, states[n - 1], steps[n - 1], states[n], k);
    }
  }

  // ----- The leader's income -----

  function WithOwner(txs: seq<Tx>): nat {
    if txs == [] then 0 else WithOwner(txs[..|txs| - 1]) + (if txs[|txs| - 1].owner != [] then 1 else 0)
  }

  lemma GatesFee(c: Ctx, sh: Shadow, tx: Tx)
    requires Gates(c, sh, tx) && tx.owner != []
    ensures tx.fee >= 1
  {
  }

  /** Every transaction with an owner pays its leader at least one coin. */
  lemma {:induction false} LeaderEarns(c: Ctx, txs: seq<Tx>)
    requires Accepts(c, txs)
    ensures FeesPaid(txs) >= WithOwner(txs)
  {
    hide Gates;
    hide NextShadow;
    if txs == [] {
    } else {
      var n := |txs| - 1;
      LeaderEarns(c, txs[..n]);
      if txs[n].owner != [] { GatesFee(c, ShadowRun(c, txs[..n]), txs[n]); }
    }
  }
}
