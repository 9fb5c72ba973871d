/**
 * Validation's running owners and prices (internal/blockchain/block.go:738-790, 860-958) against the owners and prices
 * that phase B builds (internal/blockchain/apply.go:119-148, 210-350).
 */
module ShadowMarket {
  import opened Basics
  import opened Transactions
  import opened Ledger
  import Commits
  import opened DomainIndex
  import opened Validation
  import opened Application
  import opened Blocks
  import opened ShadowLedger
  import opened DomainSafety
  import opened Ownership
  import opened BuyTransfers
  import Supply

  // ----- Every BUY of an accepted list is paid for -----

  /** What k's BUYs of the list cost at the running prices. */
  function BuysBy(c: Ctx, txs: seq<Tx>, k: Key): nat {
    if txs == [] then 0
    else
      var p, tx := txs[..|txs| - 1], txs[|txs| - 1];
      BuysBy(c, p, k) + (if tx.typ.BUY? && tx.owner == k then Price(c, ShadowRun(c, p), tx.domain) else 0)
  }

  lemma BuyGates(c: Ctx, sh: Shadow, tx: Tx)
    requires Gates(c, sh, tx) && tx.typ.BUY?
    ensures tx.owner != [] && NextBalance(c, sh, tx) + Price(c, sh, tx.domain) == Balance(c, sh, tx.owner) - tx.fee
  {
    hide Price;
  }

  lemma FundsStep(c: Ctx, sh: Shadow, a: Accounts, tx: Tx, k: Key, spent: nat)
    requires Gates(c, sh, tx) && Liquid(a) < TWO64 && Pays(a, tx)
    requires Balance(c, sh, k) + spent <= BalanceOf(a, k)
    ensures Balance(c, NextShadow(c, sh, tx), k) + spent
            + (if tx.typ.BUY? && tx.owner == k then Price(c, sh, tx.domain) else 0) <= BalanceOf(ApplyLedger(a, tx), k)
  {
    GatesMeaningful(c, sh, tx);
    ShadowLedger.LedgerStep(a, tx, k);
    if tx.owner != [] { GatesCover(c, sh, tx); }
    if tx.typ.BUY? { BuyGates(c, sh, tx); }
    NextBalances(c, sh, tx, k);
    hide Gates;
    hide NextShadow;
    hide ApplyLedger;
    hide Price;
    hide NextBalance;
  }

  lemma NextBalances(c: Ctx, sh: Shadow, tx: Tx, k: Key)
    ensures Balance(c, NextShadow(c, sh, tx), k) ==
            if tx.owner != [] && tx.owner == k then NextBalance(c, sh, tx) else Balance(c, sh, k)
  {
    hide NextBalance;
  }

  /** The ledger after phase A still holds what the BUYs will cost. */
  lemma {:induction false} FundsKept(c: Ctx, txs: seq<Tx>, k: Key)
    requires Accepts(c, txs) && Liquid(c.ledger) < TWO64
    ensures Balance(c, ShadowRun(c, txs), k) + BuysBy(c, txs, k) <= BalanceOf(LedgerRun(c.ledger, txs), k)
  {
    hide Gates;
    hide NextShadow;
    hide ApplyLedger;
    hide Pays;
    hide Price;
    if txs == [] {
    } else {
      var n := |txs| - 1;
      FundsKept(c, txs[..n], k);
      BalanceSimulation(c, txs[..n]);
      NoDebitFails(c, txs, n);
      FundsStep(c, ShadowRun(c, txs[..n]), LedgerRun(c.ledger, txs[..n]), txs[n], k, BuysBy(c, txs[..n], k));
    }
  }

  lemma {:induction false} BuysGrow(c: Ctx, txs: seq<Tx>, n: nat, k: Key)
    requires n <= |txs|
    ensures BuysBy(c, txs[..n], k) <= BuysBy(c, txs, k)
    decreases |txs|
  {
    hide NextShadow;
    hide Price;
    if n == |txs| {
      assert txs[..n] == txs;
    } else {
      var p := txs[..|txs| - 1];
      assert p[..n] == txs[..n];
      BuysGrow(c, p, n, k);
    }
  }

  /** The ledger that phase B starts from can pay for all BUYs at the running prices. */
  ghost predicate Funded(c: Ctx, st: DomState, txs: seq<Tx>) {
    Liquid(st.ledger) < TWO64 && forall k :: BuysBy(c, txs, k) <= BalanceOf(st.ledger, k)
  }

  lemma BlockFunded(w: World, s: State, st: Step, s': State)
    requires Transition(w, s, st, s') && Liquid(s.ledger) + Supply.AutoFees(st.block.txs) < TWO64
    ensures Funded(ContextOf(w, s, st.block, st.lookup), StartB(s, st.block), st.block.txs)
  {
    hide HashesOk;
    hide NoCrash;
    hide PurgesPresent;
    hide Accepts;
    hide NextState;
    hide BuysBy;
    hide LedgerRun;
    hide ShadowRun;
    var c, b := ContextOf(w, s, st.block, st.lookup), st.block;
    Supply.PhaseALiquid(c, b.txs, b.leader);
    BalanceSimulation(c, b.txs);
    Supply.TotalFeesExact(b.txs);
    forall k ensures BuysBy(c, b.txs, k) <= BalanceOf(PhaseA(s, b), k) {
      FundsKept(c, b.txs, k);
      FeesOnlyAdd(LedgerRun(s.ledger, b.txs), b.leader, TotalFees(b.txs), k);
    }
  }

  lemma FeesOnlyAdd(a: Accounts, leader: Key, fees: u64, k: Key)
    requires Liquid(a) + fees < TWO64
    ensures BalanceOf(WithFees(a, leader, fees), k) >= BalanceOf(a, k)
  {
    LiquidCovers(a, leader);
  }

  // ----- Agreement -----

  /** The running owners and prices are the ones in the overlay. */
  ghost predicate MarketAgrees(c: Ctx, sh: Shadow, o: Overlay) {
    && (forall d :: Owner(c, sh, d) == Seller(o, d))
    && (forall d :: Price(c, sh, d) == GetPrice(o, d))
  }

  ghost predicate AgreesAt(c: Ctx, x: Place, st: DomState, txs: seq<Tx>, founds: seq<Option<Tx>>, n: nat)
    requires |founds| == |txs| && n <= |txs|
  {
    MarketAgrees(c, ShadowRun(c, txs[..n]), DomainRun(x, st, txs[..n], founds[..n]).index)
  }

  /** The record under the transaction's name is in the phase that the transaction needs to take effect. */
  predicate Meets(x: Place, o: Overlay, tx: Tx) {
    var r := GetDomain(o, tx.domain);
    if tx.typ.REVEAL? then r.Some? ==> PhaseAt(x, r.value).Purged?
    else r.Some? && PhaseAt(x, r.value).Active?
  }

  predicate Trades(tx: Tx) {
    IsMarket(tx) || tx.typ.REVEAL?
  }

  /** The transaction changes the running owner or price of its name. */
  predicate Changes(c: Ctx, sh: Shadow, tx: Tx) {
    var sh' := NextShadow(c, sh, tx);
    Owner(c, sh', tx.domain) != Owner(c, sh, tx.domain) || Price(c, sh', tx.domain) != Price(c, sh, tx.domain)
  }

  /** What would change its name meets the record that it needs. */
  predicate MeetsIfChanging(c: Ctx, sh: Shadow, x: Place, o: Overlay, tx: Tx) {
    Trades(tx) && Changes(c, sh, tx) ==> Meets(x, o, tx)
  }

  ghost predicate AllMeet(c: Ctx, x: Place, st: DomState, txs: seq<Tx>, founds: seq<Option<Tx>>)
    requires |founds| == |txs|
  {
    forall i :: 0 <= i < |txs| ==>
      MeetsIfChanging(c, ShadowRun(c, txs[..i]), x, DomainRun(x, st, txs[..i], founds[..i]).index, txs[i])
  }

  // ----- One transaction -----

  /** What validation does to owners and prices. */
  lemma ShadowTrade(c: Ctx, sh: Shadow, tx: Tx, d: Name)
    requires Gates(c, sh, tx)
    ensures var sh' := NextShadow(c, sh, tx);
            && Owner(c, sh', d) ==
                 (if d != tx.domain then Owner(c, sh, d)
                  else if tx.typ.BUY? then tx.owner
                  else if tx.typ.TRANSFER? || tx.typ.REVEAL? then tx.recipient
                  else Owner(c, sh, d))
            && Price(c, sh', d) ==
                 (if d != tx.domain then Price(c, sh, d)
                  else if tx.typ.LIST? then tx.listPrice
                  else if tx.typ.BUY? || tx.typ.TRANSFER? || tx.typ.DELIST? then 0
                  else Price(c, sh, d))
  {
    assert tx.owner == [] ==> tx.typ.REVOKE?;
    hide Gates;
    hide GetOwner;
    hide GetPrice;
    hide NextBalance;
    hide NextStake;
    hide NextPending;
    hide NextBurned;
    hide NextCommits;
    hide NextTxs;
  }

  /** What the gates of the market compare. */
  lemma TradeGates(c: Ctx, sh: Shadow, tx: Tx)
    requires Gates(c, sh, tx) && IsMarket(tx)
    ensures tx.owner != []
    ensures tx.typ.BUY? ==>
              && 0 < Price(c, sh, tx.domain) <= tx.listPrice && Owner(c, sh, tx.domain) != tx.owner
    ensures !tx.typ.BUY? ==> Owner(c, sh, tx.domain) == tx.owner
    ensures tx.typ.DELIST? ==> Price(c, sh, tx.domain) > 0
  {
    hide Owner;
    hide Price;
  }

  /**
   * With equal owners and prices, and the price at hand, a market transaction takes effect exactly on an active record.
   */
  lemma MarketDoneIff(c: Ctx, sh: Shadow, x: Place, st: DomState, tx: Tx, found: Option<Tx>)
    requires Gates(c, sh, tx) && IsMarket(tx) && MarketAgrees(c, sh, st.index) && GetDomain(st.index, tx.domain).Some?
    requires tx.typ.BUY? ==> CanDebit(st.ledger, tx.owner, GetPrice(st.index, tx.domain))
    ensures ApplyDomain(x, st, tx, found).outcome.Done? <==> Meets(x, st.index, tx)
  {
    TradeGates(c, sh, tx);
    assert Owner(c, sh, tx.domain) == Seller(st.index, tx.domain);
    assert Price(c, sh, tx.domain) == GetPrice(st.index, tx.domain);
    hide Gates;
    hide Owner;
    hide Price;
    hide GetDomain;
    hide GetOwner;
    hide GetPrice;
    hide MarketAgrees;
  }

  lemma RevealDoneIff(x: Place, st: DomState, tx: Tx, found: Option<Tx>)
    requires tx.typ.REVEAL? && Commits.OvGet(st.commits, RevealHash(x.env, tx)).Some?
    ensures ApplyDomain(x, st, tx, found).outcome.Done? <==> Meets(x, st.index, tx)
  {
    hide GetDomain;
    hide GetOwner;
  }

  /** A transaction that takes effect does to the overlay what validation did to its maps. */
  lemma EffectAgrees(c: Ctx, sh: Shadow, x: Place, st: DomState, tx: Tx, found: Option<Tx>)
    requires Gates(c, sh, tx) && MarketAgrees(c, sh, st.index)
    requires Trades(tx) ==> ApplyDomain(x, st, tx, found).outcome.Done?
    ensures MarketAgrees(c, NextShadow(c, sh, tx), ApplyDomain(x, st, tx, found).state.index)
  {
    hide ApplyDomain;
    hide NextShadow;
    hide Owner;
    hide Price;
    hide GetDomain;
    hide GetOwner;
    hide GetPrice;
    PartyGates(c, sh, tx);
    var sh', o' := NextShadow(c, sh, tx), ApplyDomain(x, st, tx, found).state.index;
    forall d ensures Owner(c, sh', d) == Seller(o', d) && Price(c, sh', d) == GetPrice(o', d) {
      ShadowTrade(c, sh, tx, d);
      StepEffect(x, st, tx, found, d);
      assert Owner(c, sh, d) == Seller(st.index, d) && Price(c, sh, d) == GetPrice(st.index, d);
    }
    hide Gates;
  }

  /** A trade that is refused leaves agreement exactly when it changed nothing. */
  lemma RefusalAgreesIff(c: Ctx, sh: Shadow, x: Place, st: DomState, tx: Tx, found: Option<Tx>)
    requires Gates(c, sh, tx) && MarketAgrees(c, sh, st.index) && !ApplyDomain(x, st, tx, found).outcome.Done?
    ensures MarketAgrees(c, NextShadow(c, sh, tx), ApplyDomain(x, st, tx, found).state.index) <==> !Changes(c, sh, tx)
  {
    hide ApplyDomain;
    hide NextShadow;
    hide Owner;
    hide Price;
    hide GetDomain;
    hide GetPrice;
    hide Seller;
    StepEffect(x, st, tx, found, tx.domain);
    var sh', o := NextShadow(c, sh, tx), st.index;
    assert Owner(c, sh, tx.domain) == Seller(o, tx.domain) && Price(c, sh, tx.domain) == GetPrice(o, tx.domain);
    forall d ensures d != tx.domain ==> Owner(c, sh', d) == Owner(c, sh, d) && Price(c, sh', d) == Price(c, sh, d) {
      ShadowTrade(c, sh, tx, d);
    }
    hide Gates;
    if !Changes(c, sh, tx) {
      forall d ensures Owner(c, sh', d) == Seller(o, d) && Price(c, sh', d) == GetPrice(o, d) {
        assert Owner(c, sh, d) == Seller(o, d) && Price(c, sh, d) == GetPrice(o, d);
      }
    }
  }

  // ----- The list -----

  /** As long as prices agree, nobody has paid more than validation counted. */
  lemma {:induction false} PaidAtRunningPrices(c: Ctx, x: Place, st: DomState, txs: seq<Tx>, founds: seq<Option<Tx>>,
                                               n: nat, k: Key)
    requires |founds| == |txs| && n <= |txs| && forall i :: 0 <= i < n ==> AgreesAt(c, x, st, txs, founds, i)
    ensures Net(x, st, txs[..n], founds[..n], k) + BuysBy(c, txs[..n], k) >= 0
  {
    hide ApplyDomain;
    hide NextShadow;
    hide Price;
    hide GetPrice;
    hide Seller;
    hide Owner;
    if n == 0 {
      assert txs[..0] == [];
    } else {
      var m := n - 1;
      PaidAtRunningPrices(c, x, st, txs, founds, m, k);
      assert txs[..n][..m] == txs[..m] && founds[..n][..m] == founds[..m];
      assert AgreesAt(c, x, st, txs, founds, m);
      var mid := DomainRun(x, st, txs[..m], founds[..m]);
      assert Price(c, ShadowRun(c, txs[..m]), txs[m].domain) == GetPrice(mid.index, txs[m].domain);
    }
  }

  /** So the buyer can pay. */
  lemma BuyerCanPay(c: Ctx, x: Place, st: DomState, txs: seq<Tx>, founds: seq<Option<Tx>>, n: nat)
    requires |founds| == |txs| && n < |txs| && Funded(c, st, txs) && txs[n].typ.BUY?
    requires forall i :: 0 <= i <= n ==> AgreesAt(c, x, st, txs, founds, i)
    ensures var mid := DomainRun(x, st, txs[..n], founds[..n]);
            CanDebit(mid.ledger, txs[n].owner, GetPrice(mid.index, txs[n].domain))
  {
    hide ApplyDomain;
    hide NextShadow;
    hide Price;
    hide GetPrice;
    hide Net;
    hide DomainRun;
    hide ShadowRun;
    var k, mid := txs[n].owner, DomainRun(x, st, txs[..n], founds[..n]);
    PaidAtRunningPrices(c, x, st, txs, founds, n, k);
    LedgerAfter(x, st, txs[..n], founds[..n], k);
    BuysGrow(c, txs, n + 1, k);
    assert txs[..n + 1][..n] == txs[..n];
    assert AgreesAt(c, x, st, txs, founds, n);
    assert Price(c, ShadowRun(c, txs[..n]), txs[n].domain) == GetPrice(mid.index, txs[n].domain);
    assert BuysBy(c, txs, k) <= BalanceOf(st.ledger, k);
  }

  /** One step of the comparison. */
  lemma AgreesNextIff(c: Ctx, x: Place, st: DomState, txs: seq<Tx>, founds: seq<Option<Tx>>, n: nat)
    requires |founds| == |txs| && n < |txs| && Accepts(c, txs) && Matches(c, x, st) && Funded(c, st, txs)
    requires forall i :: 0 <= i <= n ==> AgreesAt(c, x, st, txs, founds, i)
    ensures AgreesAt(c, x, st, txs, founds, n + 1) <==>
              MeetsIfChanging(c, ShadowRun(c, txs[..n]), x, DomainRun(x, st, txs[..n], founds[..n]).index, txs[n])
  {
    hide ApplyDomain;
    hide Gates;
    hide NextShadow;
    hide MarketAgrees;
    hide Changes;
    hide Meets;
    hide Sound;
    hide Funded;
    hide CommitsWithin;
    var sh, mid, tx := ShadowRun(c, txs[..n]), DomainRun(x, st, txs[..n], founds[..n]), txs[n];
    assert AgreesAt(c, x, st, txs, founds, n);
    AcceptsPrefix(c, txs, n);
    assert txs[..n + 1][..n] == txs[..n] && founds[..n + 1][..n] == founds[..n];
    if Trades(tx) {
      if tx.typ.REVEAL? {
        CommitsTracked(c, x, st, txs[..n], founds[..n]);
        RevealLeavesRecord(c, sh, x, mid, tx, st);
        RevealDoneIff(x, mid, tx, founds[n]);
      } else {
        TargetIsRecorded(c, x, st, txs, founds, n);
        if tx.typ.BUY? { BuyerCanPay(c, x, st, txs, founds, n); }
        MarketDoneIff(c, sh, x, mid, tx, founds[n]);
      }
    }
    if Trades(tx) && !Meets(x, mid.index, tx) {
      RefusalAgreesIff(c, sh, x, mid, tx, founds[n]);
    } else {
      EffectAgrees(c, sh, x, mid, tx, founds[n]);
    }
  }

  lemma {:induction false} AgreesUpTo(c: Ctx, x: Place, st: DomState, txs: seq<Tx>, founds: seq<Option<Tx>>, n: nat)
    requires |founds| == |txs| && n <= |txs| && Accepts(c, txs) && Matches(c, x, st) && Funded(c, st, txs)
    requires AllMeet(c, x, st, txs, founds)
    ensures forall i :: 0 <= i <= n ==> AgreesAt(c, x, st, txs, founds, i)
  {
    hide ApplyDomain;
    hide NextShadow;
    hide Accepts;
    hide Matches;
    hide Funded;
    hide MeetsIfChanging;
    hide AgreesAt;
    if n == 0 {
      AgreesAtFirst(c, x, st, txs, founds);
    } else {
      AgreesUpTo(c, x, st, txs, founds, n - 1);
      AgreesNextIff(c, x, st, txs, founds, n - 1);
    }
  }

  lemma AgreesAtFirst(c: Ctx, x: Place, st: DomState, txs: seq<Tx>, founds: seq<Option<Tx>>)
    requires |founds| == |txs| && Matches(c, x, st)
    ensures AgreesAt(c, x, st, txs, founds, 0)
  {
    assert txs[..0] == [] && founds[..0] == [];
    hide GetOwner;
    hide GetPrice;
  }

  /**
   * After every prefix of an accepted list the running owners and prices of all names are those that phase B builds,
   * exactly when every market transaction and REVEAL that changes them meets a record in the phase that it needs:
   * active for the market, purged or none for a REVEAL.
   */
  lemma MarketSimulationIff(c: Ctx, x: Place, st: DomState, txs: seq<Tx>, founds: seq<Option<Tx>>)
    requires |founds| == |txs| && Accepts(c, txs) && Matches(c, x, st) && Funded(c, st, txs)
    ensures (forall n :: 0 <= n <= |txs| ==> AgreesAt(c, x, st, txs, founds, n)) <==> AllMeet(c, x, st, txs, founds)
  {
    hide ApplyDomain;
    hide NextShadow;
    hide Accepts;
    hide Matches;
    hide Funded;
    hide MeetsIfChanging;
    hide AgreesAt;
    if AllMeet(c, x, st, txs, founds) {
      AgreesUpTo(c, x, st, txs, founds, |txs|);
    }
    if forall n :: 0 <= n <= |txs| ==> AgreesAt(c, x, st, txs, founds, n) {
      forall i | 0 <= i < |txs|
        ensures MeetsIfChanging(c, ShadowRun(c, txs[..i]), x, DomainRun(x, st, txs[..i], founds[..i]).index, txs[i])
      {
        AgreesNextIff(c, x, st, txs, founds, i);
      }
    }
  }

  /** The same for the blocks of a run. */
  lemma BlockMarketIff(w: World, s: State, st: Step, s': State)
    requires Transition(w, s, st, s') && Liquid(s.ledger) + Supply.AutoFees(st.block.txs) < TWO64
    ensures var c, x, start := ContextOf(w, s, st.block, st.lookup), PlaceOf(w, st.block), StartB(s, st.block);
            && |st.founds| == |st.block.txs|
            && ((forall n :: 0 <= n <= |st.block.txs| ==> AgreesAt(c, x, start, st.block.txs, st.founds, n))
                <==> AllMeet(c, x, start, st.block.txs, st.founds))
  {
    BlockMatches(w, s, st, s');
    BlockFunded(w, s, st, s');
    assert |st.founds| == |st.block.txs|;
    hide Transition;
    hide Accepts;
    hide Matches;
    hide Funded;
    hide AgreesAt;
    hide AllMeet;
    MarketSimulationIff(ContextOf(w, s, st.block, st.lookup), PlaceOf(w, st.block), StartB(s, st.block), st.block.txs,
                        st.founds);
  }
}
