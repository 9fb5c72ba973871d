/**
 * The coins that BUY moves in phase B, and the ledger hash: the leader hashes the ledger after those
 * transfers (internal/network/node_leader.go:199-212), a validator compares it before them
 * (internal/blockchain/block.go:357-379).
 */
module BuyTransfers {
  import opened Basics
  import opened Transactions
  import opened Ledger
  import opened DomainIndex
  import opened Application
  import opened Blocks

  /** A BUY that took effect. */
  predicate Buys(r: Applied, tx: Tx) {
    tx.typ.BUY? && r.outcome.Done?
  }

  /** What the transaction adds to the balance of k. */
  function Gain(x: Place, st: DomState, tx: Tx, found: Option<Tx>, k: Key): int {
    var price := GetPrice(st.index, tx.domain);
    if !Buys(ApplyDomain(x, st, tx, found), tx) then 0
    else (if k == Seller(st.index, tx.domain) then price else 0) - (if k == tx.owner then price else 0)
  }

  /** What the BUYs of the list add to the balance of k, all together. */
  function Net(x: Place, st: DomState, txs: seq<Tx>, founds: seq<Option<Tx>>, k: Key): int
    requires |founds| == |txs|
  {
    if txs == [] then 0
    else
      var n := |txs| - 1;
      Net(x, st, txs[..n], founds[..n], k) + Gain(x, DomainRun(x, st, txs[..n], founds[..n]), txs[n], founds[n], k)
  }

  /** Everybody who is paid by a BUY of the list. */
  function Sellers(x: Place, st: DomState, txs: seq<Tx>, founds: seq<Option<Tx>>): set<Key>
    requires |founds| == |txs|
  {
    if txs == [] then {}
    else
      var n := |txs| - 1;
      var mid := DomainRun(x, st, txs[..n], founds[..n]);
      Sellers(x, st, txs[..n], founds[..n]) +
      if Buys(ApplyDomain(x, mid, txs[n], founds[n]), txs[n]) then {Seller(mid.index, txs[n].domain)} else {}
  }

  /** Only a BUY that takes effect touches the ledger in phase B. */
  lemma LedgerStep(x: Place, st: DomState, tx: Tx, found: Option<Tx>)
    ensures var r, price := ApplyDomain(x, st, tx, found), GetPrice(st.index, tx.domain);
            if Buys(r, tx)
            then
              && 0 < price <= BalanceOf(st.ledger, tx.owner) && tx.owner != Seller(st.index, tx.domain)
              && r.state.ledger == Credited(Debited(st.ledger, tx.owner, price), Seller(st.index, tx.domain), price)
            else r.state.ledger == st.ledger
  {
    hide GetPrice;
    hide GetDomain;
    hide GetOwner;
  }

  /** The transfers conserve the coins, change each balance by its net gain, and touch no nonce. */
  lemma {:induction false} LedgerAfter(x: Place, st: DomState, txs: seq<Tx>, founds: seq<Option<Tx>>, k: Key)
    requires |founds| == |txs| && Liquid(st.ledger) < TWO64
    ensures var a := DomainRun(x, st, txs, founds).ledger;
            && Liquid(a) == Liquid(st.ledger)
            && BalanceOf(a, k) == BalanceOf(st.ledger, k) + Net(x, st, txs, founds, k)
            && NonceOf(a, k) == NonceOf(st.ledger, k)
            && (k in a <==> k in st.ledger || k in Sellers(x, st, txs, founds))
  {
    hide ApplyDomain;
    hide GetPrice;
    hide Seller;
    if txs == [] {
    } else {
      var n := |txs| - 1;
      var mid := DomainRun(x, st, txs[..n], founds[..n]);
      LedgerAfter(x, st, txs[..n], founds[..n], k);
      LedgerStep(x, mid, txs[n], founds[n]);
      var price, seller := GetPrice(mid.index, txs[n].domain), Seller(mid.index, txs[n].domain);
      if Buys(ApplyDomain(x, mid, txs[n], founds[n]), txs[n]) {
        LiquidDebited(mid.ledger, txs[n].owner, price);
        LiquidCredited(Debited(mid.ledger, txs[n].owner, price), seller, price);
      }
    }
  }

  /** Nobody gains or loses, and everybody who is paid already had an account. */
  ghost predicate BuysCancel(x: Place, st: DomState, txs: seq<Tx>, founds: seq<Option<Tx>>)
    requires |founds| == |txs|
  {
    && (forall k :: Net(x, st, txs, founds, k) == 0)
    && Sellers(x, st, txs, founds) <= st.ledger.Keys
  }

  lemma SameLedgerIff(x: Place, st: DomState, txs: seq<Tx>, founds: seq<Option<Tx>>)
    requires |founds| == |txs| && Liquid(st.ledger) < TWO64
    ensures DomainRun(x, st, txs, founds).ledger == st.ledger <==> BuysCancel(x, st, txs, founds)
  {
    hide Net;
    hide Sellers;
    hide DomainRun;
    var a := DomainRun(x, st, txs, founds).ledger;
    forall k
      ensures BalanceOf(a, k) == BalanceOf(st.ledger, k) + Net(x, st, txs, founds, k)
      ensures NonceOf(a, k) == NonceOf(st.ledger, k)
      ensures k in a <==> k in st.ledger || k in Sellers(x, st, txs, founds)
    {
      LedgerAfter(x, st, txs, founds, k);
    }
    if BuysCancel(x, st, txs, founds) {
      assert forall k :: k in a <==> k in st.ledger;
      forall k | k in a ensures a[k] == st.ledger[k] {
        assert Net(x, st, txs, founds, k) == 0;
        assert BalanceOf(a, k) == BalanceOf(st.ledger, k);
      }
      assert a == st.ledger;
    }
  }

  /**
   * The ledger hash that an honest leader writes is the one a validator expects exactly when the block's BUYs cancel.
   */
  lemma LeaderHashAcceptedIff(w: World, s: State, st: Step)
    requires |st.founds| == |st.block.txs| && Liquid(PhaseA(s, st.block)) < TWO64
    requires st.block.ledgerHash == w.hashLedger(PhaseB(w, s, st).ledger)
    requires PhaseB(w, s, st).ledger != PhaseA(s, st.block) ==>
               w.hashLedger(PhaseB(w, s, st).ledger) != w.hashLedger(PhaseA(s, st.block))
    ensures st.block.ledgerHash == w.hashLedger(PhaseA(s, st.block)) <==>
              BuysCancel(PlaceOf(w, st.block), StartB(s, st.block), st.block.txs, st.founds)
  {
    hide BuysCancel;
    hide DomainRun;
    SameLedgerIff(PlaceOf(w, st.block), StartB(s, st.block), st.block.txs, st.founds);
  }

  // ----- No BUY, and a single BUY -----

  /** The indices of the BUYs that take effect. */
  ghost predicate BuysAt(x: Place, st: DomState, txs: seq<Tx>, founds: seq<Option<Tx>>, i: nat)
    requires |founds| == |txs| && i < |txs|
  {
    txs[i].typ.BUY? && OutcomeAt(x, st, txs, founds, i).Done?
  }

  ghost predicate NoBuys(x: Place, st: DomState, txs: seq<Tx>, founds: seq<Option<Tx>>)
    requires |founds| == |txs|
  {
    forall i :: 0 <= i < |txs| ==> !BuysAt(x, st, txs, founds, i)
  }

  lemma {:induction false} NoBuysCancel(x: Place, st: DomState, txs: seq<Tx>, founds: seq<Option<Tx>>)
    requires |founds| == |txs| && NoBuys(x, st, txs, founds)
    ensures BuysCancel(x, st, txs, founds)
  {
    hide ApplyDomain;
    if txs == [] {
    } else {
      var n := |txs| - 1;
      forall i | 0 <= i < n ensures !BuysAt(x, st, txs[..n], founds[..n], i) {
        assert txs[..n][..i] == txs[..i] && founds[..n][..i] == founds[..i];
        assert !BuysAt(x, st, txs, founds, i);
      }
      NoBuysCancel(x, st, txs[..n], founds[..n]);
      assert !BuysAt(x, st, txs, founds, n);
      forall k ensures Net(x, st, txs, founds, k) == 0 {
        assert Net(x, st, txs[..n], founds[..n], k) == 0;
      }
    }
  }

  /** One BUY never cancels: its buyer is poorer. */
  lemma {:induction false} OneBuyNeverCancels(x: Place, st: DomState, txs: seq<Tx>, founds: seq<Option<Tx>>, i: nat)
    requires |founds| == |txs| && i < |txs| && BuysAt(x, st, txs, founds, i)
    requires forall j :: 0 <= j < |txs| && j != i ==> !BuysAt(x, st, txs, founds, j)
    ensures Net(x, st, txs, founds, txs[i].owner) < 0
    ensures !BuysCancel(x, st, txs, founds)
    decreases |txs|
  {
    hide ApplyDomain;
    hide GetPrice;
    hide Seller;
    var n := |txs| - 1;
    var p, f := txs[..n], founds[..n];
    forall j | 0 <= j < n ensures BuysAt(x, st, p, f, j) == BuysAt(x, st, txs, founds, j) {
      assert p[..j] == txs[..j] && f[..j] == founds[..j];
    }
    LedgerStep(x, DomainRun(x, st, p, f), txs[n], founds[n]);
    if i < n {
      OneBuyNeverCancels(x, st, p, f, i);
      assert !BuysAt(x, st, txs, founds, n);
    } else {
      NoBuysCancel(x, st, p, f);
      assert Net(x, st, p, f, txs[i].owner) == 0;
    }
  }
}
