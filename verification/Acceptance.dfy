/**
 * What becomes of accepted transactions when they are applied: they fail only for the period that their name is in, or
 * for what GetTxByID answers.
 */
module Acceptance {
  import opened Basics
  import opened Transactions
  import opened DomainIndex
  import opened Validation
  import opened Application
  import opened Blocks
  import opened DomainSafety
  import opened ShadowMarket
  import opened Periods
  import opened Ownership
  import Supply
  import Ledger

  /** The name is in the period that the transaction needs, and what it redeems is found under its own name. */
  predicate InTime(x: Place, o: Overlay, tx: Tx, found: Option<Tx>) {
    var record := GetDomain(o, tx.domain);
    match tx.typ
    case REVEAL => record.None? || Lapsed(x, record.value)
    case REVOKE => RedeemsOwn(tx, found) && (tx.owner == [] ==> record.Some? && !Running(x, record.value))
    case UPDATE => RedeemsOwn(tx, found) && record.Some? && Running(x, record.value)
    case RENEW => RedeemsOwn(tx, found) && record.Some? && !Lapsed(x, record.value)
    case LIST => record.Some? && Running(x, record.value)
    case DELIST => record.Some? && Running(x, record.value)
    case BUY => record.Some? && Running(x, record.value)
    case TRANSFER => record.Some? && Running(x, record.value)
    case _ => true
  }

  /** What the gates establish about the running owner and the redeemed id. */
  lemma OwnersGate(c: Ctx, sh: Shadow, tx: Tx)
    requires Gates(c, sh, tx)
    ensures !tx.typ.REGISTER?
    ensures tx.typ.UPDATE? || tx.typ.RENEW? || tx.typ.REVOKE? ==> tx.redeems != 0
    ensures tx.typ.UPDATE? ==> tx.owner != [] && Owner(c, sh, tx.domain) == tx.owner
    ensures tx.typ.REVOKE? && tx.owner != [] ==> Owner(c, sh, tx.domain) == tx.owner
    ensures tx.typ.RENEW? ==> tx.owner != []
  {
    hide Owner;
  }

  /** With equal owners, an accepted UPDATE, RENEW or REVOKE takes effect exactly in time. */
  lemma RedeemingDoneIff(c: Ctx, sh: Shadow, x: Place, st: DomState, tx: Tx, found: Option<Tx>)
    requires Gates(c, sh, tx) && (tx.typ.UPDATE? || tx.typ.RENEW? || tx.typ.REVOKE?)
    requires Owner(c, sh, tx.domain) == Seller(st.index, tx.domain)
    requires tx.owner != [] ==> GetDomain(st.index, tx.domain).Some?
    ensures ApplyDomain(x, st, tx, found).outcome.Done? <==> InTime(x, st.index, tx, found)
  {
    OwnersGate(c, sh, tx);
    TakesEffectIff(x, st, tx, found);
    hide Gates;
    hide ApplyDomain;
    hide Owner;
    hide GetDomain;
    hide GetOwner;
    hide GetPrice;
    hide Lapsed;
    hide Running;
  }

  lemma MeetsInTime(x: Place, o: Overlay, tx: Tx, found: Option<Tx>)
    requires Trades(tx)
    ensures Meets(x, o, tx) <==> InTime(x, o, tx, found)
  {
    var record := GetDomain(o, tx.domain);
    if record.Some? { PhaseInSlots(x.slot, record.value.expirySlot, x.env.slotsPerDay); }
    hide GetDomain;
  }

  /**
   * While the running owners and prices are those of the overlay, the next transaction of an accepted list takes effect
   * exactly when it is in time: owner, price, balance, commitment and record are as validation found them.
   */
  lemma AcceptedTakesEffectIff(c: Ctx, x: Place, st: DomState, txs: seq<Tx>, founds: seq<Option<Tx>>, n: nat)
    requires |founds| == |txs| && n < |txs| && Accepts(c, txs) && Matches(c, x, st) && Funded(c, st, txs)
    requires forall i :: 0 <= i <= n ==> AgreesAt(c, x, st, txs, founds, i)
    ensures OutcomeAt(x, st, txs, founds, n).Done? <==>
              InTime(x, DomainRun(x, st, txs[..n], founds[..n]).index, txs[n], founds[n])
  {
    hide ApplyDomain;
    hide Gates;
    hide NextShadow;
    hide Meets;
    hide Sound;
    hide Funded;
    hide CommitsWithin;
    hide InTime;
    hide GetDomain;
    hide Owner;
    hide Price;
    var sh, mid, tx := ShadowRun(c, txs[..n]), DomainRun(x, st, txs[..n], founds[..n]), txs[n];
    assert AgreesAt(c, x, st, txs, founds, n);
    AcceptsPrefix(c, txs, n);
    if tx.typ.REVEAL? {
      CommitsTracked(c, x, st, txs[..n], founds[..n]);
      RevealLeavesRecord(c, sh, x, mid, tx, st);
      RevealDoneIff(x, mid, tx, founds[n]);
      MeetsInTime(x, mid.index, tx, founds[n]);
    } else if IsMarket(tx) {
      TargetIsRecorded(c, x, st, txs, founds, n);
      if tx.typ.BUY? { BuyerCanPay(c, x, st, txs, founds, n); }
      MarketDoneIff(c, sh, x, mid, tx, founds[n]);
      MeetsInTime(x, mid.index, tx, founds[n]);
    } else if tx.typ.UPDATE? || tx.typ.RENEW? || tx.typ.REVOKE? {
      if tx.owner != [] { TargetIsRecorded(c, x, st, txs, founds, n); }
      assert Owner(c, sh, tx.domain) == Seller(mid.index, tx.domain);
      RedeemingDoneIff(c, sh, x, mid, tx, founds[n]);
    } else {
      OwnersGate(c, sh, tx);
      OthersTakeEffect(x, mid, tx, founds[n]);
    }
  }

  lemma OthersTakeEffect(x: Place, st: DomState, tx: Tx, found: Option<Tx>)
    requires !Trades(tx) && !tx.typ.UPDATE? && !tx.typ.RENEW? && !tx.typ.REVOKE? && !tx.typ.REGISTER?
    ensures ApplyDomain(x, st, tx, found).outcome.Done? && InTime(x, st.index, tx, found)
  {
  }

  ghost predicate AllInTime(x: Place, st: DomState, txs: seq<Tx>, founds: seq<Option<Tx>>)
    requires |founds| == |txs|
  {
    forall i :: 0 <= i < |txs| ==> InTime(x, DomainRun(x, st, txs[..i], founds[..i]).index, txs[i], founds[i])
  }

  ghost predicate AllTakeEffect(x: Place, st: DomState, txs: seq<Tx>, founds: seq<Option<Tx>>)
    requires |founds| == |txs|
  {
    forall i :: 0 <= i < |txs| ==> OutcomeAt(x, st, txs, founds, i).Done?
  }

  lemma NextAgrees(c: Ctx, x: Place, st: DomState, txs: seq<Tx>, founds: seq<Option<Tx>>, n: nat)
    requires |founds| == |txs| && n < |txs| && Accepts(c, txs) && AgreesAt(c, x, st, txs, founds, n)
    requires OutcomeAt(x, st, txs, founds, n).Done?
    ensures AgreesAt(c, x, st, txs, founds, n + 1)
  {
    hide ApplyDomain;
    hide Gates;
    hide NextShadow;
    hide MarketAgrees;
    AcceptsPrefix(c, txs, n);
    assert txs[..n + 1][..n] == txs[..n] && founds[..n + 1][..n] == founds[..n];
    EffectAgrees(c, ShadowRun(c, txs[..n]), x, DomainRun(x, st, txs[..n], founds[..n]), txs[n], founds[n]);
  }

  /** As long as everything takes effect, the running owners and prices are those of the overlay. */
  lemma {:induction false} EffectsAgree(c: Ctx, x: Place, st: DomState, txs: seq<Tx>, founds: seq<Option<Tx>>, n: nat)
    requires |founds| == |txs| && n <= |txs| && Accepts(c, txs) && Matches(c, x, st)
    requires forall i :: 0 <= i < n ==> OutcomeAt(x, st, txs, founds, i).Done?
    ensures forall i :: 0 <= i <= n ==> AgreesAt(c, x, st, txs, founds, i)
  {
    hide ApplyDomain;
    hide Accepts;
    hide Matches;
    hide AgreesAt;
    hide OutcomeAt;
    if n == 0 {
      AgreesAtFirst(c, x, st, txs, founds);
    } else {
      EffectsAgree(c, x, st, txs, founds, n - 1);
      NextAgrees(c, x, st, txs, founds, n - 1);
    }
  }

  lemma {:induction false} InTimeAgrees(c: Ctx, x: Place, st: DomState, txs: seq<Tx>, founds: seq<Option<Tx>>, n: nat)
    requires |founds| == |txs| && n <= |txs| && Accepts(c, txs) && Matches(c, x, st) && Funded(c, st, txs)
    requires AllInTime(x, st, txs, founds)
    ensures forall i :: 0 <= i <= n ==> AgreesAt(c, x, st, txs, founds, i)
  {
    hide ApplyDomain;
    hide Accepts;
    hide Matches;
    hide Funded;
    hide AgreesAt;
    hide OutcomeAt;
    hide InTime;
    if n == 0 {
      AgreesAtFirst(c, x, st, txs, founds);
    } else {
      InTimeAgrees(c, x, st, txs, founds, n - 1);
      AcceptedTakesEffectIff(c, x, st, txs, founds, n - 1);
      NextAgrees(c, x, st, txs, founds, n - 1);
    }
  }

  /** No transaction of an accepted list is refused when it is applied, exactly when each of them is in time. */
  lemma ListTakesEffectIff(c: Ctx, x: Place, st: DomState, txs: seq<Tx>, founds: seq<Option<Tx>>)
    requires |founds| == |txs| && Accepts(c, txs) && Matches(c, x, st) && Funded(c, st, txs)
    ensures AllTakeEffect(x, st, txs, founds) <==> AllInTime(x, st, txs, founds)
  {
    hide ApplyDomain;
    hide Accepts;
    hide Matches;
    hide Funded;
    hide AgreesAt;
    hide OutcomeAt;
    hide InTime;
    hide DomainRun;
    if AllTakeEffect(x, st, txs, founds) {
      forall i | 0 <= i < |txs| ensures InTime(x, DomainRun(x, st, txs[..i], founds[..i]).index, txs[i], founds[i]) {
        EffectsAgree(c, x, st, txs, founds, i);
        AcceptedTakesEffectIff(c, x, st, txs, founds, i);
      }
    }
    if AllInTime(x, st, txs, founds) {
      forall i | 0 <= i < |txs| ensures OutcomeAt(x, st, txs, founds, i).Done? {
        InTimeAgrees(c, x, st, txs, founds, i);
        AcceptedTakesEffectIff(c, x, st, txs, founds, i);
      }
    }
  }

  /** So it is with the blocks of a run. */
  lemma AcceptedBlockTakesEffectIff(w: World, s: State, st: Step, s': State)
    requires Transition(w, s, st, s') && Ledger.Liquid(s.ledger) + Supply.AutoFees(st.block.txs) < TWO64
    ensures |st.founds| == |st.block.txs|
    ensures var x, start := PlaceOf(w, st.block), StartB(s, st.block);
            AllTakeEffect(x, start, st.block.txs, st.founds) <==> AllInTime(x, start, st.block.txs, st.founds)
  {
    BlockMatches(w, s, st, s');
    BlockFunded(w, s, st, s');
    assert |st.founds| == |st.block.txs|;
    hide Transition;
    hide Accepts;
    hide Matches;
    hide Funded;
    hide AllTakeEffect;
    hide AllInTime;
    ListTakesEffectIff(ContextOf(w, s, st.block, st.lookup), PlaceOf(w, st.block), StartB(s, st.block), st.block.txs,
                       st.founds);
  }
}
