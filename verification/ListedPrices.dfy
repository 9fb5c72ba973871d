/** Where the price of a name comes from, over whole runs. */
module ListedPrices {
  import opened Basics
  import opened Transactions
  import opened DomainIndex
  import opened Validation
  import opened Application
  import opened Blocks
  import opened DomainSafety
  import opened Ownership
  import opened Redemption

  // ----- Positions of a run: block n, before transaction i -----

  predicate Earlier(m: nat, j: nat, n: nat, i: nat) {
    m < n || (m == n && j < i)
  }

  ghost predicate Inside(states: seq<State>, steps: seq<Step>, n: nat, i: nat) {
    |states| == |steps| + 1 && n < |steps| && |steps[n].founds| == |steps[n].block.txs| && i <= |steps[n].block.txs|
  }

  ghost predicate Effective(w: World, states: seq<State>, steps: seq<Step>, d: Name, n: nat, i: nat) {
    && Inside(states, steps, n, i) && i < |steps[n].block.txs|
    && TookEffect(w, states[n], steps[n], i) && steps[n].block.txs[i].domain == d
  }

  predicate SetsPriceOrOwner(tx: Tx) {
    IsMarket(tx) || tx.typ.REVEAL?
  }

  /** An effective transaction at this position lists d, sells it, gives it away or registers it anew. */
  ghost predicate Touched(w: World, states: seq<State>, steps: seq<Step>, d: Name, n: nat, i: nat) {
    Effective(w, states, steps, d, n, i) && SetsPriceOrOwner(steps[n].block.txs[i])
  }

  /** The LIST at (m, j) by k at price p took effect, and nothing has touched d since. */
  ghost predicate InForce(w: World, states: seq<State>, steps: seq<Step>, d: Name, k: Key, p: u64, m: nat, j: nat,
                          n: nat, i: nat) {
    && Earlier(m, j, n, i) && Effective(w, states, steps, d, m, j)
    && (var tx := steps[m].block.txs[j]; tx.typ.LIST? && tx.owner == k && tx.listPrice == p)
    && forall a: nat, b: nat :: Earlier(m, j, a, b) && Earlier(a, b, n, i) ==> !Touched(w, states, steps, d, a, b)
  }

  /** A positive price of d at this position is the one that its owner listed it for. */
  ghost predicate OwnersPrice(w: World, states: seq<State>, steps: seq<Step>, d: Name, n: nat, i: nat)
    requires Inside(states, steps, n, i)
  {
    var o := Before(w, states[n], steps[n], i).index;
    GetPrice(o, d) > 0 ==>
      exists k: Key, m: nat, j: nat ::
        GetOwner(o, d) == Some(k) && InForce(w, states, steps, d, k, GetPrice(o, d), m, j, n, i)
  }

  /** The REVEAL at this position registers d anew while the price of its last owner still stands. */
  ghost predicate MeetsPrice(w: World, states: seq<State>, steps: seq<Step>, d: Name, n: nat, i: nat) {
    && Effective(w, states, steps, d, n, i) && steps[n].block.txs[i].typ.REVEAL?
    && GetPrice(Before(w, states[n], steps[n], i).index, d) > 0
  }

  // ----- One transaction -----

  lemma ListerOwns(x: Place, st: DomState, tx: Tx)
    requires tx.typ.LIST? && ApplyMarket(x, st, tx).outcome.Done?
    ensures Owns(st.index, tx.domain, tx.owner)
  {
    hide GetDomain;
    hide GetOwner;
  }

  /** What the transaction at this position does to the owner and the price of d. */
  lemma StepReads(w: World, states: seq<State>, steps: seq<Step>, d: Name, n: nat, i: nat)
    requires Inside(states, steps, n, i) && i < |steps[n].block.txs| && !steps[n].block.txs[i].typ.REGISTER?
    ensures var o, o' := Before(w, states[n], steps[n], i).index, Before(w, states[n], steps[n], i + 1).index;
            var tx := steps[n].block.txs[i];
            if !Touched(w, states, steps, d, n, i) then
              GetOwner(o', d) == GetOwner(o, d) && GetPrice(o', d) == GetPrice(o, d)
            else if tx.typ.LIST? then GetOwner(o', d) == Some(tx.owner) && GetPrice(o', d) == tx.listPrice
            else GetPrice(o', d) == if tx.typ.REVEAL? then GetPrice(o, d) else 0
  {
    hide GetDomain;
    hide GetOwner;
    hide GetPrice;
    var x, st, tx := PlaceOf(w, steps[n].block), Before(w, states[n], steps[n], i), steps[n].block.txs[i];
    BeforeStep(w, states[n], steps[n], i);
    StepEffect(x, st, tx, steps[n].founds[i], d);
    if tx.typ.LIST? && TookEffect(w, states[n], steps[n], i) {
      ListerOwns(x, st, tx);
    }
    hide DomainRun;
    hide ApplyMarket;
  }

  lemma NowInForce(w: World, states: seq<State>, steps: seq<Step>, d: Name, n: nat, i: nat)
    requires Effective(w, states, steps, d, n, i) && steps[n].block.txs[i].typ.LIST?
    ensures var tx := steps[n].block.txs[i];
            InForce(w, states, steps, d, tx.owner, tx.listPrice, n, i, n, i + 1)
  {
    hide TookEffect;
  }

  lemma StillInForce(w: World, states: seq<State>, steps: seq<Step>, d: Name, k: Key, p: u64, m: nat, j: nat, n: nat,
                     i: nat)
    requires InForce(w, states, steps, d, k, p, m, j, n, i) && !Touched(w, states, steps, d, n, i)
    ensures InForce(w, states, steps, d, k, p, m, j, n, i + 1)
  {
    hide Touched;
    hide Effective;
  }

  /** Of the transactions of an accepted block only a REVEAL can leave a price that is not its owner's. */
  lemma PriceStep(w: World, states: seq<State>, steps: seq<Step>, d: Name, n: nat, i: nat)
    requires Inside(states, steps, n, i) && i < |steps[n].block.txs| && !steps[n].block.txs[i].typ.REGISTER?
    requires OwnersPrice(w, states, steps, d, n, i) && !MeetsPrice(w, states, steps, d, n, i)
    ensures OwnersPrice(w, states, steps, d, n, i + 1)
  {
    StepReads(w, states, steps, d, n, i);
    hide Before;
    hide Effective;
    hide GetOwner;
    hide GetPrice;
    hide InForce;
    var o, o' := Before(w, states[n], steps[n], i).index, Before(w, states[n], steps[n], i + 1).index;
    if GetPrice(o', d) > 0 {
      if Touched(w, states, steps, d, n, i) {
        NowInForce(w, states, steps, d, n, i);
      } else {
        var k: Key, m: nat, j: nat :|
          GetOwner(o, d) == Some(k) && InForce(w, states, steps, d, k, GetPrice(o, d), m, j, n, i);
        StillInForce(w, states, steps, d, k, GetPrice(o, d), m, j, n, i);
      }
    }
  }

  /** A REVEAL that meets a positive price leaves it, and its new owner has listed nothing. */
  lemma RevealKeepsPrice(w: World, states: seq<State>, steps: seq<Step>, d: Name, n: nat, i: nat)
    requires MeetsPrice(w, states, steps, d, n, i)
    ensures !OwnersPrice(w, states, steps, d, n, i + 1)
  {
    StepReads(w, states, steps, d, n, i);
    hide Before;
    hide GetOwner;
    hide GetPrice;
    hide TookEffect;
    var next := i + 1;
    forall k: Key, p: u64, m: nat, j: nat ensures !InForce(w, states, steps, d, k, p, m, j, n, next) {
      assert Touched(w, states, steps, d, n, i);
    }
  }

  // ----- Whole runs -----

  lemma Accepted(w: World, states: seq<State>, steps: seq<Step>, n: nat)
    requires ValidRun(w, states, steps) && n < |steps|
    ensures Inside(states, steps, n, |steps[n].block.txs|)
    ensures forall i :: 0 <= i < |steps[n].block.txs| ==> !steps[n].block.txs[i].typ.REGISTER?
  {
    hide Transition;
    assert Transition(w, states[n], steps[n], states[n + 1]);
    BlockMatches(w, states[n], steps[n], states[n + 1]);
    assert |steps[n].founds| == |steps[n].block.txs| by { InOrder(w, states[n], steps[n], states[n + 1]); }
    hide Matches;
    hide Accepts;
    forall i | 0 <= i < |steps[n].block.txs| ensures !steps[n].block.txs[i].typ.REGISTER? {
      NotRegister(ContextOf(w, states[n], steps[n].block, steps[n].lookup), steps[n].block.txs, i);
    }
  }

  lemma InOrder(w: World, s: State, st: Step, s': State)
    requires Transition(w, s, st, s')
    ensures |st.founds| == |st.block.txs|
  {
  }

  /** The price before a block is the price after the one before it. */
  lemma NextBlock(w: World, states: seq<State>, steps: seq<Step>, d: Name, n: nat)
    requires ValidRun(w, states, steps) && n + 1 < |steps|
    requires Inside(states, steps, n, |steps[n].block.txs|) && Inside(states, steps, n + 1, 0)
    requires OwnersPrice(w, states, steps, d, n, |steps[n].block.txs|)
    ensures OwnersPrice(w, states, steps, d, n + 1, 0)
  {
    hide Transition;
    assert Transition(w, states[n], steps[n], states[n + 1]);
    assert Transition(w, states[n + 1], steps[n + 1], states[n + 2]);
    BlockReads(w, states[n], steps[n], states[n + 1], d);
    BlockReads(w, states[n + 1], steps[n + 1], states[n + 2], d);
    hide Before;
    hide Effective;
    hide GetOwner;
    hide GetPrice;
    var o := Before(w, states[n], steps[n], |steps[n].block.txs|).index;
    if GetPrice(o, d) > 0 {
      var k: Key, m: nat, j: nat :|
        GetOwner(o, d) == Some(k) &&
        InForce(w, states, steps, d, k, GetPrice(o, d), m, j, n, |steps[n].block.txs|);
      EndOfBlock(w, states, steps, d, k, GetPrice(o, d), m, j, n);
    }
  }

  lemma EndOfBlock(w: World, states: seq<State>, steps: seq<Step>, d: Name, k: Key, p: u64, m: nat, j: nat, n: nat)
    requires n < |steps| && InForce(w, states, steps, d, k, p, m, j, n, |steps[n].block.txs|)
    ensures InForce(w, states, steps, d, k, p, m, j, n + 1, 0)
  {
    hide TookEffect;
  }

  /** Without such a REVEAL every price is its owner's, before and after every transaction. */
  lemma {:induction false} PriceRun(w: World, states: seq<State>, steps: seq<Step>, d: Name, n: nat, i: nat)
    requires ValidRun(w, states, steps) && IxPrice(states[0].index, d) == 0
    requires forall a: nat, b: nat :: !MeetsPrice(w, states, steps, d, a, b)
    requires Inside(states, steps, n, i)
    ensures OwnersPrice(w, states, steps, d, n, i)
    decreases n, i
  {
    hide Transition;
    hide MeetsPrice;
    hide OwnersPrice;
    if i > 0 {
      Accepted(w, states, steps, n);
      PriceRun(w, states, steps, d, n, i - 1);
      PriceStep(w, states, steps, d, n, i - 1);
    } else if n > 0 {
      Accepted(w, states, steps, n - 1);
      PriceRun(w, states, steps, d, n - 1, |steps[n - 1].block.txs|);
      NextBlock(w, states, steps, d, n - 1);
    } else {
      FirstPrice(w, states, steps, d);
    }
  }

  lemma FirstPrice(w: World, states: seq<State>, steps: seq<Step>, d: Name)
    requires ValidRun(w, states, steps) && IxPrice(states[0].index, d) == 0 && Inside(states, steps, 0, 0)
    ensures OwnersPrice(w, states, steps, d, 0, 0)
  {
    hide Transition;
    assert Transition(w, states[0], steps[0], states[1]);
    BlockReads(w, states[0], steps[0], states[1], d);
    hide Before;
    hide GetPrice;
  }

  /**
   * Over a run that starts without a price for d: at every position a positive price of d comes from a LIST of its
   * current owner, in force ever since, exactly when no effective REVEAL of d meets a positive price.
   */
  lemma OwnersPriceIff(w: World, states: seq<State>, steps: seq<Step>, d: Name)
    requires ValidRun(w, states, steps) && IxPrice(states[0].index, d) == 0
    ensures (forall n: nat, i: nat | Inside(states, steps, n, i) :: OwnersPrice(w, states, steps, d, n, i))
            <==> forall n: nat, i: nat :: !MeetsPrice(w, states, steps, d, n, i)
  {
    hide Transition;
    hide OwnersPrice;
    if forall n: nat, i: nat :: !MeetsPrice(w, states, steps, d, n, i) {
      forall n: nat, i: nat | Inside(states, steps, n, i) ensures OwnersPrice(w, states, steps, d, n, i) {
        PriceRun(w, states, steps, d, n, i);
      }
    } else {
      var n: nat, i: nat :| MeetsPrice(w, states, steps, d, n, i);
      RevealKeepsPrice(w, states, steps, d, n, i);
      assert Inside(states, steps, n, i + 1);
    }
  }

  /** Then every BUY that takes effect pays a seller who listed the name, for the price it was listed at. */
  lemma BuyPaysLister(w: World, states: seq<State>, steps: seq<Step>, d: Name, n: nat, i: nat)
    requires ValidRun(w, states, steps) && IxPrice(states[0].index, d) == 0
    requires forall a: nat, b: nat :: !MeetsPrice(w, states, steps, d, a, b)
    requires Effective(w, states, steps, d, n, i) && steps[n].block.txs[i].typ.BUY?
    ensures exists k: Key, m: nat, j: nat ::
              && InForce(w, states, steps, d, k, GetPrice(Before(w, states[n], steps[n], i).index, d), m, j, n, i)
              && Sold(Before(w, states[n], steps[n], i), steps[n].block.txs[i], Before(w, states[n], steps[n], i + 1),
                      k)
  {
    hide Transition;
    hide MeetsPrice;
    hide InForce;
    PriceRun(w, states, steps, d, n, i);
    var before, tx, x := Before(w, states[n], steps[n], i), steps[n].block.txs[i], PlaceOf(w, steps[n].block);
    BeforeStep(w, states[n], steps[n], i);
    BuyMeetsPrice(x, before, tx);
    var k: Key, m: nat, j: nat :|
      GetOwner(before.index, d) == Some(k) &&
      InForce(w, states, steps, d, k, GetPrice(before.index, d), m, j, n, i);
    SaleTerms(x, before, tx, k);
    hide Sold;
    hide ApplyMarket;
  }

  lemma BuyMeetsPrice(x: Place, st: DomState, tx: Tx)
    requires tx.typ.BUY? && ApplyMarket(x, st, tx).outcome.Done?
    ensures GetPrice(st.index, tx.domain) > 0
  {
    hide GetDomain;
    hide GetOwner;
    hide GetPrice;
  }
}
