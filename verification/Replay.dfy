/** No transaction is replayed: nonces are consecutive over whole runs. */
module Replay {
  import opened Basics
  import opened Transactions
  import opened Ledger
  import opened Validation
  import opened Application
  import opened Blocks
  import opened ShadowLedger

  /** The nonces of k's transactions, in order. */
  function NoncesOf(txs: seq<Tx>, k: Key): seq<u64> {
    if txs == [] then []
    else
      var rest := NoncesOf(txs[..|txs| - 1], k);
      if txs[|txs| - 1].owner == k then rest + [txs[|txs| - 1].nonce] else rest
  }

  /** The i-th number after start, counting modulo 2^64. */
  function Counted(start: u64, i: nat): u64 {
    (start + i) % TWO64
  }

  predicate Consecutive(ns: seq<u64>, start: u64) {
    forall i :: 0 <= i < |ns| ==> ns[i] == Counted(start, i)
  }

  lemma CountedNext(start: u64, i: nat)
    ensures Add64(Counted(start, i), 1) == Counted(start, i + 1)
  {
  }

  lemma CountedOn(start: u64, i: nat, j: nat)
    ensures Counted(Counted(start, i), j) == Counted(start, i + j)
  {
  }

  lemma CountedNone(start: u64)
    ensures Counted(start, 0) == start
  {
  }

  lemma NonceChecked(c: Ctx, sh: Shadow, tx: Tx)
    requires Gates(c, sh, tx) && tx.owner != []
    ensures tx.nonce == Nonce(c, sh, tx.owner)
  {
  }

  lemma {:induction false} BlockNonces(c: Ctx, txs: seq<Tx>, k: Key)
    requires Accepts(c, txs) && k != []
    ensures Consecutive(NoncesOf(txs, k), NonceOf(c.ledger, k))
    ensures NonceOf(LedgerRun(c.ledger, txs), k) == Counted(NonceOf(c.ledger, k), |NoncesOf(txs, k)|)
  {
    hide Gates;
    hide NextShadow;
    hide ApplyLedger;
    hide Counted;
    if txs != [] {
      var p, tx := txs[..|txs| - 1], txs[|txs| - 1];
      BlockNonces(c, p, k);
      NonceSimulation(c, p, k);
      if tx.owner == k { NonceChecked(c, ShadowRun(c, p), tx); }
      LedgerNonce(LedgerRun(c.ledger, p), tx, k);
      CountedNext(NonceOf(c.ledger, k), |NoncesOf(p, k)|);
    } else {
      CountedNone(NonceOf(c.ledger, k));
    }
  }

  lemma {:induction false} PhaseBKeepsNonces(x: Place, st: DomState, txs: seq<Tx>, founds: seq<Option<Tx>>, k: Key)
    requires |founds| == |txs|
    ensures NonceOf(DomainRun(x, st, txs, founds).ledger, k) == NonceOf(st.ledger, k)
  {
    hide ApplyDomain;
    if txs == [] {
    } else {
      var n := |txs| - 1;
      PhaseBKeepsNonces(x, st, txs[..n], founds[..n], k);
      BuyKeepsNonces(x, DomainRun(x, st, txs[..n], founds[..n]), txs[n], founds[n], k);
    }
  }

  lemma BuyKeepsNonces(x: Place, st: DomState, tx: Tx, found: Option<Tx>, k: Key)
    ensures NonceOf(ApplyDomain(x, st, tx, found).state.ledger, k) == NonceOf(st.ledger, k)
  {
  }

  /** A block's transactions from k carry the next nonces, and k's nonce grows by exactly their number. */
  lemma TransitionNonces(w: World, s: State, st: Step, s': State, k: Key)
    requires Transition(w, s, st, s') && k != []
    ensures Consecutive(NoncesOf(st.block.txs, k), NonceOf(s.ledger, k))
    ensures NonceOf(s'.ledger, k) == Counted(NonceOf(s.ledger, k), |NoncesOf(st.block.txs, k)|)
  {
    hide Accepts;
    hide HashesOk;
    hide NoCrash;
    hide PurgesPresent;
    BlockNonces(ContextOf(w, s, st.block, st.lookup), st.block.txs, k);
    PhaseBKeepsNonces(PlaceOf(w, st.block), StartB(s, st.block), st.block.txs, st.founds, k);
  }

  // ----- Whole runs -----

  /** The nonces of all of k's transactions in the first n blocks. */
  function RunNonces(steps: seq<Step>, n: nat, k: Key): seq<u64>
    requires n <= |steps|
  {
    if n == 0 then [] else RunNonces(steps, n - 1, k) + NoncesOf(steps[n - 1].block.txs, k)
  }

  lemma {:induction false} RunNoncesConsecutive(w: World, states: seq<State>, steps: seq<Step>, n: nat, k: Key)
    requires ValidRun(w, states, steps) && n <= |steps| && k != []
    ensures Consecutive(RunNonces(steps, n, k), NonceOf(states[0].ledger, k))
    ensures NonceOf(states[n].ledger, k) == Counted(NonceOf(states[0].ledger, k), |RunNonces(steps, n, k)|)
  {
    hide Transition;
    if n == 0 {
    } else {
      RunNoncesConsecutive(w, states, steps, n - 1, k);
      assert Transition(w, states[n - 1], steps[n - 1], states[n]);
      TransitionNonces(w, states[n - 1], steps[n - 1], states[n], k);
      var start, a, b := NonceOf(states[0].ledger, k), RunNonces(steps, n - 1, k), NoncesOf(steps[n - 1].block.txs, k);
      forall i | 0 <= i < |a + b| ensures (a + b)[i] == Counted(start, i) {
        if i >= |a| { CountedOn(start, |a|, i - |a|); }
      }
      CountedOn(start, |a|, |b|);
    }
  }

  lemma CountedDistinct(start: u64, i: nat, j: nat)
    requires i < j < i + TWO64
    ensures Counted(start, i) != Counted(start, j)
  {
  }

  /** No (owner, nonce) pair occurs twice in a run, exactly until the 64-bit counter has gone all the way round. */
  lemma NoReplay(w: World, states: seq<State>, steps: seq<Step>, k: Key)
    requires ValidRun(w, states, steps) && k != []
    ensures var ns := RunNonces(steps, |steps|, k);
            (forall i, j :: 0 <= i < j < |ns| ==> ns[i] != ns[j]) <==> |ns| <= TWO64
  {
    hide Transition;
    RunNoncesConsecutive(w, states, steps, |steps|, k);
    var start, ns := NonceOf(states[0].ledger, k), RunNonces(steps, |steps|, k);
    if |ns| <= TWO64 {
      forall i, j | 0 <= i < j < |ns| ensures ns[i] != ns[j] {
        CountedDistinct(start, i, j);
      }
    } else {
      assert ns[0] == Counted(start, 0) == Counted(start, TWO64) == ns[TWO64];
    }
  }
}
