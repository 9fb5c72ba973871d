/** A chain to state concrete blocks on: one leader, and digests that carry no information. */
module ExampleChain {
  import opened Basics
  import opened Transactions
  import opened Ledger
  import Commits
  import opened DomainIndex
  import opened Validation
  import opened Application
  import opened Blocks
  import opened Ownership

  function Chain(env: Env, leader: Key): World {
    World(env, b => leader, (k, b) => true, b => [], txs => [], a => [], o => [], s => [], s => [], q => [],
          (ix, slot) => [])
  }

  function NoLookup(id: i64): Option<Tx> { None }

  /** A block of the chain, with the answers that GetTxByID gives on the way. */
  function Proposed(index: int, slot: i64, leader: Key, txs: seq<Tx>, lookup: i64 -> Option<Tx>,
                    founds: seq<Option<Tx>>): Step {
    Step(Block(index, 0, slot, leader, txs, [], [], [], [], [], [], [], [], []), lookup, founds)
  }

  /** On this chain a list that passes the gates is a block that is accepted. */
  lemma AcceptedBlock(env: Env, leader: Key, s: State, index: int, slot: i64, txs: seq<Tx>, lookup: i64 -> Option<Tx>,
                      founds: seq<Option<Tx>>)
    requires s.tip.index + 1 == index && s.tip.slot < slot && s.tip.hash == [] && txs != [] && |founds| == |txs|
    requires var st := Proposed(index, slot, leader, txs, lookup, founds);
             Accepts(ContextOf(Chain(env, leader), s, st.block, lookup), txs)
    ensures var w, st := Chain(env, leader), Proposed(index, slot, leader, txs, lookup, founds);
            Transition(w, s, st, NextState(w, s, st))
  {
    hide Accepts;
    hide ContextOf;
    hide NoCrash;
    hide NextState;
    hide PhaseA;
    hide PhaseB;
    hide StakePhase;
    AcceptedBlockNeverCrashes(Chain(env, leader), s, Proposed(index, slot, leader, txs, lookup, founds));
  }

  // ----- Blocks of one transaction -----

  lemma OneAccepted(c: Ctx, tx: Tx)
    ensures Accepts(c, [tx]) <==> Gates(c, EmptyShadow(), tx)
  {
    hide Gates;
    hide NextShadow;
    assert [tx][..0] == [];
  }

  lemma OneApplied(x: Place, d: DomState, tx: Tx, found: Option<Tx>)
    ensures DomainRun(x, d, [tx], [found]) == ApplyDomain(x, d, tx, found).state
  {
    hide ApplyDomain;
    assert [tx][..0] == [] && [found][..0] == [];
  }

  lemma OnePaid(a: Accounts, tx: Tx)
    ensures LedgerRun(a, [tx]) == ApplyLedger(a, tx) && TotalFees([tx]) == tx.fee
  {
    hide ApplyLedger;
    assert [tx][..0] == [];
  }

  lemma OneStaked(env: Env, k: StakeState, tx: Tx, slot: i64)
    ensures StakeRun(env, k, [tx], slot) == ApplyStake(env, k, tx, slot)
  {
    hide ApplyStake;
    assert [tx][..0] == [];
  }

  /** What a block of one transaction that stakes nothing and punishes nobody leaves. */
  lemma OneNext(env: Env, leader: Key, s: State, index: int, slot: i64, tx: Tx, lookup: i64 -> Option<Tx>,
                found: Option<Tx>)
    requires s.queue == [] && !tx.typ.STAKE? && !tx.typ.UNSTAKE? && !tx.typ.EQUIVOCATION_PROOF?
    ensures var w, st := Chain(env, leader), Proposed(index, slot, leader, [tx], lookup, [found]);
            var r := ApplyDomain(Place(env, slot, index),
                                 DomState(WithFees(ApplyLedger(s.ledger, tx), leader, tx.fee), NewOverlay(s.index),
                                          PurgedOverlay(s, st.block)),
                                 tx, found).state;
            NextState(w, s, st) ==
              State(r.ledger, Committed(r.index), Commits.Flushed(r.commits, s.commits), s.stakes, [], s.evidence,
                    Tip(index, slot, []))
  {
    hide ApplyDomain;
    hide ApplyLedger;
    hide Committed;
    hide Commits.Flushed;
    hide PurgedOverlay;
    hide WithFees;
    hide DomainRun;
    hide LedgerRun;
    hide TotalFees;
    hide StakeRun;
    var st := Proposed(index, slot, leader, [tx], lookup, [found]);
    OnePaid(s.ledger, tx);
    OneApplied(Place(env, slot, index), StartB(s, st.block), tx, found);
    OneStaked(env, StartStake(s, st.block), tx, slot);
  }
}
