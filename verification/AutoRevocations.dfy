/** The revocations that a leader generates for registrations due (internal/network/node_leader.go:253-303). */
module AutoRevocations {
  import opened Basics
  import opened Transactions
  import opened Validation
  import opened Blocks
  import opened Sorting

  predicate RenewedIn(chosen: seq<Tx>, d: Name) {
    exists i :: 0 <= i < |chosen| && chosen[i].typ.RENEW? && chosen[i].domain == d
  }

  /** The registrations that no chosen transaction renews. */
  function Unrenewed(due: seq<Purge>, chosen: seq<Tx>): seq<Purge> {
    if due == [] then []
    else
      var rest, p := Unrenewed(due[..|due| - 1], chosen), due[|due| - 1];
      if RenewedIn(chosen, p.domain) then rest else rest + [p]
  }

  /** A revocation without owner, fee or signature. */
  function Revocation(p: Purge): Tx {
    Tx(p.tid, REVOKE, 0, p.domain, [], 0, p.expirySlot, p.tid, [], 0, 0, 0, [], [], [], [], 0, [], [])
  }

  function Revocations(ps: seq<Purge>): (r: seq<Tx>)
    ensures |r| == |ps| && forall i :: 0 <= i < |ps| ==> r[i] == Revocation(ps[i])
  {
    seq(|ps|, i requires 0 <= i < |ps| => Revocation(ps[i]))
  }

  /** By name; registrations of one name may come in any order. */
  predicate NameLess(a: Purge, b: Purge) {
    Less(a.domain, b.domain)
  }

  method RenewedNames(chosen: seq<Tx>) returns (renewed: set<Name>)
    ensures forall d :: d in renewed <==> RenewedIn(chosen, d)
  {
    renewed := {};
    for i := 0 to |chosen|
      invariant forall d :: d in renewed <==> exists j :: 0 <= j < i && chosen[j].typ.RENEW? && chosen[j].domain == d
    {
      if chosen[i].typ.RENEW? {
        renewed := renewed + {chosen[i].domain};
      }
    }
  }

  method Filter(due: seq<Purge>, chosen: seq<Tx>) returns (filtered: seq<Purge>)
    ensures filtered == Unrenewed(due, chosen)
  {
    var renewed := RenewedNames(chosen);
    filtered := [];
    for i := 0 to |due|
      invariant filtered == Unrenewed(due[..i], chosen)
    {
      assert due[..i + 1][..i] == due[..i];
      if due[i].domain !in renewed {
        filtered := filtered + [due[i]];
      }
    }
    assert due[..|due|] == due;
  }

  method RevokeAll(ps: seq<Purge>) returns (revocations: seq<Tx>)
    ensures revocations == Revocations(ps)
  {
    revocations := [];
    for i := 0 to |ps|
      invariant |revocations| == i && forall j :: 0 <= j < i ==> revocations[j] == Revocation(ps[j])
    {
      revocations := revocations + [Revocation(ps[i])];
    }
  }

  /** The order that the leader's sort gives. */
  function Ordered(due: seq<Purge>, chosen: seq<Tx>): (order: seq<Purge>)
    ensures Permutation(order, Unrenewed(due, chosen))
  {
    SortPermutes(NameLess, Unrenewed(due, chosen));
    Sort(NameLess, Unrenewed(due, chosen))
  }

  lemma NamesAreOrdered()
    ensures WeakOrder(NameLess)
  {
    hide Less;
    forall a: Purge, b: Purge ensures NameLess(a, b) ==> !NameLess(b, a) {
      LessTrichotomy(a.domain, b.domain);
    }
    forall a: Purge, b: Purge, c: Purge | NameLess(a, c) ensures NameLess(a, b) || NameLess(b, c) {
      LessTrichotomy(a.domain, b.domain);
      if Less(b.domain, a.domain) { LessTransitive(b.domain, a.domain, c.domain); }
    }
  }

  /** One revocation for each registration that is due and not renewed, the names in increasing order. */
  method GenerateAutoRevocations(due: seq<Purge>, chosen: seq<Tx>) returns (revocations: seq<Tx>)
    ensures revocations == Revocations(Ordered(due, chosen))
    ensures forall i, j :: 0 <= i < j < |revocations| ==> !Less(revocations[j].domain, revocations[i].domain)
  {
    hide Sort;
    hide Unrenewed;
    var filtered := Filter(due, chosen);
    var sorted := new Purge[|filtered|](i requires 0 <= i < |filtered| => filtered[i]);
    assert sorted[..] == filtered;
    SortSlice(sorted, NameLess);
    revocations := RevokeAll(sorted[..]);
    NamesAreOrdered();
    SortSorted(NameLess, filtered);
  }

  // ----- The block that a leader builds from them -----

  lemma {:induction false} UnrenewedAre(due: seq<Purge>, chosen: seq<Tx>, p: Purge)
    ensures p in Unrenewed(due, chosen) <==> p in due && !RenewedIn(chosen, p.domain)
  {
    if due == [] {
    } else {
      UnrenewedAre(due[..|due| - 1], chosen, p);
      assert due == due[..|due| - 1] + [due[|due| - 1]];
    }
  }

  /** Whatever is due and whatever was chosen, the block renews or revokes it, in any order of the revocations. */
  lemma HonestPurgesPresent(due: seq<Purge>, chosen: seq<Tx>, order: seq<Purge>)
    requires Permutation(order, Unrenewed(due, chosen))
    ensures PurgesPresent(Revocations(order) + chosen, due)
  {
    var revs, txs := Revocations(order), Revocations(order) + chosen;
    forall p | p in due
      ensures || (exists tx :: tx in txs && tx.typ.RENEW? && tx.domain == p.domain)
              || (exists tx :: tx in txs && tx.typ.REVOKE? && tx.domain == p.domain && tx.redeems == p.tid)
    {
      UnrenewedAre(due, chosen, p);
      if RenewedIn(chosen, p.domain) {
        var i :| 0 <= i < |chosen| && chosen[i].typ.RENEW? && chosen[i].domain == p.domain;
        assert chosen[i] in txs;
      } else {
        assert p in multiset(order);
        var i :| 0 <= i < |order| && order[i] == p;
        assert txs[i] == Revocation(p);
        assert Revocation(p) in txs;
      }
    }
  }

  /** Every registration that is due is renewed by a chosen transaction. */
  ghost predicate AllRenewed(due: seq<Purge>, chosen: seq<Tx>) {
    forall p :: p in due ==> RenewedIn(chosen, p.domain)
  }

  /** The revocations are unsigned, so a list with one of them is never accepted. */
  lemma HonestAcceptedIff(c: Ctx, due: seq<Purge>, chosen: seq<Tx>, order: seq<Purge>)
    requires Permutation(order, Unrenewed(due, chosen))
    ensures Accepts(c, Revocations(order) + chosen) <==> Revocations(order) == [] && Accepts(c, chosen)
    ensures Revocations(order) == [] <==> AllRenewed(due, chosen)
  {
    hide Gates;
    hide Accepts;
    var txs := Revocations(order) + chosen;
    if order == [] {
      assert txs == chosen;
      assert |multiset(Unrenewed(due, chosen))| == 0;
      forall p | p in due ensures RenewedIn(chosen, p.domain) {
        UnrenewedAre(due, chosen, p);
        assert p !in multiset(Unrenewed(due, chosen));
      }
    } else {
      assert order[0] in multiset(order);
      UnrenewedAre(due, chosen, order[0]);
      assert txs[0] == Revocation(order[0]);
      if Accepts(c, txs) {
        AcceptedAreSigned(c, txs, 0);
      }
    }
  }

  /** So a block that a leader builds in good faith is accepted only if it renews everything that is due. */
  lemma HonestBlock(w: World, s: State, st: Step, s': State, chosen: seq<Tx>, order: seq<Purge>)
    requires Permutation(order, Unrenewed(w.purgeable(s.index, st.block.slot), chosen))
    requires st.block.txs == Revocations(order) + chosen && Transition(w, s, st, s')
    ensures AllRenewed(w.purgeable(s.index, st.block.slot), chosen) && st.block.txs == chosen
  {
    hide NextState;
    hide HashesOk;
    hide NoCrash;
    hide PurgesPresent;
    hide Accepts;
    HonestAcceptedIff(ContextOf(w, s, st.block, st.lookup), w.purgeable(s.index, st.block.slot), chosen, order);
    assert [] + chosen == chosen;
  }
}
