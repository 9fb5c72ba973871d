/** Where the epoch randoms come from: messages that were delivered, signed, and fit together. */
module BeaconOrigins {
  import opened Basics
  import opened Beacon

  /** The i-th event delivers a signed message about the slot. */
  predicate Delivers(c: Crypto, es: seq<Event>, i: nat, k: Slot) {
    && i < |es| && es[i].Deliver? && c.signed(es[i].msg)
    && es[i].msg.epoch == k.epoch && es[i].msg.sender == k.sender
  }

  predicate DeliversCommitment(c: Crypto, es: seq<Event>, i: nat, k: Slot, x: Option<Octets>) {
    Delivers(c, es, i, k) && es[i].msg.Commitment? && es[i].msg.commitment == x
  }

  predicate DeliversReveal(c: Crypto, es: seq<Event>, i: nat, k: Slot, u: Octets, r: Octets) {
    Delivers(c, es, i, k) && es[i].msg.Reveal? && es[i].msg.u == u && es[i].msg.r == r
  }

  lemma {:induction false} CommitmentDelivered(c: Crypto, es: seq<Event>, k: Slot) returns (i: nat)
    requires k in Run(c, es).commitments
    ensures DeliversCommitment(c, es, i, k, Run(c, es).commitments[k])
  {
    hide VerifyCommitment;
    var n := |es| - 1;
    var s := Run(c, es[..n]);
    if k in s.commitments && Run(c, es).commitments[k] == s.commitments[k] {
      i := CommitmentDelivered(c, es[..n], k);
    } else {
      i := n;
    }
  }

  lemma {:induction false} PendingDelivered(c: Crypto, es: seq<Event>, k: Slot) returns (i: nat)
    requires k in Run(c, es).pending
    ensures DeliversReveal(c, es, i, k, Run(c, es).pending[k].u, Run(c, es).pending[k].r)
  {
    hide VerifyCommitment;
    var n := |es| - 1;
    var s := Run(c, es[..n]);
    if k in s.pending && Run(c, es).pending[k] == s.pending[k] {
      i := PendingDelivered(c, es[..n], k);
    } else {
      i := n;
    }
  }

  /** The messages at i and j commit to and open the value u of the slot. */
  predicate Opens(c: Crypto, es: seq<Event>, k: Slot, i: nat, j: nat, u: Octets) {
    && Delivers(c, es, i, k) && Delivers(c, es, j, k)
    && (var m, o, key := es[i].msg, es[j].msg, c.decode(k.sender);
        && m.Commitment? && o.Reveal? && key.Some?
        && o.u == u && |u| == 32 && |o.r| == 32
        && m.commitment == Some(c.sha(key.value + o.r + u)))
  }

  lemma OpensExtended(c: Crypto, es: seq<Event>, k: Slot, i: nat, j: nat, u: Octets)
    requires es != [] && Opens(c, es[..|es| - 1], k, i, j, u)
    ensures Opens(c, es, k, i, j, u)
  {
    var p := es[..|es| - 1];
    assert es[i] == p[i] && es[j] == p[j];
  }

  /**
   * In every run each random of an epoch was committed to and opened by its own sender: a signed commitment and a
   * signed reveal of 32 bytes each were delivered, and the commitment is the digest of the sender's key and the reveal.
   */
  lemma {:induction false} RandomsAreOpened(c: Crypto, es: seq<Event>, k: Slot) returns (i: nat, j: nat)
    requires k in Run(c, es).randoms
    ensures Opens(c, es, k, i, j, Run(c, es).randoms[k])
  {
    var n := |es| - 1;
    var p, e := es[..n], es[n];
    var s := Run(c, p);
    if k in s.randoms && Run(c, es).randoms[k] == s.randoms[k] {
      i, j := RandomsAreOpened(c, p, k);
      OpensExtended(c, es, k, i, j, s.randoms[k]);
    } else if e.msg.Commitment? {
      i := n;
      j := PendingDelivered(c, p, k);
      assert es[j] == p[j];
    } else {
      i := CommitmentDelivered(c, p, k);
      j := n;
      assert es[i] == p[i];
    }
  }
}
