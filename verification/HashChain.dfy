/** The blocks of a run are linked by their hashes, and the hashes fix them (internal/blockchain/block.go:119-195). */
module HashChain {
  import opened Basics
  import opened Encoding
  import opened Staking
  import Commits
  import opened DomainIndex
  import opened Validation
  import opened Application
  import opened Blocks
  import opened SignedBytes

  /** Two different arguments with the same digest. */
  ghost predicate Clash<T>(digest: T -> Bytes, a: T, b: T) {
    a != b && digest(a) == digest(b)
  }

  // ----- One run -----

  lemma Linked(w: World, s: State, st: Step, s': State)
    requires Transition(w, s, st, s')
    ensures var b := st.block;
            && b.index == s.tip.index + 1 && b.slot > s.tip.slot && b.prevHash == s.tip.hash
            && b.leader == w.leaderOf(b) && w.signed(b.leader, b) && b.txs != [] && b.merkleRoot == w.merkle(b.txs)
            && b.hash == w.blockHash(b) && s'.tip == Tip(b.index, b.slot, b.hash)
  {
    hide Accepts;
    hide HashesOk;
    hide NoCrash;
    hide PurgesPresent;
  }

  /**
   * In every run heights are consecutive and slots increase, so no slot and no height has two blocks; every block names
   * the one before it and is signed by the leader of its slot.
   */
  lemma {:induction false} RunIsChained(w: World, states: seq<State>, steps: seq<Step>, m: nat, n: nat)
    requires ValidRun(w, states, steps) && m < n < |steps|
    ensures var a, b := steps[m].block, steps[n].block;
            && b.index - a.index == n - m && b.slot - a.slot >= n - m
            && w.signed(w.leaderOf(b), b) && b.merkleRoot == w.merkle(b.txs)
            && (n == m + 1 ==> b.prevHash == w.blockHash(a))
  {
    hide Transition;
    assert Transition(w, states[n - 1], steps[n - 1], states[n]);
    assert Transition(w, states[n], steps[n], states[n + 1]);
    Linked(w, states[n - 1], steps[n - 1], states[n]);
    Linked(w, states[n], steps[n], states[n + 1]);
    if n == m + 1 {
    } else {
      RunIsChained(w, states, steps, m, n - 1);
    }
  }

  // ----- Two runs -----

  ghost predicate SameBlocks(steps: seq<Step>, steps': seq<Step>) {
    |steps| == |steps'| && forall i :: 0 <= i < |steps| ==> steps[i].block == steps'[i].block
  }

  /** At some height the runs have different blocks with the same hash. */
  ghost predicate BlocksClash(w: World, steps: seq<Step>, steps': seq<Step>) {
    exists i :: 0 <= i < |steps| && i < |steps'| && Clash(w.blockHash, steps[i].block, steps'[i].block)
  }

  lemma ValidPrefix(w: World, states: seq<State>, steps: seq<Step>)
    requires ValidRun(w, states, steps) && steps != []
    ensures var n := |steps| - 1;
            ValidRun(w, states[..n + 1], steps[..n]) && Transition(w, states[n], steps[n], states[n + 1])
  {
    hide Transition;
    var n := |steps| - 1;
    forall i | 0 <= i < n ensures Transition(w, states[..n + 1][i], steps[..n][i], states[..n + 1][i + 1]) {
      assert Transition(w, states[i], steps[i], states[i + 1]);
    }
  }

  /**
   * Two runs of equal length that end in the same tip hash, from whatever states, consist of the same blocks, unless
   * two different blocks at one height have one hash.
   */
  lemma {:induction false} ChainIntegrity(w: World, states: seq<State>, steps: seq<Step>, states': seq<State>,
                                          steps': seq<Step>)
    requires ValidRun(w, states, steps) && ValidRun(w, states', steps') && |steps| == |steps'|
    requires states[|steps|].tip.hash == states'[|steps|].tip.hash
    ensures SameBlocks(steps, steps') || BlocksClash(w, steps, steps')
    decreases |steps|
  {
    hide Transition;
    hide ValidRun;
    hide Clash;
    if steps == [] {
    } else {
      var n := |steps| - 1;
      Lengths(w, states, steps);
      Lengths(w, states', steps');
      ValidPrefix(w, states, steps);
      ValidPrefix(w, states', steps');
      Linked(w, states[n], steps[n], states[n + 1]);
      Linked(w, states'[n], steps'[n], states'[n + 1]);
      if steps[n].block != steps'[n].block {
        DifferentBlocks(w, steps[n].block, steps'[n].block);
      } else {
        ChainIntegrity(w, states[..n + 1], steps[..n], states'[..n + 1], steps'[..n]);
        Extended(w, steps, steps', n);
      }
    }
  }

  lemma Lengths(w: World, states: seq<State>, steps: seq<Step>)
    requires ValidRun(w, states, steps)
    ensures |states| == |steps| + 1
  {
  }

  lemma DifferentBlocks(w: World, a: Block, b: Block)
    requires a != b && w.blockHash(a) == w.blockHash(b)
    ensures Clash(w.blockHash, a, b)
  {
  }

  lemma Extended(w: World, steps: seq<Step>, steps': seq<Step>, n: nat)
    requires n + 1 == |steps| == |steps'| && steps[n].block == steps'[n].block
    requires SameBlocks(steps[..n], steps'[..n]) || BlocksClash(w, steps[..n], steps'[..n])
    ensures SameBlocks(steps, steps') || BlocksClash(w, steps, steps')
  {
    hide Clash;
    if SameBlocks(steps[..n], steps'[..n]) {
      forall i | 0 <= i < |steps| ensures steps[i].block == steps'[i].block {
        if i < n { assert steps[..n][i].block == steps'[..n][i].block; }
      }
    } else {
      var i :| 0 <= i < n && Clash(w.blockHash, steps[..n][i].block, steps'[..n][i].block);
      assert Clash(w.blockHash, steps[i].block, steps'[i].block);
    }
  }

  /** What the stakes, the queue and the punished offenses are depends on the first state and the blocks only. */
  lemma {:induction false} SameBlocksSameStakes(w: World, states: seq<State>, steps: seq<Step>, states': seq<State>,
                                                steps': seq<Step>, n: nat)
    requires ValidRun(w, states, steps) && ValidRun(w, states', steps') && SameBlocks(steps, steps') && n <= |steps|
    requires states[0] == states'[0]
    ensures var s, t := states[n], states'[n];
            s.stakes == t.stakes && s.queue == t.queue && s.evidence == t.evidence && s.tip == t.tip
  {
    hide Transition;
    if n == 0 {
    } else {
      SameBlocksSameStakes(w, states, steps, states', steps', n - 1);
      assert Transition(w, states[n - 1], steps[n - 1], states[n]);
      assert Transition(w, states'[n - 1], steps'[n - 1], states'[n]);
      StakesFollow(w, states[n - 1], steps[n - 1], states[n]);
      StakesFollow(w, states'[n - 1], steps'[n - 1], states'[n]);
      assert steps[n - 1].block == steps'[n - 1].block;
    }
  }

  lemma StakesFollow(w: World, s: State, st: Step, s': State)
    requires Transition(w, s, st, s')
    ensures var rest := Select(s.queue, SlotNumber(st.block.slot), false);
            var k := StakeRun(w.env, StakeState(s.stakes, rest, s.evidence), st.block.txs, st.block.slot);
            && s'.stakes == k.stakes && s'.queue == k.queue && s'.evidence == k.evidence
            && s'.tip == Tip(st.block.index, st.block.slot, st.block.hash)
  {
    hide Accepts;
    hide HashesOk;
    hide NoCrash;
    hide PurgesPresent;
    hide StakeRun;
  }

  /**
   * Two nodes that accept the same block, from whatever states, hold the same stakes, the same queue and the same index
   * afterwards, and had the same ledger before the BUY transfers, unless one of the digests in the header clashes.
   */
  lemma SameBlockSameState(w: World, s: State, st: Step, s': State, t: State, st': Step, t': State)
    requires Transition(w, s, st, s') && Transition(w, t, st', t') && st.block == st'.block
    ensures s'.stakes == t'.stakes || Clash(w.hashStakes, s'.stakes, t'.stakes)
    ensures s'.queue == t'.queue || Clash(w.hashQueue, s'.queue, t'.queue)
    ensures PhaseA(s, st.block) == PhaseA(t, st.block) || Clash(w.hashLedger, PhaseA(s, st.block), PhaseA(t, st.block))
    ensures |st.founds| == |st.block.txs| && |st'.founds| == |st.block.txs|
    ensures s'.index == t'.index || Clash(w.hashIndex, PhaseB(w, s, st).index, PhaseB(w, t, st').index)
    ensures var x, y := Commits.Merged(PhaseB(w, s, st).commits), Commits.Merged(PhaseB(w, t, st').commits);
            x == y || Clash(w.hashCommits, x, y)
  {
    hide Accepts;
    hide NoCrash;
    hide PurgesPresent;
    hide HeaderOk;
    hide PhaseA;
    hide PhaseB;
    hide StakePhase;
    hide Committed;
    hide Commits.Merged;
    hide Commits.Flushed;
  }

  // ----- The bytes of a header -----

  /** ComputeHash: the claimed hash itself is not part of it, and the transactions only through their root. */
  function HeaderBytes(b: Block): Bytes {
    IntToByteArr(b.index) + IntToByteArr(b.timestamp) + IntToByteArr(b.slot) + b.leader + b.signature
    + b.indexHash + b.ledgerHash + b.commitsHash + b.merkleRoot + b.stakesHash + b.queueHash + b.prevHash
  }

  /** SerializeForSigning: without the signature, and without the ledger and commitment hashes. */
  function SigningHeader(b: Block): Bytes {
    IntToByteArr(b.index) + IntToByteArr(b.timestamp) + IntToByteArr(b.slot) + b.leader
    + b.indexHash + b.merkleRoot + b.stakesHash + b.queueHash + b.prevHash
  }

  /** The lengths of a header's fields: a 64-byte signature and 32-byte digests. */
  predicate Shaped(b: Block, width: nat) {
    && -TWO63 <= b.index < TWO63 && |b.leader| == width && |b.signature| == 64
    && |b.indexHash| == 32 && |b.ledgerHash| == 32 && |b.commitsHash| == 32 && |b.merkleRoot| == 32
    && |b.stakesHash| == 32 && |b.queueHash| == 32 && |b.prevHash| == 32
  }

  function Front(b: Block): Bytes {
    IntToByteArr(b.index) + IntToByteArr(b.timestamp) + IntToByteArr(b.slot)
  }

  lemma HeaderParts(b: Block)
    ensures HeaderBytes(b) ==
            Front(b) + (b.leader + (b.signature + (b.indexHash + (b.ledgerHash + (b.commitsHash
            + (b.merkleRoot + (b.stakesHash + (b.queueHash + b.prevHash))))))))
  {
    hide IntToByteArr;
  }

  lemma SigningHeaderParts(b: Block)
    ensures SigningHeader(b) ==
            Front(b) + (b.leader + (b.indexHash + (b.merkleRoot + (b.stakesHash + (b.queueHash + b.prevHash)))))
  {
    hide IntToByteArr;
  }

  lemma FrontBinds(a: Block, b: Block, width: nat)
    requires Shaped(a, width) && Shaped(b, width) && Front(a) == Front(b)
    ensures a.index == b.index && a.timestamp == b.timestamp && a.slot == b.slot
  {
    Trio(a.index, a.timestamp, a.slot, b.index, b.timestamp, b.slot);
  }

  /** The fields that both byte strings cover. */
  predicate SameSigned(a: Block, b: Block) {
    && a.index == b.index && a.timestamp == b.timestamp && a.slot == b.slot && a.leader == b.leader
    && a.indexHash == b.indexHash && a.merkleRoot == b.merkleRoot && a.stakesHash == b.stakesHash
    && a.queueHash == b.queueHash && a.prevHash == b.prevHash
  }

  /** The last four digests. */
  function Tail(b: Block): Bytes {
    b.merkleRoot + (b.stakesHash + (b.queueHash + b.prevHash))
  }

  lemma SplitFour(p: Bytes, q: Bytes, r: Bytes, x: Bytes, p': Bytes, q': Bytes, r': Bytes, x': Bytes)
    requires |p| == |p'| && |q| == |q'| && |r| == |r'| && p + (q + (r + x)) == p' + (q' + (r' + x'))
    ensures p == p' && q == q' && r == r' && x == x'
  {
    Split(p, q + (r + x), p', q' + (r' + x'));
    Split(q, r + x, q', r' + x');
    Split(r, x, r', x');
  }

  lemma TailBinds(a: Block, b: Block, width: nat)
    requires Shaped(a, width) && Shaped(b, width) && Tail(a) == Tail(b)
    ensures a.merkleRoot == b.merkleRoot && a.stakesHash == b.stakesHash
    ensures a.queueHash == b.queueHash && a.prevHash == b.prevHash
  {
    SplitFour(a.merkleRoot, a.stakesHash, a.queueHash, a.prevHash, b.merkleRoot, b.stakesHash, b.queueHash, b.prevHash);
  }

  /** The bytes that are hashed bind every header field but the claimed hash. */
  lemma HeaderBinds(a: Block, b: Block, width: nat)
    requires Shaped(a, width) && Shaped(b, width)
    ensures HeaderBytes(a) == HeaderBytes(b) <==>
              && SameSigned(a, b) && a.signature == b.signature
              && a.ledgerHash == b.ledgerHash && a.commitsHash == b.commitsHash
  {
    HeaderParts(a);
    HeaderParts(b);
    hide IntToByteArr;
    if HeaderBytes(a) == HeaderBytes(b) {
      hide HeaderBytes;
      SplitFour(Front(a), a.leader, a.signature, a.indexHash + (a.ledgerHash + (a.commitsHash + Tail(a))),
                Front(b), b.leader, b.signature, b.indexHash + (b.ledgerHash + (b.commitsHash + Tail(b))));
      SplitFour(a.indexHash, a.ledgerHash, a.commitsHash, Tail(a), b.indexHash, b.ledgerHash, b.commitsHash, Tail(b));
      FrontBinds(a, b, width);
      TailBinds(a, b, width);
    }
  }

  /** What a leader signs binds all of them but the signature, the ledger hash and the commitment hash. */
  lemma SigningHeaderBinds(a: Block, b: Block, width: nat)
    requires Shaped(a, width) && Shaped(b, width)
    ensures SigningHeader(a) == SigningHeader(b) <==> SameSigned(a, b)
  {
    SigningHeaderParts(a);
    SigningHeaderParts(b);
    hide IntToByteArr;
    if SigningHeader(a) == SigningHeader(b) {
      hide SigningHeader;
      SplitFour(Front(a), a.leader, a.indexHash, Tail(a), Front(b), b.leader, b.indexHash, Tail(b));
      FrontBinds(a, b, width);
      TailBinds(a, b, width);
    }
  }

  // ----- Down to the digest and the Merkle roots -----

  /** The block hash is the digest of the header bytes. */
  ghost predicate HashesHeaders(w: World) {
    forall b: Block :: w.blockHash(b) == w.env.sha(HeaderBytes(b))
  }

  ghost predicate AllShaped(steps: seq<Step>, width: nat) {
    forall i :: 0 <= i < |steps| ==> Shaped(steps[i].block, width)
  }

  /** At one height two different header strings have one digest, or two different lists of transactions one root. */
  ghost predicate ClashAt(w: World, a: Block, b: Block) {
    Clash(w.env.sha, HeaderBytes(a), HeaderBytes(b)) || Clash(w.merkle, a.txs, b.txs)
  }

  lemma BlockClashIsDigestClash(w: World, a: Block, b: Block, width: nat)
    requires HashesHeaders(w) && Shaped(a, width) && Shaped(b, width) && Clash(w.blockHash, a, b)
    requires a.hash == w.blockHash(a) && b.hash == w.blockHash(b)
    requires a.merkleRoot == w.merkle(a.txs) && b.merkleRoot == w.merkle(b.txs)
    ensures ClashAt(w, a, b)
  {
    hide HeaderBytes;
    hide Shaped;
    assert w.env.sha(HeaderBytes(a)) == w.env.sha(HeaderBytes(b));
    HeaderBinds(a, b, width);
    if HeaderBytes(a) == HeaderBytes(b) {
      assert a == b.(txs := a.txs);
    }
  }

  /** The same result for the block hash as it is computed. */
  lemma ChainFixesTransactions(w: World, states: seq<State>, steps: seq<Step>, states': seq<State>, steps': seq<Step>,
                               width: nat)
    requires ValidRun(w, states, steps) && ValidRun(w, states', steps') && |steps| == |steps'|
    requires HashesHeaders(w) && AllShaped(steps, width) && AllShaped(steps', width)
    requires states[|steps|].tip.hash == states'[|steps|].tip.hash
    ensures SameBlocks(steps, steps') || exists i :: 0 <= i < |steps| && ClashAt(w, steps[i].block, steps'[i].block)
  {
    hide Transition;
    hide Shaped;
    hide HashesHeaders;
    hide ClashAt;
    ChainIntegrity(w, states, steps, states', steps');
    hide SameBlocks;
    if BlocksClash(w, steps, steps') {
      var i :| 0 <= i < |steps| && Clash(w.blockHash, steps[i].block, steps'[i].block);
      hide Clash;
      assert Transition(w, states[i], steps[i], states[i + 1]) && Transition(w, states'[i], steps'[i], states'[i + 1]);
      Linked(w, states[i], steps[i], states[i + 1]);
      Linked(w, states'[i], steps'[i], states'[i + 1]);
      BlockClashIsDigestClash(w, steps[i].block, steps'[i].block, width);
    }
  }
}
