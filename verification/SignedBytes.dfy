/**
 * What canonical bytes bind.  Fields are concatenated, most of them without their lengths, so equal bytes mean equal
 * fields where the lengths are equal.
 */
module SignedBytes {
  import opened Basics
  import opened Encoding
  import opened Transactions
  import opened Staking
  import opened Sorting
  import opened Canonical

  /** Where the first parts are equally long, equal concatenations have equal parts. */
  lemma Split(a: Bytes, x: Bytes, b: Bytes, y: Bytes)
    requires |a| == |b| && a + x == b + y
    ensures a == b && x == y
  {
    assert a == (a + x)[..|a|] && b == (b + y)[..|b|];
    assert x == (a + x)[|a|..] && y == (b + y)[|b|..];
  }

  // ----- Records -----

  predicate SameWidth(a: Record, b: Record) {
    |a.typ| == |b.typ| && |a.value| == |b.value|
  }

  predicate SameWidths(rs: seq<Record>, ss: seq<Record>) {
    |rs| == |ss| && forall i :: 0 <= i < |rs| ==> SameWidth(rs[i], ss[i])
  }

  lemma RecordBinds(a: Record, b: Record)
    requires SameWidth(a, b) && RecordBytes(a) == RecordBytes(b)
    ensures a == b
  {
    Split(a.typ + a.value, IntToByteArr(a.priority), b.typ + b.value, IntToByteArr(b.priority));
    Split(a.typ, a.value, b.typ, b.value);
    IntToByteArrInjective(a.priority, b.priority);
  }

  lemma {:induction false} RecordsWidth(rs: seq<Record>, ss: seq<Record>)
    requires SameWidths(rs, ss)
    ensures |RecordsBytes(rs)| == |RecordsBytes(ss)|
  {
    if rs == [] {
    } else {
      var n := |rs| - 1;
      RecordsWidth(rs[..n], ss[..n]);
      assert SameWidth(rs[n], ss[n]);
    }
  }

  lemma {:induction false} RecordsBind(rs: seq<Record>, ss: seq<Record>)
    requires SameWidths(rs, ss) && RecordsBytes(rs) == RecordsBytes(ss)
    ensures rs == ss
  {
    hide RecordBytes;
    if rs == [] {
    } else {
      var n := |rs| - 1;
      RecordsWidth(rs[..n], ss[..n]);
      Split(RecordsBytes(rs[..n]), RecordBytes(rs[n]), RecordsBytes(ss[..n]), RecordBytes(ss[n]));
      RecordsBind(rs[..n], ss[..n]);
      RecordBinds(rs[n], ss[n]);
      assert rs == rs[..n] + [rs[n]] && ss == ss[..n] + [ss[n]];
    }
  }

  // ----- Transactions -----

  lemma TypesDiffer(a: TxType, b: TxType)
    requires TypeNumber(a) == TypeNumber(b)
    ensures a == b
  {
  }

  lemma HeadBinds(a: Tx, b: Tx)
    requires |a.domain| == |b.domain| && Header(a) == Header(b)
    ensures a.tid == b.tid && a.typ == b.typ && a.timestamp == b.timestamp && a.domain == b.domain
  {
    var ta, tb := IntToByteArr(a.timestamp), IntToByteArr(b.timestamp);
    var na, nb := [TypeNumber(a.typ)], [TypeNumber(b.typ)];
    var ia, ib := IntToByteArr(a.tid), IntToByteArr(b.tid);
    Split(ia + na + ta, a.domain, ib + nb + tb, b.domain);
    Split(ia + na, ta, ib + nb, tb);
    Split(ia, na, ib, nb);
    IntToByteArrInjective(a.tid, b.tid);
    IntToByteArrInjective(a.timestamp, b.timestamp);
    assert TypeNumber(a.typ) == na[0] == nb[0] == TypeNumber(b.typ);
    TypesDiffer(a.typ, b.typ);
  }

  lemma Trio(a: i64, b: i64, c: i64, a': i64, b': i64, c': i64)
    requires IntToByteArr(a) + IntToByteArr(b) + IntToByteArr(c) ==
             IntToByteArr(a') + IntToByteArr(b') + IntToByteArr(c')
    ensures a == a' && b == b' && c == c'
  {
    hide IntToByteArr;
    Split(IntToByteArr(a) + IntToByteArr(b), IntToByteArr(c), IntToByteArr(a') + IntToByteArr(b'), IntToByteArr(c'));
    Split(IntToByteArr(a), IntToByteArr(b), IntToByteArr(a'), IntToByteArr(b'));
    IntToByteArrInjective(a, a');
    IntToByteArrInjective(b, b');
    IntToByteArrInjective(c, c');
  }

  lemma UnsignedTrio(a: u64, b: u64, c: u64, a': u64, b': u64, c': u64)
    requires IntToByteArr(a) + IntToByteArr(b) + IntToByteArr(c) ==
             IntToByteArr(a') + IntToByteArr(b') + IntToByteArr(c')
    ensures a == a' && b == b' && c == c'
  {
    hide IntToByteArr;
    Split(IntToByteArr(a) + IntToByteArr(b), IntToByteArr(c), IntToByteArr(a') + IntToByteArr(b'), IntToByteArr(c'));
    Split(IntToByteArr(a), IntToByteArr(b), IntToByteArr(a'), IntToByteArr(b'));
    Uint64Injective(a, a');
    Uint64Injective(b, b');
    Uint64Injective(c, c');
  }

  /** The fields between the records and the optional ones. */
  function Slots(tx: Tx): Bytes {
    IntToByteArr(tx.cacheTTL) + IntToByteArr(tx.expirySlot) + IntToByteArr(tx.redeems)
  }

  function Amounts(tx: Tx): Bytes {
    IntToByteArr(tx.fee) + IntToByteArr(tx.nonce) + IntToByteArr(tx.listPrice)
  }

  lemma TrailerParts(tx: Tx)
    ensures Trailer(tx) == Slots(tx) + (tx.owner + (Amounts(tx) + tx.recipient))
  {
    hide IntToByteArr;
  }

  lemma TrailerBinds(a: Tx, b: Tx)
    requires |a.owner| == |b.owner| && |a.recipient| == |b.recipient| && Trailer(a) == Trailer(b)
    ensures a.cacheTTL == b.cacheTTL && a.expirySlot == b.expirySlot && a.redeems == b.redeems && a.owner == b.owner
    ensures a.fee == b.fee && a.nonce == b.nonce && a.listPrice == b.listPrice && a.recipient == b.recipient
  {
    hide IntToByteArr;
    TrailerParts(a);
    TrailerParts(b);
    hide Trailer;
    Split(Slots(a), a.owner + (Amounts(a) + a.recipient), Slots(b), b.owner + (Amounts(b) + b.recipient));
    Split(a.owner, Amounts(a) + a.recipient, b.owner, Amounts(b) + b.recipient);
    Split(Amounts(a), a.recipient, Amounts(b), b.recipient);
    Trio(a.cacheTTL, a.expirySlot, a.redeems, b.cacheTTL, b.expirySlot, b.redeems);
    UnsignedTrio(a.fee, a.nonce, a.listPrice, b.fee, b.nonce, b.listPrice);
  }

  /** A field that is present in both or in neither can be split off the front in one way. */
  lemma PresentUnique(a: Bytes, b: Bytes, x: Bytes, y: Bytes)
    requires Sized(a) && Sized(b) && (a == [] <==> b == []) && IfPresent(a) + x == IfPresent(b) + y
    ensures a == b && x == y
  {
    hide Prefixed;
    if a != [] {
      PrefixedUnique(a, b, x, y);
    } else {
      assert [] + x == x && [] + y == y;
    }
  }

  function IfPositive(x: u64): Bytes {
    if x > 0 then IntToByteArr(x) else []
  }

  lemma PositiveUnique(a: u64, b: u64, x: Bytes, y: Bytes)
    requires (a == 0 <==> b == 0) && IfPositive(a) + x == IfPositive(b) + y
    ensures a == b && x == y
  {
    hide IntToByteArr;
    if a > 0 {
      Split(IntToByteArr(a), x, IntToByteArr(b), y);
      Uint64Injective(a, b);
    } else {
      assert [] + x == x && [] + y == y;
    }
  }

  /** The optional fields of two transactions are present in both or in neither. */
  predicate SameAdditions(a: Tx, b: Tx) {
    && (a.commitHash == [] <==> b.commitHash == []) && (a.salt == [] <==> b.salt == [])
    && (a.stakeAmount == 0 <==> b.stakeAmount == 0)
    && (a.equivA == [] <==> b.equivA == []) && (a.equivB == [] <==> b.equivB == [])
  }

  predicate SizedAdditions(tx: Tx) {
    Sized(tx.commitHash) && Sized(tx.salt) && Sized(tx.equivA) && Sized(tx.equivB)
  }

  lemma AdditionParts(tx: Tx)
    ensures Additions(tx) ==
            IfPresent(tx.commitHash)
            + (IfPresent(tx.salt) + (IfPositive(tx.stakeAmount) + (IfPresent(tx.equivA) + (IfPresent(tx.equivB) + []))))
  {
    hide IfPresent;
    hide IntToByteArr;
  }

  lemma AdditionsBind(a: Tx, b: Tx)
    requires SameAdditions(a, b) && SizedAdditions(a) && SizedAdditions(b) && Additions(a) == Additions(b)
    ensures a.commitHash == b.commitHash && a.salt == b.salt && a.stakeAmount == b.stakeAmount
    ensures a.equivA == b.equivA && a.equivB == b.equivB
  {
    AdditionParts(a);
    AdditionParts(b);
    hide Additions;
    hide IfPresent;
    hide IfPositive;
    var eb, eb' := IfPresent(a.equivB) + [], IfPresent(b.equivB) + [];
    var ea, ea' := IfPresent(a.equivA) + eb, IfPresent(b.equivA) + eb';
    var s, s' := IfPositive(a.stakeAmount) + ea, IfPositive(b.stakeAmount) + ea';
    var t, t' := IfPresent(a.salt) + s, IfPresent(b.salt) + s';
    PresentUnique(a.commitHash, b.commitHash, t, t');
    PresentUnique(a.salt, b.salt, s, s');
    PositiveUnique(a.stakeAmount, b.stakeAmount, ea, ea');
    PresentUnique(a.equivA, b.equivA, eb, eb');
    PresentUnique(a.equivB, b.equivB, [], []);
  }

  /** The lengths that the bytes do not tell. */
  predicate SameShape(a: Tx, b: Tx) {
    && |a.domain| == |b.domain| && |a.owner| == |b.owner| && |a.recipient| == |b.recipient|
    && SameWidths(Sort(RecordLess, a.records), Sort(RecordLess, b.records))
    && SameAdditions(a, b)
  }

  /** Everything but the signature and the order of the records is the same. */
  ghost predicate SameContent(a: Tx, b: Tx) {
    && a.(records := [], signature := []) == b.(records := [], signature := [])
    && Permutation(a.records, b.records)
  }

  lemma SigningParts(tx: Tx)
    ensures SigningBytes(tx) ==
            Header(tx) + (RecordsBytes(Sort(RecordLess, tx.records)) + (Trailer(tx) + Additions(tx)))
  {
    hide Header;
    hide Trailer;
    hide Additions;
    hide RecordsBytes;
  }

  lemma SigningSplits(a: Tx, b: Tx)
    requires SameShape(a, b) && SigningBytes(a) == SigningBytes(b)
    ensures Header(a) == Header(b) && Sort(RecordLess, a.records) == Sort(RecordLess, b.records)
    ensures Trailer(a) == Trailer(b) && Additions(a) == Additions(b)
  {
    hide Additions;
    hide Sort;
    hide SameAdditions;
    var ra, rb := Sort(RecordLess, a.records), Sort(RecordLess, b.records);
    assert |Header(a)| == |Header(b)| && |Trailer(a)| == |Trailer(b)|;
    SigningParts(a);
    SigningParts(b);
    RecordsWidth(ra, rb);
    hide Header;
    hide Trailer;
    hide RecordsBytes;
    hide SigningBytes;
    hide SameWidths;
    Split(Header(a), RecordsBytes(ra) + (Trailer(a) + Additions(a)),
          Header(b), RecordsBytes(rb) + (Trailer(b) + Additions(b)));
    Split(RecordsBytes(ra), Trailer(a) + Additions(a), RecordsBytes(rb), Trailer(b) + Additions(b));
    Split(Trailer(a), Additions(a), Trailer(b), Additions(b));
    RecordsBind(ra, rb);
  }

  /**
   * Two transactions of one shape have the same signing bytes exactly when all their signed fields are equal and their
   * records are the same in some order.
   */
  lemma SigningBinds(a: Tx, b: Tx)
    requires SameShape(a, b) && SizedAdditions(a) && SizedAdditions(b)
    ensures SigningBytes(a) == SigningBytes(b) <==> SameContent(a, b)
  {
    hide Sort;
    hide SigningBytes;
    if SigningBytes(a) == SigningBytes(b) {
      SigningSplits(a, b);
      hide SameWidths;
      HeadBinds(a, b);
      TrailerBinds(a, b);
      AdditionsBind(a, b);
      SortPermutes(RecordLess, a.records);
      SortPermutes(RecordLess, b.records);
    }
    if SameContent(a, b) {
      SameContentSameBytes(a, b);
    }
  }

  lemma SameContentSameBytes(a: Tx, b: Tx)
    requires SameContent(a, b)
    ensures SigningBytes(a) == SigningBytes(b)
  {
    hide SigningBytes;
    SigningIgnoresRecordOrder(a, b.records);
    SignatureUnsigned(b, a.signature);
    assert a.(records := b.records) == b.(signature := a.signature);
  }

  lemma SignatureUnsigned(tx: Tx, signature: Bytes)
    ensures SigningBytes(tx.(signature := signature)) == SigningBytes(tx)
  {
    hide Sort;
  }

  // ----- Two transactions of different shape -----

  function Registration(r: Record): Tx {
    Tx(1, REVEAL, 0, [100], [r], 0, 100, 9, [2], 1, 0, 0, [5], [], [], [], 0, [], [])
  }

  /** "A" and "AAA::1", or "AAAA" and "::1". */
  function Short(): Record { Record([65], [65, 65, 65, 58, 58, 49], 0) }
  function Long(): Record { Record([65, 65, 65, 65], [58, 58, 49], 0) }

  lemma OneRecord(r: Record)
    ensures Sort(RecordLess, [r]) == [r] && RecordsBytes([r]) == RecordBytes(r)
  {
    var s: seq<Record> := [];
    assert [r][..0] == s;
  }

  /** The type and the value of a record run together: two different registrations with the same signing bytes. */
  lemma TypeAndValueRunTogether()
    ensures SigningBytes(Registration(Short())) == SigningBytes(Registration(Long()))
    ensures !SameContent(Registration(Short()), Registration(Long()))
    ensures !SameShape(Registration(Short()), Registration(Long()))
  {
    var a, b := Registration(Short()), Registration(Long());
    OneRecord(Short());
    OneRecord(Long());
    assert Short().typ + Short().value == Long().typ + Long().value;
    assert a.records[0] in multiset(a.records) && a.records[0] !in multiset(b.records);
    assert !SameWidth([Short()][0], [Long()][0]);
  }

  // ----- The unbonding queue -----

  /** Validator keys are all of one length. */
  predicate KeysOf(q: Queue, width: nat) {
    forall i :: 0 <= i < |q| ==> |q[i].validator| == width
  }

  lemma EntryBinds(a: Pending, b: Pending)
    requires |a.validator| == |b.validator| && EntryBytes(a) == EntryBytes(b)
    ensures a == b
  {
    hide IntToByteArr;
    var x, y := IntToByteArr(a.amount), IntToByteArr(b.amount);
    Split(a.validator + x, IntToByteArr(a.matureSlot), b.validator + y, IntToByteArr(b.matureSlot));
    Split(a.validator, x, b.validator, y);
    Uint64Injective(a.amount, b.amount);
    Uint64Injective(a.matureSlot, b.matureSlot);
  }

  /** The length of n entries with keys of this length. */
  function Length(n: nat, width: nat): nat {
    if n == 0 then 0 else Length(n - 1, width) + width + 16
  }

  lemma {:induction false} EntriesWidth(q: Queue, width: nat)
    requires KeysOf(q, width)
    ensures |EntriesBytes(q)| == Length(|q|, width)
  {
    hide IntToByteArr;
    if q == [] {
    } else {
      EntriesWidth(q[..|q| - 1], width);
    }
  }

  lemma {:induction false} LengthGrows(m: nat, n: nat, width: nat)
    requires m < n
    ensures Length(m, width) < Length(n, width)
  {
    if m + 1 == n {
    } else {
      LengthGrows(m, n - 1, width);
    }
  }

  lemma SameCount(m: nat, n: nat, width: nat)
    requires Length(m, width) == Length(n, width)
    ensures m == n
  {
    if m < n {
      LengthGrows(m, n, width);
    } else if n < m {
      LengthGrows(n, m, width);
    }
  }

  lemma {:induction false} EntriesBind(q: Queue, r: Queue, width: nat)
    requires KeysOf(q, width) && KeysOf(r, width) && |q| == |r| && EntriesBytes(q) == EntriesBytes(r)
    ensures q == r
  {
    hide EntryBytes;
    if q == [] {
    } else {
      var n := |q| - 1;
      EntriesWidth(q[..n], width);
      EntriesWidth(r[..n], width);
      Split(EntriesBytes(q[..n]), EntryBytes(q[n]), EntriesBytes(r[..n]), EntryBytes(r[n]));
      EntriesBind(q[..n], r[..n], width);
      EntryBinds(q[n], r[n]);
      assert q == q[..n] + [q[n]] && r == r[..n] + [r[n]];
    }
  }

  lemma SortedKeys(q: Queue, width: nat)
    requires KeysOf(q, width)
    ensures KeysOf(Sort(EntryLess, q), width)
  {
    var s := Sort(EntryLess, q);
    SortPermutes(EntryLess, q);
    forall i | 0 <= i < |s| ensures |s[i].validator| == width {
      assert s[i] in multiset(s);
      assert s[i] in q;
    }
  }

  /** With keys of one length the bytes that are hashed fix the queue, up to the order of its entries. */
  lemma QueueBytesBind(q: Queue, r: Queue, width: nat)
    requires KeysOf(q, width) && KeysOf(r, width)
    ensures QueueBytes(q) == QueueBytes(r) <==> Permutation(q, r)
  {
    hide Sort;
    hide EntriesBytes;
    var a, b := Sort(EntryLess, q), Sort(EntryLess, r);
    SortPermutes(EntryLess, q);
    SortPermutes(EntryLess, r);
    if QueueBytes(q) == QueueBytes(r) {
      SortedKeys(q, width);
      SortedKeys(r, width);
      EntriesWidth(a, width);
      EntriesWidth(b, width);
      SameCount(|a|, |b|, width);
      EntriesBind(a, b, width);
    }
    if Permutation(q, r) {
      QueueHashIgnoresOrder(q, r);
    }
  }
}
