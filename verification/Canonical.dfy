/**
 * Canonical bytes: what is signed of a transaction (internal/blockchain/transaction.go:44-54, 550-599) and
 * what is hashed of the unbonding queue (internal/blockchain/stake.go:187-208).
 */
module Canonical {
  import opened Basics
  import opened Encoding
  import opened Transactions
  import opened Staking
  import opened Sorting

  // ----- Records -----

  /** By type, then priority, then value. */
  predicate RecordLess(a: Record, b: Record) {
    if a.typ != b.typ then Less(a.typ, b.typ)
    else if a.priority != b.priority then a.priority < b.priority
    else Less(a.value, b.value)
  }

  lemma RecordOrder()
    ensures TotalOrder(RecordLess)
  {
    hide Less;
    forall a: Record, b: Record
      ensures RecordLess(a, b) || RecordLess(b, a) || a == b
      ensures RecordLess(a, b) ==> !RecordLess(b, a) && a != b
    {
      LessTrichotomy(a.typ, b.typ);
      LessTrichotomy(a.value, b.value);
    }
    forall a: Record, b: Record, c: Record | RecordLess(a, b) && RecordLess(b, c) ensures RecordLess(a, c) {
      RecordTransitive(a, b, c);
    }
  }

  lemma RecordTransitive(a: Record, b: Record, c: Record)
    requires RecordLess(a, b) && RecordLess(b, c)
    ensures RecordLess(a, c)
  {
    hide Less;
    LessTrichotomy(a.typ, b.typ);
    LessTrichotomy(b.typ, c.typ);
    LessTrichotomy(a.typ, c.typ);
    if a.typ == c.typ {
      if a.typ == b.typ && a.priority == b.priority == c.priority {
        LessTransitive(a.value, b.value, c.value);
      }
    } else if a.typ != b.typ && b.typ != c.typ {
      LessTransitive(a.typ, b.typ, c.typ);
    }
  }

  /** a may stand before b: types come in increasing order, priorities within a type, values within a priority. */
  predicate Precedes(a: Record, b: Record) {
    && (a.typ == b.typ || Less(a.typ, b.typ))
    && (a.typ == b.typ ==> a.priority <= b.priority)
    && (a.typ == b.typ && a.priority == b.priority ==> a.value == b.value || Less(a.value, b.value))
  }

  ghost predicate Grouped(rs: seq<Record>) {
    forall i, j :: 0 <= i < j < |rs| ==> Precedes(rs[i], rs[j])
  }

  lemma SortedIsGrouped(rs: seq<Record>)
    ensures Sorted(RecordLess, rs) <==> Grouped(rs)
  {
    hide Less;
    forall i, j | 0 <= i < j < |rs| ensures !RecordLess(rs[j], rs[i]) <==> Precedes(rs[i], rs[j]) {
      LessTrichotomy(rs[i].typ, rs[j].typ);
      LessTrichotomy(rs[i].value, rs[j].value);
    }
    hide RecordLess;
    hide Precedes;
  }

  method SortRecords(records: array<Record>)
    modifies records
    ensures records[..] == Sort(RecordLess, old(records[..]))
    ensures Grouped(records[..]) && Permutation(records[..], old(records[..]))
  {
    ghost var s := records[..];
    SortSlice(records, RecordLess);
    RecordOrder();
    SortCorrect(RecordLess, s);
    SortedIsGrouped(records[..]);
  }

  /** Type, value and priority. */
  function RecordBytes(r: Record): Bytes {
    r.typ + r.value + IntToByteArr(r.priority)
  }

  function RecordsBytes(rs: seq<Record>): Bytes {
    if rs == [] then [] else RecordsBytes(rs[..|rs| - 1]) + RecordBytes(rs[|rs| - 1])
  }

  // ----- What is signed -----

  function TypeNumber(t: TxType): byte {
    match t
    case REGISTER => 0
    case UPDATE => 1
    case REVOKE => 2
    case RENEW => 3
    case LIST => 4
    case BUY => 5
    case TRANSFER => 6
    case DELIST => 7
    case FUND => 8
    case COMMIT => 9
    case REVEAL => 10
    case STAKE => 11
    case UNSTAKE => 12
    case EQUIVOCATION_PROOF => 13
  }

  function IfPresent(s: Bytes): Bytes {
    if |s| > 0 then Prefixed(s) else []
  }

  function Header(tx: Tx): Bytes {
    IntToByteArr(tx.tid) + [TypeNumber(tx.typ)] + IntToByteArr(tx.timestamp) + tx.domain
  }

  function Trailer(tx: Tx): Bytes {
    IntToByteArr(tx.cacheTTL) + IntToByteArr(tx.expirySlot) + IntToByteArr(tx.redeems) + tx.owner
    + IntToByteArr(tx.fee) + IntToByteArr(tx.nonce) + IntToByteArr(tx.listPrice) + tx.recipient
  }

  /** The fields that are left out when they are empty or zero. */
  function Additions(tx: Tx): Bytes {
    IfPresent(tx.commitHash) + IfPresent(tx.salt)
    + (if tx.stakeAmount > 0 then IntToByteArr(tx.stakeAmount) else [])
    + IfPresent(tx.equivA) + IfPresent(tx.equivB)
  }

  function SigningBytes(tx: Tx): Bytes {
    Header(tx) + RecordsBytes(Sort(RecordLess, tx.records)) + Trailer(tx) + Additions(tx)
  }

  /** The transaction's own records are not moved: a copy is sorted. */
  method SerializeForSigning(tx: Tx) returns (data: Bytes)
    ensures data == SigningBytes(tx)
  {
    hide RecordBytes;
    hide Additions;
    hide Trailer;
    hide Sort;
    data := Header(tx);
    var records := new Record[|tx.records|](i requires 0 <= i < |tx.records| => tx.records[i]);
    assert records[..] == tx.records;
    SortRecords(records);
    ghost var sorted := records[..];
    for i := 0 to records.Length
      invariant data == Header(tx) + RecordsBytes(sorted[..i])
    {
      assert sorted[..i + 1][..i] == sorted[..i];
      data := data + RecordBytes(records[i]);
    }
    assert sorted[..records.Length] == sorted;
    data := data + Trailer(tx) + Additions(tx);
  }

  /** Permuting the records of a transaction never changes what is signed. */
  lemma SigningIgnoresRecordOrder(tx: Tx, records: seq<Record>)
    requires Permutation(tx.records, records)
    ensures SigningBytes(tx.(records := records)) == SigningBytes(tx)
  {
    RecordOrder();
    SortIsCanonical(RecordLess, tx.records, records);
  }

  /** And the sort, though unstable, leaves no choice: any sorted permutation gives the same bytes. */
  lemma SigningIgnoresAlgorithm(tx: Tx, sorted: seq<Record>)
    requires Permutation(tx.records, sorted) && Sorted(RecordLess, sorted)
    ensures SigningBytes(tx) == Header(tx) + RecordsBytes(sorted) + Trailer(tx) + Additions(tx)
  {
    RecordOrder();
    SortIsCanonical(RecordLess, tx.records, sorted);
  }

  // ----- The queue hash -----

  /** The hexadecimal form that the queue is sorted by. */
  function HexDigit(d: int): byte
    requires 0 <= d < 16
  {
    if d < 10 then 48 + d else 87 + d
  }

  function Hex(k: Key): Bytes {
    if k == [] then [] else [HexDigit(k[0] / 16), HexDigit(k[0] % 16)] + Hex(k[1..])
  }

  /** Hexadecimal digits sort like the bytes they stand for. */
  lemma {:induction false} HexOrder(a: Key, b: Key)
    ensures Less(Hex(a), Hex(b)) <==> Less(a, b)
  {
    if a != [] && b != [] {
      HexOrder(a[1..], b[1..]);
      var x, y := Hex(a), Hex(b);
      assert x[1..][1..] == Hex(a[1..]) && y[1..][1..] == Hex(b[1..]);
      HexDigits(a[0], b[0]);
    }
  }

  lemma HexDigits(a: byte, b: byte)
    ensures a < b <==>
              || HexDigit(a / 16) < HexDigit(b / 16)
              || (HexDigit(a / 16) == HexDigit(b / 16) && HexDigit(a % 16) < HexDigit(b % 16))
    ensures a == b <==> HexDigit(a / 16) == HexDigit(b / 16) && HexDigit(a % 16) == HexDigit(b % 16)
  {
  }

  /** By maturity, then validator, then amount. */
  predicate EntryLess(a: Pending, b: Pending) {
    if a.matureSlot != b.matureSlot then a.matureSlot < b.matureSlot
    else if a.validator != b.validator then Less(Hex(a.validator), Hex(b.validator))
    else a.amount < b.amount
  }

  lemma EntryOrder()
    ensures TotalOrder(EntryLess)
  {
    hide Less;
    hide Hex;
    forall a: Pending, b: Pending
      ensures EntryLess(a, b) || EntryLess(b, a) || a == b
      ensures EntryLess(a, b) ==> !EntryLess(b, a) && a != b
    {
      HexOrder(a.validator, b.validator);
      HexOrder(b.validator, a.validator);
      LessTrichotomy(a.validator, b.validator);
    }
    forall a: Pending, b: Pending, c: Pending | EntryLess(a, b) && EntryLess(b, c) ensures EntryLess(a, c) {
      EntryTransitive(a, b, c);
    }
  }

  lemma EntryTransitive(a: Pending, b: Pending, c: Pending)
    requires EntryLess(a, b) && EntryLess(b, c)
    ensures EntryLess(a, c)
  {
    hide Less;
    hide Hex;
    HexOrder(a.validator, b.validator);
    HexOrder(b.validator, c.validator);
    HexOrder(a.validator, c.validator);
    LessTrichotomy(a.validator, b.validator);
    LessTrichotomy(b.validator, c.validator);
    LessTrichotomy(a.validator, c.validator);
    if Less(a.validator, b.validator) && Less(b.validator, c.validator) {
      LessTransitive(a.validator, b.validator, c.validator);
    }
  }

  /** a may stand before b: by maturity, then by the validator's key, then by amount. */
  predicate EntryPrecedes(a: Pending, b: Pending) {
    && a.matureSlot <= b.matureSlot
    && (a.matureSlot == b.matureSlot ==> a.validator == b.validator || Less(a.validator, b.validator))
    && (a.matureSlot == b.matureSlot && a.validator == b.validator ==> a.amount <= b.amount)
  }

  lemma SortedEntries(q: Queue)
    ensures Sorted(EntryLess, q) <==> forall i, j :: 0 <= i < j < |q| ==> EntryPrecedes(q[i], q[j])
  {
    hide Less;
    hide Hex;
    forall i, j | 0 <= i < j < |q| ensures !EntryLess(q[j], q[i]) <==> EntryPrecedes(q[i], q[j]) {
      HexOrder(q[j].validator, q[i].validator);
      LessTrichotomy(q[i].validator, q[j].validator);
    }
    hide EntryLess;
    hide EntryPrecedes;
  }

  function EntryBytes(e: Pending): Bytes {
    e.validator + IntToByteArr(e.amount) + IntToByteArr(e.matureSlot)
  }

  function EntriesBytes(q: Queue): Bytes {
    if q == [] then [] else EntriesBytes(q[..|q| - 1]) + EntryBytes(q[|q| - 1])
  }

  function QueueBytes(q: Queue): Bytes {
    EntriesBytes(Sort(EntryLess, q))
  }

  /** The input of the queue's digest; the queue itself keeps its order. */
  method HashInput(queue: UnstakeQueue) returns (data: Bytes)
    requires queue.Valid()
    ensures data == QueueBytes(queue.Contents())
  {
    hide EntryBytes;
    hide Sort;
    var sorted := new Pending[queue.len](i requires 0 <= i < queue.len && queue.len <= queue.buf.Length reads queue,
                                         queue.buf => queue.buf[i]);
    assert sorted[..] == queue.Contents();
    SortSlice(sorted, EntryLess);
    ghost var s := sorted[..];
    data := [];
    for i := 0 to sorted.Length
      invariant data == EntriesBytes(s[..i]) && sorted[..] == s
    {
      assert s[..i + 1][..i] == s[..i];
      data := data + EntryBytes(sorted[i]);
    }
    assert s[..sorted.Length] == s;
  }

  /** Permuting the queue never changes the input of its digest. */
  lemma QueueHashIgnoresOrder(q: Queue, r: Queue)
    requires Permutation(q, r)
    ensures QueueBytes(q) == QueueBytes(r)
  {
    EntryOrder();
    SortIsCanonical(EntryLess, q, r);
  }
}
