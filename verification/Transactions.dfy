/** The transaction record, and the outside world as parameters (internal/blockchain/transaction.go). */
module Transactions {
  import opened Basics
  import opened Config

  datatype TxType =
    | REGISTER | UPDATE | REVOKE | RENEW | LIST | BUY | TRANSFER | DELIST | FUND
    | COMMIT | REVEAL | STAKE | UNSTAKE | EQUIVOCATION_PROOF

  datatype Record = Record(typ: Bytes, value: Bytes, priority: i64)

  /** An empty `owner` is the nil OwnerKey of an auto-revocation. */
  datatype Tx = Tx(
    tid: i64,
    typ: TxType,
    timestamp: i64,
    domain: Name,
    records: seq<Record>,
    cacheTTL: i64,
    expirySlot: i64,
    redeems: i64,
    owner: Key,
    fee: u64,
    nonce: u64,
    listPrice: u64,
    recipient: Key,
    signature: Bytes,
    commitHash: Bytes,
    salt: Bytes,
    stakeAmount: u64,
    equivA: Bytes,
    equivB: Bytes)

  /** What validation reads from a decoded evidence block. */
  datatype Evidence = Evidence(index: i64, leader: Key, hash: Bytes)

  /** `fmt.Sprintf("%d:%s", index, leader)`: a decimal, a colon and hexadecimal digits, so injective. */
  datatype Offense = Offense(index: i64, leader: Key)

  /**
   * Everything the state machine takes from outside: cryptography, gob decoding and configuration.
   */
  datatype Env = Env(
    ecdsaOk: (Key, Tx) -> bool,
    sha: Bytes -> Bytes,
    decodeBlock: Bytes -> Option<Evidence>,
    evidenceSigned: Bytes -> bool,
    registries: seq<Key>,
    slotsPerDay: SlotsPerDay)

  predicate IsRegistryKey(env: Env, k: Key) {
    k in env.registries
  }

  /** A signature that is not 64 bytes long never verifies. */
  predicate VerifySignature(env: Env, k: Key, tx: Tx) {
    |tx.signature| == 64 && env.ecdsaOk(k, tx)
  }
}
