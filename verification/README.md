# B-DNS: a verified model of the block state machine

B-DNS is a name service on a proof-of-stake chain. This project models, in Dafny, what a node does with a block: it
validates a list of transactions against running shadow maps, replays the list on a balance ledger, a stake map, an
unbonding queue, a commitment store and a domain index, and promotes the result. Beside that it models the AVL tree
under the index, Merkle proofs, the commit/reveal randomness, canonical bytes and Base58.

There are two layers.

* The value layer has a datatype for each kind of state and a function for each step. Lists are folded from the front,
  so "after every prefix" is a statement about `txs[..i]`. The theorems are about this layer.
* The object layer has the classes that the program updates in place (`BalanceLedger`, `StakeMap`, `UnstakeQueue`,
  `CommitStore`, `CommitOverlay`, `AvlNode`, `AVLTree`, `IndexManager`, `IndexOverlay`, `EvidenceSet`, `DrgState`,
  `Node`) and the loops. Each method's postcondition equates the object's abstract value with the value layer's function.

| files | what they hold |
|---|---|
| `Basics`, `Sums`, `Config`, `Transactions`, `Encoding`, `Sorting` | machine integers, constants, transactions, byte encodings, sorting |
| `Ledger`, `Staking`, `Commits`, `DomainIndex` | the parts of the state, with their classes where they need no tree |
| `AvlModel`, `AvlTree`, `IndexObjects` | the search tree as a value and as linked nodes; the index and its overlay over it |
| `Validation`, `Admission`, `Application`, `Blocks` | the gates, what they mean without running maps, the mutations, block transitions and runs |
| `ShadowLedger`, `ShadowStake`, `StakeTotals`, `ShadowMarket`, `Supply`, `WrapFree`, `AccountFlows`, `Replay` | shadow state against applied state, coins, nonces |
| `Equivocation`, `Unbonding` | what proofs show, what honest validators keep, when unstaked coins are gone |
| `DomainSafety`, `Periods`, `Acceptance`, `Ownership`, `NameRecords`, `Authority`, `ListedPrices`, `Redemption`, `Provenance`, `PendingCommits`, `EarlierRecords`, `LostCommits`, `IndexRefinement`, `AutoRevocations` | names, owners, redemptions, commitments and overlays |
| `ExampleChain`, `TwoProofs`, `SingleBlocks`, `ShortenedRegistration`, `LapsedListing` | concrete accepted and refused blocks |
| `BuyTransfers`, `ApplyObjects`, `Schedules`, `NodeObjects`, `HashChain` | BUY and the ledger hash; the two orders of applying a block; promotion; the chain of hashes |
| `Merkle`, `MerkleRoots`, `Beacon`, `BeaconOrigins`, `BeaconObjects`, `Canonical`, `SignedBytes`, `Base58` | the remaining components |

`dafny verify dfyconfig.toml` checks everything.

## What is taken from outside

ECDSA, SHA-256, gob decoding, the leader schedule and the configuration are function fields of `Env`, `World` and
`Crypto`. SHA-256 is not assumed to be injective, which no fixed-length digest is. Where a conclusion rests on it, either
the premise is that the digest separates the two strings at hand, or the conclusion names the place of the clash: two
different strings, hashed on one level of two proof paths or in evaluating two trees, that share a digest. 32-byte results
are a premise where lengths matter. `HashDomain` is assumed to separate the names that the chain mentions. The Bloom filter is an arbitrary superset of the inserted names. `GetTxByID` searches maps in iteration order, so it is a
relation (`Finds`): every theorem holds for every answer it may give. A public key and its hexadecimal form are one thing;
`Canonical.HexOrder` shows that sorting by either is the same.

Standing premise: results about balances and coins are for ledgers whose liquid total, or states whose coins, are below
2^64 before the block. A property that a list, a block or a run keeps is one that holds at its start: stakes at zero or at
least the threshold, an owner for every record. Runs start without pending commitments where the result is about the COMMITs
behind REVEALs. What more a result needs is in its row.

## Where the code and the expectation part

Each of these is kept as the code has it, with the exact condition proved.

* Two equivocation proofs against one validator in one block: the queue burn is booked in two shadow maps, so the sum can
  wrap. The running stakes are the applied stakes if and only if no slash of the block wraps (`ShadowStake.StakesAgreeIff`);
  one proof per offender is enough (`ShadowStake.OneProofFits`); `TwoProofs.SecondProofDiverges` is an input that wraps.
  An UNSTAKE after such a wrap queues coins that were never staked, and a STAKE after it can leave a stake below the
  threshold (`TwoProofs.UnstakeMints`, `TwoProofs.StakeBelowThreshold`).
* Auto-revocations skip the fee gates, yet their fees are credited. An accepted block conserves coins, up to matured and
  slashed ones, if and only if those fees come to 0 modulo 2^64 and every UNSTAKE is covered by the stake it is applied to
  (`Supply.ConservesIff`; where an UNSTAKE is not covered, for blocks that create less than 2^64 coins in all).
  `SingleBlocks.RevocationPaysLeader` is a block with a fee of 5, `SingleBlocks.FeesWrapToNothing` one with fees of 2^64:
  a block that conserves coins wraps nowhere if and only if those fees are zero (`WrapFree.NothingWrapsIff`). One proof
  per offender is enough for the second half (`Supply.FairConserves`). The stake threshold holds over a run if and only if the
  threshold checks hold of the applied stakes (`Supply.RunFloorIff`, as long as uncovered UNSTAKEs keep the coins below 2^64).
  Matured unstakes are swept off the queue and credited to nobody.
* The leader hashes the ledger after the BUY transfers, a validator compares before them. The hashes agree if and only if the
  block's BUYs cancel (`BuyTransfers.LeaderHashAcceptedIff`); one BUY never does (`BuyTransfers.OneBuyNeverCancels`,
  `SingleBlocks.HonestSaleRefused`).
* A commitment overlay loses a hash that is put back after being purged or consumed in the same block
  (`Commits.OverlayRefinesStore`, an if and only if; `Commits.ReaddIsLost`). Accepted blocks can do that: a COMMIT of an
  expired hash is hashed into the header and not stored (`LostCommits.CommitKeptIff`, `LostCommits.HashedIsStoredIff`, and the
  block of `LostCommits.CommitIsLost`).
* An index overlay answers reads about metadata that was set on a name without a record, and the flush drops it
  (`IndexRefinement.OverlayRefinesIndex`, an if and only if). In accepted blocks that never happens (`DomainSafety.RunSound`).
* An UPDATE replaces the record of a name together with its expiry slot, which the constructor leaves at 0
  (internal/blockchain/transaction.go:78-110). A REVEAL is measured against the current record only: every REVEAL
  that can be accepted comes after the purge slot of an earlier record if and only if the current one expires no earlier
  (`EarlierRecords.AfterPurgeIff`);
  `ShortenedRegistration.UpdateShortensRegistration` is a run where it does not. A market transaction after such an UPDATE
  counts for validation and is refused when applied (`ShadowMarket.MarketSimulationIff`, an if and only if;
  `ShortenedRegistration.TransferDiverges`).
* A REVEAL sets record and owner and leaves the list price (internal/blockchain/apply.go:142-146). A positive price is the
  current owner's own if and only if no REVEAL meets a positive price (`ListedPrices.OwnersPriceIff`);
  `LapsedListing.PriceOutlivesOwner` is a run in which a name is sold at the price of the owner before.
* Signing bytes are concatenated without the lengths of most fields. They fix a transaction among those of its shape
  (`SignedBytes.SigningBinds`, an if and only if); `SignedBytes.TypeAndValueRunTogether` is a pair of different shapes.
* The hash of an evidence block is the field as decoded, which nothing recomputes; `Equivocation.HonestNeverSlashed` states
  its premise on decoded blocks accordingly.
* Proof roots and header roots of a block agree if and only if it has 2^k (k at least 1) or 2^k - 1 (k at least 2)
  transactions, unless computing the two roots hashes two different strings to one digest (`MerkleRoots.RootsAgreeIff`).
* Base58 gives back a byte string if and only if it does not start with two zeros (`Base58.DecodeInvertsEncodeIff`).
* Nonces are 64-bit: no (owner, nonce) pair recurs until the counter has gone all the way round (`Replay.NoReplay`).
* The repository's own README gives a minimum stake of 1000 and a commit window of 100 slots; the code has 100 coins
  (internal/blockchain/config.go:15) and 100 blocks (internal/blockchain/apply.go:105-117). The minimum delay of 3 is described
  in blocks and compared in slots. The model follows the code.
* `GenerateAutoRevocations` leaves the signature empty, and `VerifySignature` refuses every signature that is not 64 bytes
  long. The block a leader builds always renews or revokes what is due (`AutoRevocations.HonestPurgesPresent`), and its list is
  accepted if and only if every due registration is renewed in it and the chosen transactions are accepted
  (`AutoRevocations.HonestAcceptedIff`).

## Model

| member | source | states |
|---|---|---|
| `Validation.ValidateTransactions` | internal/blockchain/block.go:413-1112 | the loop with its running maps accepts exactly the lists each of whose transactions passes every gate on the shadow state of the ones before it |
| `Validation.AcceptsPrefix` | internal/blockchain/block.go:427-1112 | every prefix of an accepted list is accepted and its next transaction passes the gates |
| `Validation.AcceptedAreSigned` | internal/blockchain/block.go:431-437 | everything in an accepted list is signed by its owner, or is a leader-signed REVOKE without owner inside a block |
| `Admission.RunAdmissible` | internal/blockchain/block.go:439-636 | without the running maps, by the state before the block and the transactions before it: over any run every market transaction is on a name before its expiry slot and every UPDATE, RENEW or REVOKE of an owner on one whose grace is not over, or the name was registered earlier in the block; a REVEAL is on a name that has no record or whose grace is over, and the only one of it in the block; an auto-revocation is on no name registered in the block; what is redeemed has the same name; a COMMIT is of a hash that is not pending and new to the block; fields that a type does not use are empty |
| `ShadowLedger.BalanceSimulation` | internal/blockchain/block.go:639-736 | for every accepted list the shadow balance of every account is at most the real one after phase A, and phase A takes out exactly the fees and the staked coins |
| `ShadowLedger.NoDebitFails` | internal/blockchain/apply.go:11-38 | in an accepted list no fee, FUND or STAKE debit fails, so the log-and-continue branches are never taken |
| `ShadowLedger.NonceSimulation` | internal/blockchain/block.go:691-702 | the shadow nonce is the ledger nonce after every list |
| `ShadowStake.StakeSimulation` | internal/blockchain/block.go:983-1098 | as long as no slash wraps, after every accepted list the shadow stakes are the applied stakes although validation reads the unswept queue, and bonded coins change by exactly what is staked and slashed |
| `ShadowStake.StakesAgreeIff` | internal/blockchain/block.go:1073-1096 | shadow and applied stakes agree after every prefix if and only if no slash of the list wraps |
| `ShadowStake.OneProofFits` | internal/blockchain/block.go:1073-1096 | with at most one proof per offender no slash wraps |
| `ShadowStake.WrapDiverges` | internal/blockchain/block.go:1078-1095 | a slash that wraps leaves a positive shadow stake where the applied stake is gone |
| `ShadowStake.UnstakesAreCovered` | internal/blockchain/apply.go:53-56 | every UNSTAKE of such a list enqueues exactly what it takes from the stake |
| `ShadowStake.SlashTakesAll` | internal/blockchain/apply.go:58-80 | a slash takes the whole stake and the whole queue of its offender, and the totals fall by exactly that |
| `ShadowStake.SlashKeepsOtherQueues` | internal/blockchain/apply.go:58-80 | a slash leaves what others have queued |
| `ShadowStake.FloorKept` | internal/blockchain/block.go:983-1040 | as long as no slash wraps, accepted lists keep every stake at zero or at least the threshold |
| `TwoProofs.SecondProofDiverges` | internal/blockchain/block.go:1073-1096 | an accepted block with two proofs against one validator after which the shadow stake is not the applied one |
| `TwoProofs.BlockIsAccepted` | internal/blockchain/block.go:266-407 | that block passes every check of block validation, so it is a step of a run |
| `TwoProofs.UnstakeMints` | internal/blockchain/apply.go:53-56 | with one more UNSTAKE the accepted block has 900 coins left of 1100 although only 300 were slashed: 100 queued coins were never staked |
| `TwoProofs.StakeBelowThreshold` | internal/blockchain/block.go:983-1009 | with one more STAKE of a single coin the accepted block leaves a stake of one |
| `Equivocation.ProofShowsConflict` | internal/blockchain/block.go:1036-1068 | an accepted proof holds two byte strings of at most two megabytes that decode to signed blocks of one validator for one height with different hashes |
| `Equivocation.HonestNeverSlashed` | internal/blockchain/block.go:1046-1068 | over any run: if no two byte strings decode to signed blocks of a validator for one height with different hashes, no block slashes that validator |
| `Equivocation.HonestValidatorKeepsStake` | internal/blockchain/apply.go:41-82 | over any run of states below 2^64 coins, the stake of such a validator is what it had and staked less what it unstaked, and its queue what it had and unstaked less what matured |
| `Equivocation.PunishedOnce` | internal/blockchain/block.go:1069-1073 | over any run there is at most one proof against a validator for one height |
| `Equivocation.OnlyBondedAccused` | internal/blockchain/block.go:1074-1083 | over any run whoever has nothing staked or queued before a block, and stakes nothing in it, is not accused in it |
| `Unbonding.UnbondingDelay` | internal/blockchain/apply.go:53-56 | over any run whose first state has a non-negative slot and queues nothing due later than 1000 slots after it: what a validator unstakes at slot t is all in the queue, unless the validator was slashed since, in every state whose tip is before t + 1000, and none of it in any state after that |
| `Equivocation.HonestUnbonding` | internal/blockchain/stake.go:130-143 | so for a validator that never equivocated the coins are there to the last one before t + 1000, and gone from then on |
| `StakeTotals.StakeRunTotals` | internal/blockchain/apply.go:41-82 | for every list, accepted or not, whose bonded, staked and uncovered coins together are below 2^64: bonded coins change by what is staked, less what is slashed, plus what UNSTAKEs ask beyond the stakes they are applied to |
| `StakeTotals.FloorIff` | internal/blockchain/block.go:983-1040 | for every list with that sum below 2^64 and no STAKE of 0, every stake is zero or at least the threshold after every prefix if and only if the threshold checks of STAKE and UNSTAKE hold of the applied stakes |
| `Supply.BlockAccounting` | internal/blockchain/block.go:299-401 | for every accepted block whose uncovered UNSTAKEs keep the coins below 2^64: coins afterwards, matured and slashed coins add up to coins before, fees on auto-revocations and unstaked coins that were not staked, short of a multiple of 2^64 lost by wrapping, and exactly when the sum is below 2^64 |
| `Supply.ConservesIff` | internal/blockchain/block.go:361-368 | an accepted block whose UNSTAKEs are covered, or which creates less than 2^64 coins in all, conserves coins up to matured and slashed ones if and only if its auto-revocation fees are 0 modulo 2^64 and every UNSTAKE is covered by the applied stake |
| `Supply.RunAccounting` | internal/blockchain/block.go:266-407 | the same sum over any run whose uncovered UNSTAKEs keep the coins below 2^64 |
| `Supply.RunConservesIff` | internal/blockchain/block.go:266-407 | over a run of blocks as in ConservesIff, every coin of the first state is accounted for after every block if and only if every block conserves |
| `Supply.SupplyNeverGrows` | internal/blockchain/block.go:266-407 | then the supply never exceeds its first value, and stays below 2^64 |
| `Supply.FairConserves` | internal/blockchain/block.go:1073-1096 | free auto-revocations and at most one proof per offender are enough for a block to conserve coins |
| `Supply.FairSupply` | internal/blockchain/block.go:266-407 | so over a run of such blocks the supply never exceeds its first value |
| `WrapFree.NothingWrapsIff` | internal/blockchain/block.go:299-401 | in an accepted block that conserves coins, the fee total is exact and all balances together, with the fees, and all staked and queued coins together, with the next STAKE, stay below 2^64 after every prefix of both phases if and only if auto-revocations carry no fee |
| `WrapFree.NothingWrapsInFairRun` | internal/blockchain/block.go:266-407 | so in no block of a run as in FairSupply does a balance, a stake, the queue or the fee total wrap |
| `Supply.RunFloorIff` | internal/blockchain/config.go:15-30 | over any run whose uncovered UNSTAKEs keep the coins below 2^64, each stake is zero or at least the threshold at every moment if and only if the threshold checks hold of the stakes that STAKEs and UNSTAKEs are applied to |
| `Supply.RunKeepsFloor` | internal/blockchain/config.go:15-30 | with one proof per offender every reachable state keeps the threshold |
| `Supply.TotalFeesExact` | internal/blockchain/block.go:361-368 | the 64-bit fee total credited to the leader is the exact sum as long as it fits |
| `Supply.PhaseBConserves` | internal/blockchain/apply.go:294-328 | the domain phase of any list conserves the liquid coins |
| `AccountFlows.BlockFlows` | internal/blockchain/block.go:357-376 | for every accepted block whose liquid coins and auto-revocation fees together are below 2^64 the balance of every account afterwards is, to the coin, what it was, less its fees, FUNDs and STAKEs, plus the FUNDs made out to it and the net of its BUYs and sales, plus all fees for the leader |
| `AccountFlows.OnlyOwnTransactionsSpend` | internal/blockchain/apply.go:11-38 | so an account loses coins in such a block only if the block holds a transaction of its own |
| `AccountFlows.SilentAccountsKeepCoins` | internal/blockchain/block.go:357-376 | and over a run of such blocks the balance of an account that sends nothing never falls |
| `AccountFlows.LeaderEarns` | internal/blockchain/block.go:645-652 | the fees of an accepted list are at least one coin for every transaction with an owner |
| `Replay.RunNoncesConsecutive` | internal/blockchain/block.go:691-702 | over any run an account's transactions carry consecutive nonces from its first one, and its ledger nonce grows by exactly their number |
| `Replay.NoReplay` | internal/blockchain/block.go:1100-1102 | no (owner, nonce) pair occurs twice in a run if and only if the account sent at most 2^64 transactions |
| `Redemption.SingleRedemption` | internal/blockchain/block.go:493-524 | over any run at most one effective UPDATE, RENEW, REVOKE or REVEAL redeems a given non-zero id |
| `Redemption.EffectIsSpent` | internal/index/index_overlay.go:112-121 | an effective redemption is in the spent set of the next state |
| `Provenance.PendingProvenance` | internal/blockchain/apply.go:105-117 | every pending commitment comes from a COMMIT of an earlier block and has not been revealed since |
| `Provenance.RevealProvenance` | internal/blockchain/block.go:884-958 | every REVEAL of a run is backed by a COMMIT of a strictly earlier block with the same hash, key and id, within the slot delay and the block window, and not before the purge slot of the name's record |
| `Provenance.RevealsOnce` | internal/blockchain/apply.go:119-148 | no COMMIT backs two REVEALs that take effect |
| `Provenance.OneRevealPerBlock` | internal/blockchain/block.go:884-958 | two REVEALs of one block never have the same hash |
| `PendingCommits.PendingKeptIff` | internal/blockchain/block.go:556-592 | in every accepted block a pending commitment that has not expired is kept unchanged if and only if no REVEAL of it takes effect, and an expired one is gone |
| `PendingCommits.PendingAreWellMade` | internal/blockchain/apply.go:105-117 | over any run every pending commitment is of a registry, to a 32-byte hash, and at most 100 blocks old |
| `EarlierRecords.AfterPurgeIff` | internal/blockchain/block.go:939-952 | over an index that records a name, every REVEAL of it that the gates accept, for any commitments, ledger and slot, has its COMMIT at or after the purge slot of e if and only if the current record expires no earlier than e, as long as both purge slots fit an int64 |
| `EarlierRecords.RevealAfterEarlierRecords` | internal/blockchain/block.go:939-952 | over any run the COMMIT behind a REVEAL is not before the purge slot of any expiry that the name's current record outlasts, as long as the purge slot of that record fits an int64 |
| `ShortenedRegistration.UpdateShortensRegistration` | internal/blockchain/apply.go:185-199 | a valid run of a COMMIT, an UPDATE and a REVEAL that takes effect at slot 61, before slot 1030 at which the name's record was to be purged |
| `Encoding.CommitPreimageInjective` | internal/blockchain/transaction.go:273-281 | the length-prefixed preimage fixes domain, salt and key |
| `Encoding.CommitHashBinds` | internal/blockchain/transaction.go:273-281 | where the digest separates the two preimages, commit hashes are equal if and only if domain, salt and key are |
| `Encoding.IntToByteArrDecoded` | internal/blockchain/utils.go:15-23 | eight bytes, most significant first, read back as the number modulo 2^64 |
| `Ownership.OwnerChange` | internal/blockchain/apply.go:85-350 | one transaction changes the owner of a recorded name only as its owner's TRANSFER, as a BUY that moves exactly the list price, at most the buyer's maximum, from buyer to owner, or as a REVEAL after purge |
| `Ownership.RunOwnership` | internal/blockchain/apply.go:119-350 | over any run, whoever loses a name in a block loses it to such a transaction of that block |
| `Ownership.RunOwned` | internal/blockchain/apply.go:294-350 | in every reachable state every record has a non-empty owner, so a BUY never pays the empty key |
| `ListedPrices.OwnersPriceIff` | internal/blockchain/apply.go:119-350 | over any run that starts without a price for a name: before and after every transaction a positive price comes from an effective LIST by the current owner, since when the name was neither listed, delisted, sold, given away nor registered anew, if and only if no effective REVEAL meets a positive price |
| `ListedPrices.RevealKeepsPrice` | internal/blockchain/apply.go:142-146 | after an effective REVEAL that meets a positive price the price stands and no LIST of its owner is behind it |
| `ListedPrices.BuyPaysLister` | internal/blockchain/apply.go:294-328 | without such a REVEAL every effective BUY of a run pays a seller who listed the name, exactly the price it was listed for |
| `LapsedListing.PriceOutlivesOwner` | internal/blockchain/apply.go:142-146 | for every digest that gives 32 bytes, a valid run of a LIST, a COMMIT and a block with a REVEAL and a BUY, both effective, in which the new owner is paid the price that the last one had listed |
| `DomainSafety.StepEffect` | internal/blockchain/apply.go:85-350 | a refused transaction changes nothing; an effective one changes record, owner, price and spent set exactly as its type says, and no other name |
| `DomainSafety.RunSound` | internal/blockchain/apply.go:85-350 | the domain phase of any list keeps metadata on recorded names only, removes no record and forgets no spent id |
| `DomainSafety.CommitsTracked` | internal/blockchain/block.go:556-592 | in an accepted list the commitment overlay changes only at hashes that validation has seen |
| `DomainSafety.TargetIsRecorded` | internal/blockchain/block.go:594-613 | every market, UPDATE, RENEW or REVOKE transaction of an accepted list finds a record under its name when it is applied |
| `DomainSafety.AcceptedNeverCrashes` | internal/blockchain/apply.go:210-350 | in an accepted list no LIST, DELIST, BUY or TRANSFER dereferences a missing record |
| `Periods.PhaseInSlots` | internal/blockchain/config.go:55-69 | a name is active before its expiry slot and purged from thirty days of slots after it on, at once when that sum leaves int64 |
| `Periods.TakesEffectIff` | internal/blockchain/apply.go:85-350 | each type of transaction takes effect if and only if, in plain slots: LIST, DELIST, BUY, TRANSFER and UPDATE before the expiry slot, RENEW before the end of grace, REVEAL after it, auto-REVOKE from the expiry slot on, with the owner, the redeemed transaction, the price and the balance that the type asks for |
| `Periods.TookEffectIff` | internal/blockchain/apply.go:85-350 | the same for every transaction of a run |
| `Acceptance.AcceptedTakesEffectIff` | internal/blockchain/block.go:738-1008 | as long as the running owners and prices are those of the overlay, the next transaction of an accepted list takes effect if and only if its name is in the period that its type needs and, for UPDATE, RENEW and REVOKE, GetTxByID finds what it redeems under its own name: owner, price, balance, commitment and record never fail it |
| `Acceptance.AcceptedBlockTakesEffectIff` | internal/blockchain/apply.go:85-350 | so in every accepted block whose liquid coins and auto-revocation fees together are below 2^64 all transactions take effect if and only if all are in time in this sense |
| `NameRecords.RenewKeepsRecords` | internal/blockchain/apply.go:274-291 | an effective RENEW leaves the records in force and installs its own id and expiry slot; its own records count only where there were none |
| `NameRecords.RunRecords` | internal/blockchain/apply.go:119-282 | over any run the records of a name that has some change in a block only by an effective transaction that puts its own in their place: an UPDATE by the owner before the expiry slot, a REVOKE by the owner or, once expired, by the leader, or a REVEAL after the grace period |
| `NameRecords.RunRenewals` | internal/blockchain/apply.go:197-205 | every effective RENEW of a run is a registry's and keeps the records in force |
| `Authority.RunPermitted` | internal/blockchain/block.go:556-680 | over any run only registries send COMMIT, REVEAL, RENEW and FUND, only auto-revocations have no owner, everything else pays at least one coin, and everything carries a 64-byte signature of its owner or, without one, of the block's leader |
| `Authority.EffectsOfOwner` | internal/blockchain/block.go:526-537 | in an accepted block an effective LIST puts a name up for sale, a DELIST, BUY or TRANSFER takes it off, and an UPDATE leaves its own, non-empty records |
| `Authority.NamesComeFromRegistries` | internal/blockchain/apply.go:119-148 | over any run a name enters the index only by an effective REVEAL of a registry, made out to its first owner |
| `Authority.FundsComeFromRegistries` | internal/blockchain/block.go:653-683 | an account receives a FUND in an accepted list only from a registry |
| `ShadowMarket.MarketSimulationIff` | internal/blockchain/block.go:704-790 | after every prefix of an accepted list whose buyers can pay for all their BUYs at the running prices the shadow owner and price of every name are the overlay's if and only if every market transaction or REVEAL that changes them meets a record in the phase it needs |
| `ShadowMarket.BlockMarketIff` | internal/blockchain/apply.go:210-350 | the same for every accepted block whose liquid coins and auto-revocation fees together are below 2^64 |
| `ShadowMarket.FundsKept` | internal/blockchain/block.go:704-790 | after phase A every account still holds its shadow balance and the price of all its BUYs |
| `ShortenedRegistration.TransferDiverges` | internal/blockchain/block.go:704-790 | an accepted block in which an UPDATE without expiry slot makes a later TRANSFER count for validation and be refused when applied |
| `BuyTransfers.LedgerAfter` | internal/blockchain/apply.go:294-328 | the domain phase changes each balance by what its BUYs net, conserves coins, keeps nonces and opens accounts for sellers only |
| `BuyTransfers.SameLedgerIff` | internal/blockchain/block.go:369-376 | the ledger is the same before and after the domain phase if and only if its BUYs cancel |
| `BuyTransfers.LeaderHashAcceptedIff` | internal/network/node_leader.go:199-212 | the ledger hash of an honest leader is the one validators expect if and only if the block's BUYs cancel |
| `BuyTransfers.OneBuyNeverCancels` | internal/blockchain/apply.go:294-328 | a block with exactly one effective BUY never cancels |
| `BuyTransfers.NoBuysCancel` | internal/blockchain/apply.go:294-328 | a block without effective BUY always cancels |
| `SingleBlocks.HonestSaleRefused` | internal/blockchain/block.go:369-376 | a block with one effective BUY that passes every gate, carries the ledger hash its leader computes, and is refused |
| `SingleBlocks.RevocationPaysLeader` | internal/blockchain/block.go:616-632 | an accepted block whose auto-revocation carries a fee of 5, after which there are 105 coins instead of 100 |
| `SingleBlocks.FeesWrapToNothing` | internal/blockchain/block.go:362-368 | an accepted block with two auto-revocation fees of 2^63, after which there are as many coins as before: it conserves coins and its fee total wraps |
| `AutoRevocations.GenerateAutoRevocations` | internal/network/node_leader.go:253-303 | the loops and the sort give one unsigned revocation for each registration that is due and not renewed, their names in increasing order |
| `AutoRevocations.HonestPurgesPresent` | internal/network/node_leader.go:147-150 | whatever is due and whatever was chosen, the leader's list renews or revokes everything due |
| `AutoRevocations.HonestAcceptedIff` | internal/network/node_leader.go:147-150 | the leader's list is accepted if and only if there are no revocations in it, that is, everything due is renewed, and the chosen transactions are accepted |
| `AutoRevocations.HonestBlock` | internal/network/node_leader.go:147-150 | so an accepted block of an honest leader renews everything due |
| `Blocks.InterleavingIsSequential` | internal/network/node_leader.go:191-195 | the leader's interleaved pass gives the ledger of a ledger pass and the stakes of a stake pass |
| `ApplyObjects.ApplyLedgerMutations` | internal/blockchain/apply.go:11-38 | the ledger object becomes the specified ledger, failed debits included |
| `ApplyObjects.ApplyStakeMutations` | internal/blockchain/apply.go:41-82 | stake map, queue and evidence objects become the specified state |
| `ApplyObjects.ApplyDomainMutations` | internal/blockchain/apply.go:85-250 | ledger, index overlay and commitment overlay become the specified state for an answer that GetTxByID may give, with the specified outcome |
| `Schedules.LeaderApply` | internal/network/node_leader.go:185-217 | the leader's order on objects ends in the ledger, stake and domain runs of the block |
| `Schedules.ValidatorApply` | internal/blockchain/block.go:357-391 | the validator's order on objects ends in the same runs, or stops at a crash |
| `Schedules.SchedulesAgree` | internal/blockchain/block.go:357-391 | from equal states, for any list and whatever GetTxByID answers, both orders end in the same ledger, stakes, queue, evidence, commitments and index |
| `Schedules.LeaderAndValidatorAgree` | internal/blockchain/block.go:357-391 | so do a leader and a validator with different map orders, for lists that look up no id carried by two stored transactions |
| `Schedules.ReplicasAgree` | internal/index/index_overlay.go:103-110 | two nodes look up the same transactions whatever their map order, unless an id is ambiguous |
| `HashChain.RunIsChained` | internal/blockchain/block.go:271-297 | over any run heights are consecutive and slots increase, every block names the hash of the one before it, carries the root of its transactions and is signed by the leader of its slot |
| `HashChain.ChainIntegrity` | internal/blockchain/block.go:279-281 | two runs of equal length that end in one tip hash, from whatever states, consist of the same blocks, unless two different blocks at one height have one hash |
| `HashChain.ChainFixesTransactions` | internal/blockchain/block.go:173-206 | with the block hash as it is computed, 64-byte signatures, 32-byte digests and leader keys of one length: the same, unless at one height two different header strings have one digest or two different lists one Merkle root |
| `HashChain.HeaderBinds` | internal/blockchain/block.go:173-195 | headers of that shape have the same hashed bytes if and only if all fields but the claimed hash are equal |
| `HashChain.SigningHeaderBinds` | internal/blockchain/block.go:118-135 | and the same signed bytes if and only if all fields but signature, ledger hash, commitment hash and claimed hash are equal |
| `HashChain.SameBlocksSameStakes` | internal/blockchain/block.go:384-387 | runs of the same blocks from one state have the same stakes, queue and punished offenses throughout |
| `HashChain.SameBlockSameState` | internal/blockchain/block.go:369-396 | two nodes that accept one block, from whatever states, hold the same stakes, queue and index afterwards and had the same ledger before the BUYs and the same hashed commitments, unless the digest in the header clashes |
| `NodeObjects.Node.AddBlock` | internal/network/node_helper.go:27-66 | a block that fails the header, purge, gate or hash checks leaves the node as it was, before or after staging; any other is a transition of its state, and never crashes |
| `NodeObjects.Node.CheckPurges` | internal/blockchain/block.go:317-347 | the loops accept exactly when every registration due is renewed or revoked |
| `NodeObjects.Node.Promote` | internal/network/node_helper.go:52-66 | promotion installs the staging state, and the double commit of the index overlay acts as one |
| `IndexRefinement.OverlayRefinesIndex` | internal/index/index_overlay.go:39-121 | for every operation sequence, overlay reads equal reads of the directly updated index, and reads of the committed one, after every operation if and only if no operation sets an owner or a positive price on a name without record |
| `IndexRefinement.CommitIsDirect` | internal/index/index_overlay.go:185-200 | then committing gives the directly updated index |
| `DomainIndex.CommitTwice` | internal/index/index_overlay.go:185-200 | committing a second time changes nothing |
| `DomainIndex.AddedDirect` | internal/index/index_overlay.go:46-57 | adding to the overlay and committing is committing and adding directly |
| `DomainIndex.OwnerSetDirect` | internal/index/index_overlay.go:59-69 | so is setting an owner on a recorded name |
| `DomainIndex.PriceSetDirect` | internal/index/index_overlay.go:78-87 | so is setting a price on a recorded name |
| `DomainIndex.MarkedDirect` | internal/index/index_overlay.go:112-114 | so is marking an id as spent |
| `IndexObjects.IndexOverlay.Commit` | internal/index/index_overlay.go:185-200 | flushing the journal into the tree, in any map order, gives the committed index |
| `IndexObjects.IndexOverlay.GetDomain` | internal/index/index_overlay.go:39-44 | the journal answers before the index |
| `IndexObjects.IndexOverlay.GetTxByID` | internal/index/index_overlay.go:103-110 | the answer is a journal entry with the id, else an entry of the index, else nothing |
| `IndexObjects.IndexManager.Add` | internal/index/index_manager.go:86-104 | adding under a name replaces its transaction and keeps owner, price and every other name |
| `IndexObjects.IndexManager.GetDomain` | internal/index/index_manager.go:43-55 | the filter's false positives never change the answer |
| `IndexObjects.IndexManager.SetOwner` | internal/index/index_manager.go:188-193 | sets the owner of a recorded name and nothing else |
| `IndexObjects.IndexManager.SetListPrice` | internal/index/index_manager.go:181-186 | sets the price of a recorded name and nothing else |
| `AvlModel.AddCorrect` | internal/index/avl.go:54-69 | add keeps order, exact heights and balance within 1, and stores exactly the new value, keeping the metadata of an existing key |
| `AvlModel.RemoveCorrect` | internal/index/avl.go:71-103 | remove does too, and every surviving key keeps its own value and metadata, two-child deletion included |
| `AvlModel.SearchIsLookup` | internal/index/avl.go:105-116 | search is lookup in the abstract map |
| `AvlModel.TreeRunIsMapRun` | internal/index/avl.go:54-190 | after any sequence of adds and removes the tree is balanced, equals the map they leave, and searches like it |
| `AvlModel.HeightIsLogarithmic` | internal/index/avl.go:128-163 | 2^height is at most (size + 1)^2 |
| `AvlModel.SizeAtLeastFib` | internal/index/avl.go:140-163 | a balanced tree of height h has at least Fib(h + 2) - 1 nodes |
| `AvlModel.InOrderSorted` | internal/index/avl.go:224-237 | the traversal is strictly increasing |
| `AvlModel.InOrderComplete` | internal/index/avl.go:224-237 | the traversal lists exactly the content |
| `AvlModel.FindByTidFinds` | internal/index/avl.go:243-254 | the search by id finds a transaction with the id if and only if there is one |
| `AvlTree.AvlNode.RotateLeft` | internal/index/avl.go:165-173 | the linked nodes are rewired in place into the rotated tree |
| `AvlTree.AvlNode.RotateRight` | internal/index/avl.go:175-183 | the mirror image |
| `AvlTree.AvlNode.Rebalance` | internal/index/avl.go:140-163 | the in-place rotations give the rebalanced tree |
| `AvlTree.AvlNode.AddTo` | internal/index/avl.go:54-69 | in-place insertion gives the value-level tree |
| `AvlTree.AvlNode.RemoveFrom` | internal/index/avl.go:71-103 | in-place removal gives the value-level tree |
| `AvlTree.AVLTree.Search` | internal/index/avl.go:29-31 | the object's search is the value-level search |
| `Commits.OverlayRefinesStore` | internal/blockchain/commit.go:129-227 | overlay reads equal direct reads after every operation of a block if and only if it never puts back a purged or consumed hash |
| `Commits.ReaddIsLost` | internal/blockchain/commit.go:139-161 | putting one back makes the very next read wrong |
| `Commits.FlushIsDirect` | internal/blockchain/commit.go:183-227 | otherwise the flushed store and the hashed records are those of the directly updated store |
| `LostCommits.CommitKeptIff` | internal/blockchain/apply.go:105-117 | for every accepted block: the record of a COMMIT is pending afterwards if and only if its hash was not expired before, at the block's height |
| `LostCommits.HashedIsStoredIff` | internal/blockchain/commit.go:183-227 | for every accepted block: the records hashed into the header are those of the store it leaves if and only if no COMMIT puts back an expired hash |
| `LostCommits.CommitIsLost` | internal/blockchain/commit.go:183-227 | an accepted block whose COMMIT is in the hashed records and not in the store |
| `Commits.CommitOverlay.Commit` | internal/blockchain/commit.go:214-227 | the flush gives the specified store in any map order |
| `Commits.CommitOverlay.PurgeExpired` | internal/blockchain/commit.go:163-181 | the purge loops give the specified overlay and return the number of records purged |
| `Commits.CommitStore.PurgeExpired` | internal/blockchain/commit.go:54-66 | exactly the expired records go, and the count is their number |
| `Staking.BurnedExactly` | internal/blockchain/stake.go:156-184 | burning takes exactly the smaller of the amount and what the validator has queued, off the validator and off the whole queue |
| `Staking.BurnedIsFifo` | internal/blockchain/stake.go:156-184 | oldest first, in closed form: an entry keeps what the coins up to it exceed the amount, at most what it had |
| `Staking.BurnKeepsOtherEntries` | internal/blockchain/stake.go:156-184 | after compaction the entries of everybody else, in order, are the non-zero ones from before |
| `Staking.UnstakeQueue.BurnPending` | internal/blockchain/stake.go:156-184 | drawing down and compacting into the queue's own backing array gives the burned queue and returns the burned amount |
| `Staking.UnstakeQueue.CompactInPlace` | internal/blockchain/stake.go:175-182 | compaction into the same array keeps the non-zero entries in order |
| `Staking.UnstakeQueue.SweepMature` | internal/blockchain/stake.go:130-143 | the sweep returns the mature entries and keeps the others, both in order |
| `Staking.SweepSplits` | internal/blockchain/stake.go:130-143 | every entry is on one of the two sides of the sweep: nothing lost, nothing duplicated |
| `Staking.SweepSides` | internal/blockchain/stake.go:130-143 | each side holds exactly the entries that are mature, or not, at the slot |
| `Staking.SweepTotals` | internal/blockchain/stake.go:130-143 | the two sides add up to the queue |
| `Staking.PendingStakeExact` | internal/blockchain/stake.go:145-153 | the 64-bit running total is the exact sum as long as it fits |
| `Staking.UnstakeQueue.GetPendingStake` | internal/blockchain/stake.go:145-153 | the loop computes that total |
| `Staking.StakeMap.ReduceStake` | internal/blockchain/stake.go:37-51 | reducing to zero or below removes the entry |
| `Ledger.BalanceLedger.Debit` | internal/blockchain/balance_ledger.go:49-59 | fails exactly when the balance is too small, and then changes nothing |
| `Ledger.LiquidDebited` | internal/blockchain/balance_ledger.go:49-59 | a debit takes exactly its amount off the total, or nothing when it fails |
| `Ledger.LiquidCredited` | internal/blockchain/balance_ledger.go:61-66 | a credit adds exactly its amount as long as the total stays below 2^64 |
| `Config.ComputeSlashAmount` | internal/blockchain/config.go:22-33 | at 100 percent the slash is the whole amount, overflow branch included |
| `Merkle.GenerateMerkleProof` | internal/blockchain/block.go:1150-1213 | for every transaction of every non-empty block the proof verifies, names the transaction's hash, has the padded tree's root, and its directions spell the position |
| `Merkle.VerifyMerkleProof` | internal/blockchain/block.go:1216-1238 | accepts exactly the proofs whose path leads to their root; no proof is refused and a short direction list panics |
| `Merkle.NewMerkleTree` | internal/blockchain/merkle_tree.go:20-48 | computes the root of the tree that pads its leaves and drops odd nodes above them |
| `Merkle.SameLeaf` | internal/blockchain/block.go:1216-1238 | two verifying proofs of 32-byte hashes with equal directions and root have the same leaf and path, unless on some level the two strings they hash differ and share a digest |
| `MerkleRoots.RootsAgree` | internal/blockchain/merkle_tree.go:25-43 | for 2^k (k at least 1) or 2^k - 1 (k at least 2) transactions the two roots are equal whatever the hash |
| `MerkleRoots.RootsAgreeIff` | internal/blockchain/block.go:1172-1178 | for every block without 64-byte encodings the roots are equal if and only if it has such a number of transactions, unless evaluating its two trees hashes two different strings to one digest |
| `MerkleRoots.OnePosition` | internal/blockchain/block.go:1180-1191 | the directions of a proof belong to one transaction only |
| `MerkleRoots.LightClientAccepts` | internal/network/node_helper.go:305-310 | with the header's root put in, the generated proof verifies if and only if the block has such a number of transactions, with the same exception |
| `MerkleRoots.LightClientSound` | internal/network/node_helper.go:305-310 | what a light client accepts at a transaction's position in such a block is that transaction's hash, unless its path and the generated one hash two different strings to one digest on some level |
| `Beacon.RunHolds` | internal/network/node.go:325-439 | after any run that keeps the epoch, a slot holds exactly what its first valid commitment and first valid reveal determine, whichever came first |
| `Beacon.ConvergesIff` | internal/network/node.go:340-439 | a slot's random value is independent of order and repetition if and only if all pairs of valid commitments and reveals amount to the same |
| `Beacon.NodesConverge` | internal/network/node.go:340-439 | with one commitment and one reveal per sender, any two nodes given the same messages in any order with any repeats hold the same randoms for the epoch, clean-ups of older epochs included |
| `Beacon.CommitmentBinds` | internal/consensus/drg.go:47-57 | where the digest separates two secrets, a commitment opens for one of equally long keys and to one secret at most |
| `BeaconOrigins.RandomsAreOpened` | internal/network/node.go:340-439 | in every run each random was committed to and opened by its own sender: a signed commitment and a signed reveal were delivered, both secrets are 32 bytes long, and the commitment is the digest of the sender's key and the secrets |
| `BeaconObjects.DrgState.CommitmentHandler` | internal/network/node.go:340-386 | the handler performs the specified step and fails exactly on new invalid messages |
| `BeaconObjects.DrgState.RevealHandler` | internal/network/node.go:389-439 | the handler performs the specified step and fails exactly on new messages that are invalid or do not open the stored commitment |
| `BeaconObjects.DrgState.PruneDRGEpochState` | internal/network/node.go:466-497 | the deletion loops keep exactly the entries of recent epochs, the node's own secrets included |
| `BeaconObjects.XorRandoms` | internal/consensus/pos.go:72-83 | the XOR loop gives the same seed in every map order, and each bit of it is the parity of the senders that set it |
| `BeaconObjects.SeedRemove` | internal/consensus/pos.go:72-83 | any sender may come last in the XOR |
| `BeaconObjects.SeedBits` | internal/consensus/pos.go:72-83 | a bit of the seed is set if and only if an odd number of senders hold a 32-byte value with that bit set |
| `BeaconObjects.SeedDependsOnEverySender` | internal/consensus/pos.go:72-83 | another 32-byte value of any one sender gives another seed |
| `BeaconObjects.VerifyAndCollectReveals` | internal/consensus/drg.go:60-80 | collects exactly the reveals that open their commitment |
| `BeaconObjects.BatchMatchesHandlers` | internal/consensus/drg.go:60-80 | the handlers keep for an epoch what collecting its first messages in one batch gives |
| `Sorting.SortedUnique` | internal/blockchain/transaction.go:44-54 | under a total order two sorted permutations of the same elements are equal |
| `Sorting.SortSlice` | internal/blockchain/transaction.go:45-53 | in-place sorting gives the canonical sequence |
| `Canonical.RecordOrder` | internal/blockchain/transaction.go:45-53 | type, priority and value order records totally |
| `Canonical.EntryOrder` | internal/blockchain/stake.go:190-198 | maturity, validator and amount order queue entries totally |
| `Canonical.SortRecords` | internal/blockchain/transaction.go:44-54 | leaves a permutation grouped by type, priority and value |
| `Canonical.SortedIsGrouped` | internal/blockchain/transaction.go:45-53 | sorted means grouped by type, within a type by priority, within a priority by value |
| `Canonical.SerializeForSigning` | internal/blockchain/transaction.go:550-599 | produces the canonical bytes and leaves the transaction's own records alone |
| `Canonical.SigningIgnoresRecordOrder` | internal/blockchain/transaction.go:555-565 | permuting a transaction's records never changes what is signed |
| `Canonical.SigningIgnoresAlgorithm` | internal/blockchain/transaction.go:555-565 | any sorted permutation of the records gives the same bytes |
| `SignedBytes.SigningBinds` | internal/blockchain/transaction.go:550-599 | two transactions with equally long name, owner and recipient, equally long types and values of their sorted records, and the same optional fields present, none of 2^63 bytes or more, have the same signing bytes if and only if all their fields but the signature are equal, the records up to order |
| `SignedBytes.TypeAndValueRunTogether` | internal/blockchain/transaction.go:560-565 | two different transactions of different shape with the same signing bytes: the type and the value of a record run together |
| `Canonical.HashInput` | internal/blockchain/stake.go:187-208 | the bytes hashed are those of the sorted queue |
| `Canonical.QueueHashIgnoresOrder` | internal/blockchain/stake.go:187-208 | permuting the queue never changes the bytes hashed |
| `SignedBytes.QueueBytesBind` | internal/blockchain/stake.go:187-208 | with validator keys of one length the bytes hashed are equal if and only if the queues are, up to order |
| `Canonical.SortedEntries` | internal/blockchain/stake.go:190-198 | sorted means by maturity, within it by key, within that by amount |
| `Canonical.HexOrder` | internal/blockchain/stake.go:194-196 | hexadecimal strings sort like the keys they stand for |
| `Base58.Base58Encode` | internal/blockchain/utils.go:62-83 | the division loop and the reversal give the letters of the number, with one letter for a leading zero |
| `Base58.Base58Decode` | internal/blockchain/utils.go:86-102 | the accumulation loop gives the bytes of the number, unknown letters counting as -1 |
| `Base58.ReverseBytes` | internal/blockchain/utils.go:105-109 | reverses in place |
| `Base58.DecodedEncoded` | internal/blockchain/utils.go:62-102 | the round trip keeps the number and at most one leading zero |
| `Base58.DecodeInvertsEncodeIff` | internal/blockchain/utils.go:62-102 | decoding an encoding gives back the bytes if and only if they do not start with two zeros |
| `Base58.EncodeInvertsDecodeIff` | internal/blockchain/utils.go:62-102 | encoding a decoding gives back text of the alphabet if and only if it does not start with two letters for zero |

## Left out

- libp2p, gRPC, the UDP server, JSON and gob encoding, BoltDB, metrics and command-line drivers: input/output and foreign libraries.
- Floating-point leader probabilities and the cumulative walk; only the XOR seed is modelled.
- Locks and goroutines: handlers and block processing run one at a time.
- Expiry and purge buckets: `World.purgeable` stands for whatever they list. `TxLocation`, the transaction pool and `VerifyTransaction` are not modelled.
- `GetIndexHash`, and the byte format of the ledger, stake and commitment hashes: they are function fields of `World`.
- Panics of log statements that slice short keys, and of decoding a malformed evidence block: an undecodable block is simply not accepted.
- A block without transactions: `NewMerkleTree` returns nil for it and the caller dereferences that; the model refuses the block.
- Block heights near 2^63 are unbounded integers here; slots, ids, amounts and nonces have their machine widths.
- Slices that share a backing array beyond the unbonding queue: a decoded proof's siblings are taken to be separate.
- REGISTER is always refused by its gate; it is modelled in `Application` only.
- `RandomNumberHandler` and `DRGMockSeed`: nothing calls the first, the second is one XOR.
- Transactions whose encoding is exactly 64 bytes long are excluded from `MerkleRoots.RootsAgreeIff`; a gob-encoded transaction is longer.
- Schedules.ReplicasAgree: needs unambiguous ids, because `GetTxByID` may answer with any stored transaction that carries the id.
- NodeObjects.Node.AddBlock: the header hashes are compared together after the block has been applied to copies, where the source stops at the first mismatch in between; genesis blocks, the transaction pool and the validator cache are left out.
- IndexObjects.IndexManager.Add: does not keep the expiry and purge buckets.
