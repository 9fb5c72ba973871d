/** Protocol constants and the arithmetic on them (internal/blockchain/config.go). */
module Config {
  import opened Basics

  const GRACE_PERIOD_DAYS: int := 30
  const MIN_STAKE_THRESHOLD: u64 := 100
  const UNSTAKE_DELAY_SLOTS: u64 := 1000
  const SLASHING_PERCENT: u64 := 100
  const MAX_EVIDENCE_BLOCK_BYTES: int := 2 * 1024 * 1024
  const COMMIT_MIN_DELAY: int := 3
  const COMMIT_MAX_WINDOW: int := 100
  const MIN_FEE: u64 := 1

  /** 86400 divided by the slot interval in seconds. */
  type SlotsPerDay = x: int | 0 <= x <= 86400

  datatype Phase = Active | Grace | Purged

  function ComputeSlashAmount(stake: u64, percent: u64): (r: u64)
    ensures percent == 100 ==> r == stake
  {
    if percent == 0 then 0
    else if stake > (TWO64 - 1) / percent then stake
    else
      MulBelow(stake, percent, TWO64 - 1);
      stake * percent / 100
  }

  lemma MulBelow(a: nat, p: nat, n: nat)
    requires p > 0 && a <= n / p
    ensures 0 <= a * p <= n
  {
    assert n / p * p <= n;
    assert a * p <= n / p * p;
  }

  function ComputePurgeSlot(expirySlot: i64, slotsPerDay: SlotsPerDay): i64 {
    ToI64(expirySlot + GRACE_PERIOD_DAYS * slotsPerDay)
  }

  function GetDomainPhase(slot: i64, expirySlot: i64, slotsPerDay: SlotsPerDay): Phase {
    if slot < expirySlot then Active
    else if slot < ComputePurgeSlot(expirySlot, slotsPerDay) then Grace
    else Purged
  }
}
