/** Addresses, policy and limits of the relay endpoint controller. */
module Relay {
  import opened Machine

  /** An IPv4 address by its numeric value. */
  type Ip = x: nat | x <= 0xFFFF_FFFF

  const MAX_ENDPOINT_CANDIDATES: nat := 8
  const MAX_BUDGET_ENTRIES: nat := 16
  const MAX_PERSISTED_COOLDOWN_SECS: nat := 86_400
  const CLOCK_SKEW_SECS: nat := 300
  const MIN_PROMOTION_DATA_PACKETS: nat := 3
  const TIMER_INTERVAL_MS: nat := 400
  const CLIENT_HANDSHAKE_TIMEOUT_MS: nat := 5_000
  const CLIENT_CONN_TIMEOUT_MS: nat := 10_000

  datatype Policy = Policy(
    enabled: bool,
    afterFailures: U32,
    maxAttempts: U32,
    cooldownMs: U64,
    maxAgeMs: U64,
    capacity: U32,
    refillMs: U64,
    roundTimeoutMs: U64,
    probationMs: U64,
    rollbackWindowMs: U64)
  {
    function RefillSecs(): (r: nat)
      ensures Min(refillMs, U64_MAX - 999) <= r * 1000 <= refillMs + 999
    {
      SatAdd(refillMs, 999) / 1000
    }

    function CooldownSecs(): (r: nat)
      ensures Min(cooldownMs, U64_MAX - 999) <= r * 1000 <= cooldownMs + 999
    {
      SatAdd(cooldownMs, 999) / 1000
    }

    /** The bounds and the rollback-window inequality the configuration enforces. */
    predicate Validated() {
      && 1 <= maxAttempts <= 100
      && 1_000 <= cooldownMs <= 86_400_000
      && 1 <= capacity <= 100
      && 1_000 <= refillMs <= 604_800_000
      && 1_000 <= probationMs <= 86_400_000
      && 5_000 <= roundTimeoutMs <= 600_000
      && CLIENT_CONN_TIMEOUT_MS + roundTimeoutMs + CLIENT_HANDSHAKE_TIMEOUT_MS + probationMs + 2 * TIMER_INTERVAL_MS
         < rollbackWindowMs <= 604_800_000
    }
  }

  /** Strictly increasing, hence sorted and free of duplicates. */
  predicate Increasing(s: seq<Ip>) {
    forall i, j :: 0 <= i < j < |s| ==> s[i] < s[j]
  }
}
