/**
 * The daemon's fixed configuration (the `CONFIG` object of index.js) and the
 * wake event types it sends.
 */
module Config {
  // Timer intervals, in milliseconds
  const GatewayPingMs: nat := 60 * 1000
  const ResourceCheckMs: nat := 5 * 60 * 1000
  const HeartbeatCheckMs: nat := 10 * 60 * 1000

  // Cooldowns, in milliseconds
  const WakeCooldownMs: nat := 5 * 60 * 1000
  const FileDebounceMs: nat := 5 * 1000

  // Thresholds
  const GatewayFailureThreshold: nat := 3
  const MemoryFreeMinPercent: nat := 30
  const DiskUsageMaxPercent: nat := 90
  const HeartbeatStaleMinutes: nat := 45

  const StatusPort: nat := 18790

  /** Every event type the daemon ever passes to the notifier. */
  datatype EventType =
    | GatewayRecovery
    | GatewayDown
    | TodoChanged
    | HeartbeatStateChanged
    | LowMemory
    | HighDiskUsage
    | StaleHeartbeat

  /** The string key under which the source files an event type in its ledger. */
  function EventName(e: EventType): string
  {
    match e
    case GatewayRecovery => "gateway-recovery"
    case GatewayDown => "gateway-down"
    case TodoChanged => "todo-changed"
    case HeartbeatStateChanged => "heartbeat-state-changed"
    case LowMemory => "low-memory"
    case HighDiskUsage => "high-disk-usage"
    case StaleHeartbeat => "stale-heartbeat"
  }

  /** Keying the ledger by EventType instead of by its name loses nothing: names are distinct. */
  lemma EventNamesDistinct(a: EventType, b: EventType)
    ensures EventName(a) == EventName(b) ==> a == b
  {
  }
}
