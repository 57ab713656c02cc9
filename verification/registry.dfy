/**
 * The watchdog's whole mutable state: the per-container liveness registry
 * and the global update gate, with their initial values.
 */
module Registry {
  import opened Wrappers

  /** The liveness record kept per container id: when it was last seen (or
      last restarted), whether a restart has been issued since the last
      heartbeat, and an optional boot time. Timestamps are whole Unix seconds. */
  datatype Record = Record(timestamp: int, isRestart: bool, bootTime: Option<int>)

  /** The update gate set by `update_pending`: while `status` holds and the
      gate is recent, the health sweep stands down. */
  datatype Gate = Gate(status: bool, timestamp: int)

  datatype State = State(registry: map<string, Record>, gate: Gate)

  /** At start-up the registry is empty and the gate is off with timestamp 0. */
  const Init: State := State(map[], Gate(false, 0))
}
