# Container liveness watchdog — a Dafny model

This project models the core of a fleet watchdog written in Go. The watchdog
tracks container liveness through MQTT heartbeats ("ping" messages). When a
container goes quiet, it escalates: first a restart, subject to a cooldown,
then a factory reset. While an update is pending, a global gate suspends all
escalation.

The state is two things:

- the **registry**: a map from container id to a `Record(timestamp, isRestart, bootTime)`;
- the **update gate**: `Gate(status, timestamp)`.

At start-up the registry is empty and the gate is `false/0` (`Registry.Init`).
Three pieces of logic act on this state. Each is a pure function that returns
a `Step`: the new state plus the actions performed. Actions are opaque values:
restart, start or stop a container, stop or start a service, restore factory
settings, or publish a message.

- `Messages.Dispatch`: one decoded inbound message. This covers heartbeats,
  `update_pending`, `clear_container_history`, and the direct container and
  service commands.
- `Health.SweepOne`: one container's turn in a health sweep. The checks run
  in order: the gate, staleness (120 s), the inventory lookup, the restart
  count (5) against update recency (3600 s), and the restart cooldown
  (6000 s). `Health.SweepIds` and `Sweep.Sweep` run a whole tick over the
  registry.
- `UpdateInfo.GetUpdateTime`: the release date of the last update. It falls
  back to 0 when the update-info document is unreadable.

`Trace.Run` composes these steps sequentially over a sequence of events
(messages and sweep ticks), starting from the initial state.

Modules follow the source files:

- `Registry` and `Effects` cover `cfg/constant.go` and the outbound ping.
- `Health` and `Sweep` cover `src/container.go`.
- `Messages` covers `src/mqtt.go`.
- `UpdateInfo` covers `src/utils.go`.
- `Values` reads decoded JSON fields the way Go's `v, ok := m[k].(T)` does. A field of the wrong type reads as missing.
- `Trace` holds the whole-run properties.
- `Scenarios` holds concrete event histories.

## Behaviour worth knowing

The model follows the code as written. Five consequences of that code are
easy to miss, and each is stated by a member of the model:

- **Unknown containers are cooldown-gated.** A stale container missing from
  the inventory goes through `handleRestartContainer` (`src/container.go:122`),
  so it is restarted only when no restart is outstanding or the last one is at
  least 6000 s old (`Scenarios.UnknownContainerIsCooldownGated`).
- **An unreadable inventory means no action.** A missing, unopenable or
  undecodable inventory file makes the sweep skip the container
  (`src/container.go:103-118`, `Scenarios.UnreadableInventoryMeansNoAction`).
- **The update-time fallback enables a reset.** Every failure in
  `getUpdateTime` returns 0 (`src/utils.go:30-47`). Release time 0 makes the
  recency test at `src/container.go:135` true whenever the clock is past 3600,
  so an unreadable update-info file lets a restart count of 5 or more trigger a
  factory reset on its own (`Health.UpdateInfoFallbackEnablesReset`).
- **One reset per qualifying container.** The reset decision sits inside the
  per-container loop (`src/container.go:135-136`), so two qualifying
  containers cause two resets in one tick (`Scenarios.ResetIsPerContainer`).
- **A reported boot time is never stored.** The doc comments of the record
  helpers say a `boot_time_timestamp` in `data` is recorded
  (`src/mqtt.go:91`, `src/mqtt.go:108`). But `handlePing` hands them the stored
  record, or the nil map of a failed lookup, rather than the message
  (`src/mqtt.go:80-85`). So the message's boot time is dropped
  (`Messages.PingBootTimeIgnored`), and no reachable record carries one
  (`Trace.BootTimeNeverRecorded`).

## Model

| member | source | states |
|---|---|---|
| `Effects.PingMessage` | src/mqtt.go:48-52 | The service's own ping has exactly three fields: `command` = "ping", `container_id` = "management_service", and `timestamp` = now. |
| `UpdateInfo.GetUpdateTime` | src/utils.go:25-50 | The result is 0 when the file cannot be opened, when it does not decode, or when `release_date` is missing or not a number. Otherwise it is `release_date` truncated toward zero to whole seconds. |
| `Health.HandleRestart` | src/container.go:51-68 | If no restart is outstanding, or the last one is at least 6000 s old: exactly one restart of that container, and the record becomes `isRestart = true`, `timestamp = now`. Otherwise nothing changes and nothing is emitted. Other records, the set of ids, and the gate are untouched. |
| `Health.ClearContainerHistory` | src/container.go:70-77 | The registry ends empty. The gate is kept. |
| `Health.SweepOne` | src/container.go:89-141 | Complete outcome of one container's turn. It does nothing in four cases: while the gate suppresses, while the container pinged less than 120 s ago, when the inventory is missing or undecodable, and when the container's inventory entry has no numeric `restart_count`. Otherwise, for a stale and unsuppressed container with a decoded inventory, there are two outcomes. (1) A factory reset is emitted exactly when the entry's count is at least 5 and the last update is more than 3600 s old; the registry is then unchanged. (2) A restart is emitted exactly when the container is absent from the inventory, or its count does not call for a reset, and the cooldown is over. Only the container's own record can change, and never its boot time. |
| `Health.CooldownAfterRestart` | src/container.go:59-62 | After a restart at t0, another restart of the same container is refused before t0 + 6000 and granted from then on. |
| `Health.UpdateInfoFallbackEnablesReset` | src/container.go:133-136 | With an unreadable update-info document, or one with no numeric `release_date`, a stale container with a `restart_count` of 5 or more triggers a factory reset once the clock is past 3600. |
| `Health.SweepIds` | src/container.go:89-142 | One tick over the ids in some order. The gate and the set of ids are unchanged. Ids not swept keep their records. Boot times are never touched. Every record is either unchanged or stamped with the tick's time. Every action is a factory reset or a restart of a swept id. |
| `Sweep.SweepOneIsLocal` | src/container.go:89-141 | A container's sweep decision reads only the gate and that container's own record. |
| `Sweep.SweepActionsArePerContainer` | src/container.go:89-141 | Sweeping containers one after another, each on the state left by the earlier ones, performs exactly the concatenation of each container's own actions. |
| `Sweep.SweepIsPointwise` | src/container.go:89-141 | After a tick, each swept container's record is what its own decision makes it, computed on the state the tick started from. |
| `Sweep.Sweep` | src/container.go:89 | A tick that ranges over every registry key once gives each record its own decision's result and performs the per-container actions. |
| `Sweep.SweepOrderIrrelevant` | src/container.go:89 | The state after a tick does not depend on the map's iteration order. |
| `Sweep.SweepActionsOrderIrrelevant` | src/container.go:89 | The actions of a tick, counted with multiplicity, do not depend on the iteration order. |
| `Sweep.SuppressedTickIsSilent` | src/container.go:97-100 | While the gate is on and less than 3600 s old, a whole tick emits nothing and changes nothing, whatever the staleness or the inventory. |
| `Messages.DirectAction` | src/mqtt.go:157-214 | The command table. Each of the five direct commands maps to its own action (`restart_container` to a restart, `start_container` to a start, `stop_container` to a stop, `stop_service` and `start_service` to the matching service action), and the action's target is the given container id or service name. |
| `Messages.HandlePing` | src/mqtt.go:61-86 | A ping with no usable `container_id`, or from "management_service", is a no-op. Any other ping publishes exactly the service's ping on `avi/threat/health`. It then leaves that id (and only that id) added or refreshed, with timestamp now and no restart outstanding. Its boot time is the stored one, or none for a new record. The gate is untouched. |
| `Messages.UpdatePending` | src/mqtt.go:186-197 | A boolean `status` sets the gate to `(true, now)` or `(false, 0)`. Any other `status` leaves the gate alone. The registry is untouched and nothing is emitted. |
| `Messages.Dispatch` | src/mqtt.go:135-219 | At most one action. The following are no-ops: a bad payload, a missing or non-string command, an unknown command, and a direct command without a string target. Only `update_pending` changes the gate. Only `ping` and `clear_container_history` change the registry. Each direct command emits exactly its table action with the given id or name and leaves the state alone. Clearing empties the registry. |
| `Messages.OwnPingIsIgnored` | src/mqtt.go:48-78 | Every message the service publishes goes to `avi/threat/health`. Dispatching it back, on any state and at any time, changes nothing and emits nothing. |
| `Messages.PingBootTimeIgnored` | src/mqtt.go:80-85 | A ping's outcome is the same whatever `boot_time_timestamp` it carries. |
| `Trace.RegistryHoldsExactlyHeartbeats` | src/mqtt.go:80-85 | After any run, the registry's ids are exactly the containers that sent a heartbeat since the last `clear_container_history`. |
| `Trace.GateFollowsLastUpdate` | src/mqtt.go:186-197 | After any run, the gate is what the last valid `update_pending` made it, or `false/0` if there was none. |
| `Trace.BootTimeNeverRecorded` | src/mqtt.go:80-123 | After any run, no record has a boot time. |
| `Trace.LatestHeartbeatSetsRecord` | src/mqtt.go:96-97 | After a heartbeat followed only by messages (no sweep, no clear, no newer heartbeat from that id), the record is `(heartbeat time, false, none)`. |
| `Trace.TimestampsNotAhead` | src/mqtt.go:96-131 | If events arrive in clock order, no record is stamped later than the latest event. |
| `Trace.TimestampMonotone` | src/mqtt.go:96 | If events arrive in clock order, one more event never moves a surviving record's timestamp backwards: heartbeats and restarts only stamp it with the current time. |
| `Trace.PendingUpdateSilencesSweeps` | src/container.go:97-100 | After a run whose last valid `update_pending` was true at t, a sweep tick before t + 3600 does nothing. |
| `Scenarios.UnknownStaleContainerIsRestarted` | src/container.go:120-124 | A heartbeat at 1000 followed by a tick at 1130, with an inventory that lacks the container, restarts it. The record becomes `(1130, true)`. |
| `Scenarios.CooldownScenario` | src/container.go:59 | A restart at t0 blocks another at t0 + 5000 and allows one at t0 + 6000. |
| `Scenarios.ResetThresholdScenario` | src/container.go:135-139 | A `restart_count` of 5, long after the last update, escalates to a factory reset. A count of 4 with the same inputs restarts instead. |
| `Scenarios.GateToggleScenario` | src/mqtt.go:192-197 | `update_pending` true then false gives gate `(true, t1)` and then `(false, 0)`. |
| `Scenarios.ClearAfterHeartbeatsScenario` | src/container.go:74-76 | A clear right after heartbeats leaves the registry empty. |
| `Scenarios.UnknownContainerIsCooldownGated` | src/container.go:120-124 | A stale container missing from the inventory, with a restart outstanding for less than 6000 s, is not restarted. |
| `Scenarios.UnreadableInventoryMeansNoAction` | src/container.go:103-118 | A missing or undecodable inventory makes the sweep do nothing. |
| `Scenarios.ResetIsPerContainer` | src/container.go:135-136 | Two qualifying containers in one tick cause two factory resets. |

## Left out

- MQTT transport is left out: client options, connect and subscribe handlers, reconnection, and interrupt-driven shutdown (`src/mqtt.go:14-37`, `src/mqtt.go:221-268`). Which topic a message arrives on does not affect dispatch, so topics appear only on the published ping.
- The shell commands (`docker restart/stop/start`, `systemctl stop/start`, `factory_reset.sh`) are represented only as emitted `Action` values. Their success or failure is only logged in the source and does not feed back into the state.
- JSON decoding is left out. Payloads and files are taken as already decoded. A payload that is not JSON is `None`. A file that is missing or unopenable is `Unavailable`, and one that does not decode is `Undecodable`. A JSON `null` object behaves like an empty map. Numbers are exact reals, so float64 rounding is not modelled, and neither is the out-of-range behaviour of Go's `int64(float64)` conversion.
- Timestamps are whole seconds as `int`, not float64.
- Each step reads the clock once (`now`). The source reads it again for every container of a sweep (`src/container.go:96`), inside `handleRestartContainer` (`src/container.go:59`, `src/container.go:62`) and in `sendPing` (`src/mqtt.go:50`). Within one sweep, the reading for a later container comes after the earlier containers' blocking `docker restart` (`src/container.go:19`) or `factory_reset.sh` (`src/utils.go:16`), so it can be many seconds later. A container that is just under the 120 s threshold when the tick starts can then become stale, or not, depending on the iteration order.
- `Sweep.SweepOrderIrrelevant` and `Sweep.SweepActionsOrderIrrelevant` are about a tick with a single clock reading. With the per-container clock of `src/container.go:96` and slow external commands, the source's outcome can depend on the map's iteration order.
- A sweep tick uses one snapshot of the inventory and the update-info document. The source re-reads both files for every stale container.
- The 30-second sleep loop, the goroutine, and concurrent access to the shared maps are not modelled. Messages and ticks are interleaved sequentially in `Trace.Run`, and the data races of the source are outside the model.
- The "invalid ping time format" branch (`src/container.go:90-94`) and the type-assertion panics in `handleRestartContainer` cannot happen in the model. Every record is created with an integer timestamp and a boolean flag.
- A sweep tick in the model may list ids in any order, with repeats or with ids the registry lacks (`Health.SweepIds` passes over those). The source ranges over the registry keys exactly once, which `Sweep.Sweep` requires of its order. The whole-run lemmas of `Trace` hold for every tick of the wider kind, so they cover every single-clock tick over the registry keys.
- The marshal-failure branch of `sendPing` (`src/mqtt.go:53-57`) cannot fail for the three fixed fields, and publish errors are not observed.
- Logging and the broker, topic and credential constants of `cfg/constant.go` are left out. The model keeps the initial registry and gate values and the `avi/threat/health` topic.
