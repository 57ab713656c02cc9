/**
 * Concrete histories of the watchdog: the heartbeat, cooldown, reset and gate
 * behaviours, and the consequences of the code that are easy to miss (the
 * cooldown on unknown containers, the silence on an unreadable inventory, one
 * reset per qualifying container).
 */
module Scenarios {
  import opened Wrappers
  import opened Values
  import opened Registry
  import opened Effects
  import opened Health
  import opened Messages
  import opened Trace

  function PingFrom(id: string): Option<Document> {
    Some(map["command" := Str("ping"), "container_id" := Str(id)])
  }

  function UpdatePendingMsg(status: bool): Option<Document> {
    Some(map["command" := Str("update_pending"), "status" := Bool(status)])
  }

  function InventoryEntry(restartCount: real): Document {
    map["restart_count" := Num(restartCount)]
  }

  /** A heartbeat at 1000 records the container; a tick at 1130 with an
      inventory that does not list it restarts it and flags the record. */
  lemma UnknownStaleContainerIsRestarted()
    ensures var st1 := Dispatch(Init, PingFrom("svc-1"), 1000);
            && st1.state.registry == map["svc-1" := Record(1000, false, None)]
            && st1.actions == [Publish(HealthTopic, PingMessage(1000))]
            && var st2 := SweepIds(st1.state, ["svc-1"], 1130, Decoded(map[]), Unavailable);
               && st2.state.registry == map["svc-1" := Record(1130, true, None)]
               && st2.actions == [RestartContainer("svc-1")]
  {
  }

  /** A restart at t0 blocks a second one at t0 + 5000 and allows it at t0 + 6000. */
  lemma CooldownScenario(t0: int)
    ensures var st := State(map["c" := Record(t0 - 200, false, None)], Init.gate);
            var inv: Fetched<Inventory> := Decoded(map["c" := InventoryEntry(1.0)]);
            var r1 := SweepOne(st, "c", t0, inv, Unavailable);
            && r1.actions == [RestartContainer("c")]
            && SweepOne(r1.state, "c", t0 + 5000, inv, Unavailable) == Step(r1.state, [])
            && SweepOne(r1.state, "c", t0 + 6000, inv, Unavailable).actions == [RestartContainer("c")]
  {
  }

  /** Five restarts more than an hour after the last update escalate to a
      factory reset; four restarts with everything else equal only restart. */
  lemma ResetThresholdScenario()
    ensures var st := State(map["c" := Record(0, false, None)], Init.gate);
            var upd: Fetched<Document> := Decoded(map["release_date" := Num(1000.0)]);
            && SweepOne(st, "c", 10000, Decoded(map["c" := InventoryEntry(5.0)]), upd).actions == [RestoreFactorySettings]
            && SweepOne(st, "c", 10000, Decoded(map["c" := InventoryEntry(4.0)]), upd).actions == [RestartContainer("c")]
  {
  }

  /** `update_pending` true switches the gate on at the message's time; a
      following false switches it off and stamps it 0. */
  lemma GateToggleScenario(st: State, t1: int, t2: int)
    ensures var on := Dispatch(st, UpdatePendingMsg(true), t1).state;
            && on.gate == Gate(true, t1)
            && Dispatch(on, UpdatePendingMsg(false), t2).state.gate == Gate(false, 0)
  {
  }

  /** Clearing right after heartbeats leaves nothing behind. */
  lemma ClearAfterHeartbeatsScenario()
    ensures Run([Received(PingFrom("a"), 10), Received(PingFrom("b"), 11),
                 Received(Some(map["command" := Str("clear_container_history")]), 12)]).registry == map[]
  {
  }

  /** A stale container that the inventory does not list is still subject to
      the cooldown: with a restart outstanding for less than 6000 seconds it
      is left alone, even though nothing suppresses the sweep. */
  lemma UnknownContainerIsCooldownGated()
    ensures var st := State(map["c" := Record(1000, true, None)], Init.gate);
            SweepOne(st, "c", 2000, Decoded(map[]), Unavailable) == Step(st, [])
  {
  }

  /** An inventory file that is missing or does not decode makes the sweep
      take no action at all, rather than restarting. */
  lemma UnreadableInventoryMeansNoAction()
    ensures var st := State(map["c" := Record(0, false, None)], Init.gate);
            && SweepOne(st, "c", 5000, Unavailable, Unavailable) == Step(st, [])
            && SweepOne(st, "c", 5000, Undecodable, Unavailable) == Step(st, [])
  {
  }

  /** Two containers that both qualify for a factory reset in one tick cause
      two resets: the reset is decided per container, not once per tick. */
  lemma ResetIsPerContainer()
    ensures var st := State(map["a" := Record(0, false, None), "b" := Record(0, false, None)], Init.gate);
            var inv: Fetched<Inventory> := Decoded(map["a" := InventoryEntry(7.0), "b" := InventoryEntry(9.0)]);
            SweepIds(st, ["a", "b"], 10000, inv, Unavailable).actions == [RestoreFactorySettings, RestoreFactorySettings]
  {
  }
}
