/**
 * The health sweep: per-container escalation from restart (with a cooldown)
 * to factory reset, suppressed while an update is pending.
 */
module Health {
  import opened Wrappers
  import opened Values
  import opened Registry
  import opened Effects
  import opened UpdateInfo

  /** A container is stale once it has been silent this many seconds. */
  const StaleAfter: int := 120
  /** How long an `update_pending` gate keeps the sweep quiet. */
  const SuppressionWindow: int := 3600
  /** A factory reset is considered only this long after the last update. */
  const UpdateRecency: int := 3600
  /** The inventory restart count from which a factory reset is considered. */
  const ResetRestartCount: real := 5.0
  /** The minimum gap between two restarts issued by the sweep. */
  const RestartCooldown: int := 6000

  /** The container inventory: id to its decoded entry (`restart_count`, ...). */
  type Inventory = map<string, Document>

  /** The gate is on and was switched on less than SuppressionWindow ago. */
  predicate Suppressed(g: Gate, now: int) {
    now - g.timestamp < SuppressionWindow && g.status
  }

  /** The record may be restarted again: no restart is outstanding, or the
      last one is at least RestartCooldown old. */
  predicate CooldownOver(rec: Record, now: int) {
    !rec.isRestart || now - rec.timestamp >= RestartCooldown
  }

  /** Many restarts, long enough after the last update. */
  predicate ResetDue(restartCount: real, updateTime: int, now: int) {
    now - updateTime > UpdateRecency && restartCount >= ResetRestartCount
  }

  /** Restarts `id` unless a restart issued less than RestartCooldown ago is
      still outstanding; a restart flags the record and re-anchors its
      timestamp at `now`. */
  function HandleRestart(st: State, id: string, now: int): (r: Step)
    requires id in st.registry
    ensures r.state.gate == st.gate
    ensures r.state.registry.Keys == st.registry.Keys
    ensures forall other :: other in st.registry && other != id ==> r.state.registry[other] == st.registry[other]
    ensures CooldownOver(st.registry[id], now) ==>
              && r.actions == [RestartContainer(id)]
              && r.state.registry[id] == Record(now, true, st.registry[id].bootTime)
    ensures !CooldownOver(st.registry[id], now) ==> r == Step(st, [])
  {
    var rec := st.registry[id];
    if !rec.isRestart || now - rec.timestamp >= RestartCooldown then
      var flagged := rec.(isRestart := true, timestamp := now);
      Step(st.(registry := st.registry[id := flagged]), [RestartContainer(id)])
    else
      Step(st, [])
  }

  /** Forgets every container; the gate is kept. */
  function ClearContainerHistory(st: State): (r: State)
    ensures |r.registry| == 0
    ensures r.gate == st.gate
  {
    st.(registry := map[])
  }

  /** One container's turn in a sweep: the gate, then staleness, then the
      inventory, then the restart count against the update recency, and
      finally the restart cooldown. */
  function SweepOne(st: State, id: string, now: int, inventory: Fetched<Inventory>, updateInfo: Fetched<Document>): (r: Step)
    requires id in st.registry
    ensures r.state.gate == st.gate
    ensures r.state.registry.Keys == st.registry.Keys
    ensures forall other :: other in st.registry && other != id ==> r.state.registry[other] == st.registry[other]
    ensures r.state.registry[id].bootTime == st.registry[id].bootTime
    ensures r.actions == [] || r.actions == [RestartContainer(id)] || r.actions == [RestoreFactorySettings]
    ensures r.actions == [] ==> r.state == st
    // the gate, a recent ping, an unreadable inventory and a non-numeric restart count each keep the sweep quiet
    ensures Suppressed(st.gate, now) ==> r == Step(st, [])
    ensures now - st.registry[id].timestamp < StaleAfter ==> r == Step(st, [])
    ensures !inventory.Decoded? ==> r == Step(st, [])
    ensures inventory.Decoded? && id in inventory.value && NumberField(inventory.value[id], "restart_count").None? ==> r == Step(st, [])
    // a restart, whether or not the inventory knows the container, respects the cooldown
    ensures r.actions == [RestartContainer(id)] <==>
              && !Suppressed(st.gate, now)
              && now - st.registry[id].timestamp >= StaleAfter
              && inventory.Decoded?
              && (|| id !in inventory.value
                  || (&& NumberField(inventory.value[id], "restart_count").Some?
                      && !ResetDue(NumberField(inventory.value[id], "restart_count").value, GetUpdateTime(updateInfo), now)))
              && CooldownOver(st.registry[id], now)
    ensures r.actions == [RestartContainer(id)] ==> r.state.registry[id] == Record(now, true, st.registry[id].bootTime)
    // a factory reset leaves the registry alone
    ensures r.actions == [RestoreFactorySettings] <==>
              && !Suppressed(st.gate, now)
              && now - st.registry[id].timestamp >= StaleAfter
              && inventory.Decoded?
              && id in inventory.value
              && NumberField(inventory.value[id], "restart_count").Some?
              && ResetDue(NumberField(inventory.value[id], "restart_count").value, GetUpdateTime(updateInfo), now)
    ensures r.actions == [RestoreFactorySettings] ==> r.state == st
  {
    var rec := st.registry[id];
    if Suppressed(st.gate, now) then Step(st, [])
    else if now - rec.timestamp < StaleAfter then Step(st, [])
    else
      match inventory
      case Unavailable => Step(st, [])
      case Undecodable => Step(st, [])
      case Decoded(inv) =>
        if id !in inv then HandleRestart(st, id, now)
        else
          match NumberField(inv[id], "restart_count")
          case None => Step(st, [])
          case Some(restartCount) =>
            if now - GetUpdateTime(updateInfo) > UpdateRecency && restartCount >= ResetRestartCount then
              Step(st, [RestoreFactorySettings])
            else
              HandleRestart(st, id, now)
  }

  /** After a restart at t0, the next restart of the same container is
      refused until t0 + RestartCooldown and granted from then on. */
  lemma CooldownAfterRestart(st: State, id: string, t0: int, t: int)
    requires id in st.registry && CooldownOver(st.registry[id], t0)
    ensures var st1 := HandleRestart(st, id, t0).state;
            && (t - t0 < RestartCooldown ==> HandleRestart(st1, id, t) == Step(st1, []))
            && (t - t0 >= RestartCooldown ==> HandleRestart(st1, id, t).actions == [RestartContainer(id)])
  {
  }

  /** An unreadable update-info document, or one without a numeric
      `release_date`, counts as an update at time 0, so once the clock is
      past 3600 a high restart count alone triggers a factory reset. */
  lemma UpdateInfoFallbackEnablesReset(st: State, id: string, now: int, inventory: Fetched<Inventory>, updateInfo: Fetched<Document>)
    requires id in st.registry && !Suppressed(st.gate, now) && now - st.registry[id].timestamp >= StaleAfter
    requires inventory.Decoded? && id in inventory.value
    requires NumberField(inventory.value[id], "restart_count").Some?
    requires NumberField(inventory.value[id], "restart_count").value >= ResetRestartCount
    requires !updateInfo.Decoded? || NumberField(updateInfo.value, "release_date").None?
    requires now > UpdateRecency
    ensures SweepOne(st, id, now, inventory, updateInfo) == Step(st, [RestoreFactorySettings])
  {
  }

  /** A sweep tick: SweepOne for each id in `order`, in that order, each on
      the state the previous ones left. Ids the registry does not hold are
      passed over. */
  function SweepIds(st: State, order: seq<string>, now: int, inventory: Fetched<Inventory>, updateInfo: Fetched<Document>): (r: Step)
    decreases |order|
    ensures r.state.gate == st.gate
    ensures r.state.registry.Keys == st.registry.Keys
    ensures forall id :: id in st.registry && id !in order ==> r.state.registry[id] == st.registry[id]
    ensures forall id :: id in st.registry ==> r.state.registry[id].bootTime == st.registry[id].bootTime
    ensures forall id :: id in st.registry ==> r.state.registry[id] == st.registry[id] || r.state.registry[id].timestamp == now
    ensures forall i :: 0 <= i < |r.actions| ==> r.actions[i] == RestoreFactorySettings || (r.actions[i].RestartContainer? && r.actions[i].containerId in order)
  {
    if |order| == 0 then Step(st, [])
    else
      var first := if order[0] in st.registry then SweepOne(st, order[0], now, inventory, updateInfo) else Step(st, []);
      var rest := SweepIds(first.state, order[1..], now, inventory, updateInfo);
      Step(rest.state, first.actions + rest.actions)
  }
}
