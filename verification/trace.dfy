/**
 * The watchdog over time: a run is a sequence of events, each an inbound
 * message or a sweep tick, applied one after another from the initial
 * state. The source runs the two concurrently on unsynchronised maps; this
 * is the sequential reading of that design.
 */
module Trace {
  import opened Wrappers
  import opened Values
  import opened Registry
  import opened Effects
  import opened Health
  import opened Messages
  import opened Sweep

  datatype Event =
    | Received(msg: Option<Document>, at: int)
    | Tick(order: seq<string>, at: int, inventory: Fetched<Inventory>, updateInfo: Fetched<Document>)

  function Apply(st: State, e: Event): Step {
    match e
    case Received(msg, at) => Dispatch(st, msg, at)
    case Tick(order, at, inventory, updateInfo) => SweepIds(st, order, at, inventory, updateInfo)
  }

  /** The state after every event of `evs`, starting from Init. */
  function Run(evs: seq<Event>): State
    decreases |evs|
  {
    if |evs| == 0 then Init else Apply(Run(evs[..|evs| - 1]), evs[|evs| - 1]).state
  }

  /** The container a heartbeat event refreshes, if it is one. */
  function HeartbeatFrom(e: Event): Option<string> {
    if e.Received? && CommandOf(e.msg) == Some("ping") then PingSender(e.msg.value) else None
  }

  predicate IsClear(e: Event) {
    e.Received? && CommandOf(e.msg) == Some("clear_container_history")
  }

  /** The status an `update_pending` event sets, if it sets one. */
  function UpdateStatusOf(e: Event): Option<bool> {
    if e.Received? && CommandOf(e.msg) == Some("update_pending") then BoolField(e.msg.value, "status") else None
  }

  predicate IsUpdate(e: Event) {
    UpdateStatusOf(e).Some?
  }

  /** One past the position of the last event satisfying `p`, or 0 if none does. */
  function LastCut(evs: seq<Event>, p: Event -> bool): (cut: nat)
    ensures cut <= |evs|
    ensures forall j :: cut <= j < |evs| ==> !p(evs[j])
    ensures cut > 0 ==> p(evs[cut - 1])
    decreases |evs|
  {
    if |evs| == 0 then 0
    else if p(evs[|evs| - 1]) then |evs|
    else LastCut(evs[..|evs| - 1], p)
  }

  /** The containers that sent a heartbeat since the last history clear. */
  function HeartbeatsSinceClear(evs: seq<Event>): set<string> {
    set i | LastCut(evs, IsClear) <= i < |evs| && HeartbeatFrom(evs[i]).Some? :: HeartbeatFrom(evs[i]).value
  }

  /** The gate the last valid `update_pending` left, or the initial gate. */
  function GateAfter(evs: seq<Event>): Gate {
    var cut := LastCut(evs, IsUpdate);
    if cut == 0 then Init.gate
    else
      var e := evs[cut - 1];
      var status := UpdateStatusOf(e).value;
      Gate(status, if status then e.at else 0)
  }

  lemma ApplyKeys(st: State, e: Event)
    ensures Apply(st, e).state.registry.Keys
         == if IsClear(e) then {} else st.registry.Keys + (if HeartbeatFrom(e).Some? then {HeartbeatFrom(e).value} else {})
  {
  }

  lemma HeartbeatsSinceClearStep(evs: seq<Event>)
    requires |evs| > 0
    ensures IsClear(evs[|evs| - 1]) ==> HeartbeatsSinceClear(evs) == {}
    ensures !IsClear(evs[|evs| - 1]) ==>
              HeartbeatsSinceClear(evs) == HeartbeatsSinceClear(evs[..|evs| - 1])
                + (if HeartbeatFrom(evs[|evs| - 1]).Some? then {HeartbeatFrom(evs[|evs| - 1]).value} else {})
  {
  }

  /** The registry holds exactly the containers heard from since the last
      `clear_container_history`: sweeps never add or drop a record. */
  lemma {:induction false} RegistryHoldsExactlyHeartbeats(evs: seq<Event>)
    ensures Run(evs).registry.Keys == HeartbeatsSinceClear(evs)
    decreases |evs|
  {
    if |evs| > 0 {
      RegistryHoldsExactlyHeartbeats(evs[..|evs| - 1]);
      ApplyKeys(Run(evs[..|evs| - 1]), evs[|evs| - 1]);
      HeartbeatsSinceClearStep(evs);
    }
  }

  /** The gate is whatever the last valid `update_pending` made it: on and
      stamped with that message's time, or off and stamped 0. */
  lemma {:induction false} GateFollowsLastUpdate(evs: seq<Event>)
    ensures Run(evs).gate == GateAfter(evs)
    decreases |evs|
  {
    if |evs| > 0 {
      var n := |evs|;
      var p := evs[..n - 1];
      GateFollowsLastUpdate(p);
      if !IsUpdate(evs[n - 1]) {
        assert LastCut(evs, IsUpdate) == LastCut(p, IsUpdate);
        if LastCut(p, IsUpdate) > 0 {
          assert evs[LastCut(p, IsUpdate) - 1] == p[LastCut(p, IsUpdate) - 1];
        }
      }
    }
  }

  lemma ApplyKeepsBootTimesEmpty(st: State, e: Event)
    requires forall id :: id in st.registry ==> st.registry[id].bootTime.None?
    ensures forall id :: id in Apply(st, e).state.registry ==> Apply(st, e).state.registry[id].bootTime.None?
  {
  }

  /** No reachable record carries a boot time: heartbeats never copy one in
      from the message, and sweeps never touch the field. */
  lemma {:induction false} BootTimeNeverRecorded(evs: seq<Event>)
    ensures forall id :: id in Run(evs).registry ==> Run(evs).registry[id].bootTime.None?
    decreases |evs|
  {
    if |evs| > 0 {
      BootTimeNeverRecorded(evs[..|evs| - 1]);
      ApplyKeepsBootTimesEmpty(Run(evs[..|evs| - 1]), evs[|evs| - 1]);
    }
  }

  lemma OtherMessageKeepsRecord(st: State, msg: Option<Document>, at: int, id: string)
    requires id in st.registry
    requires CommandOf(msg) != Some("clear_container_history")
    requires CommandOf(msg) == Some("ping") ==> PingSender(msg.value) != Some(id)
    ensures id in Dispatch(st, msg, at).state.registry
    ensures Dispatch(st, msg, at).state.registry[id] == st.registry[id]
  {
  }

  /** After a heartbeat from `id`, as long as only messages follow (no sweep,
      no clear, no later heartbeat from `id`), the record says: seen at that
      heartbeat's time, no restart outstanding, no boot time. */
  lemma {:induction false} LatestHeartbeatSetsRecord(evs: seq<Event>, k: int, id: string)
    requires 0 <= k < |evs|
    requires HeartbeatFrom(evs[k]) == Some(id)
    requires forall j :: k < j < |evs| ==> evs[j].Received? && !IsClear(evs[j]) && HeartbeatFrom(evs[j]) != Some(id)
    ensures id in Run(evs).registry
    ensures Run(evs).registry[id] == Record(evs[k].at, false, None)
    decreases |evs|
  {
    var n := |evs|;
    var p := evs[..n - 1];
    var e := evs[n - 1];
    if k == n - 1 {
      BootTimeNeverRecorded(p);
    } else {
      forall j | k < j < |p| ensures p[j].Received? && !IsClear(p[j]) && HeartbeatFrom(p[j]) != Some(id)
      {
        assert p[j] == evs[j];
      }
      assert p[k] == evs[k];
      LatestHeartbeatSetsRecord(p, k, id);
      OtherMessageKeepsRecord(Run(p), e.msg, e.at, id);
    }
  }

  /** Events arrive in clock order. */
  predicate ClockOrdered(evs: seq<Event>) {
    forall i :: 0 < i < |evs| ==> evs[i - 1].at <= evs[i].at
  }

  lemma ApplyStampsNowOrKeeps(st: State, e: Event)
    ensures forall id :: id in Apply(st, e).state.registry ==>
              (id in st.registry && Apply(st, e).state.registry[id] == st.registry[id]) || Apply(st, e).state.registry[id].timestamp == e.at
  {
  }

  lemma ClockOrderedPrefix(evs: seq<Event>)
    requires |evs| > 1 && ClockOrdered(evs)
    ensures ClockOrdered(evs[..|evs| - 1])
    ensures evs[..|evs| - 1][|evs| - 2].at <= evs[|evs| - 1].at
  {
    var p := evs[..|evs| - 1];
    forall i | 0 < i < |p| ensures p[i - 1].at <= p[i].at
    {
      assert p[i - 1] == evs[i - 1] && p[i] == evs[i];
    }
  }

  /** With a clock that does not run backwards, no record is stamped later
      than the latest event. */
  lemma {:induction false} TimestampsNotAhead(evs: seq<Event>)
    requires |evs| > 0 && ClockOrdered(evs)
    ensures forall id :: id in Run(evs).registry ==> Run(evs).registry[id].timestamp <= evs[|evs| - 1].at
    decreases |evs|
  {
    var n := |evs|;
    var p := evs[..n - 1];
    ApplyStampsNowOrKeeps(Run(p), evs[n - 1]);
    if n > 1 {
      ClockOrderedPrefix(evs);
      TimestampsNotAhead(p);
      assert p[n - 2] == evs[n - 2];
    }
  }

  /** With a clock that does not run backwards, one more event never moves a
      record's timestamp backwards. */

  lemma StepNeverRewinds(st: State, e: Event, id: string)
    requires forall id' :: id' in st.registry ==> st.registry[id'].timestamp <= e.at
    requires id in st.registry && id in Apply(st, e).state.registry
    ensures st.registry[id].timestamp <= Apply(st, e).state.registry[id].timestamp
  {
    ApplyStampsNowOrKeeps(st, e);
  }

  /** With a clock that does not run backwards, the event that follows a
      history never moves the timestamp of a record it leaves in place
      backwards. */
  lemma {:induction false} TimestampMonotone(evs: seq<Event>, id: string)
    requires |evs| > 1 && ClockOrdered(evs)
    requires id in Run(evs[..|evs| - 1]).registry && id in Run(evs).registry
    ensures Run(evs[..|evs| - 1]).registry[id].timestamp <= Run(evs).registry[id].timestamp
  {
    ClockOrderedPrefix(evs);
    TimestampsNotAhead(evs[..|evs| - 1]);
    StepNeverRewinds(Run(evs[..|evs| - 1]), evs[|evs| - 1], id);
  }

  /** Once the last valid `update_pending` said true at time t, any sweep
      tick less than 3600 seconds after t does nothing. */
  lemma PendingUpdateSilencesSweeps(evs: seq<Event>, order: seq<string>, now: int, inventory: Fetched<Inventory>, updateInfo: Fetched<Document>)
    requires GateAfter(evs).status && now - GateAfter(evs).timestamp < SuppressionWindow
    ensures Apply(Run(evs), Tick(order, now, inventory, updateInfo)) == Step(Run(evs), [])
  {
    GateFollowsLastUpdate(evs);
    SuppressedTickIsSilent(Run(evs), order, now, inventory, updateInfo);
  }
}
