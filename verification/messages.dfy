/**
 * The MQTT command dispatcher: heartbeats, the update gate, history clearing
 * and the direct container/service commands. A message is the decoded JSON
 * payload, or None when the payload was not valid JSON.
 */
module Messages {
  import opened Wrappers
  import opened Values
  import opened Registry
  import opened Effects
  import opened Health

  /** The commands the dispatcher recognises. */
  const KnownCommands: set<string> := {
    "restart_container", "start_container", "stop_container", "clear_container_history",
    "ping", "update_pending", "stop_service", "start_service"
  }

  /** Commands that act on a container named by `container_id`. */
  const ContainerCommands: set<string> := {"restart_container", "start_container", "stop_container"}

  /** Commands that act on a system service named by `service_name`. */
  const ServiceCommands: set<string> := {"stop_service", "start_service"}

  /** The command table for the direct commands: which action each performs. */
  function DirectAction(command: string, target: string): (a: Action)
    requires command in ContainerCommands + ServiceCommands
    ensures command in ContainerCommands ==> (a.RestartContainer? || a.StartContainer? || a.StopContainer?) && a.containerId == target
    ensures command in ServiceCommands ==> (a.StopService? || a.StartService?) && a.serviceName == target
    ensures a.RestartContainer? <==> command == "restart_container"
    ensures a.StartContainer? <==> command == "start_container"
    ensures a.StopContainer? <==> command == "stop_container"
    ensures a.StopService? <==> command == "stop_service"
    ensures a.StartService? <==> command == "start_service"
  {
    match command
    case "restart_container" => RestartContainer(target)
    case "start_container" => StartContainer(target)
    case "stop_container" => StopContainer(target)
    case "stop_service" => StopService(target)
    case _ => StartService(target)
  }

  /** The field naming a direct command's target. */
  function TargetField(command: string): string {
    if command in ContainerCommands then "container_id" else "service_name"
  }

  /** The `command` field, when the payload decoded and the field is a string. */
  function CommandOf(msg: Option<Document>): (c: Option<string>)
    ensures c.Some? ==> msg.Some? && StringField(msg.value, "command") == c
    ensures msg.Some? ==> c == StringField(msg.value, "command")
  {
    match msg
    case None => None
    case Some(data) => StringField(data, "command")
  }

  /** The container a ping speaks for: its `container_id` when that is a
      string other than the service's own id. */
  function PingSender(data: Document): (id: Option<string>)
    ensures id.Some? <==> StringField(data, "container_id").Some? && StringField(data, "container_id").value != ManagementServiceId
    ensures id.Some? ==> StringField(data, "container_id") == id
  {
    match StringField(data, "container_id")
    case None => None
    case Some(id) => if id == ManagementServiceId then None else Some(id)
  }

  /** A record made by the first heartbeat; `bootTime` is whatever the map
      handed in holds under `boot_time_timestamp`. */
  function CreateNewContainerPingInfo(bootTime: Option<int>, now: int): (rec: Record)
    ensures rec.timestamp == now && !rec.isRestart
    ensures rec.bootTime == bootTime
  {
    Record(now, false, bootTime)
  }

  /** A record refreshed by a heartbeat: it is fresh and not restarting, and
      keeps its boot time unless the map handed in supplies one. */
  function UpdateContainerPingInfo(stored: Record, bootTime: Option<int>, now: int): (rec: Record)
    ensures rec.timestamp == now && !rec.isRestart
    ensures bootTime.None? ==> rec.bootTime == stored.bootTime
    ensures bootTime.Some? ==> rec.bootTime == bootTime
  {
    var refreshed := stored.(timestamp := now, isRestart := false);
    if bootTime.Some? then refreshed.(bootTime := bootTime) else refreshed
  }

  /** A heartbeat. The map the record helpers read a boot time from is the
      stored record (or, for a new container, nothing at all), never the
      message, so a boot time in the message is dropped. */
  function HandlePing(st: State, data: Document, now: int): (r: Step)
    ensures r.state.gate == st.gate
    ensures PingSender(data).None? ==> r == Step(st, [])
    ensures PingSender(data).Some? ==>
              var id := PingSender(data).value;
              && r.actions == [Publish(HealthTopic, PingMessage(now))]
              && r.state.registry.Keys == st.registry.Keys + {id}
              && r.state.registry[id].timestamp == now
              && !r.state.registry[id].isRestart
              && r.state.registry[id].bootTime == (if id in st.registry then st.registry[id].bootTime else None)
              && forall other :: other in st.registry && other != id ==> r.state.registry[other] == st.registry[other]
  {
    match StringField(data, "container_id")
    case None => Step(st, [])
    case Some(id) =>
      if id == ManagementServiceId then Step(st, [])
      else
        var ping := Publish(HealthTopic, PingMessage(now));
        if id in st.registry then
          var stored := st.registry[id];
          Step(st.(registry := st.registry[id := UpdateContainerPingInfo(stored, stored.bootTime, now)]), [ping])
        else
          Step(st.(registry := st.registry[id := CreateNewContainerPingInfo(None, now)]), [ping])
  }

  /** `update_pending`: a boolean `status` switches the gate, stamping it
      with `now` when on and 0 when off; anything else leaves it alone. */
  function UpdatePending(st: State, data: Document, now: int): (r: Step)
    ensures r.actions == [] && r.state.registry == st.registry
    ensures BoolField(data, "status").None? ==> r.state.gate == st.gate
    ensures BoolField(data, "status") == Some(true) ==> r.state.gate == Gate(true, now)
    ensures BoolField(data, "status") == Some(false) ==> r.state.gate == Gate(false, 0)
  {
    match BoolField(data, "status")
    case None => Step(st, [])
    case Some(status) =>
      Step(st.(gate := Gate(status, if status then now else 0)), [])
  }

  /** One inbound message. */
  function Dispatch(st: State, msg: Option<Document>, now: int): (r: Step)
    ensures |r.actions| <= 1
    // bad payloads, missing or unknown commands are no-ops
    ensures CommandOf(msg).None? ==> r == Step(st, [])
    ensures CommandOf(msg).Some? && CommandOf(msg).value !in KnownCommands ==> r == Step(st, [])
    // only update_pending touches the gate; only ping and clear touch the registry
    ensures CommandOf(msg) != Some("update_pending") ==> r.state.gate == st.gate
    ensures CommandOf(msg) != Some("ping") && CommandOf(msg) != Some("clear_container_history") ==> r.state.registry == st.registry
    // the direct commands follow the command table, or do nothing without a target
    ensures CommandOf(msg).Some? && CommandOf(msg).value in ContainerCommands + ServiceCommands ==>
              var command := CommandOf(msg).value;
              var target := StringField(msg.value, TargetField(command));
              && r.state == st
              && (target.None? ==> r.actions == [])
              && (target.Some? ==> r.actions == [DirectAction(command, target.value)])
    ensures CommandOf(msg) == Some("clear_container_history") ==> r.state.registry == map[] && r.actions == []
    ensures CommandOf(msg) == Some("ping") ==> r == HandlePing(st, msg.value, now)
    ensures CommandOf(msg) == Some("update_pending") ==> r == UpdatePending(st, msg.value, now)
  {
    match msg
    case None => Step(st, [])
    case Some(data) =>
      match StringField(data, "command")
      case None => Step(st, [])
      case Some(command) =>
        match command
        case "restart_container" =>
          (match StringField(data, "container_id")
           case None => Step(st, [])
           case Some(id) => Step(st, [RestartContainer(id)]))
        case "start_container" =>
          (match StringField(data, "container_id")
           case None => Step(st, [])
           case Some(id) => Step(st, [StartContainer(id)]))
        case "stop_container" =>
          (match StringField(data, "container_id")
           case None => Step(st, [])
           case Some(id) => Step(st, [StopContainer(id)]))
        case "clear_container_history" => Step(ClearContainerHistory(st), [])
        case "ping" => HandlePing(st, data, now)
        case "update_pending" => UpdatePending(st, data, now)
        case "stop_service" =>
          (match StringField(data, "service_name")
           case None => Step(st, [])
           case Some(name) => Step(st, [StopService(name)]))
        case "start_service" =>
          (match StringField(data, "service_name")
           case None => Step(st, [])
           case Some(name) => Step(st, [StartService(name)]))
        case _ => Step(st, [])
  }

  /** The service's own ping comes back on the topic it listens to and is
      ignored: dispatching the payload of any action a message produces
      changes nothing and publishes nothing. */
  lemma OwnPingIsIgnored(st: State, msg: Option<Document>, now: int, st': State, later: int)
    ensures forall a :: a in Dispatch(st, msg, now).actions && a.Publish? ==>
              a.topic == HealthTopic && Dispatch(st', Some(a.payload), later) == Step(st', [])
  {
  }

  /** A ping's outcome does not depend on any boot time it carries. */
  lemma PingBootTimeIgnored(st: State, data: Document, boot: Value, now: int)
    ensures HandlePing(st, data["boot_time_timestamp" := boot], now) == HandlePing(st, data, now)
  {
  }
}
