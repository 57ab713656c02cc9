/**
 * What a step of the watchdog hands to the outside world. Shell commands,
 * systemctl calls, the factory-reset script and MQTT publishes are all
 * represented by the action values they would perform.
 */
module Effects {
  import opened Wrappers
  import opened Values
  import opened Registry

  /** The topic the service publishes its own pings on (and listens to). */
  const HealthTopic: string := "avi/threat/health"

  /** The container id the service puts on its own pings. */
  const ManagementServiceId: string := "management_service"

  datatype Action =
    | RestartContainer(containerId: string)
    | StartContainer(containerId: string)
    | StopContainer(containerId: string)
    | StopService(serviceName: string)
    | StartService(serviceName: string)
    | RestoreFactorySettings
    | Publish(topic: string, payload: Document)

  /** The state after one step and the actions the step performed, in order. */
  datatype Step = Step(state: State, actions: seq<Action>)

  /** The body of the ping the service sends when it hears a heartbeat. */
  function PingMessage(now: int): (m: Document)
    ensures StringField(m, "command") == Some("ping")
    ensures StringField(m, "container_id") == Some(ManagementServiceId)
    ensures NumberField(m, "timestamp") == Some(now as real)
    ensures m.Keys == {"command", "timestamp", "container_id"}
  {
    map["command" := Str("ping"), "timestamp" := Num(now as real), "container_id" := Str(ManagementServiceId)]
  }
}
