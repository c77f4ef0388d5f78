/**
 * The status record the agent writes to data/ui_data.json for the dashboard
 * (update_ui_data in opsbot.py).
 */
module StatusRecord {

  /** The JSON values a status record holds. Python writes `0` and `0.0`
      differently; where a call site passes a literal, the model keeps its kind. */
  datatype Json = JStr(s: string) | JInt(i: int) | JReal(r: real) | JBool(b: bool)

  /** A Python dict of the record, keyed by its JSON field names. */
  type Record = map<string, Json>

  const StatusKey := "status"
  const CpuKey := "cpu_usage"
  const ErrorKey := "error"
  const LastUpdatedKey := "last_updated"
  const ContainerKey := "container_name"
  const ThresholdKey := "threshold"
  const ActiveKey := "monitoring_active"

  /** The keys update_ui_data writes over whatever the caller passed. */
  const StampedKeys: set<string> := {LastUpdatedKey, ContainerKey, ThresholdKey, ActiveKey}

  // The phases the agent publishes under "status".
  const Initializing := "Initializing..."
  const SpikeDetected := "Spike Detected"
  const Normal := "Normal"
  const MonitoringError := "Monitoring Error"
  const Analyzing := "Analyzing..."
  const Remediating := "Remediating..."
  const RemediationComplete := "Remediation Complete"
  const InterventionNeeded := "Intervention Needed"
  const Cooldown := "Cooldown"
  const AgentError := "Agent Error"
  const FatalError := "Fatal Error"
  const Stopped := "Stopped"

  /** The record most call sites pass: {"cpu_usage": cpu, "status": phase}. */
  function StatusUpdate(phase: string, cpu: Json): Record {
    map[CpuKey := cpu, StatusKey := JStr(phase)]
  }

  /** The record the error handlers pass: {"status": phase, "error": str(e)}. */
  function ErrorUpdate(phase: string, message: string): Record {
    map[StatusKey := JStr(phase), ErrorKey := JStr(message)]
  }

  predicate HasPhase(r: Record, phase: string) {
    StatusKey in r && r[StatusKey] == JStr(phase)
  }

  /**
   * data.update({...}) in update_ui_data: the caller's record with the
   * timestamp, container name, threshold and the current value of the global
   * `running` flag written over it; every other key of the caller survives.
   */
  function Merge(data: Record, now: int, container: string, threshold: int, active: bool): (r: Record)
    ensures r.Keys == data.Keys + StampedKeys
    ensures r[LastUpdatedKey] == JInt(now) && r[ContainerKey] == JStr(container)
    ensures r[ThresholdKey] == JInt(threshold) && r[ActiveKey] == JBool(active)
    ensures forall k :: k in data && k !in StampedKeys ==> r[k] == data[k]
  {
    data + map[LastUpdatedKey := JInt(now), ContainerKey := JStr(container),
               ThresholdKey := JInt(threshold), ActiveKey := JBool(active)]
  }

  /** Whatever monitoring_active the caller passes, the record carries `active`. */
  lemma MergeOverridesActive(data: Record, now: int, container: string, threshold: int, active: bool)
    requires ActiveKey in data && data[ActiveKey] != JBool(active)
    ensures Merge(data, now, container, threshold, active)[ActiveKey] != data[ActiveKey]
    ensures HasPhase(data, Stopped) ==> HasPhase(Merge(data, now, container, threshold, active), Stopped)
  {
  }
}
