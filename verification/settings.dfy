/** The agent's configuration: environment variables read once at import time. */
module Settings {
  import opened StatusRecord

  /** MONITORING_INTERVAL: seconds of polled sleep between cycles. */
  const MonitoringInterval := 30
  /** The hard-coded minimum number of seconds between two handled spikes. */
  const CooldownSeconds := 120
  /** The unpolled sleep after a cycle raised. */
  const ErrorBackoff := 10

  /**
   * threshold is int(CPU_THRESHOLD) (80 when unset), containerName is
   * CONTAINER_NAME ("test-container" when unset),
   * apiKeySet says whether OPENAI_API_KEY is set, promConnected whether the
   * start-up Prometheus probe succeeded (prom is not None).
   */
  datatype Config = Config(threshold: int, containerName: string, apiKeySet: bool, promConnected: bool)
  {
    /** The record update_ui_data writes for `update` at clock `now` while running == active. */
    function Stamp(update: Record, now: int, active: bool): Record {
      Merge(update, now, containerName, threshold, active)
    }
  }
}
