# OpsBot incident control loop, in Dafny

This project models the incident control loop of the OpsBot agent
(`DevOpsAgent/src/opsbot.py`) and proves properties about it.

The agent samples a CPU value and compares it with `THRESHOLD`. For a spike,
it gates handling with a hard-coded, strict 120-second cooldown.
Handling runs a fixed sequence:

1. publish "Analyzing...";
2. analyse the logs;
3. publish "Remediating...";
4. try to restart the container;
5. notify;
6. record the incident.

Every status write goes through `update_ui_data`, which merges the
timestamp, the container name, the threshold and the global `running` flag
into the caller's record.

The model has these modules, one per file:

- `StatusRecord` (status_record.dfy): the JSON status record and the merge of `update_ui_data`.
- `Settings` (settings.dfy): the environment-derived configuration (threshold 80 when unset) and the constants 30, 120 and 10.
- `CpuSampling` (cpu_sampling.dfy): the query loop and sanity check of `get_cpu_usage`, and the threshold decision of `monitor_cpu_once`.
- `LogAnalysis` (log_analysis.dfy): the 3000-character tail and the offline keyword classifier of `analyze_logs`.
- `IncidentHandling` (incident_handling.dfy): the events the agent makes visible, and the event sequence of `handle_cpu_spike`.
- `MonitoringCycle` (monitoring_cycle.dfy): one pass of the `while running` loop, as a function of the state before it and of what the outside world does during it.
- `MonitoringRun` (monitoring_run.dfy): the whole loop over a sequence of per-cycle inputs.
- `OpsBot` (opsbot.dfy): the agent as a class. Its fields are:
  - `running`;
  - `cycleCount` and `lastSpikeTime`;
  - the status file `status`;
  - the incident table `incidents`;
  - a `trace` of observable events.

  Its methods perform the steps of the source one by one. Each method is proved against the functions above.

The outside world is passed in as inputs, one `CycleInput` per cycle:

- the clock;
- the outcome of each Prometheus query and the simulated fallback value;
- the log file text or the error reading it;
- the chat model's reply or its error;
- whether `docker restart` succeeded;
- an unexpected exception and where it is raised;
- when the shutdown signal arrives.

The status file and the incident table are fields that the methods update.
The `Follows` predicate ties them to the trace: the status is the last
record published, and the table is the old table followed by the rows logged.

## Model

| member | source | states |
|---|---|---|
| StatusRecord.Merge | DevOpsAgent/src/opsbot.py:295-306 | The record written has the caller's keys plus the four stamped keys. `last_updated` is the clock, `container_name` is CONTAINER_NAME, `threshold` is THRESHOLD and `monitoring_active` is `running`. Every other key of the caller keeps its value. |
| StatusRecord.MergeOverridesActive | DevOpsAgent/src/opsbot.py:301-306 | A `monitoring_active` passed by the caller that differs from `running` is overwritten, and a "Stopped" phase survives the merge. |
| Settings.Config.Stamp | DevOpsAgent/src/opsbot.py:14-20 | Definition, no contract: update_ui_data's merge with the configuration's CONTAINER_NAME and THRESHOLD. The configuration also records whether OPENAI_API_KEY is set and whether the Prometheus probe succeeded. |
| CpuSampling.FirstSane | DevOpsAgent/src/opsbot.py:70-78 | None exactly when no query gives a reading with 0 <= v <= 100. Otherwise the result is the reading of the first query that passes, with every earlier query failing. |
| CpuSampling.CpuUsage | DevOpsAgent/src/opsbot.py:59-107 | The CPU value get_cpu_usage returns always lies in [0, 100]. |
| CpuSampling.GetCpuUsage | DevOpsAgent/src/opsbot.py:70-87 | The query loop returns the first sane reading when Prometheus is connected, and the fallback value otherwise. |
| CpuSampling.Observe | DevOpsAgent/src/opsbot.py:109-126 | Spike iff the sample exists and is strictly above the threshold. The record is "Spike Detected" iff spike, "Normal" iff sampled and not a spike, and "Monitoring Error" with cpu 0 iff sampling raised, in which case the result is (False, 0). |
| LogAnalysis.Tail | DevOpsAgent/src/opsbot.py:152-153 | The kept text is the last min(len, 3000) characters of the logs. |
| LogAnalysis.Lower | DevOpsAgent/src/opsbot.py:172-176 | Lower-casing keeps the length and lower-cases each character in place. |
| LogAnalysis.Classify | DevOpsAgent/src/opsbot.py:171-179 | The cause is one of the four known causes. Each cause is returned iff its keyword occurs in the lower-cased text and no earlier keyword does, in the order "worker processes", "memory pressure", "network connections", then the default. |
| LogAnalysis.AnalyzeLogs | DevOpsAgent/src/opsbot.py:129-186 | A log read error, or a chat error, becomes "Log analysis failed: " plus the message. With an API key and a reply, the result is the reply. Without an API key, the result is Classify applied to the last 3000 characters (Tail), one of the four known causes (Classify's contract). |
| LogAnalysis.OfflineAnalysisReadsOnlyTail | DevOpsAgent/src/opsbot.py:152-179 | Without an API key, log text older than the last 3000 characters never changes the analysis. |
| LogAnalysis.ClassifyRankMonotone | DevOpsAgent/src/opsbot.py:171-179 | More log text around the same lines can only move the cause up the priority order, never down. |
| IncidentHandling.HandlingOrder | DevOpsAgent/src/opsbot.py:315-343 | Handling is seven events in a fixed order: "Analyzing..." published, the analysis, "Remediating..." published, the restart attempt, and then the notification immediately followed by the incident row with cause, action, cpu and container. |
| IncidentHandling.HandlingHappensOnce | DevOpsAgent/src/opsbot.py:329-343 | One handled spike analyses, restarts, notifies and logs exactly once each. The single row logged carries the cause, the success or failure action text, the spike's cpu and the container name. |
| IncidentHandling.DisplayCounts | DevOpsAgent/src/opsbot.py:329-343 | Both shapes of the handling sequence hold exactly one event of each kind and log exactly the one row, whatever records they publish. |
| IncidentHandling.HandlingOutcome | DevOpsAgent/src/opsbot.py:315-343 | After a successful restart the status file is left at "Remediation Complete" with cpu 25.0. After a failed one it is left at "Intervention Needed" with the spike's cpu. |
| IncidentHandling.OpeningEvents | DevOpsAgent/src/opsbot.py:319-326 | Definition, no contract: the opening of handle_cpu_spike, which is "Analyzing..." with the spike's cpu, the analysis, then "Remediating..." with the spike's cpu. |
| IncidentHandling.RemediationEvents | DevOpsAgent/src/opsbot.py:219-223 | Definition, no contract: the restart attempt, followed by "Remediation Complete" with cpu 25.0 only when it succeeded. |
| IncidentHandling.ClosingEvents | DevOpsAgent/src/opsbot.py:329-343 | Definition, no contract: the notification and the incident row with the success or failure action, followed by "Intervention Needed" only after a failure. |
| IncidentHandling.HandlingEvents | DevOpsAgent/src/opsbot.py:315-343 | Definition, no contract: the events of one handle_cpu_spike call, which are the three pieces above in order. HandlingOrder, HandlingHappensOnce and HandlingOutcome prove its order, counts and final record. |
| MonitoringCycle.SampledValue | DevOpsAgent/src/opsbot.py:109-112 | The value compared with the threshold, when there is one, lies in [0, 100]. |
| MonitoringCycle.CooldownElapsed | DevOpsAgent/src/opsbot.py:363 | Definition, no contract: the strict, hard-coded test `now - last_spike_time > 120`. CycleHandlesOnlyAfterCooldown proves that handling happens exactly when it holds for a spike. |
| MonitoringCycle.SpikeResponse | DevOpsAgent/src/opsbot.py:360-368 | Definition, no contract: the `if spike_detected` branch. Without a spike it does nothing. When the cooldown has elapsed it handles the spike and then sets last_spike_time, or raises at the end of handling. Otherwise it publishes "Cooldown" with the cpu. |
| MonitoringCycle.ObservedCycle | DevOpsAgent/src/opsbot.py:358-368 | Definition, no contract: the record monitor_cpu_once publishes, followed by SpikeResponse for its decision and cpu. |
| MonitoringCycle.CycleSpec | DevOpsAgent/src/opsbot.py:353-388 | Definition, no contract: one pass of the loop up to its sleep. A fault at the start gives only the "Agent Error" record. Otherwise it is ObservedCycle, followed by "Agent Error" if a fault strikes before the wait. The lemmas of this module and MonitoringRun prove its properties. |
| MonitoringCycle.CycleErrorReported | DevOpsAgent/src/opsbot.py:385-387 | A cycle raises exactly when a fault strikes at its start, before its wait, or at the end of a handle_cpu_spike it ran. Its last record is then "Agent Error", carrying the exception's message under "error". |
| MonitoringCycle.ErrorRecord | DevOpsAgent/src/opsbot.py:385-387 | The record the exception handler publishes has status "Agent Error" and holds the exception's message under "error"; stamping does not overwrite either key. |
| MonitoringCycle.CycleHandlesOnlyAfterCooldown | DevOpsAgent/src/opsbot.py:358-368 | A cycle runs handle_cpu_spike iff it samples a value strictly above the threshold and now - last_spike_time > 120. It then analyses, restarts, notifies and logs exactly once each. Otherwise it does none of these and only publishes. |
| MonitoringCycle.CooldownCycle | DevOpsAgent/src/opsbot.py:360-368 | A spike inside the window leaves last_spike_time unchanged, only publishes, and leaves "Cooldown" with the sampled cpu as the last record. |
| MonitoringCycle.SpikeTimeChangesOnlyWhenHandled | DevOpsAgent/src/opsbot.py:362-365 | last_spike_time changes only in a handling cycle and becomes that cycle's clock. A handling cycle that does not raise always sets it. A new value is more than 120 seconds after the old one. |
| MonitoringCycle.RaisingHandlerLeavesWindowOpen | DevOpsAgent/src/opsbot.py:363-388 | As written, when handle_cpu_spike raises at its end, last_spike_time is not set, so the same spike one second later is handled again inside the 120-second window. |
| MonitoringCycle.GappedPairwise | DevOpsAgent/src/opsbot.py:362-365 | In a gapped sequence of cooldown starts, any two starts differ by more than 120 seconds, not only neighbours. |
| MonitoringCycle.WaitSeconds | DevOpsAgent/src/opsbot.py:377-380 | The polled sleep lasts at most 30 seconds. It lasts 0 seconds when `running` is already cleared. It ends at the second the signal arrives, and lasts the full 30 seconds when no signal arrives within them. |
| MonitoringCycle.StopsDuringWait | DevOpsAgent/src/opsbot.py:377-388 | Definition, no contract: the signal arrives during the cycle's sleep. That is the polled 30 seconds after a normal cycle, or the unpolled 10-second back-off after one that raised. |
| MonitoringCycle.RunsOn | DevOpsAgent/src/opsbot.py:352-388 | Definition, no contract: `running` still holds after a cycle that started running, because no signal arrived during its sleep. Agent.Cycle proves that `running` ends equal to it. |
| MonitoringCycle.CycleLogsAtMostOnce | DevOpsAgent/src/opsbot.py:358-368 | A cycle inserts one incident row if it passes the cooldown gate with a spike, and none otherwise. |
| MonitoringRun.Run | DevOpsAgent/src/opsbot.py:352-388 | The loop runs at most one cycle per input. It is still running at the end only if it started running and used every input. It runs no cycle and changes nothing when `running` starts cleared. |
| MonitoringRun.ChainedRun | DevOpsAgent/src/opsbot.py:352-388 | Cycles run one after another, each while `running` held and from the last_spike_time its predecessor left, until `running` is cleared or the inputs run out. Such cycles make up exactly the whole loop. |
| MonitoringRun.CycleLogsOnce | DevOpsAgent/src/opsbot.py:358-368 | Every cycle of the agent inserts at most one incident row. |
| MonitoringRun.RunLogsAtMostOncePerCycle | DevOpsAgent/src/opsbot.py:345-390 | A loop whose cycles each insert at most one incident row inserts at most one row per cycle it runs. |
| MonitoringRun.ErrorCycleContinues | DevOpsAgent/src/opsbot.py:385-388 | After a cycle that raised, the loop goes on: unless the signal comes within the ten-second back-off, the next input runs another cycle from the last_spike_time the failed cycle left, and the run's events continue with it. |
| MonitoringRun.CycleKeepsGap | DevOpsAgent/src/opsbot.py:362-365 | Every cycle leaves last_spike_time unchanged or moves it more than 120 seconds forward. |
| MonitoringRun.StartsGapped | DevOpsAgent/src/opsbot.py:349-365 | For any cycle that leaves last_spike_time unchanged or moves it more than 120 seconds forward, the values a run assigns form a gapped sequence, and its last element is where the run leaves last_spike_time. |
| MonitoringRun.RunCooldownWindowsGapped | DevOpsAgent/src/opsbot.py:349-365 | Over a whole run, each value assigned to last_spike_time is more than 120 seconds after the previous one, starting from its initial value (0 in continuous_monitoring), and the last value is the one the run leaves. With GappedPairwise, the clocks of any two spikes whose handling set last_spike_time differ by more than 120 seconds. |
| OpsBot.Agent.constructor | DevOpsAgent/src/opsbot.py:29-30 | The agent starts with `running` set, cycle_count and last_spike_time at 0, and an empty trace. |
| OpsBot.Agent.Stop | DevOpsAgent/src/opsbot.py:32-35 | The signal handler clears `running`. |
| OpsBot.Agent.Publish | DevOpsAgent/src/opsbot.py:295-310 | The status file becomes the merged record, stamped with the current `running`, and the write is appended to the trace. |
| OpsBot.Agent.AnalyzeLogs | DevOpsAgent/src/opsbot.py:129-186 | Returns the analysis of the log text and the chat reply, and records it in the trace. |
| OpsBot.Agent.Remediate | DevOpsAgent/src/opsbot.py:189-230 | Returns whether the restart succeeded. Only on success does it write "Remediation Complete" with cpu 25.0; on failure the status is unchanged. |
| OpsBot.Agent.Notify | DevOpsAgent/src/opsbot.py:233-258 | One notification with the cause and the action text is appended to the trace. |
| OpsBot.Agent.LogIncident | DevOpsAgent/src/opsbot.py:261-292 | Exactly one row with cause, action, cpu and CONTAINER_NAME is appended to the table and to the trace. |
| OpsBot.Agent.MonitorOnce | DevOpsAgent/src/opsbot.py:109-126 | Returns the spike decision and cpu of Observe for the sampled value, and publishes its record. |
| OpsBot.Agent.OpenIncident | DevOpsAgent/src/opsbot.py:319-326 | Publishes "Analyzing...", analyses, then publishes "Remediating...", and leaves the status file at "Remediating...". |
| OpsBot.Agent.CloseIncident | DevOpsAgent/src/opsbot.py:329-343 | Notifies, appends exactly one row with the success or failure action, and writes "Intervention Needed" only after a failure. |
| OpsBot.Agent.HandleCpuSpike | DevOpsAgent/src/opsbot.py:315-343 | Returns whether the restart succeeded. It appends exactly the handling events, and the status file and table end as those events leave them. |
| OpsBot.Agent.Wait | DevOpsAgent/src/opsbot.py:377-380 | Sleeps WaitSeconds seconds, polling `running` every second. `running` is cleared iff the signal arrives within the 30 seconds. |
| OpsBot.Agent.Backoff | DevOpsAgent/src/opsbot.py:388 | During the unpolled 10-second sleep, `running` is cleared iff the signal arrives within it. |
| OpsBot.Agent.ReportError | DevOpsAgent/src/opsbot.py:385-387 | Publishes "Agent Error" with the message; the table is untouched. |
| OpsBot.Agent.CheckSpike | DevOpsAgent/src/opsbot.py:360-368 | Matches SpikeResponse: nothing without a spike; handling after the cooldown; otherwise "Cooldown" with the cpu. The trace, status, table and last_spike_time all change accordingly. |
| OpsBot.Agent.HandleSpike | DevOpsAgent/src/opsbot.py:363-365 | Handles the spike, then sets last_spike_time to the clock, unless the handler raised at its end. In that case "Agent Error" is published and last_spike_time is kept. |
| OpsBot.Agent.ObserveAndCheck | DevOpsAgent/src/opsbot.py:358-368 | The sample's record is published, then the spike check runs, as ObservedCycle states. |
| OpsBot.Agent.Work | DevOpsAgent/src/opsbot.py:353-388 | One cycle's `try` and its handler, as CycleSpec states: the trace, the status file, the table, last_spike_time, whether it raised, and cycle_count incremented. |
| OpsBot.Agent.Cycle | DevOpsAgent/src/opsbot.py:352-388 | One loop pass as CycleSpec states. Afterwards `running` still holds iff the signal did not arrive during the sleep or the back-off. |
| OpsBot.Agent.Advance | DevOpsAgent/src/opsbot.py:352-388 | A pass run while `running` holds extends the chain of cycles run so far by exactly one cycle, and keeps cycle_count, `running`, last_spike_time, the trace and the status file in step with it. |
| OpsBot.Agent.MonitoringLoop | DevOpsAgent/src/opsbot.py:352-388 | The `while running` loop ends with `running` cleared or every input used. The cycles it ran are chained, and the trace, status file and table are their events applied in order. |
| OpsBot.Agent.ContinuousMonitoring | DevOpsAgent/src/opsbot.py:345-390 | From cycle_count 0 and last_spike_time 0, the state after the loop is exactly Run's. The table grows by at most one row per cycle. |
| OpsBot.Agent.Start | DevOpsAgent/src/opsbot.py:393-406 | Publishes "Initializing..." with cpu 0.0. After a startup error it publishes "Fatal Error" with the message, which becomes the status; the incident log, cycle_count and last_spike_time are unchanged. Otherwise it runs continuous_monitoring: the status and incident log follow from "Initializing..." and the run's events, and cycle_count and last_spike_time are the run's. |
| OpsBot.Agent.RunAgent | DevOpsAgent/src/opsbot.py:392-410 | The last record published is always "Stopped". Its monitoring_active is `running` at that moment, not the False the caller passes; after a fatal startup error that is still true. The incident log is unchanged after a startup error, and otherwise is extended by exactly the incidents the run logged; cycle_count and last_spike_time are the run's. |

## Left out

- `DevOpsAgent/src/ui.py` (the Streamlit dashboard) is not part of this model. It is not read-only: its "Simulate Spike" button overwrites data/ui_data.json with its own record (ui.py:457-469), and its "Restart Container" button runs `docker restart` (ui.py:440-445). The agent's `status` and `Follows` describe only the agent's own writes; another process may replace the file between two of them, and an outside restart is not an input of the model.
- Prometheus, the OpenAI chat call, `docker restart`/`docker ps`, the Slack post, sqlite and the JSON file writes are foreign I/O. They enter as per-cycle inputs: query outcomes, the log text or its error, the reply or its error, and the restart result. Their effects are recorded as trace events.
- The start-up Prometheus probe (lines 49-57) is the configuration flag `promConnected`.
- Environment variables are read once into `Config`.
- Failures swallowed inside `update_ui_data`, `notify` and `log_incident` are not modelled. Every write, notification and insert is taken to succeed.
- CpuSampling.CpuUsage: the random and sine-based simulation (lines 80-107) is an arbitrary input in [5, 95], which covers all three simulated paths.
- CpuSampling.CpuUsage: the simulation's `max(5, min(95, ...))` (line 107) returns the int `5` whenever the simulated sum is at most 5. The source then writes `"cpu_usage": 5` in the records that carry that value, where the model writes the real 5.0, because the model carries every sampled value as a real.
- `time.time()`, `time.ctime()` and `time.sleep`: there is one integer clock per cycle, and `last_updated` and the incident timestamp hold that number rather than a ctime string.
- The five-second sleep in `remediate` is not modelled. A signal is modelled by the second of the cycle's sleep in which it arrives.
- MonitoringCycle.CycleSpec: a signal that arrives while a cycle works is modelled as arriving at the start of its sleep, and every record of the cycle is stamped with the `running` the cycle started with. In the source, `update_ui_data` reads `running` on every write (line 305). So a signal during the work makes each later record of that cycle carry `monitoring_active: false`: for example "Remediation Complete" after the five-second sleep at line 219, "Intervention Needed", "Cooldown" or "Agent Error". The model does not capture this.
- LogAnalysis.Lower: lower-cases ASCII letters only; `str.lower()` on other characters is not modelled.
- The `.strip()` of the chat reply is folded into the reply input.
- Creating the sample log file when none exists is folded into the log-text input.
- The `except KeyboardInterrupt` branch (lines 382-384) is not modelled. With the SIGINT handler installed, Ctrl-C clears `running` instead of raising.
- An exception escaping `continuous_monitoring` itself, past its own handler, is modelled only as the start-up error of the `__main__` `try`.
- Unexpected exceptions inside a cycle are modelled at three points:
  - right after cycle_count is incremented;
  - at the end of `handle_cpu_spike`;
  - just before the sleep.
- `print` output, the every-fifth-cycle message and the Slack message text are not modelled. The notification event carries only the cause and the action.
- MonitoringRun.Run: the loop is bounded by the inputs supplied, so a run that never stops is modelled by its finite prefixes.
- OpsBot.Agent.RunAgent: when the supplied inputs run out while `running` still holds, the model publishes "Stopped" with `monitoring_active: true`. The source never does that after a normal return, because `continuous_monitoring` returns only once `running` is False (line 352); only a fatal start-up error leads to "Stopped" with true.
