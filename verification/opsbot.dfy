/**
 * The agent of opsbot.py as a class: the global `running` flag, the locals
 * cycle_count and last_spike_time of continuous_monitoring, the dashboard
 * status file, the incidents table, and the trace of everything the agent
 * did that the outside world can see.
 */
module OpsBot {
  import opened Wrappers
  import opened StatusRecord
  import opened Settings
  import opened CpuSampling
  import LogAnalysis
  import opened IncidentHandling
  import opened MonitoringCycle
  import opened MonitoringRun

  /**
   * The status file and the incident table after `events`, from `status` and
   * `incidents`: the last record published, and the rows logged appended.
   */
  ghost predicate Follows(status': Record, incidents': seq<Incident>, status: Record, incidents: seq<Incident>, events: seq<Event>) {
    status' == LastRecord(events, status) && incidents' == incidents + LoggedIncidents(events)
  }

  lemma FollowsAppend(s0: Record, i0: seq<Incident>, s1: Record, i1: seq<Incident>, s2: Record, i2: seq<Incident>,
                      a: seq<Event>, b: seq<Event>)
    requires Follows(s1, i1, s0, i0, a)
    ensures Follows(s2, i2, s1, i1, b) <==> Follows(s2, i2, s0, i0, a + b)
  {
    LastRecordAppend(a, b, s0);
    LoggedIncidentsAppend(a, b);
  }

  /** The status file and the table after handle_cpu_spike, as its events leave them. */
  lemma FollowsHandling(c: Config, active: bool, now: int, cpu: real, cause: string, restarted: bool,
                        status: Record, incidents: seq<Incident>, status': Record, incidents': seq<Incident>)
    requires restarted ==> status' == c.Stamp(StatusUpdate(RemediationComplete, JReal(RestartedCpu)), now, active)
    requires !restarted ==> status' == c.Stamp(StatusUpdate(InterventionNeeded, JReal(cpu)), now, active)
    requires incidents' == incidents + [Incident(cause, ActionFor(restarted, c.containerName), cpu, c.containerName, now)]
    ensures Follows(status', incidents', status, incidents, HandlingEvents(c, active, now, cpu, cause, restarted))
  {
    HandlingOutcome(c, active, now, cpu, cause, restarted, status);
    HandlingHappensOnce(c, active, now, cpu, cause, restarted);
  }

  /**
   * Regrouping a trace extension. Stated as lemmas so that the methods below
   * call them instead of asserting the equation among their heap facts,
   * which costs far more solver work there.
   */
  lemma Join(t: seq<Event>, a: seq<Event>, b: seq<Event>, c: seq<Event>)
    ensures t + a + b + c == t + (a + b + c)
  {
  }

  lemma Assoc(a: seq<Event>, b: seq<Event>, c: seq<Event>)
    ensures a + b + c == a + (b + c)
  {
  }

  class Agent {
    const config: Config
    /** The global flag the signal handler clears. */
    var running: bool
    var cycleCount: nat
    var lastSpikeTime: int
    /** The content of data/ui_data.json. */
    var status: Record
    /** The rows of the incidents table of data/incidents.db. */
    var incidents: seq<Incident>
    var trace: seq<Event>
    /** Import of opsbot.py: `running = True`; the status file and the table
        may hold what an earlier run left. */
    constructor (config: Config, statusFile: Record, table: seq<Incident>)
      ensures this.config == config && running && cycleCount == 0 && lastSpikeTime == 0
      ensures status == statusFile && incidents == table && trace == []
    {
      this.config := config;
      running := true;
      cycleCount := 0;
      lastSpikeTime := 0;
      status := statusFile;
      incidents := table;
      trace := [];
    }

    /** signal_handler: SIGINT and SIGTERM clear `running`. */
    method Stop()
      modifies this`running
      ensures !running
    {
      running := false;
    }

    /** update_ui_data: the merged record replaces the whole status file. */
    method Publish(update: Record, now: int)
      modifies this`status, this`trace
      ensures status == config.Stamp(update, now, running)
      ensures trace == old(trace) + [Published(status)]
    {
      status := Merge(update, now, config.containerName, config.threshold, running);
      trace := trace + [Published(status)];
    }

    /** analyze_logs, with the file contents and the chat reply as inputs. */
    method AnalyzeLogs(logs: Result<string, string>, reply: Result<string, string>) returns (cause: string)
      modifies this`trace
      ensures cause == LogAnalysis.AnalyzeLogs(config.apiKeySet, logs, reply)
      ensures trace == old(trace) + [Analyzed(cause)]
    {
      cause := LogAnalysis.AnalyzeLogs(config.apiKeySet, logs, reply);
      trace := trace + [Analyzed(cause)];
    }

    /** remediate: `restarted` says whether the docker calls succeeded; on
        success the dashboard shows "Remediation Complete" with cpu 25.0. */
    method Remediate(restarted: bool, now: int) returns (ok: bool)
      modifies this`status, this`trace
      ensures ok == restarted
      ensures status == if restarted then config.Stamp(StatusUpdate(RemediationComplete, JReal(RestartedCpu)), now, running)
                        else old(status)
      ensures trace == old(trace) + RemediationEvents(config, running, now, restarted)
    {
      trace := trace + [Remediated(restarted)];
      if restarted {
        Publish(StatusUpdate(RemediationComplete, JReal(RestartedCpu)), now);
      }
      ok := restarted;
    }

    /** notify: the Slack post or its console stand-in; failures are swallowed. */
    method Notify(cause: string, action: string)
      modifies this`trace
      ensures trace == old(trace) + [Notified(cause, action)]
    {
      trace := trace + [Notified(cause, action)];
    }

    /** log_incident: one row with the cause, the action, the cpu and the container. */
    method LogIncident(cause: string, action: string, cpu: real, now: int)
      modifies this`incidents, this`trace
      ensures var row := Incident(cause, action, cpu, config.containerName, now);
        incidents == old(incidents) + [row] && trace == old(trace) + [Logged(row)]
    {
      var row := Incident(cause, action, cpu, config.containerName, now);
      incidents := incidents + [row];
      trace := trace + [Logged(row)];
    }

    /** monitor_cpu_once: sample, compare with the threshold, publish. */
    method MonitorOnce(sample: Sample, now: int) returns (spike: bool, cpu: real)
      modifies this`status, this`trace
      ensures var obs := Observe(SampledValue(config, sample), config.threshold);
        && spike == obs.spike && cpu == obs.cpu
        && status == config.Stamp(obs.update, now, running)
        && trace == old(trace) + [Published(status)]
    {
      var value: Option<real> := None;
      if sample.Sampled? {
        var v := GetCpuUsage(config.promConnected, sample.outcomes, sample.simulated);
        value := Some(v);
      }
      var obs := Observe(value, config.threshold);
      Publish(obs.update, now);
      spike, cpu := obs.spike, obs.cpu;
    }

    /** The opening of handle_cpu_spike: "Analyzing...", the analysis, "Remediating...". */
    method OpenIncident(cpu: real, now: int, logs: Result<string, string>, reply: Result<string, string>)
      returns (cause: string)
      modifies this`status, this`trace
      ensures cause == LogAnalysis.AnalyzeLogs(config.apiKeySet, logs, reply)
      ensures status == config.Stamp(StatusUpdate(Remediating, JReal(cpu)), now, running)
      ensures trace == old(trace) + OpeningEvents(config, running, now, cpu, cause)
    {
      ghost var t0 := trace;
      Publish(StatusUpdate(Analyzing, JReal(cpu)), now);
      cause := AnalyzeLogs(logs, reply);
      Publish(StatusUpdate(Remediating, JReal(cpu)), now);
      assert t0 + [Published(config.Stamp(StatusUpdate(Analyzing, JReal(cpu)), now, running))] + [Analyzed(cause)]
                + [Published(status)] == t0 + OpeningEvents(config, running, now, cpu, cause);
    }

    /** The close of handle_cpu_spike: notification, incident row, and "Intervention Needed" on failure. */
    method CloseIncident(cause: string, cpu: real, now: int, ok: bool)
      modifies this`status, this`trace, this`incidents
      ensures status == if ok then old(status) else config.Stamp(StatusUpdate(InterventionNeeded, JReal(cpu)), now, running)
      ensures incidents == old(incidents) + [Incident(cause, ActionFor(ok, config.containerName), cpu, config.containerName, now)]
      ensures trace == old(trace) + ClosingEvents(config, running, now, cpu, cause, ok)
    {
      var action := ActionFor(ok, config.containerName);
      Notify(cause, action);
      LogIncident(cause, action, cpu, now);
      if !ok {
        Publish(StatusUpdate(InterventionNeeded, JReal(cpu)), now);
      }
    }

    /** handle_cpu_spike: publish, analyse, publish, restart, notify, log. */
    method HandleCpuSpike(cpu: real, now: int, logs: Result<string, string>, reply: Result<string, string>, restarted: bool)
      returns (resolved: bool)
      modifies this`status, this`trace, this`incidents
      ensures resolved == restarted
      ensures var events := HandlingEvents(config, running, now, cpu,
                                           LogAnalysis.AnalyzeLogs(config.apiKeySet, logs, reply), restarted);
        && trace == old(trace) + events
        && Follows(status, incidents, old(status), old(incidents), events)
    {
      ghost var t0 := trace;
      var cause := OpenIncident(cpu, now, logs, reply);
      var ok := Remediate(restarted, now);
      CloseIncident(cause, cpu, now, ok);
      resolved := ok;
      Join(t0, OpeningEvents(config, running, now, cpu, cause), RemediationEvents(config, running, now, restarted),
           ClosingEvents(config, running, now, cpu, cause, ok));
      FollowsHandling(config, running, now, cpu, cause, restarted, old(status), old(incidents), status, incidents);
    }

    /**
     * The polled sleep of a cycle: up to 30 one-second sleeps, leaving early
     * once `running` is cleared; the signal, if it comes in this window,
     * arrives `signal.value` seconds in.
     */
    method Wait(signal: Option<nat>) returns (seconds: nat)
      modifies this`running
      ensures seconds == WaitSeconds(old(running), signal)
      ensures running == (old(running) && !StopsDuringWait(false, signal))
    {
      if signal == Some(0) {
        Stop();
      }
      seconds := 0;
      while seconds < MonitoringInterval
        invariant seconds <= MonitoringInterval
        invariant seconds <= WaitSeconds(old(running), signal)
        invariant running == (old(running) && !(signal.Some? && signal.value <= seconds))
      {
        if !running {
          break;
        }
        // time.sleep(1), during which the handler may run
        if signal == Some(seconds + 1) {
          Stop();
        }
        seconds := seconds + 1;
      }
    }

    /** The exception handler's unpolled ten-second sleep. */
    method Backoff(signal: Option<nat>)
      modifies this`running
      ensures running == (old(running) && !StopsDuringWait(true, signal))
    {
      if signal.Some? && signal.value <= ErrorBackoff {
        Stop();
      }
    }

    /** The exception handler of a cycle: publish "Agent Error" with the message. */
    method ReportError(msg: string, now: int)
      modifies this`status, this`trace
      ensures var e := ErrorEvent(config, running, now, msg);
        && trace == old(trace) + [e]
        && Follows(status, incidents, old(status), old(incidents), [e])
    {
      Publish(ErrorUpdate(AgentError, msg), now);
      OneEvent(ErrorEvent(config, running, now, msg), old(status));
    }

    /** The spike check of a cycle: handle the spike, or publish "Cooldown" inside the window. */
    method CheckSpike(input: CycleInput, spike: bool, cpu: real) returns (raised: bool)
      modifies this`status, this`trace, this`incidents, this`lastSpikeTime
      ensures var r := SpikeResponse(config, running, old(lastSpikeTime), input, spike, cpu);
        && trace == old(trace) + r.events
        && Follows(status, incidents, old(status), old(incidents), r.events)
        && lastSpikeTime == r.lastSpikeTime
        && raised == r.raised
    {
      raised := false;
      if !spike {
        assert trace + [] == trace && incidents + [] == incidents;
        return;
      }
      if input.now - lastSpikeTime > CooldownSeconds {
        HandleSpike(input, cpu);
        raised := input.fault.AtHandlerEnd?;
      } else {
        Publish(StatusUpdate(Cooldown, JReal(cpu)), input.now);
        OneEvent(Published(status), old(status));
      }
    }

    /** A spike outside the cooldown window: handle it, then either record its time or raise. */
    method HandleSpike(input: CycleInput, cpu: real)
      requires input.now - lastSpikeTime > CooldownSeconds
      modifies this`status, this`trace, this`incidents, this`lastSpikeTime
      ensures var r := SpikeResponse(config, running, old(lastSpikeTime), input, true, cpu);
        && trace == old(trace) + r.events
        && Follows(status, incidents, old(status), old(incidents), r.events)
        && lastSpikeTime == r.lastSpikeTime
    {
      var _ := HandleCpuSpike(cpu, input.now, input.logs, input.reply, input.restarted);
      if input.fault.AtHandlerEnd? {
        label Handled:
        ReportError(input.fault.msg, input.now);
        ghost var handling := HandlingEvents(config, running, input.now, cpu,
                                             LogAnalysis.AnalyzeLogs(config.apiKeySet, input.logs, input.reply), input.restarted);
        ghost var err := [ErrorEvent(config, running, input.now, input.fault.msg)];
        Assoc(old(trace), handling, err);
        FollowsAppend(old(status), old(incidents), old@Handled(status), old@Handled(incidents), status, incidents, handling, err);
      } else {
        lastSpikeTime := input.now;
        ghost var handling := HandlingEvents(config, running, input.now, cpu,
                                             LogAnalysis.AnalyzeLogs(config.apiKeySet, input.logs, input.reply), input.restarted);
        assert handling + HandlerTail(config, running, input) == handling;
      }
    }

    /** The cycle's `try` from monitor_cpu_once through the spike check. */
    method ObserveAndCheck(input: CycleInput) returns (raised: bool)
      modifies this`status, this`trace, this`incidents, this`lastSpikeTime
      ensures var o := ObservedCycle(config, running, old(lastSpikeTime), input);
        && trace == old(trace) + o.events
        && Follows(status, incidents, old(status), old(incidents), o.events)
        && lastSpikeTime == o.lastSpikeTime
        && raised == o.raised
    {
      var spike, cpu := MonitorOnce(input.sample, input.now);
      label Observed:
      raised := CheckSpike(input, spike, cpu);
      ghost var first := [Published(old@Observed(status))];
      ghost var check := SpikeResponse(config, running, old(lastSpikeTime), input, spike, cpu).events;
      OneEvent(first[0], old(status));
      FollowsAppend(old(status), old(incidents), old@Observed(status), old@Observed(incidents), status, incidents, first, check);
      Assoc(old(trace), first, check);
    }

    /** The body of one cycle's `try`, with its exception handler, up to the sleep. */
    method Work(input: CycleInput) returns (raised: bool)
      modifies this`cycleCount, this`status, this`trace, this`incidents, this`lastSpikeTime
      ensures var out := CycleSpec(config, running, old(lastSpikeTime), input);
        && trace == old(trace) + out.events
        && Follows(status, incidents, old(status), old(incidents), out.events)
        && lastSpikeTime == out.lastSpikeTime
        && raised == out.raised
      ensures cycleCount == old(cycleCount) + 1
    {
      cycleCount := cycleCount + 1;
      if input.fault.AtCycleStart? {
        ReportError(input.fault.msg, input.now);
        return true;
      }
      raised := ObserveAndCheck(input);
      if !raised && input.fault.BeforeWait? {
        label Checked:
        raised := true;
        ReportError(input.fault.msg, input.now);
        ghost var o := ObservedCycle(config, running, old(lastSpikeTime), input).events;
        ghost var err := [ErrorEvent(config, running, input.now, input.fault.msg)];
        Assoc(old(trace), o, err);
        FollowsAppend(old(status), old(incidents), old@Checked(status), old@Checked(incidents), status, incidents, o, err);
      } else {
        ghost var o := ObservedCycle(config, running, old(lastSpikeTime), input).events;
        assert o + LateTail(config, running, input, raised) == o;
      }
    }

    /** One pass of the `while running` loop of continuous_monitoring. */
    method Cycle(input: CycleInput)
      modifies this`running, this`cycleCount, this`status, this`trace, this`incidents, this`lastSpikeTime
      ensures var out := CycleSpec(config, old(running), old(lastSpikeTime), input);
        && trace == old(trace) + out.events
        && Follows(status, incidents, old(status), old(incidents), out.events)
        && lastSpikeTime == out.lastSpikeTime
        && running == (old(running) && RunsOn(out.raised, input.signal))
      ensures cycleCount == old(cycleCount) + 1
    {
      var raised := Work(input);
      if raised {
        Backoff(input.signal);
      } else {
        var _ := Wait(input.signal);
      }
    }

    /** The next pass of the loop, extending the chain of the cycles run so far. */
    method Advance(inputs: seq<CycleInput>, ghost active: bool, ghost steps: seq<CycleOutcome>) returns (ghost next: seq<CycleOutcome>)
      requires cycleCount == |steps| < |inputs| && Chained(CycleOf(config), active, inputs, steps)
      requires running && running == ActiveAfter(active, inputs, steps, |steps|)
      requires lastSpikeTime == SpikeTimeAfter(steps, |steps|)
      modifies this`running, this`cycleCount, this`status, this`trace, this`incidents, this`lastSpikeTime
      ensures |next| == |steps| + 1 && next == steps + [next[|steps|]]
      ensures cycleCount == |next| && Chained(CycleOf(config), active, inputs, next)
      ensures running == ActiveAfter(active, inputs, next, |next|)
      ensures lastSpikeTime == SpikeTimeAfter(next, |next|)
      ensures trace == old(trace) + next[|steps|].events
      ensures Follows(status, incidents, old(status), old(incidents), next[|steps|].events)
    {
      var input := inputs[cycleCount];
      ghost var out := CycleSpec(config, true, lastSpikeTime, input);
      Cycle(input);
      ChainedExtend(CycleOf(config), active, inputs, steps, out);
      next := steps + [out];
      assert next[|steps|] == out;
      assert ActiveAfter(active, inputs, next, |next|) == running;
    }

    /**
     * The `while running` loop of continuous_monitoring, one input per cycle;
     * `steps` are the cycles it ran.
     */
    method MonitoringLoop(inputs: seq<CycleInput>) returns (ghost steps: seq<CycleOutcome>)
      requires cycleCount == 0 && lastSpikeTime == 0
      modifies this`running, this`cycleCount, this`status, this`trace, this`incidents, this`lastSpikeTime
      ensures cycleCount == |steps| && Chained(CycleOf(config), old(running), inputs, steps)
      ensures running == ActiveAfter(old(running), inputs, steps, |steps|)
      ensures !running || |steps| == |inputs|
      ensures lastSpikeTime == SpikeTimeAfter(steps, |steps|)
      ensures trace == old(trace) + EventsOf(steps)
      ensures Follows(status, incidents, old(status), old(incidents), EventsOf(steps))
    {
      steps := [];
      assert incidents + [] == incidents;
      while running && cycleCount < |inputs|
        invariant cycleCount == |steps| && Chained(CycleOf(config), old(running), inputs, steps)
        invariant running == ActiveAfter(old(running), inputs, steps, |steps|)
        invariant lastSpikeTime == SpikeTimeAfter(steps, |steps|)
        invariant trace == old(trace) + EventsOf(steps)
        invariant Follows(status, incidents, old(status), old(incidents), EventsOf(steps))
        decreases |inputs| - cycleCount
      {
        label Before:
        ghost var next := Advance(inputs, old(running), steps);
        EventsOfAppend(steps, next[|steps|]);
        Assoc(old(trace), EventsOf(steps), next[|steps|].events);
        FollowsAppend(old(status), old(incidents), old@Before(status), old@Before(incidents), status, incidents,
                      EventsOf(steps), next[|steps|].events);
        steps := next;
      }
    }

    /**
     * continuous_monitoring: from cycle_count 0 and last_spike_time 0, run
     * cycles while `running` holds, one input per cycle.
     */
    method ContinuousMonitoring(inputs: seq<CycleInput>)
      modifies this`running, this`cycleCount, this`status, this`trace, this`incidents, this`lastSpikeTime
      ensures var r := Run(CycleOf(config), old(running), 0, inputs);
        && trace == old(trace) + r.events
        && running == r.active
        && cycleCount == r.cycles
        && lastSpikeTime == r.lastSpikeTime
        && Follows(status, incidents, old(status), old(incidents), r.events)
      ensures |incidents| <= |old(incidents)| + cycleCount
    {
      cycleCount := 0;
      lastSpikeTime := 0;
      ghost var steps := MonitoringLoop(inputs);
      ChainedRun(CycleOf(config), old(running), inputs, steps);
      CycleLogsOnce(config);
      RunLogsAtMostOncePerCycle(CycleOf(config), old(running), 0, inputs);
    }

    /**
     * The `try` of the script's entry point: publish "Initializing...",
     * create the data directories (which may fail), then run
     * continuous_monitoring.
     */
    method Start(startupError: Option<string>, start: int, inputs: seq<CycleInput>)
      modifies this`running, this`cycleCount, this`status, this`trace, this`incidents, this`lastSpikeTime
      ensures var init := Published(config.Stamp(StatusUpdate(Initializing, JReal(0.0)), start, old(running)));
        match startupError
        case Some(msg) =>
          && running == old(running)
          && trace == old(trace) + [init, Published(config.Stamp(ErrorUpdate(FatalError, msg), start, running))]
          && status == config.Stamp(ErrorUpdate(FatalError, msg), start, running)
          && incidents == old(incidents)
          && cycleCount == old(cycleCount) && lastSpikeTime == old(lastSpikeTime)
        case None =>
          var r := Run(CycleOf(config), old(running), 0, inputs);
          && running == r.active
          && trace == old(trace) + [init] + r.events
          && Follows(status, incidents, old(status), old(incidents), [init] + r.events)
          && cycleCount == r.cycles && lastSpikeTime == r.lastSpikeTime
    {
      Publish(StatusUpdate(Initializing, JReal(0.0)), start);
      if startupError.Some? {
        Publish(ErrorUpdate(FatalError, startupError.value), start);
      } else {
        label Initialized:
        ContinuousMonitoring(inputs);
        ghost var init := [Published(old@Initialized(status))];
        ghost var events := Run(CycleOf(config), old(running), 0, inputs).events;
        OneEvent(init[0], old(status));
        FollowsAppend(old(status), old(incidents), old@Initialized(status), old@Initialized(incidents), status, incidents, init, events);
      }
    }

    /**
     * The script's entry point: Start, and in the `finally` publish
     * "Stopped"; monitoring_active shows `running`, not the False passed.
     */
    method RunAgent(startupError: Option<string>, start: int, inputs: seq<CycleInput>, stop: int)
      modifies this`running, this`cycleCount, this`status, this`trace, this`incidents, this`lastSpikeTime
      ensures status == config.Stamp(map[StatusKey := JStr(Stopped), ActiveKey := JBool(false)], stop, running)
      ensures HasPhase(status, Stopped) && status[ActiveKey] == JBool(running)
      ensures var init := Published(config.Stamp(StatusUpdate(Initializing, JReal(0.0)), start, old(running)));
        match startupError
        case Some(msg) =>
          && running == old(running)
          && trace == old(trace) + [init, Published(config.Stamp(ErrorUpdate(FatalError, msg), start, running)), Published(status)]
          && incidents == old(incidents)
          && cycleCount == old(cycleCount) && lastSpikeTime == old(lastSpikeTime)
        case None =>
          var r := Run(CycleOf(config), old(running), 0, inputs);
          && running == r.active
          && trace == old(trace) + [init] + r.events + [Published(status)]
          && incidents == old(incidents) + LoggedIncidents([init] + r.events)
          && cycleCount == r.cycles && lastSpikeTime == r.lastSpikeTime
    {
      Start(startupError, start, inputs);
      Publish(map[StatusKey := JStr(Stopped), ActiveKey := JBool(false)], stop);
      assert StatusKey !in StampedKeys;
    }
  }
}
