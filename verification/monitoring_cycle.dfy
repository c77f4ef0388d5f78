/**
 * One pass of the `while running` loop of continuous_monitoring, as a
 * function of the agent's state before it and of what the outside world
 * does during it.
 */
module MonitoringCycle {
  import opened Wrappers
  import opened StatusRecord
  import opened Settings
  import opened CpuSampling
  import opened LogAnalysis
  import opened IncidentHandling

  /** What sampling gives: the outcome of each Prometheus query and the
      value the simulation would use, or an exception inside monitor_cpu_once. */
  datatype Sample = Sampled(outcomes: seq<QueryOutcome>, simulated: SimulatedCpu) | SamplingRaised

  /**
   * An exception that escapes to the cycle's `except Exception` handler, and
   * where: right after cycle_count is incremented, at the end of
   * handle_cpu_spike (after the incident is logged, before last_spike_time is
   * assigned), or after the spike check, just before the wait.
   */
  datatype Fault = NoFault | AtCycleStart(msg: string) | AtHandlerEnd(msg: string) | BeforeWait(msg: string)

  /**
   * Everything a cycle reads from outside: the clock, the sample, the log
   * file (or the error reading it), the chat model's reply (or its error),
   * whether `docker restart` succeeded, an unexpected exception, and when the
   * shutdown signal arrives, in seconds into this cycle's wait (0: before
   * the wait begins).
   */
  datatype CycleInput = CycleInput(
    now: int,
    sample: Sample,
    logs: Result<string, string>,
    reply: Result<string, string>,
    restarted: bool,
    fault: Fault,
    signal: Option<nat>)

  /** The events of a cycle, last_spike_time after it, whether it ran
      handle_cpu_spike, and whether it ended in the exception handler. */
  datatype CycleOutcome = CycleOutcome(events: seq<Event>, lastSpikeTime: int, handled: bool, raised: bool)

  /** The value monitor_cpu_once compares with the threshold, None if it raised. */
  function SampledValue(c: Config, s: Sample): (v: Option<real>)
    ensures v.Some? ==> 0.0 <= v.value <= 100.0
  {
    match s
    case Sampled(outcomes, simulated) => Some(CpuUsage(c.promConnected, outcomes, simulated))
    case SamplingRaised => None
  }

  /** The strict, hard-coded cooldown test. */
  predicate CooldownElapsed(now: int, lastSpikeTime: int) {
    now - lastSpikeTime > CooldownSeconds
  }

  /** The record the cycle's exception handler publishes. */
  function ErrorEvent(c: Config, active: bool, now: int, msg: string): Event {
    Published(c.Stamp(ErrorUpdate(AgentError, msg), now, active))
  }

  /** What follows handle_cpu_spike when it raises at its end: the handler's record. */
  function HandlerTail(c: Config, active: bool, input: CycleInput): seq<Event> {
    if input.fault.AtHandlerEnd? then [ErrorEvent(c, active, input.now, input.fault.msg)] else []
  }

  /** The handler's record when something raises after a spike check that did not. */
  function LateTail(c: Config, active: bool, input: CycleInput, raised: bool): seq<Event> {
    if !raised && input.fault.BeforeWait? then [ErrorEvent(c, active, input.now, input.fault.msg)] else []
  }

  /**
   * The spike check of a cycle that sampled `spike` and `cpu`: nothing
   * without a spike; handle_cpu_spike and a new last_spike_time once the
   * cooldown has elapsed (unless the handler raises at its end); otherwise
   * "Cooldown" with the sampled cpu.
   */
  function SpikeResponse(c: Config, active: bool, lastSpikeTime: int, input: CycleInput, spike: bool, cpu: real): CycleOutcome
  {
    if !spike then CycleOutcome([], lastSpikeTime, false, false)
    else if CooldownElapsed(input.now, lastSpikeTime) then
      var handling := HandlingEvents(c, active, input.now, cpu, AnalyzeLogs(c.apiKeySet, input.logs, input.reply), input.restarted);
      var raised := input.fault.AtHandlerEnd?;
      CycleOutcome(handling + HandlerTail(c, active, input), if raised then lastSpikeTime else input.now, true, raised)
    else
      CycleOutcome([Published(c.Stamp(StatusUpdate(Cooldown, JReal(cpu)), input.now, active))], lastSpikeTime, false, false)
  }

  /**
   * A cycle that got past its first print, up to the spike check: the sample
   * published, then the spike check.
   */
  function ObservedCycle(c: Config, active: bool, lastSpikeTime: int, input: CycleInput): CycleOutcome
  {
    var obs := Observe(SampledValue(c, input.sample), c.threshold);
    var check := SpikeResponse(c, active, lastSpikeTime, input, obs.spike, obs.cpu);
    CycleOutcome([Published(c.Stamp(obs.update, input.now, active))] + check.events,
                 check.lastSpikeTime, check.handled, check.raised)
  }

  /**
   * One cycle of continuous_monitoring up to its wait, from running == active
   * and last_spike_time == lastSpikeTime: the sample published, the spike
   * check, and the exception handler's record if something raised.
   */
  function CycleSpec(c: Config, active: bool, lastSpikeTime: int, input: CycleInput): CycleOutcome
  {
    if input.fault.AtCycleStart? then
      CycleOutcome([ErrorEvent(c, active, input.now, input.fault.msg)], lastSpikeTime, false, true)
    else
      var o := ObservedCycle(c, active, lastSpikeTime, input);
      CycleOutcome(o.events + LateTail(c, active, input, o.raised), o.lastSpikeTime, o.handled,
                   o.raised || input.fault.BeforeWait?)
  }

  /** A cycle runs handle_cpu_spike exactly when it samples a value above the
      threshold and more than 120 seconds have passed since last_spike_time. */
  predicate Handles(c: Config, lastSpikeTime: int, input: CycleInput) {
    && !input.fault.AtCycleStart?
    && SampledValue(c, input.sample).Some?
    && SampledValue(c, input.sample).value > c.threshold as real
    && CooldownElapsed(input.now, lastSpikeTime)
  }

  lemma OnlyPublishesAppend(a: seq<Event>, b: seq<Event>)
    requires OnlyPublishes(a) && OnlyPublishes(b)
    ensures OnlyPublishes(a + b)
  {
    forall i | 0 <= i < |a + b| ensures (a + b)[i].Published? {
      if i >= |a| {
        assert (a + b)[i] == b[i - |a|];
      }
    }
  }

  /** Kept as a lemma: asserted inline, the regrouping costs the lemma below far more. */
  lemma Regroup(a: seq<Event>, b: seq<Event>, c: seq<Event>, d: seq<Event>)
    ensures a + (b + c) + d == a + b + (c + d)
  {
  }

  /** A spike check either runs handle_cpu_spike followed by publishes only, or only publishes. */
  lemma SpikeResponseParts(c: Config, active: bool, lastSpikeTime: int, input: CycleInput, spike: bool, cpu: real)
    ensures var r := SpikeResponse(c, active, lastSpikeTime, input, spike, cpu);
      && r.handled == (spike && CooldownElapsed(input.now, lastSpikeTime))
      && (r.handled ==>
            r.events == HandlingEvents(c, active, input.now, cpu, AnalyzeLogs(c.apiKeySet, input.logs, input.reply), input.restarted)
                        + HandlerTail(c, active, input))
      && (!r.handled ==> OnlyPublishes(r.events))
      && OnlyPublishes(HandlerTail(c, active, input))
  {
  }

  /** The events of a cycle that got past its first print, in three parts. */
  lemma CycleParts(c: Config, active: bool, lastSpikeTime: int, input: CycleInput)
    requires !input.fault.AtCycleStart?
    ensures var obs := Observe(SampledValue(c, input.sample), c.threshold);
      var check := SpikeResponse(c, active, lastSpikeTime, input, obs.spike, obs.cpu);
      var out := CycleSpec(c, active, lastSpikeTime, input);
      && out.handled == check.handled
      && out.events == [Published(c.Stamp(obs.update, input.now, active))] + check.events + LateTail(c, active, input, check.raised)
      && OnlyPublishes([Published(c.Stamp(obs.update, input.now, active))])
      && OnlyPublishes(LateTail(c, active, input, check.raised))
  {
  }

  /**
   * The cooldown gate: handling, and with it exactly one analysis, one
   * restart attempt, one notification and one incident row, happens in a
   * cycle exactly when Handles holds; otherwise the cycle only publishes.
   */
  lemma CycleHandlesOnlyAfterCooldown(c: Config, active: bool, lastSpikeTime: int, input: CycleInput)
    ensures var out := CycleSpec(c, active, lastSpikeTime, input);
      var once := if Handles(c, lastSpikeTime, input) then 1 else 0;
      && (out.handled <==> Handles(c, lastSpikeTime, input))
      && Occurrences(out.events, IsAnalysis) == once
      && Occurrences(out.events, IsRemediation) == once
      && Occurrences(out.events, IsNotification) == once
      && Occurrences(out.events, IsIncident) == once
      && (!out.handled ==> OnlyPublishes(out.events))
  {
    var out := CycleSpec(c, active, lastSpikeTime, input);
    if input.fault.AtCycleStart? {
      assert OnlyPublishes(out.events);
      OnlyPublishesIsQuiet(out.events);
    } else {
      var obs := Observe(SampledValue(c, input.sample), c.threshold);
      var check := SpikeResponse(c, active, lastSpikeTime, input, obs.spike, obs.cpu);
      var first := [Published(c.Stamp(obs.update, input.now, active))];
      var late := LateTail(c, active, input, check.raised);
      CycleParts(c, active, lastSpikeTime, input);
      SpikeResponseParts(c, active, lastSpikeTime, input, obs.spike, obs.cpu);
      if check.handled {
        var cause := AnalyzeLogs(c.apiKeySet, input.logs, input.reply);
        var handling := HandlingEvents(c, active, input.now, obs.cpu, cause, input.restarted);
        var tail := HandlerTail(c, active, input) + late;
        Regroup(first, handling, HandlerTail(c, active, input), late);
        OnlyPublishesAppend(HandlerTail(c, active, input), late);
        HandlingHappensOnce(c, active, input.now, obs.cpu, cause, input.restarted);
        OnlyPublishesIsQuiet(first);
        OnlyPublishesIsQuiet(tail);
        CountAcross(first, handling, tail, IsAnalysis);
        CountAcross(first, handling, tail, IsRemediation);
        CountAcross(first, handling, tail, IsNotification);
        CountAcross(first, handling, tail, IsIncident);
      } else {
        OnlyPublishesAppend(first, check.events);
        OnlyPublishesAppend(first + check.events, late);
        OnlyPublishesIsQuiet(out.events);
      }
    }
  }

  lemma CountAcross(a: seq<Event>, b: seq<Event>, d: seq<Event>, p: Event -> bool)
    ensures Occurrences(a + b + d, p) == Occurrences(a, p) + Occurrences(b, p) + Occurrences(d, p)
  {
    OccurrencesAppend(a + b, d, p);
    OccurrencesAppend(a, b, p);
  }

  /**
   * A spike inside the cooldown window publishes "Cooldown" with its cpu and
   * leaves last_spike_time alone.
   */
  lemma CooldownCycle(c: Config, active: bool, lastSpikeTime: int, input: CycleInput)
    requires !input.fault.AtCycleStart? && !input.fault.BeforeWait?
    requires SampledValue(c, input.sample).Some? && SampledValue(c, input.sample).value > c.threshold as real
    requires !CooldownElapsed(input.now, lastSpikeTime)
    ensures var out := CycleSpec(c, active, lastSpikeTime, input);
      && out.lastSpikeTime == lastSpikeTime
      && OnlyPublishes(out.events)
      && LastRecord(out.events, map[]) ==
           c.Stamp(StatusUpdate(Cooldown, JReal(SampledValue(c, input.sample).value)), input.now, active)
  {
    var out := CycleSpec(c, active, lastSpikeTime, input);
    LastRecordAppend([out.events[0]], [out.events[1]], map[]);
    assert out.events == [out.events[0]] + [out.events[1]];
  }

  /**
   * last_spike_time changes only in a cycle that handled a spike and got past
   * handle_cpu_spike, and then it becomes that cycle's clock, more than 120
   * seconds after its previous value.
   */
  lemma SpikeTimeChangesOnlyWhenHandled(c: Config, active: bool, lastSpikeTime: int, input: CycleInput)
    ensures var out := CycleSpec(c, active, lastSpikeTime, input);
      && (out.lastSpikeTime != lastSpikeTime ==> out.handled && out.lastSpikeTime == input.now)
      && (out.handled && !input.fault.AtHandlerEnd? ==> out.lastSpikeTime == input.now)
      && (out.lastSpikeTime == lastSpikeTime || out.lastSpikeTime - lastSpikeTime > CooldownSeconds)
  {
  }

  /**
   * As written, last_spike_time is assigned only after handle_cpu_spike
   * returns: when handling raises at its end, the next spike one second
   * later is handled again, inside the 120-second window.
   */
  lemma RaisingHandlerLeavesWindowOpen(c: Config, active: bool, lastSpikeTime: int, first: CycleInput, second: CycleInput)
    requires Handles(c, lastSpikeTime, first) && first.fault.AtHandlerEnd?
    requires second.now == first.now + 1 && second.sample == first.sample && second.fault == NoFault
    ensures var out := CycleSpec(c, active, lastSpikeTime, first);
      out.handled && CycleSpec(c, active, out.lastSpikeTime, second).handled
      && second.now - first.now <= CooldownSeconds
  {
    CycleHandlesOnlyAfterCooldown(c, active, lastSpikeTime, first);
    CycleHandlesOnlyAfterCooldown(c, active, lastSpikeTime, second);
  }

  /**
   * The cycle's `except Exception` handler: a cycle raises exactly when a
   * fault strikes at its start, before its wait, or at the end of a
   * handle_cpu_spike it ran; then its last record is "Agent Error" with the
   * exception's message.
   */
  lemma CycleErrorReported(c: Config, active: bool, lastSpikeTime: int, input: CycleInput)
    ensures var out := CycleSpec(c, active, lastSpikeTime, input);
      && (out.raised <==> input.fault.AtCycleStart? || input.fault.BeforeWait? || (input.fault.AtHandlerEnd? && out.handled))
      && (out.raised ==> |out.events| > 0 && out.events[|out.events| - 1] == ErrorEvent(c, active, input.now, input.fault.msg))
      && (out.raised ==> var e := ErrorEvent(c, active, input.now, input.fault.msg).record;
                         HasPhase(e, AgentError) && e[ErrorKey] == JStr(input.fault.msg))
  {
    var out := CycleSpec(c, active, lastSpikeTime, input);
    if !input.fault.AtCycleStart? {
      var obs := Observe(SampledValue(c, input.sample), c.threshold);
      var check := SpikeResponse(c, active, lastSpikeTime, input, obs.spike, obs.cpu);
      assert check.raised == (input.fault.AtHandlerEnd? && check.handled);
      CycleParts(c, active, lastSpikeTime, input);
      if check.raised {
        SpikeResponseParts(c, active, lastSpikeTime, input, obs.spike, obs.cpu);
        assert out.events == [Published(c.Stamp(obs.update, input.now, active))] + check.events;
      }
    }
    if out.raised {
      ErrorRecord(c, active, input.now, input.fault.msg);
    }
  }

  /** The record of an "Agent Error" event carries the phase and the message. */
  lemma ErrorRecord(c: Config, active: bool, now: int, msg: string)
    ensures var e := ErrorEvent(c, active, now, msg).record;
      HasPhase(e, AgentError) && e[ErrorKey] == JStr(msg)
  {
    assert StatusKey !in StampedKeys && ErrorKey !in StampedKeys;
  }

  /** The successive values of last_spike_time, starting from 0, each more
      than CooldownSeconds after the one before. */
  predicate Gapped(starts: seq<int>) {
    forall i :: 0 < i < |starts| ==> starts[i] - starts[i - 1] > CooldownSeconds
  }

  /** Any two cooldown windows started more than 120 seconds apart. */
  lemma {:induction false} GappedPairwise(starts: seq<int>, i: nat, j: nat)
    requires Gapped(starts) && i < j < |starts|
    ensures starts[j] - starts[i] > CooldownSeconds
  {
    if j > i + 1 {
      GappedPairwise(starts, i, j - 1);
    }
  }

  /** How many seconds the polled sleep of a cycle lasts, from running == active. */
  function WaitSeconds(active: bool, signal: Option<nat>): (seconds: nat)
    ensures seconds <= MonitoringInterval
    ensures active && signal.Some? && signal.value <= MonitoringInterval ==> seconds == signal.value
    ensures !active ==> seconds == 0
    ensures active && !(signal.Some? && signal.value <= MonitoringInterval) ==> seconds == MonitoringInterval
  {
    if !active then 0
    else if signal.Some? && signal.value <= MonitoringInterval then signal.value
    else MonitoringInterval
  }

  /** Whether the signal arrives during the cycle's wait: the polled sleep, or
      the unpolled back-off after an exception. */
  predicate StopsDuringWait(raised: bool, signal: Option<nat>) {
    signal.Some? && signal.value <= (if raised then ErrorBackoff else MonitoringInterval)
  }

  /** Whether the agent is still running after a cycle that started running. */
  predicate RunsOn(raised: bool, signal: Option<nat>) {
    !StopsDuringWait(raised, signal)
  }

  lemma {:induction false} LoggedCount(events: seq<Event>)
    ensures |LoggedIncidents(events)| == Occurrences(events, IsIncident)
  {
    if events != [] {
      LoggedCount(events[1..]);
    }
  }

  /** A cycle logs at most one incident, and one only when it passes the cooldown gate. */
  lemma CycleLogsAtMostOnce(c: Config, active: bool, lastSpikeTime: int, input: CycleInput)
    ensures |LoggedIncidents(CycleSpec(c, active, lastSpikeTime, input).events)|
              == if Handles(c, lastSpikeTime, input) then 1 else 0
  {
    CycleHandlesOnlyAfterCooldown(c, active, lastSpikeTime, input);
    LoggedCount(CycleSpec(c, active, lastSpikeTime, input).events);
  }
}
