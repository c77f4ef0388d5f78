/**
 * The `while running` loop of continuous_monitoring as a whole: the cycles
 * it runs, one input each, until `running` is cleared or the inputs run out.
 */
module MonitoringRun {
  import opened Wrappers
  import opened Settings
  import opened IncidentHandling
  import opened MonitoringCycle

  /** One cycle as a function of `running`, last_spike_time and the cycle's input. */
  type CycleStep = (bool, int, CycleInput) -> CycleOutcome

  /** The cycle of the agent configured by c. */
  function CycleOf(c: Config): CycleStep {
    (active, lastSpikeTime, input) => CycleSpec(c, active, lastSpikeTime, input)
  }

  /** The events of the cycles run, last_spike_time, `running`, and cycle_count after them. */
  datatype RunOutcome = RunOutcome(events: seq<Event>, lastSpikeTime: int, active: bool, cycles: nat)

  /**
   * The loop over the inputs of successive cycles, from running == active
   * and last_spike_time == lastSpikeTime; it ends when `running` is cleared
   * or the inputs run out.
   */
  function Run(step: CycleStep, active: bool, lastSpikeTime: int, inputs: seq<CycleInput>): (r: RunOutcome)
    ensures r.cycles <= |inputs|
    ensures r.active ==> active && r.cycles == |inputs|
    ensures !active ==> r.cycles == 0 && r.events == [] && r.lastSpikeTime == lastSpikeTime
    decreases |inputs|
  {
    if !active || inputs == [] then RunOutcome([], lastSpikeTime, active, 0)
    else
      var out := step(active, lastSpikeTime, inputs[0]);
      var rest := Run(step, RunsOn(out.raised, inputs[0].signal), out.lastSpikeTime, inputs[1..]);
      RunOutcome(out.events + rest.events, rest.lastSpikeTime, rest.active, rest.cycles + 1)
  }

  /** The events of successive cycles, in order. */
  function EventsOf(steps: seq<CycleOutcome>): seq<Event> {
    if steps == [] then [] else steps[0].events + EventsOf(steps[1..])
  }

  lemma {:induction false} EventsOfAppend(steps: seq<CycleOutcome>, out: CycleOutcome)
    ensures EventsOf(steps + [out]) == EventsOf(steps) + out.events
  {
    if steps == [] {
      assert [out][1..] == [];
    } else {
      assert (steps + [out])[1..] == steps[1..] + [out];
      EventsOfAppend(steps[1..], out);
    }
  }

  /** last_spike_time after the first j cycles, from 0. */
  function SpikeTimeAfter(steps: seq<CycleOutcome>, j: nat): int
    requires j <= |steps|
  {
    if j == 0 then 0 else steps[j - 1].lastSpikeTime
  }

  /** `running` after the first j cycles, from running == active. */
  function ActiveAfter(active: bool, inputs: seq<CycleInput>, steps: seq<CycleOutcome>, j: nat): bool
    requires j <= |steps| <= |inputs|
  {
    if j == 0 then active else RunsOn(steps[j - 1].raised, inputs[j - 1].signal)
  }

  /**
   * `steps` are the first cycles of the loop over `inputs` from running ==
   * active: each ran while `running` held and from the last_spike_time its
   * predecessor left.
   */
  predicate Chained(step: CycleStep, active: bool, inputs: seq<CycleInput>, steps: seq<CycleOutcome>) {
    && |steps| <= |inputs|
    && (forall j :: 0 <= j < |steps| ==> ActiveAfter(active, inputs, steps, j))
    && (forall j {:trigger inputs[j]} :: 0 <= j < |steps| ==> steps[j] == step(true, SpikeTimeAfter(steps, j), inputs[j]))
  }

  /** One more cycle, run while `running` still held, extends the chain. */
  lemma ChainedExtend(step: CycleStep, active: bool, inputs: seq<CycleInput>, steps: seq<CycleOutcome>, out: CycleOutcome)
    requires Chained(step, active, inputs, steps) && |steps| < |inputs|
    requires ActiveAfter(active, inputs, steps, |steps|)
    requires out == step(true, SpikeTimeAfter(steps, |steps|), inputs[|steps|])
    ensures Chained(step, active, inputs, steps + [out])
  {
    var next := steps + [out];
    forall j | 0 <= j < |next| ensures ActiveAfter(active, inputs, next, j) {
      if j < |steps| {
        assert ActiveAfter(active, inputs, steps, j);
      }
      if 0 < j {
        assert next[j - 1] == steps[j - 1];
      }
    }
    forall j | 0 <= j < |next| ensures next[j] == step(true, SpikeTimeAfter(next, j), inputs[j]) {
      if 0 < j {
        assert next[j - 1] == steps[j - 1];
      }
    }
  }

  /** The loop from the i-th cycle of a chain on runs the rest of the chain. */
  lemma {:induction false} ChainedSuffix(step: CycleStep, active: bool, inputs: seq<CycleInput>, steps: seq<CycleOutcome>, i: nat)
    requires Chained(step, active, inputs, steps) && i <= |steps|
    requires !ActiveAfter(active, inputs, steps, |steps|) || |steps| == |inputs|
    ensures Run(step, ActiveAfter(active, inputs, steps, i), SpikeTimeAfter(steps, i), inputs[i..])
         == RunOutcome(EventsOf(steps[i..]), SpikeTimeAfter(steps, |steps|), ActiveAfter(active, inputs, steps, |steps|), |steps| - i)
    decreases |steps| - i
  {
    if i == |steps| {
      assert steps[i..] == [];
      assert ActiveAfter(active, inputs, steps, i) ==> inputs[i..] == [];
    } else {
      ChainedSuffix(step, active, inputs, steps, i + 1);
      assert inputs[i..][0] == inputs[i] && inputs[i..][1..] == inputs[i + 1..];
      assert steps[i..][0] == steps[i] && steps[i..][1..] == steps[i + 1..];
      assert ActiveAfter(active, inputs, steps, i);
      assert steps[i] == step(true, SpikeTimeAfter(steps, i), inputs[i]);
    }
  }

  /** A chain that ends with `running` cleared or the inputs used up is the whole loop. */
  lemma ChainedRun(step: CycleStep, active: bool, inputs: seq<CycleInput>, steps: seq<CycleOutcome>)
    requires Chained(step, active, inputs, steps)
    requires !ActiveAfter(active, inputs, steps, |steps|) || |steps| == |inputs|
    ensures Run(step, active, 0, inputs)
         == RunOutcome(EventsOf(steps), SpikeTimeAfter(steps, |steps|), ActiveAfter(active, inputs, steps, |steps|), |steps|)
  {
    ChainedSuffix(step, active, inputs, steps, 0);
    assert inputs[0..] == inputs && steps[0..] == steps;
  }

  /** A step that inserts at most one incident row. */
  ghost predicate LogsAtMostOnce(step: CycleStep) {
    forall active, lastSpikeTime, input :: |LoggedIncidents(step(active, lastSpikeTime, input).events)| <= 1
  }

  lemma CycleLogsOnce(c: Config)
    ensures LogsAtMostOnce(CycleOf(c))
  {
    forall active, lastSpikeTime, input
      ensures |LoggedIncidents(CycleOf(c)(active, lastSpikeTime, input).events)| <= 1
    {
      CycleLogsAtMostOnce(c, active, lastSpikeTime, input);
    }
  }

  /** A run of cycles that each log at most one incident logs at most one per cycle. */
  lemma {:induction false} RunLogsAtMostOncePerCycle(step: CycleStep, active: bool, lastSpikeTime: int, inputs: seq<CycleInput>)
    requires LogsAtMostOnce(step)
    ensures var r := Run(step, active, lastSpikeTime, inputs);
      |LoggedIncidents(r.events)| <= r.cycles
    decreases |inputs|
  {
    if active && inputs != [] {
      var out := step(active, lastSpikeTime, inputs[0]);
      var rest := Run(step, RunsOn(out.raised, inputs[0].signal), out.lastSpikeTime, inputs[1..]);
      RunLogsAtMostOncePerCycle(step, RunsOn(out.raised, inputs[0].signal), out.lastSpikeTime, inputs[1..]);
      LoggedIncidentsAppend(out.events, rest.events);
    }
  }

  /**
   * The loop carries on after a cycle that raised: unless the signal comes
   * within the ten-second back-off, the next input runs another cycle.
   */
  lemma ErrorCycleContinues(c: Config, lastSpikeTime: int, inputs: seq<CycleInput>)
    requires |inputs| >= 2
    requires CycleSpec(c, true, lastSpikeTime, inputs[0]).raised
    requires !StopsDuringWait(true, inputs[0].signal)
    ensures var out := CycleSpec(c, true, lastSpikeTime, inputs[0]);
      var r := Run(CycleOf(c), true, lastSpikeTime, inputs);
      && r.cycles >= 2
      && r.events == out.events + Run(CycleOf(c), true, out.lastSpikeTime, inputs[1..]).events
  {
  }

  /** The values a run assigns to last_spike_time, in order. */
  function CooldownStarts(step: CycleStep, active: bool, lastSpikeTime: int, inputs: seq<CycleInput>): seq<int>
    decreases |inputs|
  {
    if !active || inputs == [] then []
    else
      var out := step(active, lastSpikeTime, inputs[0]);
      var rest := CooldownStarts(step, RunsOn(out.raised, inputs[0].signal), out.lastSpikeTime, inputs[1..]);
      if out.lastSpikeTime != lastSpikeTime then [out.lastSpikeTime] + rest else rest
  }

  /** A step that leaves last_spike_time alone or moves it more than 120 seconds on. */
  ghost predicate KeepsGap(step: CycleStep) {
    forall active, lastSpikeTime, input ::
      step(active, lastSpikeTime, input).lastSpikeTime == lastSpikeTime
      || step(active, lastSpikeTime, input).lastSpikeTime - lastSpikeTime > CooldownSeconds
  }

  lemma CycleKeepsGap(c: Config)
    ensures KeepsGap(CycleOf(c))
  {
    forall active, lastSpikeTime, input
      ensures CycleOf(c)(active, lastSpikeTime, input).lastSpikeTime == lastSpikeTime
           || CycleOf(c)(active, lastSpikeTime, input).lastSpikeTime - lastSpikeTime > CooldownSeconds
    {
      SpikeTimeChangesOnlyWhenHandled(c, active, lastSpikeTime, input);
    }
  }

  lemma GappedCons(first: int, starts: seq<int>)
    requires Gapped(starts) && |starts| > 0 && starts[0] - first > CooldownSeconds
    ensures Gapped([first] + starts)
  {
    var all := [first] + starts;
    forall i | 0 < i < |all| ensures all[i] - all[i - 1] > CooldownSeconds {
      if i > 1 {
        assert all[i] == starts[i - 1] && all[i - 1] == starts[i - 2];
      }
    }
  }

  lemma {:induction false} StartsGapped(step: CycleStep, active: bool, lastSpikeTime: int, inputs: seq<CycleInput>)
    requires KeepsGap(step)
    ensures var starts := [lastSpikeTime] + CooldownStarts(step, active, lastSpikeTime, inputs);
      && Gapped(starts)
      && starts[|starts| - 1] == Run(step, active, lastSpikeTime, inputs).lastSpikeTime
    decreases |inputs|
  {
    if active && inputs != [] {
      var out := step(active, lastSpikeTime, inputs[0]);
      var running := RunsOn(out.raised, inputs[0].signal);
      var rest := CooldownStarts(step, running, out.lastSpikeTime, inputs[1..]);
      StartsGapped(step, running, out.lastSpikeTime, inputs[1..]);
      if out.lastSpikeTime != lastSpikeTime {
        GappedCons(lastSpikeTime, [out.lastSpikeTime] + rest);
        assert [lastSpikeTime] + ([out.lastSpikeTime] + rest) == [lastSpikeTime] + CooldownStarts(step, active, lastSpikeTime, inputs);
      }
    }
  }

  /**
   * Over a whole run, every value assigned to last_spike_time is more than
   * 120 seconds after the one before, and the last is where the run leaves
   * it: the cooldown windows of a run never overlap.
   */
  lemma RunCooldownWindowsGapped(c: Config, active: bool, lastSpikeTime: int, inputs: seq<CycleInput>)
    ensures var starts := [lastSpikeTime] + CooldownStarts(CycleOf(c), active, lastSpikeTime, inputs);
      && Gapped(starts)
      && starts[|starts| - 1] == Run(CycleOf(c), active, lastSpikeTime, inputs).lastSpikeTime
  {
    CycleKeepsGap(c);
    StartsGapped(CycleOf(c), active, lastSpikeTime, inputs);
  }
}
