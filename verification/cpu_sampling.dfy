/**
 * Sampling and the spike decision: the query loop and sanity check of
 * get_cpu_usage, and the threshold comparison of monitor_cpu_once.
 */
module CpuSampling {
  import opened Wrappers
  import opened StatusRecord

  /** What one PromQL query gives get_cpu_usage: an exception (from the query
      or from float()), an empty result, or the first series' value. */
  datatype QueryOutcome = QueryRaised | NoResult | Reading(value: real)

  /**
   * The value get_cpu_usage makes up when no query gives a usable reading:
   * the raw-metric branch gives min(15 + t % 30 + uniform(-5, 15), 95), the
   * simulation gives uniform(85, 95) or max(5, min(95, ...)); all lie in [5, 95].
   * The clamp returns the int 5 when the simulated sum is at most 5; the model
   * carries the value as a real either way.
   */
  type SimulatedCpu = r: real | 5.0 <= r <= 95.0 witness 5.0

  /** The sanity check: a reading is accepted only when 0 <= v <= 100. */
  predicate Sane(o: QueryOutcome) {
    o.Reading? && 0.0 <= o.value <= 100.0
  }

  /** The value of the first query whose reading passes the sanity check. */
  function FirstSane(outcomes: seq<QueryOutcome>): (r: Option<real>)
    ensures r.None? <==> forall i :: 0 <= i < |outcomes| ==> !Sane(outcomes[i])
    ensures r.Some? ==> exists i :: 0 <= i < |outcomes| && outcomes[i] == Reading(r.value)
                                    && Sane(outcomes[i]) && forall j :: 0 <= j < i ==> !Sane(outcomes[j])
  {
    if outcomes == [] then None
    else if Sane(outcomes[0]) then Some(outcomes[0].value)
    else
      var r := FirstSane(outcomes[1..]);
      assert forall i :: 1 <= i < |outcomes| ==> outcomes[i] == outcomes[1..][i - 1];
      r
  }

  /**
   * The CPU value get_cpu_usage returns: the first sane reading when
   * Prometheus is connected and one exists, the simulated value otherwise.
   */
  function CpuUsage(connected: bool, outcomes: seq<QueryOutcome>, simulated: SimulatedCpu): (cpu: real)
    ensures 0.0 <= cpu <= 100.0
  {
    if connected && FirstSane(outcomes).Some? then FirstSane(outcomes).value else simulated
  }

  /** get_cpu_usage: try each query in turn and return the first sane reading. */
  method GetCpuUsage(connected: bool, outcomes: seq<QueryOutcome>, simulated: SimulatedCpu) returns (cpu: real)
    ensures cpu == CpuUsage(connected, outcomes, simulated)
  {
    if connected {
      var i := 0;
      while i < |outcomes|
        invariant 0 <= i <= |outcomes|
        invariant forall j :: 0 <= j < i ==> !Sane(outcomes[j])
      {
        if Sane(outcomes[i]) {
          return outcomes[i].value;
        }
        i := i + 1;
      }
    }
    return simulated;
  }

  /** What monitor_cpu_once returns, and the record it publishes. */
  datatype Observation = Observation(spike: bool, cpu: real, update: Record)

  /**
   * monitor_cpu_once: `sample` is None when sampling raised. A spike is a
   * value strictly above the threshold; an exception yields (False, 0).
   */
  function Observe(sample: Option<real>, threshold: int): (o: Observation)
    ensures o.spike <==> sample.Some? && sample.value > threshold as real
    ensures o.update.Keys == {CpuKey, StatusKey}
    ensures HasPhase(o.update, SpikeDetected) <==> o.spike
    ensures HasPhase(o.update, Normal) <==> sample.Some? && !o.spike
    ensures HasPhase(o.update, MonitoringError) <==> sample.None?
    ensures sample.Some? ==> o.cpu == sample.value && o.update[CpuKey] == JReal(sample.value)
    ensures sample.None? ==> o.cpu == 0.0 && o.update[CpuKey] == JInt(0)
  {
    match sample
    case Some(v) =>
      if v > threshold as real then Observation(true, v, StatusUpdate(SpikeDetected, JReal(v)))
      else Observation(false, v, StatusUpdate(Normal, JReal(v)))
    case None => Observation(false, 0.0, StatusUpdate(MonitoringError, JInt(0)))
  }
}
