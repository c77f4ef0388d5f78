/**
 * handle_cpu_spike and its collaborators, as the sequence of observable
 * events one handled spike produces.
 */
module IncidentHandling {
  import opened StatusRecord
  import opened Settings

  /** A row of the incidents table; its id is its position in the table. */
  datatype Incident = Incident(cause: string, action: string, cpuUsage: real, containerName: string, timestamp: int)

  /**
   * What the agent does that the outside world can see: a status record
   * written to the dashboard file, a log analysis, a container restart
   * attempt, a Slack notification, an incident row inserted.
   */
  datatype Event =
    | Published(record: Record)
    | Analyzed(cause: string)
    | Remediated(ok: bool)
    | Notified(cause: string, action: string)
    | Logged(incident: Incident)

  predicate IsAnalysis(e: Event) { e.Analyzed? }
  predicate IsRemediation(e: Event) { e.Remediated? }
  predicate IsNotification(e: Event) { e.Notified? }
  predicate IsIncident(e: Event) { e.Logged? }

  const FailureAction := "Automatic remediation failed - manual intervention required"

  function SuccessAction(containerName: string): string {
    "Container '" + containerName + "' restarted successfully"
  }

  function ActionFor(restarted: bool, containerName: string): string {
    if restarted then SuccessAction(containerName) else FailureAction
  }

  /** The cpu value remediate() writes after a successful restart. */
  const RestartedCpu := 25.0

  /** The opening of handle_cpu_spike: "Analyzing...", the analysis, "Remediating...". */
  function OpeningEvents(c: Config, active: bool, now: int, cpu: real, cause: string): seq<Event> {
    [Published(c.Stamp(StatusUpdate(Analyzing, JReal(cpu)), now, active)),
     Analyzed(cause),
     Published(c.Stamp(StatusUpdate(Remediating, JReal(cpu)), now, active))]
  }

  /** remediate(): the restart attempt, and "Remediation Complete" at 25.0 when it succeeds. */
  function RemediationEvents(c: Config, active: bool, now: int, restarted: bool): seq<Event> {
    [Remediated(restarted)]
    + (if restarted then [Published(c.Stamp(StatusUpdate(RemediationComplete, JReal(RestartedCpu)), now, active))] else [])
  }

  /** The close of handle_cpu_spike: notification, incident row, and "Intervention Needed" on failure. */
  function ClosingEvents(c: Config, active: bool, now: int, cpu: real, cause: string, restarted: bool): seq<Event> {
    var action := ActionFor(restarted, c.containerName);
    [Notified(cause, action), Logged(Incident(cause, action, cpu, c.containerName, now))]
    + (if restarted then [] else [Published(c.Stamp(StatusUpdate(InterventionNeeded, JReal(cpu)), now, active))])
  }

  /**
   * The events of handle_cpu_spike(cpu) at clock `now` while running == active,
   * given the analysis `cause` and whether the restart succeeded.
   */
  function HandlingEvents(c: Config, active: bool, now: int, cpu: real, cause: string, restarted: bool): seq<Event>
  {
    OpeningEvents(c, active, now, cpu, cause)
    + RemediationEvents(c, active, now, restarted)
    + ClosingEvents(c, active, now, cpu, cause, restarted)
  }

  /** How many events satisfy p. */
  function Occurrences(events: seq<Event>, p: Event -> bool): nat {
    if events == [] then 0 else (if p(events[0]) then 1 else 0) + Occurrences(events[1..], p)
  }

  /** The dashboard record after the events, given the record before them. */
  function LastRecord(events: seq<Event>, before: Record): Record {
    if events == [] then before
    else LastRecord(events[1..], if events[0].Published? then events[0].record else before)
  }

  /** The rows the events insert into the incidents table, in order. */
  function LoggedIncidents(events: seq<Event>): seq<Incident> {
    if events == [] then []
    else (if events[0].Logged? then [events[0].incident] else []) + LoggedIncidents(events[1..])
  }

  /** Events that only write the status file. */
  predicate OnlyPublishes(events: seq<Event>) {
    forall i :: 0 <= i < |events| ==> events[i].Published?
  }

  lemma {:induction false} OccurrencesAppend(a: seq<Event>, b: seq<Event>, p: Event -> bool)
    ensures Occurrences(a + b, p) == Occurrences(a, p) + Occurrences(b, p)
  {
    if a != [] {
      assert (a + b)[1..] == a[1..] + b;
      OccurrencesAppend(a[1..], b, p);
    } else {
      assert a + b == b;
    }
  }

  lemma {:induction false} LastRecordAppend(a: seq<Event>, b: seq<Event>, before: Record)
    ensures LastRecord(a + b, before) == LastRecord(b, LastRecord(a, before))
  {
    if a != [] {
      assert (a + b)[1..] == a[1..] + b;
      LastRecordAppend(a[1..], b, if a[0].Published? then a[0].record else before);
    } else {
      assert a + b == b;
    }
  }

  lemma {:induction false} LoggedIncidentsAppend(a: seq<Event>, b: seq<Event>)
    ensures LoggedIncidents(a + b) == LoggedIncidents(a) + LoggedIncidents(b)
  {
    if a != [] {
      assert (a + b)[1..] == a[1..] + b;
      LoggedIncidentsAppend(a[1..], b);
    } else {
      assert a + b == b;
    }
  }

  /** What a single event does to the status file and the incident table. */
  lemma OneEvent(e: Event, before: Record)
    ensures LastRecord([e], before) == if e.Published? then e.record else before
    ensures LoggedIncidents([e]) == if e.Logged? then [e.incident] else []
  {
  }

  /** Publishing leaves the incident table alone and never analyses, restarts or notifies. */
  lemma {:induction false} OnlyPublishesIsQuiet(events: seq<Event>)
    requires OnlyPublishes(events)
    ensures LoggedIncidents(events) == []
    ensures Occurrences(events, IsAnalysis) == 0 && Occurrences(events, IsRemediation) == 0
    ensures Occurrences(events, IsNotification) == 0 && Occurrences(events, IsIncident) == 0
  {
    if events != [] {
      assert OnlyPublishes(events[1..]) by {
        forall i | 0 <= i < |events[1..]| ensures events[1..][i].Published? {
          assert events[1..][i] == events[i + 1];
        }
      }
      OnlyPublishesIsQuiet(events[1..]);
    }
  }

  /** A stamped status update keeps its phase and cpu value. */
  lemma StampedUpdate(c: Config, phase: string, cpu: Json, now: int, active: bool)
    ensures var r := c.Stamp(StatusUpdate(phase, cpu), now, active);
      HasPhase(r, phase) && CpuKey in r && r[CpuKey] == cpu
  {
  }

  /** An event that exactly one position satisfies occurs exactly once. */
  lemma {:induction false} OccursOnlyAt(events: seq<Event>, p: Event -> bool, k: nat)
    requires k < |events| && p(events[k])
    requires forall i :: 0 <= i < |events| && i != k ==> !p(events[i])
    ensures Occurrences(events, p) == 1
  {
    if k == 0 {
      NoOccurrences(events[1..], p);
    } else {
      OccursOnlyAt(events[1..], p, k - 1);
    }
  }

  lemma {:induction false} NoOccurrences(events: seq<Event>, p: Event -> bool)
    requires forall i :: 0 <= i < |events| ==> !p(events[i])
    ensures Occurrences(events, p) == 0
  {
    if events != [] {
      NoOccurrences(events[1..], p);
    }
  }

  /** The incident rows of events whose only Logged event is at position k. */
  lemma {:induction false} LoggedOnlyAt(events: seq<Event>, k: nat)
    requires k < |events| && events[k].Logged?
    requires forall i :: 0 <= i < |events| && i != k ==> !events[i].Logged?
    ensures LoggedIncidents(events) == [events[k].incident]
  {
    if k == 0 {
      NothingLogged(events[1..]);
    } else {
      LoggedOnlyAt(events[1..], k - 1);
    }
  }

  lemma {:induction false} NothingLogged(events: seq<Event>)
    requires forall i :: 0 <= i < |events| ==> !events[i].Logged?
    ensures LoggedIncidents(events) == []
  {
    if events != [] {
      NothingLogged(events[1..]);
    }
  }

  /**
   * The fixed order of handle_cpu_spike: "Analyzing..." published, then the
   * analysis, then "Remediating..." published, then the restart attempt, and
   * later the notification immediately followed by the incident row.
   */
  lemma HandlingOrder(c: Config, active: bool, now: int, cpu: real, cause: string, restarted: bool)
    ensures var events := HandlingEvents(c, active, now, cpu, cause, restarted);
      var n := if restarted then 5 else 4;
      && |events| == 7
      && events[0].Published? && HasPhase(events[0].record, Analyzing)
      && events[1] == Analyzed(cause)
      && events[2].Published? && HasPhase(events[2].record, Remediating)
      && events[3] == Remediated(restarted)
      && events[n] == Notified(cause, ActionFor(restarted, c.containerName))
      && events[n + 1] == Logged(Incident(cause, ActionFor(restarted, c.containerName), cpu, c.containerName, now))
  {
    StampedUpdate(c, Analyzing, JReal(cpu), now, active);
    StampedUpdate(c, Remediating, JReal(cpu), now, active);
    HandlingDisplay(c, active, now, cpu, cause, restarted);
  }

  /** HandlingEvents written out, one display per outcome of the restart. */
  lemma HandlingDisplay(c: Config, active: bool, now: int, cpu: real, cause: string, restarted: bool)
    ensures var action := ActionFor(restarted, c.containerName);
      var analyzing := Published(c.Stamp(StatusUpdate(Analyzing, JReal(cpu)), now, active));
      var remediating := Published(c.Stamp(StatusUpdate(Remediating, JReal(cpu)), now, active));
      var report := [Notified(cause, action), Logged(Incident(cause, action, cpu, c.containerName, now))];
      HandlingEvents(c, active, now, cpu, cause, restarted) ==
        if restarted then
          [analyzing, Analyzed(cause), remediating, Remediated(restarted),
           Published(c.Stamp(StatusUpdate(RemediationComplete, JReal(RestartedCpu)), now, active))] + report
        else
          [analyzing, Analyzed(cause), remediating, Remediated(restarted)] + report
          + [Published(c.Stamp(StatusUpdate(InterventionNeeded, JReal(cpu)), now, active))]
  {
  }

  /** One handled spike analyses, restarts, notifies and logs exactly once each. */
  lemma HandlingHappensOnce(c: Config, active: bool, now: int, cpu: real, cause: string, restarted: bool)
    ensures var events := HandlingEvents(c, active, now, cpu, cause, restarted);
      && Occurrences(events, IsAnalysis) == 1
      && Occurrences(events, IsRemediation) == 1
      && Occurrences(events, IsNotification) == 1
      && Occurrences(events, IsIncident) == 1
      && LoggedIncidents(events) == [Incident(cause, ActionFor(restarted, c.containerName), cpu, c.containerName, now)]
  {
    HandlingDisplay(c, active, now, cpu, cause, restarted);
    var last := if restarted then c.Stamp(StatusUpdate(RemediationComplete, JReal(RestartedCpu)), now, active)
                else c.Stamp(StatusUpdate(InterventionNeeded, JReal(cpu)), now, active);
    var action := ActionFor(restarted, c.containerName);
    DisplayCounts(c.Stamp(StatusUpdate(Analyzing, JReal(cpu)), now, active), c.Stamp(StatusUpdate(Remediating, JReal(cpu)), now, active),
                  last, cause, action, Incident(cause, action, cpu, c.containerName, now), restarted);
  }

  /** The counts of HandlingDisplay's two shapes, whatever records they publish. */
  lemma DisplayCounts(r1: Record, r2: Record, r3: Record, cause: string, action: string, row: Incident, restarted: bool)
    ensures var report := [Notified(cause, action), Logged(row)];
      var events :=
        if restarted then [Published(r1), Analyzed(cause), Published(r2), Remediated(restarted), Published(r3)] + report
        else [Published(r1), Analyzed(cause), Published(r2), Remediated(restarted)] + report + [Published(r3)];
      && Occurrences(events, IsAnalysis) == 1
      && Occurrences(events, IsRemediation) == 1
      && Occurrences(events, IsNotification) == 1
      && Occurrences(events, IsIncident) == 1
      && LoggedIncidents(events) == [row]
  {
    var report := [Notified(cause, action), Logged(row)];
    var events :=
      if restarted then [Published(r1), Analyzed(cause), Published(r2), Remediated(restarted), Published(r3)] + report
      else [Published(r1), Analyzed(cause), Published(r2), Remediated(restarted)] + report + [Published(r3)];
    var n := if restarted then 5 else 4;
    OccursOnlyAt(events, IsAnalysis, 1);
    OccursOnlyAt(events, IsRemediation, 3);
    OccursOnlyAt(events, IsNotification, n);
    OccursOnlyAt(events, IsIncident, n + 1);
    LoggedOnlyAt(events, n + 1);
  }

  /**
   * After a successful restart the dashboard is left at "Remediation Complete"
   * with cpu 25.0; after a failed one at "Intervention Needed" with the
   * spike's cpu.
   */
  lemma HandlingOutcome(c: Config, active: bool, now: int, cpu: real, cause: string, restarted: bool, before: Record)
    ensures var last := LastRecord(HandlingEvents(c, active, now, cpu, cause, restarted), before);
      && (restarted ==> last == c.Stamp(StatusUpdate(RemediationComplete, JReal(RestartedCpu)), now, active))
      && (!restarted ==> last == c.Stamp(StatusUpdate(InterventionNeeded, JReal(cpu)), now, active))
  {
    var events := HandlingEvents(c, active, now, cpu, cause, restarted);
    HandlingDisplay(c, active, now, cpu, cause, restarted);
    var k := |events| - 1;
    LastRecordAppend(events[..k], [events[k]], before);
    assert events == events[..k] + [events[k]];
    if restarted {
      LastRecordAppend(events[..5], events[5..k], before);
      assert events[..k] == events[..5] + events[5..k];
      LastRecordAppend(events[..4], [events[4]], before);
      assert events[..5] == events[..4] + [events[4]];
    }
  }
}
