/**
 * The part of analyze_logs that does not talk to the chat model: keeping the
 * last 3000 characters of the log file and, when no API key is set, the
 * keyword classifier.
 */
module LogAnalysis {
  import opened Wrappers

  const MaxLogChars := 3000

  const WorkerCause := "Multiple worker processes causing CPU overload"
  const MemoryCause := "Memory pressure leading to excessive swapping"
  const NetworkCause := "High network activity overwhelming system"
  const DefaultCause := "Process inefficiency in container workload"
  const KnownCauses: set<string> := {WorkerCause, MemoryCause, NetworkCause, DefaultCause}

  /** The text analyze_logs returns when it catches an exception. */
  const AnalysisFailedPrefix := "Log analysis failed: "

  /** `logs[-3000:]` when the text is longer than 3000 characters, else the text. */
  function Tail(logs: string): (r: string)
    ensures |r| == if |logs| > MaxLogChars then MaxLogChars else |logs|
    ensures logs == logs[..|logs| - |r|] + r
  {
    if |logs| > MaxLogChars then logs[|logs| - MaxLogChars..] else logs
  }

  /** str.lower() on one character, for the ASCII letters. */
  function LowerChar(c: char): char {
    if 'A' <= c <= 'Z' then (c as int - 'A' as int + 'a' as int) as char else c
  }

  function Lower(s: string): (r: string)
    ensures |r| == |s|
    ensures forall i :: 0 <= i < |s| ==> r[i] == LowerChar(s[i])
  {
    if s == [] then [] else [LowerChar(s[0])] + Lower(s[1..])
  }

  /** `pattern` occurs in `text` starting at index i. */
  predicate MatchesAt(text: string, pattern: string, i: int) {
    0 <= i <= |text| - |pattern| && text[i..i + |pattern|] == pattern
  }

  /** Python's `pattern in text`. */
  predicate Contains(text: string, pattern: string) {
    exists i | 0 <= i <= |text| - |pattern| :: MatchesAt(text, pattern, i)
  }

  /**
   * The simulated analysis: the first keyword found, in a fixed order, in the
   * lower-cased text decides the cause.
   */
  function Classify(logs: string): (cause: string)
    ensures cause in KnownCauses
    ensures cause == WorkerCause <==> Contains(Lower(logs), "worker processes")
    ensures cause == MemoryCause <==>
      !Contains(Lower(logs), "worker processes") && Contains(Lower(logs), "memory pressure")
    ensures cause == NetworkCause <==>
      !Contains(Lower(logs), "worker processes") && !Contains(Lower(logs), "memory pressure")
      && Contains(Lower(logs), "network connections")
    ensures cause == DefaultCause <==>
      !Contains(Lower(logs), "worker processes") && !Contains(Lower(logs), "memory pressure")
      && !Contains(Lower(logs), "network connections")
  {
    var text := Lower(logs);
    if Contains(text, "worker processes") then WorkerCause
    else if Contains(text, "memory pressure") then MemoryCause
    else if Contains(text, "network connections") then NetworkCause
    else DefaultCause
  }

  /**
   * analyze_logs: `logs` is the log file's text or the message of the
   * exception raised while creating or reading it; `reply` is the chat
   * model's stripped answer or the message of the exception it raised.
   * The function never fails: every exception becomes a cause string.
   */
  function AnalyzeLogs(apiKeySet: bool, logs: Result<string, string>, reply: Result<string, string>): (analysis: string)
    ensures logs.Failure? ==> analysis == AnalysisFailedPrefix + logs.error
    ensures logs.Success? && !apiKeySet ==> analysis == Classify(Tail(logs.value))
    ensures logs.Success? && apiKeySet && reply.Success? ==> analysis == reply.value
    ensures logs.Success? && apiKeySet && reply.Failure? ==> analysis == AnalysisFailedPrefix + reply.error
  {
    match logs
    case Failure(e) => AnalysisFailedPrefix + e
    case Success(text) =>
      var recent := Tail(text);
      if apiKeySet then
        match reply
        case Success(answer) => answer
        case Failure(e) => AnalysisFailedPrefix + e
      else
        Classify(recent)
  }

  /** Only the last 3000 characters matter: older log text never changes the offline analysis. */
  lemma OfflineAnalysisReadsOnlyTail(older: string, logs: string, reply: Result<string, string>, reply': Result<string, string>)
    requires |logs| >= MaxLogChars
    ensures AnalyzeLogs(false, Success(older + logs), reply) == AnalyzeLogs(false, Success(logs), reply')
  {
    var all := older + logs;
    assert Tail(all) == all[|all| - MaxLogChars..];
    assert all[|all| - MaxLogChars..] == logs[|logs| - MaxLogChars..];
  }

  lemma {:induction false} LowerAppend(a: string, b: string)
    ensures Lower(a + b) == Lower(a) + Lower(b)
  {
    if a != [] {
      assert (a + b)[1..] == a[1..] + b;
      LowerAppend(a[1..], b);
    }
  }

  lemma ContainsExtend(before: string, text: string, after: string, pattern: string)
    requires Contains(text, pattern)
    ensures Contains(before + text + after, pattern)
  {
    var i :| 0 <= i <= |text| - |pattern| && MatchesAt(text, pattern, i);
    var all := before + text + after;
    var j := |before| + i;
    assert all[j..j + |pattern|] == text[i..i + |pattern|];
    assert MatchesAt(all, pattern, j);
  }

  /** Position of a cause in the classifier's priority order. */
  function Rank(cause: string): nat {
    if cause == WorkerCause then 0
    else if cause == MemoryCause then 1
    else if cause == NetworkCause then 2
    else 3
  }

  /**
   * More log text around the same lines can only move the simulated cause up
   * the priority order, never down.
   */
  lemma ClassifyRankMonotone(before: string, logs: string, after: string)
    ensures Rank(Classify(before + logs + after)) <= Rank(Classify(logs))
  {
    LowerAppend(before, logs);
    LowerAppend(before + logs, after);
    var text := Lower(logs);
    var all := Lower(before + logs + after);
    assert all == Lower(before) + text + Lower(after);
    forall pattern | Contains(text, pattern) ensures Contains(all, pattern) {
      ContainsExtend(Lower(before), text, Lower(after), pattern);
    }
  }
}
