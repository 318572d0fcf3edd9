/** The `etl_jobs_execution_logging` table as a plain sequence of rows, with the
    keyed SQL UPDATE, the run-id oracle and the "latest failed run" query. */
module ExecutionLog {
  import opened Wrappers

  /** A job run identifier; the source uses a uuid rendered as hex text. */
  type RunId = nat

  /** A reading of the clock; every `datetime.now()` call yields the next one. */
  type Time = nat

  datatype Status = Running | Succeeded | Failed | Restarted

  /** One row: `(job_id, job_run_id, start_time, end_time, status, error_message, last_updated_time)`. */
  datatype Run = Run(
    jobId: int,
    runId: RunId,
    start: Time,
    end: Option<Time>,
    status: Status,
    error: Option<string>,
    lastUpdated: Time)

  type Log = seq<Run>

  /** The three UPDATE statements the orchestrator issues. */
  datatype Change =
    | MarkSucceeded(endTime: Time, updated: Time)
    | MarkFailed(message: string, updated: Time)
    | MarkRestarted(endTime: Time, updated: Time)

  predicate HasKey(row: Run, jobId: int, runId: RunId) {
    row.jobId == jobId && row.runId == runId
  }

  /** The SET part of one UPDATE applied to one row. No statement touches the key
      or `start_time`; `MarkFailed` leaves `end_time` alone. */
  function Apply(row: Run, change: Change): (r: Run)
    ensures r.jobId == row.jobId && r.runId == row.runId && r.start == row.start
    ensures r.lastUpdated == change.updated
    ensures change.MarkFailed? ==> r.status == Failed && r.end == row.end && r.error == Some(change.message)
    ensures change.MarkSucceeded? ==> r.status == Succeeded && r.end == Some(change.endTime) && r.error == row.error
    ensures change.MarkRestarted? ==> r.status == Restarted && r.end == Some(change.endTime) && r.error == None
  {
    match change
    case MarkSucceeded(t, u) => row.(end := Some(t), status := Succeeded, lastUpdated := u)
    case MarkFailed(m, u) => row.(status := Failed, error := Some(m), lastUpdated := u)
    case MarkRestarted(t, u) => row.(end := Some(t), status := Restarted, error := None, lastUpdated := u)
  }

  /** `UPDATE ... WHERE job_id = %s AND job_run_id = %s`: every row with the key
      changes, every other row stays, nothing is added or removed. */
  function UpdateWhere(log: Log, jobId: int, runId: RunId, change: Change): (r: Log)
    ensures |r| == |log|
    ensures forall i :: 0 <= i < |log| && !HasKey(log[i], jobId, runId) ==> r[i] == log[i]
    ensures forall i :: 0 <= i < |log| && HasKey(log[i], jobId, runId) ==> r[i] == Apply(log[i], change)
  {
    if |log| == 0 then []
    else
      [if HasKey(log[0], jobId, runId) then Apply(log[0], change) else log[0]]
      + UpdateWhere(log[1..], jobId, runId, change)
  }

  /** The largest run id in use, 0 for an empty log. */
  function MaxRunId(log: Log): (m: RunId)
    ensures forall i :: 0 <= i < |log| ==> log[i].runId <= m
  {
    if |log| == 0 then 0
    else
      var rest := MaxRunId(log[1..]);
      if log[0].runId > rest then log[0].runId else rest
  }

  /** The fresh-id oracle standing in for `uuid.uuid1()` / `uuid.uuid4()`: an id
      larger than, hence different from, every id already in the log. */
  function FreshId(log: Log): (id: RunId)
    ensures forall i :: 0 <= i < |log| ==> log[i].runId < id
  {
    MaxRunId(log) + 1
  }

  /** `SELECT job_id, job_run_id ... WHERE status = 'Failed' ORDER BY last_updated_time
      DESC LIMIT 1`, as the index of the chosen row. Among rows with equal times the
      earliest in the log is chosen; the SQL leaves that tie unspecified. */
  function LatestFailed(log: Log): (r: Option<nat>)
    ensures r.None? <==> forall i :: 0 <= i < |log| ==> log[i].status != Failed
    ensures r.Some? ==> r.value < |log| && log[r.value].status == Failed
    ensures r.Some? ==> forall i :: 0 <= i < |log| && log[i].status == Failed ==>
                          log[i].lastUpdated <= log[r.value].lastUpdated
  {
    if |log| == 0 then None
    else
      var rest := LatestFailed(log[1..]);
      if log[0].status != Failed then
        (if rest.None? then None else Some(rest.value + 1))
      else if rest.Some? && log[rest.value + 1].lastUpdated > log[0].lastUpdated then
        Some(rest.value + 1)
      else
        Some(0)
  }

  /** A failed row updated strictly later than every other failed row is the one
      chosen. */
  lemma LatestFailedUnique(log: Log, k: nat)
    requires k < |log| && log[k].status == Failed
    requires forall i :: 0 <= i < |log| && i != k && log[i].status == Failed ==> log[i].lastUpdated < log[k].lastUpdated
    ensures LatestFailed(log) == Some(k)
  {
  }

  /** Every time recorded in the log is earlier than the clock's next reading. */
  predicate ClockAhead(log: Log, clock: Time) {
    forall i :: 0 <= i < |log| ==>
      log[i].start < clock && log[i].lastUpdated < clock &&
      (log[i].end.Some? ==> log[i].end.value < clock)
  }
}
