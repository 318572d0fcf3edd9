/** The ETL job orchestrator of etl_job_run.py as a pure state machine: the job
    registry is a sequence, the execution log a sequence of rows, `os.system` an
    exit-value oracle, uuids come from `ExecutionLog.FreshId` and `datetime.now()`
    is a counter that advances on every call. */
module Orchestrator {
  import opened Wrappers
  import opened Seqs
  import opened ExecutionLog

  /** A row of `etl_jobs_logging`: `(job_id, job_name, job_query, active_flag)`. */
  datatype Job = Job(jobId: int, name: string, query: string, activeFlag: Option<char>)

  /** The orchestrator's world: the execution log and the clock's next reading. */
  datatype State = State(log: Log, clock: Time)

  /** The outcome of one loop iteration: the new state and whether the loop breaks. */
  datatype Step = Step(state: State, halted: bool)

  /** `os.system(job_query)`: the integer returned for each job. */
  type ExitOracle = Job -> int

  /** Why a restart cannot start: `failed_jobs[0]` on an empty result raises. */
  datatype RestartError = NoFailedRun

  /** `active_flag = 'Y'`; a NULL flag does not match. */
  predicate IsActive(job: Job) {
    job.activeFlag == Some('Y')
  }

  /** `SELECT * FROM etl_jobs_logging WHERE active_flag = 'Y'`, in the order the
      table returns its rows (there is no ORDER BY). */
  function ActiveJobs(registry: seq<Job>): (jobs: seq<Job>)
    ensures SubsequenceOf(jobs, registry)
    ensures forall i :: 0 <= i < |jobs| ==> IsActive(jobs[i]) && jobs[i] in registry
    ensures forall i :: 0 <= i < |registry| && IsActive(registry[i]) ==> registry[i] in jobs
    ensures forall j :: multiset(jobs)[j] == if IsActive(j) then multiset(registry)[j] else 0
  {
    WhereCount(registry, IsActive);
    Where(registry, IsActive)
  }

  /** `... WHERE active_flag = 'Y' AND job_id >= {failed job id}`. */
  function JobsFrom(registry: seq<Job>, failedJobId: int): (jobs: seq<Job>)
    ensures SubsequenceOf(jobs, registry)
    ensures forall i :: 0 <= i < |jobs| ==>
              IsActive(jobs[i]) && jobs[i].jobId >= failedJobId && jobs[i] in registry
    ensures forall i :: 0 <= i < |registry| && IsActive(registry[i]) && registry[i].jobId >= failedJobId ==>
              registry[i] in jobs
    ensures forall j :: multiset(jobs)[j] ==
              if IsActive(j) && j.jobId >= failedJobId then multiset(registry)[j] else 0
  {
    WhereCount(registry, (j: Job) => IsActive(j) && j.jobId >= failedJobId);
    Where(registry, (j: Job) => IsActive(j) && j.jobId >= failedJobId)
  }

  /** The text stored in `error_message` when a job fails. */
  function FailureMessage(job: Job): string {
    job.query + " failed"
  }

  /** The status a row ends the iteration with, by the value the command returned:
      only 0 and 1 are classified. */
  function StatusFor(code: int, initial: Status): Status {
    if code == 1 then Failed else if code == 0 then Succeeded else initial
  }

  /** The `if r == 1 ... elif r == 0` tail of every iteration. */
  function Finish(job: Job, runId: RunId, code: int, st: State): (s: Step)
    ensures s.halted <==> code == 1
    ensures |s.state.log| == |st.log|
    ensures forall i :: 0 <= i < |st.log| && !HasKey(st.log[i], job.jobId, runId) ==>
              s.state.log[i] == st.log[i]
    ensures forall i :: 0 <= i < |st.log| && HasKey(st.log[i], job.jobId, runId) ==>
              s.state.log[i].status == StatusFor(code, st.log[i].status)
    ensures code == 1 ==> forall i :: 0 <= i < |st.log| && HasKey(st.log[i], job.jobId, runId) ==>
              s.state.log[i] == Apply(st.log[i], MarkFailed(FailureMessage(job), st.clock))
    ensures code == 0 ==> forall i :: 0 <= i < |st.log| && HasKey(st.log[i], job.jobId, runId) ==>
              s.state.log[i] == Apply(st.log[i], MarkSucceeded(st.clock, st.clock + 1))
    ensures code != 0 && code != 1 ==> s.state == st
    ensures st.clock <= s.state.clock
  {
    if code == 1 then
      var log := UpdateWhere(st.log, job.jobId, runId, MarkFailed(FailureMessage(job), st.clock));
      Step(State(log, st.clock + 1), true)
    else if code == 0 then
      var log := UpdateWhere(st.log, job.jobId, runId, MarkSucceeded(st.clock, st.clock + 1));
      Step(State(log, st.clock + 2), false)
    else
      Step(st, false)
  }

  /** One iteration of `new_etl_job_run`: a fresh run id, an inserted `Running` row,
      the command, then the final update. */
  function FreshJob(job: Job, exit: ExitOracle, st: State): (s: Step)
    ensures s.halted <==> exit(job) == 1
    ensures |s.state.log| == |st.log| + 1
    ensures st.clock < s.state.clock
  {
    var runId := FreshId(st.log);
    var row := Run(job.jobId, runId, st.clock, None, Running, None, st.clock + 1);
    Finish(job, runId, exit(job), State(st.log + [row], st.clock + 2))
  }

  /** The loop of `new_etl_job_run` over the given jobs, stopping after the first
      job whose command returned 1. */
  function FreshLoop(jobs: seq<Job>, exit: ExitOracle, st: State): (r: State)
    ensures |st.log| <= |r.log| <= |st.log| + |jobs|
    ensures st.clock <= r.clock
    decreases |jobs|
  {
    if |jobs| == 0 then st
    else
      var s := FreshJob(jobs[0], exit, st);
      if s.halted then s.state else FreshLoop(jobs[1..], exit, s.state)
  }

  /** `new_etl_job_run`: the loop over the active jobs. */
  function NewEtlJobRun(registry: seq<Job>, exit: ExitOracle, st: State): (r: State)
    ensures |st.log| <= |r.log| <= |st.log| + |ActiveJobs(registry)|
    ensures st.clock <= r.clock
  {
    FreshLoop(ActiveJobs(registry), exit, st)
  }

  /** One iteration of `restart_etl_jobs`. The job with the failed job's id reuses
      the failed run id and marks that row `Restarted`; any other job is handled as
      in a fresh run. `start_job_values` reads the clock twice in both cases. */
  function RestartJob(job: Job, failedJobId: int, failedRunId: RunId, exit: ExitOracle, st: State): (s: Step)
    ensures s.halted <==> exit(job) == 1
    ensures job.jobId == failedJobId ==> |s.state.log| == |st.log|
    ensures job.jobId != failedJobId ==> |s.state.log| == |st.log| + 1
    ensures st.clock < s.state.clock
  {
    var reuse := job.jobId == failedJobId;
    var runId := if reuse then failedRunId else FreshId(st.log);
    var t := st.clock;
    var st1 :=
      if reuse then
        State(UpdateWhere(st.log, job.jobId, runId, MarkRestarted(t + 2, t + 3)), t + 4)
      else
        State(st.log + [Run(job.jobId, runId, t, None, Running, None, t + 1)], t + 2);
    Finish(job, runId, exit(job), st1)
  }

  /** The loop of `restart_etl_jobs` over the given jobs. */
  function RestartLoop(jobs: seq<Job>, failedJobId: int, failedRunId: RunId, exit: ExitOracle, st: State): (r: State)
    ensures |st.log| <= |r.log| <= |st.log| + |jobs|
    ensures st.clock <= r.clock
    decreases |jobs|
  {
    if |jobs| == 0 then st
    else
      var s := RestartJob(jobs[0], failedJobId, failedRunId, exit, st);
      if s.halted then s.state else RestartLoop(jobs[1..], failedJobId, failedRunId, exit, s.state)
  }

  /** `restart_etl_jobs`: resume from the latest failed run, or raise when the log
      holds no failed run. */
  function RestartEtlJobs(registry: seq<Job>, exit: ExitOracle, st: State): (r: Result<State, RestartError>)
    ensures r.Failure? <==> forall i :: 0 <= i < |st.log| ==> st.log[i].status != Failed
    ensures r.Success? ==> exists k :: (
      && 0 <= k < |st.log| && st.log[k].status == Failed
      && (forall i :: 0 <= i < |st.log| && st.log[i].status == Failed ==> st.log[i].lastUpdated <= st.log[k].lastUpdated)
      && r.value == RestartLoop(JobsFrom(registry, st.log[k].jobId), st.log[k].jobId, st.log[k].runId, exit, st))
  {
    match LatestFailed(st.log)
    case None => Failure(NoFailedRun)
    case Some(k) =>
      var failed := st.log[k];
      Success(RestartLoop(JobsFrom(registry, failed.jobId), failed.jobId, failed.runId, exit, st))
  }

  /** `main`'s dispatch on `--run_type`: absent means a fresh run, `restart` a
      restart, and any other value (`new` included) does nothing. */
  function RunMain(runType: Option<string>, registry: seq<Job>, exit: ExitOracle, st: State): (r: Result<State, RestartError>)
    ensures runType.None? ==> r == Success(NewEtlJobRun(registry, exit, st))
    ensures runType == Some("restart") ==> r == RestartEtlJobs(registry, exit, st)
    ensures runType.Some? && runType != Some("restart") ==> r == Success(st)
  {
    match runType
    case None => Success(NewEtlJobRun(registry, exit, st))
    case Some(t) => if t == "restart" then RestartEtlJobs(registry, exit, st) else Success(st)
  }
}
