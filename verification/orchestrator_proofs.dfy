/** What a fresh run and a restart do to the execution log, proved over every
    registry, every exit-value oracle and every starting log. */
module OrchestratorProofs {
  import opened Wrappers
  import opened Seqs
  import opened ExecutionLog
  import opened Orchestrator

  /** How many jobs of `jobs` a loop reaches: all of them, or up to and including
      the first one whose command returns 1. */
  function Reached(jobs: seq<Job>, exit: ExitOracle): (k: nat)
    ensures k <= |jobs|
    ensures forall i :: 0 <= i < k - 1 ==> exit(jobs[i]) != 1
    ensures k == |jobs| || (0 < k && exit(jobs[k - 1]) == 1)
  {
    if |jobs| == 0 then 0
    else if exit(jobs[0]) == 1 then 1
    else 1 + Reached(jobs[1..], exit)
  }

  /** The first job returning 1 is the last one reached. */
  lemma ReachedFirstFailure(jobs: seq<Job>, exit: ExitOracle, p: nat)
    requires p < |jobs| && exit(jobs[p]) == 1
    requires forall i :: 0 <= i < p ==> exit(jobs[i]) != 1
    ensures Reached(jobs, exit) == p + 1
  {
  }

  /** The row a fresh or non-reused restart iteration leaves for `job` when its
      command returned `code`. */
  predicate Reports(row: Run, job: Job, code: int) {
    && row.jobId == job.jobId
    && row.status == StatusFor(code, Running)
    && (row.end.Some? <==> code == 0)
    && row.error == (if code == 1 then Some(FailureMessage(job)) else None)
  }

  /** The reused row after a restart iteration of the failed job. */
  predicate ReportsRestarted(row: Run, job: Job, code: int) {
    && row.status == StatusFor(code, Restarted)
    && row.end.Some?
    && row.error == (if code == 1 then Some(FailureMessage(job)) else None)
  }

  /** Run ids of the rows from `from` on exceed every id before them. */
  predicate IdsIncreaseFrom(log: Log, from: nat) {
    forall i, j :: 0 <= i < j < |log| && from <= j ==> log[i].runId < log[j].runId
  }

  /** A fresh iteration appends exactly one row, with a new run id and the outcome
      of the command, and modifies no existing row. */
  lemma FreshJobShape(job: Job, exit: ExitOracle, st: State)
    ensures var s := FreshJob(job, exit, st);
      && s.state.log[..|st.log|] == st.log
      && Reports(s.state.log[|st.log|], job, exit(job))
      && s.state.log[|st.log|].start == st.clock
      && IdsIncreaseFrom(s.state.log, |st.log|)
  {
    var runId := FreshId(st.log);
    var row := Run(job.jobId, runId, st.clock, None, Running, None, st.clock + 1);
    var log1 := st.log + [row];
    assert forall i :: 0 <= i < |st.log| ==> !HasKey(log1[i], job.jobId, runId);
    assert HasKey(log1[|st.log|], job.jobId, runId);
  }

  /** `r` is `a` with one row appended for each of the first `k` jobs, in order,
      each reporting its command's outcome under a run id larger than every id
      before it; the rows of `a` are untouched. */
  predicate Appended(a: Log, r: Log, jobs: seq<Job>, exit: ExitOracle, k: nat)
    requires k <= |jobs|
  {
    && |r| == |a| + k
    && r[..|a|] == a
    && (forall i :: 0 <= i < k ==> Reports(r[|a| + i], jobs[i], exit(jobs[i])))
    && IdsIncreaseFrom(r, |a|)
  }

  /** Rows appended in two stages: one row on top of `a`, then `m` more. */
  lemma AppendedTwice(a: Log, s: Log, r: Log, jobs: seq<Job>, exit: ExitOracle, m: nat)
    requires |jobs| >= 1 + m
    requires Appended(a, s, jobs, exit, 1)
    requires Appended(s, r, jobs[1..], exit, m)
    ensures Appended(a, r, jobs, exit, m + 1)
  {
    var n := |a|;
    assert r[..n] == r[..n + 1][..n];
    forall i | 0 <= i < m + 1
      ensures Reports(r[n + i], jobs[i], exit(jobs[i]))
    {
      if i == 0 {
        assert r[n] == r[..n + 1][n];
      } else {
        assert jobs[i] == jobs[1..][i - 1];
        assert r[n + i] == r[(n + 1) + (i - 1)];
      }
    }
    forall i, j | 0 <= i < j < |r| && n <= j
      ensures r[i].runId < r[j].runId
    {
      if j == n {
        assert r[i] == r[..n + 1][i];
        assert r[j] == r[..n + 1][j];
      }
    }
  }

  /** A fresh run appends one row per job reached, in the jobs' order, each with
      the outcome of its command; existing rows stay as they were and every new
      run id is larger than every id before it. */
  lemma {:induction false} FreshLoopShape(jobs: seq<Job>, exit: ExitOracle, st: State)
    ensures Appended(st.log, FreshLoop(jobs, exit, st).log, jobs, exit, Reached(jobs, exit))
  {
    if |jobs| > 0 {
      var s := FreshJob(jobs[0], exit, st);
      FreshJobShape(jobs[0], exit, st);
      assert Appended(st.log, s.state.log, jobs, exit, 1) by {
        assert s.state.log[|st.log| + 0] == s.state.log[|st.log|];
      }
      if !s.halted {
        var r := FreshLoop(jobs[1..], exit, s.state);
        assert FreshLoop(jobs, exit, st) == r;
        assert Reached(jobs, exit) == 1 + Reached(jobs[1..], exit);
        FreshLoopShape(jobs[1..], exit, s.state);
        AppendedTwice(st.log, s.state.log, r.log, jobs, exit, Reached(jobs[1..], exit));
      } else {
        assert FreshLoop(jobs, exit, st) == s.state;
        assert Reached(jobs, exit) == 1;
      }
    }
  }
}
