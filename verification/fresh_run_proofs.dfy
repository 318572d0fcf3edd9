/** Consequences of the fresh-run shape: halting, completion, fresh run ids and
    the hand-over from a halted fresh run to a restart. */
module FreshRunProofs {
  import opened Wrappers
  import opened Seqs
  import opened ExecutionLog
  import opened Orchestrator
  import opened OrchestratorProofs

  /** The first command returning 1 halts the batch: that job's row is `Failed` with
      its message, and the rows appended are those of the jobs up to it, in order. */
  lemma FreshRunHalts(jobs: seq<Job>, exit: ExitOracle, st: State, p: nat)
    requires p < |jobs| && exit(jobs[p]) == 1
    requires forall i :: 0 <= i < p ==> exit(jobs[i]) != 1
    ensures var r := FreshLoop(jobs, exit, st);
      && |r.log| == |st.log| + p + 1
      && r.log[|st.log| + p].status == Failed
      && r.log[|st.log| + p].error == Some(jobs[p].query + " failed")
      && r.log[|st.log| + p].end == None
      && forall m :: |st.log| <= m < |r.log| ==> r.log[m].jobId == jobs[m - |st.log|].jobId
  {
    var r := FreshLoop(jobs, exit, st);
    ReachedFirstFailure(jobs, exit, p);
    FreshLoopShape(jobs, exit, st);
    assert Reports(r.log[|st.log| + p], jobs[p], exit(jobs[p]));
    forall m | |st.log| <= m < |r.log|
      ensures r.log[m].jobId == jobs[m - |st.log|].jobId
    {
      assert Reports(r.log[|st.log| + (m - |st.log|)], jobs[m - |st.log|], exit(jobs[m - |st.log|]));
    }
  }

  /** When job ids are distinct (the registry does not enforce it), no job after
      the halting one gets a row. */
  lemma LaterJobsNotRun(jobs: seq<Job>, exit: ExitOracle, st: State, p: nat)
    requires p < |jobs| && exit(jobs[p]) == 1
    requires forall i :: 0 <= i < p ==> exit(jobs[i]) != 1
    requires forall i, j :: 0 <= i < j < |jobs| ==> jobs[i].jobId != jobs[j].jobId
    ensures var r := FreshLoop(jobs, exit, st);
      forall q, m :: p < q < |jobs| && |st.log| <= m < |r.log| ==> r.log[m].jobId != jobs[q].jobId
  {
    FreshRunHalts(jobs, exit, st, p);
  }

  /** When no command returns 1, every job gets exactly one row, in order; a row is
      `Succeeded` exactly when its command returned 0 and is otherwise left `Running`. */
  lemma FreshRunCompletes(jobs: seq<Job>, exit: ExitOracle, st: State)
    requires forall i :: 0 <= i < |jobs| ==> exit(jobs[i]) != 1
    ensures var r := FreshLoop(jobs, exit, st);
      && |r.log| == |st.log| + |jobs|
      && r.log[..|st.log|] == st.log
      && forall i :: 0 <= i < |jobs| ==>
           && r.log[|st.log| + i].jobId == jobs[i].jobId
           && (r.log[|st.log| + i].status == Succeeded <==> exit(jobs[i]) == 0)
           && (r.log[|st.log| + i].status == Running <==> exit(jobs[i]) != 0)
           && r.log[|st.log| + i].error == None
  {
    var r := FreshLoop(jobs, exit, st);
    assert Reached(jobs, exit) == |jobs| by {
      if Reached(jobs, exit) < |jobs| {
        assert false;
      }
    }
    FreshLoopShape(jobs, exit, st);
    forall i | 0 <= i < |jobs|
      ensures r.log[|st.log| + i].jobId == jobs[i].jobId
      ensures r.log[|st.log| + i].status == Succeeded <==> exit(jobs[i]) == 0
      ensures r.log[|st.log| + i].status == Running <==> exit(jobs[i]) != 0
      ensures r.log[|st.log| + i].error == None
    {
      assert Reports(r.log[|st.log| + i], jobs[i], exit(jobs[i]));
      ReportsNotFailed(r.log[|st.log| + i], jobs[i], exit(jobs[i]));
    }
  }

  /** A row reporting a return value other than 1 is `Succeeded` for 0 and left
      `Running` otherwise, without an error. */
  lemma ReportsNotFailed(row: Run, job: Job, code: int)
    requires Reports(row, job, code) && code != 1
    ensures row.jobId == job.jobId
    ensures row.status == Succeeded <==> code == 0
    ensures row.status == Running <==> code != 0
    ensures row.error == None
  {
  }

  /** Two fresh runs in a row never share a run id: the second does not recognise
      the jobs the first already completed. */
  lemma NewRunsDisjoint(registry: seq<Job>, exit1: ExitOracle, exit2: ExitOracle, st: State)
    ensures var r1 := NewEtlJobRun(registry, exit1, st);
      var r2 := NewEtlJobRun(registry, exit2, r1);
      forall i, j :: |st.log| <= i < |r1.log| && |r1.log| <= j < |r2.log| ==> r1.log[i].runId != r2.log[j].runId
  {
    var r1 := NewEtlJobRun(registry, exit1, st);
    var r2 := NewEtlJobRun(registry, exit2, r1);
    FreshLoopShape(ActiveJobs(registry), exit2, r1);
    forall i, j | |st.log| <= i < |r1.log| && |r1.log| <= j < |r2.log|
      ensures r1.log[i].runId != r2.log[j].runId
    {
      assert r2.log[i] == r2.log[..|r1.log|][i];
    }
  }

  /** One fresh iteration keeps every recorded time behind the clock. */
  lemma FreshJobAhead(job: Job, exit: ExitOracle, st: State)
    requires ClockAhead(st.log, st.clock)
    ensures var s := FreshJob(job, exit, st); ClockAhead(s.state.log, s.state.clock)
  {
    FreshJobClock(job, exit, st);
  }

  /** One fresh iteration keeps every recorded time behind the clock; when it halts,
      the row it failed was updated after every other row. */
  lemma FreshJobClock(job: Job, exit: ExitOracle, st: State)
    requires ClockAhead(st.log, st.clock)
    ensures var s := FreshJob(job, exit, st);
      && ClockAhead(s.state.log, s.state.clock)
      && (s.halted ==>
            && s.state.log[|st.log|].status == Failed
            && forall i :: 0 <= i < |s.state.log| && i != |st.log| ==>
                 s.state.log[i].lastUpdated < s.state.log[|st.log|].lastUpdated)
  {
    FreshJobShape(job, exit, st);
  }

  /** The last row is a failed row updated after every other row. */
  predicate LastIsLatest(log: Log) {
    && |log| > 0
    && log[|log| - 1].status == Failed
    && forall i :: 0 <= i < |log| - 1 ==> log[i].lastUpdated < log[|log| - 1].lastUpdated
  }

  /** A fresh run keeps every recorded time behind the clock, and a run that halts
      leaves its failed row as the one a restart will pick. */
  lemma FreshLoopClock(jobs: seq<Job>, exit: ExitOracle, st: State)
    requires ClockAhead(st.log, st.clock)
    ensures var r := FreshLoop(jobs, exit, st);
      && ClockAhead(r.log, r.clock)
      && (0 < Reached(jobs, exit) && exit(jobs[Reached(jobs, exit) - 1]) == 1 ==>
            LatestFailed(r.log) == Some(|r.log| - 1))
  {
    var r := FreshLoop(jobs, exit, st);
    FreshLoopAhead(jobs, exit, st);
    FreshLoopLatest(jobs, exit, st);
    if Halts(jobs, exit) {
      LastChosen(r.log);
    }
  }

  lemma LastChosen(log: Log)
    requires LastIsLatest(log)
    ensures LatestFailed(log) == Some(|log| - 1)
  {
    LatestFailedUnique(log, |log| - 1);
  }

  lemma {:induction false} FreshLoopAhead(jobs: seq<Job>, exit: ExitOracle, st: State)
    requires ClockAhead(st.log, st.clock)
    ensures var r := FreshLoop(jobs, exit, st); ClockAhead(r.log, r.clock)
  {
    if |jobs| > 0 {
      var s := FreshJob(jobs[0], exit, st);
      FreshJobAhead(jobs[0], exit, st);
      if !s.halted {
        FreshLoopAhead(jobs[1..], exit, s.state);
      }
    }
  }

  /** The loop over `jobs` stops at a job that returned 1. */
  predicate Halts(jobs: seq<Job>, exit: ExitOracle) {
    0 < Reached(jobs, exit) && exit(jobs[Reached(jobs, exit) - 1]) == 1
  }

  lemma {:induction false} FreshLoopLatest(jobs: seq<Job>, exit: ExitOracle, st: State)
    requires ClockAhead(st.log, st.clock)
    ensures Halts(jobs, exit) ==> LastIsLatest(FreshLoop(jobs, exit, st).log)
  {
    if |jobs| > 0 {
      if exit(jobs[0]) == 1 {
        HaltedHeadLatest(jobs, exit, st);
      } else {
        var next := LatestStep(jobs, exit, st);
        FreshLoopLatest(jobs[1..], exit, next);
      }
    }
  }

  /** A loop whose first job returns 1 ends with that job's row, the latest one. */
  lemma HaltedHeadLatest(jobs: seq<Job>, exit: ExitOracle, st: State)
    requires ClockAhead(st.log, st.clock) && |jobs| > 0 && exit(jobs[0]) == 1
    ensures LastIsLatest(FreshLoop(jobs, exit, st).log)
  {
    assert FreshLoop(jobs, exit, st) == FreshJob(jobs[0], exit, st).state;
    FreshJobClock(jobs[0], exit, st);
  }

  /** Past a job that does not return 1, the loop goes on from the state that job
      leaves, with the clock still ahead, and halts exactly when the rest does. */
  lemma LatestStep(jobs: seq<Job>, exit: ExitOracle, st: State) returns (next: State)
    requires ClockAhead(st.log, st.clock) && |jobs| > 0 && exit(jobs[0]) != 1
    ensures ClockAhead(next.log, next.clock)
    ensures FreshLoop(jobs, exit, st) == FreshLoop(jobs[1..], exit, next)
    ensures Halts(jobs, exit) <==> Halts(jobs[1..], exit)
  {
    next := FreshJob(jobs[0], exit, st).state;
    FreshJobAhead(jobs[0], exit, st);
    HaltsStep(jobs, exit);
  }

  /** Past a job that does not return 1, the loop halts exactly when the rest of
      it does. */
  lemma HaltsStep(jobs: seq<Job>, exit: ExitOracle)
    requires |jobs| > 0 && exit(jobs[0]) != 1
    ensures Halts(jobs, exit) <==> Halts(jobs[1..], exit)
  {
    ReachedStep(jobs, exit);
  }

  /** Past a job that does not return 1, the last job reached is the same one. */
  lemma ReachedStep(jobs: seq<Job>, exit: ExitOracle)
    requires |jobs| > 0 && exit(jobs[0]) != 1
    ensures Reached(jobs, exit) == 1 + Reached(jobs[1..], exit)
    ensures 0 < Reached(jobs, exit) && exit(jobs[Reached(jobs, exit) - 1]) == 1 <==>
      0 < Reached(jobs[1..], exit) && exit(jobs[1..][Reached(jobs[1..], exit) - 1]) == 1
  {
    var k := Reached(jobs[1..], exit);
    if 0 < k {
      assert jobs[k] == jobs[1..][k - 1];
    }
  }

  /** A restart after a fresh run that halted resumes exactly there: from the job
      whose command returned 1, reusing the run id of the row it failed. */
  lemma RestartResumesFreshFailure(registry: seq<Job>, exit1: ExitOracle, exit2: ExitOracle, st: State, p: nat)
    requires ClockAhead(st.log, st.clock)
    requires p < |ActiveJobs(registry)| && exit1(ActiveJobs(registry)[p]) == 1
    requires forall i :: 0 <= i < p ==> exit1(ActiveJobs(registry)[i]) != 1
    ensures var jobs := ActiveJobs(registry);
      var r1 := NewEtlJobRun(registry, exit1, st);
      && |r1.log| == |st.log| + p + 1
      && LatestFailed(r1.log) == Some(|st.log| + p)
      && r1.log[|st.log| + p].jobId == jobs[p].jobId
      && RestartEtlJobs(registry, exit2, r1) ==
           Success(RestartLoop(JobsFrom(registry, r1.log[|st.log| + p].jobId), r1.log[|st.log| + p].jobId,
                               r1.log[|st.log| + p].runId, exit2, r1))
  {
    HaltedRunShape(registry, exit1, st, p);
    RestartUsesLatest(registry, exit2, NewEtlJobRun(registry, exit1, st), |st.log| + p);
  }

  /** A fresh run halted by job `p` ends with that job's row, the latest failure. */
  lemma HaltedRunShape(registry: seq<Job>, exit: ExitOracle, st: State, p: nat)
    requires ClockAhead(st.log, st.clock)
    requires p < |ActiveJobs(registry)| && exit(ActiveJobs(registry)[p]) == 1
    requires forall i :: 0 <= i < p ==> exit(ActiveJobs(registry)[i]) != 1
    ensures var r := NewEtlJobRun(registry, exit, st);
      && |r.log| == |st.log| + p + 1
      && LatestFailed(r.log) == Some(|st.log| + p)
      && r.log[|st.log| + p].jobId == ActiveJobs(registry)[p].jobId
  {
    var jobs := ActiveJobs(registry);
    HaltedLength(jobs, exit, st, p);
    HaltedLatest(jobs, exit, st, p);
  }

  /** The halting job's row is the last one a fresh run appends. */
  lemma HaltedLength(jobs: seq<Job>, exit: ExitOracle, st: State, p: nat)
    requires p < |jobs| && exit(jobs[p]) == 1
    requires forall i :: 0 <= i < p ==> exit(jobs[i]) != 1
    ensures var r := FreshLoop(jobs, exit, st);
      && |r.log| == |st.log| + p + 1
      && r.log[|st.log| + p].jobId == jobs[p].jobId
  {
    var r := FreshLoop(jobs, exit, st);
    ReachedFirstFailure(jobs, exit, p);
    FreshLoopShape(jobs, exit, st);
    assert Reports(r.log[|st.log| + p], jobs[p], exit(jobs[p]));
  }

  /** The halting job's row is the latest failed row after a fresh run. */
  lemma HaltedLatest(jobs: seq<Job>, exit: ExitOracle, st: State, p: nat)
    requires ClockAhead(st.log, st.clock)
    requires p < |jobs| && exit(jobs[p]) == 1
    requires forall i :: 0 <= i < p ==> exit(jobs[i]) != 1
    requires |FreshLoop(jobs, exit, st).log| == |st.log| + p + 1
    ensures LatestFailed(FreshLoop(jobs, exit, st).log) == Some(|st.log| + p)
  {
    ReachedFirstFailure(jobs, exit, p);
    FreshLoopClock(jobs, exit, st);
  }

  lemma RestartUsesLatest(registry: seq<Job>, exit: ExitOracle, st: State, k: nat)
    requires LatestFailed(st.log) == Some(k)
    ensures RestartEtlJobs(registry, exit, st) ==
      Success(RestartLoop(JobsFrom(registry, st.log[k].jobId), st.log[k].jobId, st.log[k].runId, exit, st))
  {
  }
}
