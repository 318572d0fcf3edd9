/** What a restart does to the execution log: the reused run is updated in place,
    every other reached job gets a new row, and nothing else changes. */
module RestartProofs {
  import opened Wrappers
  import opened Seqs
  import opened ExecutionLog
  import opened Orchestrator
  import opened OrchestratorProofs

  /** The jobs of a restart that get a row of their own: those whose id differs
      from the failed job's id. */
  function Others(jobs: seq<Job>, failedJobId: int): seq<Job> {
    Where(jobs, (j: Job) => j.jobId != failedJobId)
  }

  lemma OthersCons(jobs: seq<Job>, k: nat, failedJobId: int)
    requires 0 < k <= |jobs|
    ensures Others(jobs[..k], failedJobId) ==
      (if jobs[0].jobId != failedJobId then [jobs[0]] else []) + Others(jobs[1..][..k - 1], failedJobId)
  {
    assert jobs[..k][1..] == jobs[1..][..k - 1];
  }

  /** `r` keeps the rows of `a` in place: rows of other runs are identical, rows of
      the reused run keep their job id, run id and start time. */
  predicate KeepsRows(a: Log, r: Log, failedJobId: int, failedRunId: RunId) {
    && |a| <= |r|
    && (forall i :: 0 <= i < |a| && !HasKey(a[i], failedJobId, failedRunId) ==> r[i] == a[i])
    && (forall i :: 0 <= i < |a| ==>
          r[i].jobId == a[i].jobId && r[i].runId == a[i].runId && r[i].start == a[i].start)
  }

  /** The rows of `r` past `a` are one per job of `jobs`, in order, each reporting
      its command's outcome. */
  predicate TailReports(a: Log, r: Log, jobs: seq<Job>, exit: ExitOracle) {
    && |r| == |a| + |jobs|
    && forall i :: 0 <= i < |jobs| ==> Reports(r[|a| + i], jobs[i], exit(jobs[i]))
  }

  /** A restart iteration for any job but the failed one behaves like a fresh one. */
  lemma RestartOtherJobShape(job: Job, failedJobId: int, failedRunId: RunId, exit: ExitOracle, st: State)
    requires job.jobId != failedJobId
    ensures var s := RestartJob(job, failedJobId, failedRunId, exit, st);
      && s.state.log[..|st.log|] == st.log
      && Reports(s.state.log[|st.log|], job, exit(job))
      && IdsIncreaseFrom(s.state.log, |st.log|)
  {
    var runId := FreshId(st.log);
    var row := Run(job.jobId, runId, st.clock, None, Running, None, st.clock + 1);
    var log1 := st.log + [row];
    assert forall i :: 0 <= i < |st.log| ==> !HasKey(log1[i], job.jobId, runId);
    assert HasKey(log1[|st.log|], job.jobId, runId);
  }

  /** The restart iteration of the failed job adds no row: every row of the failed
      run is marked `Restarted`, error cleared, then gets the final update. */
  lemma RestartFailedJobShape(job: Job, failedJobId: int, failedRunId: RunId, exit: ExitOracle, st: State)
    requires job.jobId == failedJobId
    ensures var s := RestartJob(job, failedJobId, failedRunId, exit, st);
      && KeepsRows(st.log, s.state.log, failedJobId, failedRunId)
      && |s.state.log| == |st.log|
      && forall i :: 0 <= i < |st.log| && HasKey(st.log[i], failedJobId, failedRunId) ==>
           ReportsRestarted(s.state.log[i], job, exit(job))
  {
  }

  /** `r` keeps the rows of `a`, and the rows past `a` report the reached jobs
      other than the failed one, under run ids larger than every id before them. */
  predicate RestartShape(a: Log, r: Log, jobs: seq<Job>, exit: ExitOracle, failedJobId: int, failedRunId: RunId) {
    && KeepsRows(a, r, failedJobId, failedRunId)
    && TailReports(a, r, Others(jobs[..Reached(jobs, exit)], failedJobId), exit)
    && IdsIncreaseFrom(r, |a|)
  }

  /** Combining the failed job's iteration with the rest of the loop. */
  lemma RestartShapeStepFailed(a: Log, s: Log, r: Log, jobs: seq<Job>, exit: ExitOracle, failedJobId: int, failedRunId: RunId)
    requires |jobs| > 0 && exit(jobs[0]) != 1 && jobs[0].jobId == failedJobId
    requires |s| == |a| && KeepsRows(a, s, failedJobId, failedRunId)
    requires RestartShape(s, r, jobs[1..], exit, failedJobId, failedRunId)
    ensures RestartShape(a, r, jobs, exit, failedJobId, failedRunId)
  {
    var k := Reached(jobs, exit);
    assert k == 1 + Reached(jobs[1..], exit);
    OthersCons(jobs, k, failedJobId);
    assert Others(jobs[..k], failedJobId) == Others(jobs[1..][..k - 1], failedJobId);
    KeepsRowsTrans(a, s, r, failedJobId, failedRunId);
    var others := Others(jobs[..k], failedJobId);
    assert TailReports(s, r, others, exit);
    forall i | 0 <= i < |others| ensures Reports(r[|a| + i], others[i], exit(others[i])) {
      assert |a| + i == |s| + i;
    }
  }

  /** Keeping rows composes. */
  lemma KeepsRowsTrans(a: Log, s: Log, r: Log, failedJobId: int, failedRunId: RunId)
    requires |s| == |a|
    requires KeepsRows(a, s, failedJobId, failedRunId) && KeepsRows(s, r, failedJobId, failedRunId)
    ensures KeepsRows(a, r, failedJobId, failedRunId)
  {
    forall i | 0 <= i < |a| && !HasKey(a[i], failedJobId, failedRunId) ensures r[i] == a[i] {
      assert !HasKey(s[i], failedJobId, failedRunId);
    }
  }

  /** Combining another job's iteration with the rest of the loop. */
  lemma RestartShapeStepOther(a: Log, s: Log, r: Log, jobs: seq<Job>, exit: ExitOracle, failedJobId: int, failedRunId: RunId)
    requires |jobs| > 0 && exit(jobs[0]) != 1 && jobs[0].jobId != failedJobId
    requires |s| == |a| + 1 && s[..|a|] == a && Reports(s[|a|], jobs[0], exit(jobs[0]))
    requires IdsIncreaseFrom(s, |a|)
    requires RestartShape(s, r, jobs[1..], exit, failedJobId, failedRunId)
    ensures RestartShape(a, r, jobs, exit, failedJobId, failedRunId)
  {
    var k := Reached(jobs, exit);
    assert k == 1 + Reached(jobs[1..], exit);
    OthersCons(jobs, k, failedJobId);
    var rest := Others(jobs[1..][..k - 1], failedJobId);
    assert Others(jobs[..k], failedJobId) == [jobs[0]] + rest;
    KeepsRowsPrefix(a, s, r, failedJobId, failedRunId);
    TailReportsCons(a, s, r, jobs[0], rest, exit, failedJobId, failedRunId);
    IdsIncreaseCons(a, s, r, failedJobId, failedRunId);
  }

  /** Rows kept past one appended row are kept before it too. */
  lemma KeepsRowsPrefix(a: Log, s: Log, r: Log, failedJobId: int, failedRunId: RunId)
    requires |s| == |a| + 1 && s[..|a|] == a
    requires KeepsRows(s, r, failedJobId, failedRunId)
    ensures KeepsRows(a, r, failedJobId, failedRunId)
  {
    forall i | 0 <= i < |a| ensures s[i] == a[i] {
      assert s[..|a|][i] == s[i];
    }
  }

  /** A row for `job` appended before the rows of `rest`. */
  lemma TailReportsCons(a: Log, s: Log, r: Log, job: Job, rest: seq<Job>, exit: ExitOracle, failedJobId: int, failedRunId: RunId)
    requires |s| == |a| + 1 && Reports(s[|a|], job, exit(job)) && job.jobId != failedJobId
    requires KeepsRows(s, r, failedJobId, failedRunId) && TailReports(s, r, rest, exit)
    ensures TailReports(a, r, [job] + rest, exit)
  {
    var n := |a|;
    var all := [job] + rest;
    assert !HasKey(s[n], failedJobId, failedRunId);
    assert r[n] == s[n];
    forall i | 0 <= i < |all| ensures Reports(r[n + i], all[i], exit(all[i])) {
      if i > 0 {
        assert all[i] == rest[i - 1];
        assert r[n + i] == r[(n + 1) + (i - 1)];
      }
    }
  }

  /** Increasing run ids past one appended row, and up to it, join up. */
  lemma IdsIncreaseCons(a: Log, s: Log, r: Log, failedJobId: int, failedRunId: RunId)
    requires |s| == |a| + 1 && IdsIncreaseFrom(s, |a|)
    requires KeepsRows(s, r, failedJobId, failedRunId) && IdsIncreaseFrom(r, |s|)
    ensures IdsIncreaseFrom(r, |a|)
  {
    var n := |a|;
    forall i, j | 0 <= i < j < |r| && n <= j ensures r[i].runId < r[j].runId {
      if j == n {
        assert r[j].runId == s[j].runId;
        assert r[i].runId == s[i].runId;
      }
    }
  }

  /** A restart keeps every existing row in place, changes only rows of the
      reused run, and appends one new row per reached job other than the failed
      one, in order, each with its command's outcome and a never-used run id. */
  lemma {:induction false} RestartLoopShape(jobs: seq<Job>, failedJobId: int, failedRunId: RunId, exit: ExitOracle, st: State)
    ensures RestartShape(st.log, RestartLoop(jobs, failedJobId, failedRunId, exit, st).log, jobs, exit, failedJobId, failedRunId)
  {
    var r := RestartLoop(jobs, failedJobId, failedRunId, exit, st).log;
    if |jobs| == 0 {
      assert r == st.log;
      assert jobs[..0] == [];
    } else {
      var s := RestartJob(jobs[0], failedJobId, failedRunId, exit, st);
      if jobs[0].jobId == failedJobId {
        RestartFailedJobShape(jobs[0], failedJobId, failedRunId, exit, st);
      } else {
        RestartOtherJobShape(jobs[0], failedJobId, failedRunId, exit, st);
      }
      if s.halted {
        assert r == s.state.log;
        assert Reached(jobs, exit) == 1;
        OthersCons(jobs, 1, failedJobId);
        assert jobs[1..][..0] == [];
        if jobs[0].jobId != failedJobId {
          assert s.state.log[|st.log| + 0] == s.state.log[|st.log|];
        }
      } else {
        assert r == RestartLoop(jobs[1..], failedJobId, failedRunId, exit, s.state).log;
        RestartLoopShape(jobs[1..], failedJobId, failedRunId, exit, s.state);
        if jobs[0].jobId == failedJobId {
          RestartShapeStepFailed(st.log, s.state.log, r, jobs, exit, failedJobId, failedRunId);
        } else {
          RestartShapeStepOther(st.log, s.state.log, r, jobs, exit, failedJobId, failedRunId);
        }
      }
    }
  }

  /** When the failed job is not among the jobs reached, no existing row changes. */
  lemma {:induction false} RestartUntouched(jobs: seq<Job>, failedJobId: int, failedRunId: RunId, exit: ExitOracle, st: State)
    requires forall q :: 0 <= q < Reached(jobs, exit) ==> jobs[q].jobId != failedJobId
    ensures RestartLoop(jobs, failedJobId, failedRunId, exit, st).log[..|st.log|] == st.log
  {
    var r := RestartLoop(jobs, failedJobId, failedRunId, exit, st).log;
    if |jobs| > 0 {
      assert jobs[0].jobId != failedJobId;
      var s := RestartJob(jobs[0], failedJobId, failedRunId, exit, st);
      RestartOtherJobShape(jobs[0], failedJobId, failedRunId, exit, st);
      if !s.halted {
        assert r == RestartLoop(jobs[1..], failedJobId, failedRunId, exit, s.state).log;
        assert Reached(jobs, exit) == 1 + Reached(jobs[1..], exit);
        assert forall q :: 0 <= q < Reached(jobs[1..], exit) ==> jobs[1..][q] == jobs[q + 1];
        RestartUntouched(jobs[1..], failedJobId, failedRunId, exit, s.state);
        RestartLoopShape(jobs[1..], failedJobId, failedRunId, exit, s.state);
        assert r[..|st.log|] == r[..|s.state.log|][..|st.log|];
      }
    }
  }

  /** When the failed job is reached exactly once, every row of the reused run ends
      `Restarted`, `Succeeded` or `Failed` by that job's return value (0, 1 or any
      other), with `end_time` set and the old error cleared unless it failed again. */
  lemma {:induction false} RestartReusedRow(jobs: seq<Job>, failedJobId: int, failedRunId: RunId, exit: ExitOracle, st: State, p: nat)
    requires p < Reached(jobs, exit) && jobs[p].jobId == failedJobId
    requires forall q :: 0 <= q < Reached(jobs, exit) && q != p ==> jobs[q].jobId != failedJobId
    ensures var r := RestartLoop(jobs, failedJobId, failedRunId, exit, st).log;
      forall i :: 0 <= i < |st.log| && HasKey(st.log[i], failedJobId, failedRunId) ==>
        ReportsRestarted(r[i], jobs[p], exit(jobs[p]))
  {
    if p == 0 {
      ReusedRowAtHead(jobs, failedJobId, failedRunId, exit, st);
    } else {
      var next := OtherJobStep(jobs, failedJobId, failedRunId, exit, st);
      assert forall q :: 0 <= q < Reached(jobs[1..], exit) ==> jobs[1..][q] == jobs[q + 1];
      RestartReusedRow(jobs[1..], failedJobId, failedRunId, exit, next, p - 1);
    }
  }

  /** Past a job other than the failed one that does not return 1, the loop goes
      on from a state that keeps every existing row. */
  lemma OtherJobStep(jobs: seq<Job>, failedJobId: int, failedRunId: RunId, exit: ExitOracle, st: State)
    returns (next: State)
    requires |jobs| > 0 && exit(jobs[0]) != 1 && jobs[0].jobId != failedJobId
    ensures RestartLoop(jobs, failedJobId, failedRunId, exit, st) == RestartLoop(jobs[1..], failedJobId, failedRunId, exit, next)
    ensures Reached(jobs, exit) == 1 + Reached(jobs[1..], exit)
    ensures |st.log| <= |next.log| && forall i :: 0 <= i < |st.log| ==> next.log[i] == st.log[i]
  {
    next := RestartJob(jobs[0], failedJobId, failedRunId, exit, st).state;
    RestartOtherJobShape(jobs[0], failedJobId, failedRunId, exit, st);
    assert forall i :: 0 <= i < |st.log| ==> next.log[i] == next.log[..|st.log|][i];
  }

  /** `RestartReusedRow` when the failed job comes first. */
  lemma ReusedRowAtHead(jobs: seq<Job>, failedJobId: int, failedRunId: RunId, exit: ExitOracle, st: State)
    requires 0 < Reached(jobs, exit) && jobs[0].jobId == failedJobId
    requires forall q :: 0 < q < Reached(jobs, exit) ==> jobs[q].jobId != failedJobId
    ensures var r := RestartLoop(jobs, failedJobId, failedRunId, exit, st).log;
      forall i :: 0 <= i < |st.log| && HasKey(st.log[i], failedJobId, failedRunId) ==>
        ReportsRestarted(r[i], jobs[0], exit(jobs[0]))
  {
    var r := RestartLoop(jobs, failedJobId, failedRunId, exit, st).log;
    var s := RestartJob(jobs[0], failedJobId, failedRunId, exit, st);
    RestartFailedJobShape(jobs[0], failedJobId, failedRunId, exit, st);
    if !s.halted {
      assert r == RestartLoop(jobs[1..], failedJobId, failedRunId, exit, s.state).log;
      assert Reached(jobs, exit) == 1 + Reached(jobs[1..], exit);
      assert forall q :: 0 <= q < Reached(jobs[1..], exit) ==> jobs[1..][q] == jobs[q + 1];
      RestartUntouched(jobs[1..], failedJobId, failedRunId, exit, s.state);
      assert forall i :: 0 <= i < |st.log| ==> r[i] == r[..|s.state.log|][i];
    }
  }

  /** A restart resumes from the latest failed run: it reaches the active jobs whose
      id is at least the failed job's, in registry order, reuses the failed run id
      for the failed job and gives every other job a new row. */
  lemma RestartFromLatestFailure(registry: seq<Job>, exit: ExitOracle, st: State, k: nat)
    requires LatestFailed(st.log) == Some(k)
    ensures var failed := st.log[k];
      var jobs := JobsFrom(registry, failed.jobId);
      var r := RestartEtlJobs(registry, exit, st);
      && failed.status == Failed
      && (forall i :: 0 <= i < |st.log| && st.log[i].status == Failed ==> st.log[i].lastUpdated <= failed.lastUpdated)
      && r.Success?
      && RestartShape(st.log, r.value.log, jobs, exit, failed.jobId, failed.runId)
  {
    var failed := st.log[k];
    RestartLoopShape(JobsFrom(registry, failed.jobId), failed.jobId, failed.runId, exit, st);
  }
}
