/** Putting jobs back on the schedule after a restart (pkg/service/processor/processor.go). */
module Processor {
  import opened JobSchedule
  import opened ExecutionLog
  import opened Executor
  import opened Batcher

  /** What RecoverJobs decides for one job: jobs to hand to ScheduleJobs, and jobs to schedule directly. */
  datatype Verdict = Verdict(toSchedule: seq<Job>, quick: seq<Job>)

  /** The zero row a job without any log row is compared with. */
  const NO_ROW := Row(0, Scheduled, 0, 0, Unset, ZERO_TIME, ZERO_TIME, 0)

  function Triage(env: Env, job: Job, answer: map<nat, Row>, version: nat, now: Instant): Verdict {
    var row := if job.id in answer then answer[job.id] else NO_ROW;
    var unseen := if job.id in answer then [] else [job];
    if row.node != env.node && row.queueVersion != version then Verdict(unseen, [])
    else
      var restored := job.(executionId := row.executionId, last := row.last);
      if now < env.cron(job.id)(row.last) && row.state == Scheduled then Verdict(unseen, [restored])
      else Verdict(unseen + [restored], [])
  }

  function TriageAll(env: Env, jobs: seq<Job>, answer: map<nat, Row>, version: nat, now: Instant): Verdict {
    if jobs == [] then Verdict([], [])
    else
      var n := |jobs| - 1;
      var before, last := TriageAll(env, jobs[..n], answer, version, now), Triage(env, jobs[n], answer, version, now);
      Verdict(before.toSchedule + last.toSchedule, before.quick + last.quick)
  }

  function AddAll(env: Env, scheduled: map<nat, Entry>, jobs: seq<Job>, now: Instant): map<nat, Entry>
    requires Ticking(env.cron)
  {
    if jobs == [] then scheduled
    else
      var job := jobs[|jobs| - 1];
      AddAll(env, scheduled, jobs[..|jobs| - 1], now)[job.id := Entry(job, NextTimeOf(env.cron, job, now))]
  }

  lemma {:induction false} AddAllConcat(env: Env, scheduled: map<nat, Entry>, a: seq<Job>, b: seq<Job>, now: Instant)
    requires Ticking(env.cron)
    ensures AddAll(env, scheduled, a + b, now) == AddAll(env, AddAll(env, scheduled, a, now), b, now)
  {
    if b == [] {
      assert a + b == a;
    } else {
      AddAllConcat(env, scheduled, a, b[..|b| - 1], now);
      assert (a + b)[..|a + b| - 1] == a + b[..|b| - 1];
    }
  }

  /** One turn of the loop over the jobs of a queue log. */
  method RecoverOne(executor: JobExecutor, jobFromDb: Job, states: map<nat, Row>, version: nat, now: Instant)
    returns (toSchedule: seq<Job>)
    requires Ticking(executor.env.cron)
    modifies executor`scheduled
    ensures toSchedule == Triage(executor.env, jobFromDb, states, version, now).toSchedule
    ensures executor.scheduled == AddAll(executor.env, old(executor.scheduled),
              Triage(executor.env, jobFromDb, states, version, now).quick, now)
  {
    var env := executor.env;
    ghost var scheduled := executor.scheduled;
    var job, row := jobFromDb, NO_ROW;
    toSchedule := [];
    if job.id in states {
      row := states[job.id];
    } else {
      toSchedule := [job];
    }
    if row.node != env.node && row.queueVersion != version { return; }
    job := job.(executionId := row.executionId, last := row.last);
    if now < env.cron(job.id)(row.last) && row.state == Scheduled {
      executor.AddJobSchedule(job, now);
      assert AddAll(env, scheduled, [job][..0], now) == scheduled;
    } else {
      toSchedule := toSchedule + [job];
    }
  }

  /** The jobs of one queue log: the quick ones are scheduled in place, the others go through ScheduleJobs. */
  method RecoverRange(executor: JobExecutor, ids: seq<nat>, jobsFromDb: seq<Job>, version: nat, now: Instant,
                      queueVersion: nat)
    returns (ghost answer: map<nat, Row>, ghost answer': map<nat, Row>)
    requires Ticking(executor.env.cron)
    modifies executor, executor.tables
    ensures LastRows(old(executor.tables.All()), (set j | j in ids), answer)
    ensures var verdict := TriageAll(executor.env, jobsFromDb, answer, version, now);
            var st := old(executor.View());
            var quick := st.(scheduled := AddAll(executor.env, st.scheduled, verdict.quick, now));
            && LastRows(old(executor.tables.All()), Ids(verdict.toSchedule), answer')
            && executor.View() == ScheduleAll(executor.env, quick, verdict.toSchedule, answer', now, queueVersion)
  {
    var states := executor.tables.GetLastExecutionLogForJobIds(ids);
    answer := states;
    var env := executor.env;
    ghost var st := executor.View();
    var jobsToSchedule: seq<Job> := [];
    ghost var quick: seq<Job> := [];
    for i := 0 to |jobsFromDb|
      invariant Verdict(jobsToSchedule, quick) == TriageAll(env, jobsFromDb[..i], states, version, now)
      invariant executor.View() == st.(scheduled := AddAll(env, st.scheduled, quick, now))
    {
      assert jobsFromDb[..i + 1][..i] == jobsFromDb[..i];
      ghost var verdict := Triage(env, jobsFromDb[i], states, version, now);
      AddAllConcat(env, st.scheduled, quick, verdict.quick, now);
      var toSchedule := RecoverOne(executor, jobsFromDb[i], states, version, now);
      jobsToSchedule, quick := jobsToSchedule + toSchedule, quick + verdict.quick;
    }
    assert jobsFromDb[..|jobsFromDb|] == jobsFromDb;
    answer' := executor.ScheduleJobs(jobsToSchedule, now, queueVersion);
  }

  // ---- exactness of a restart ----

  /** The row says the job waits for the activation after `row.last`, and was written on a real date. */
  predicate Waiting(env: Env, j: nat, row: Row) {
    row.job == j && row.state == Scheduled && row.last != ZERO_TIME && row.next == env.cron(j)(row.last)
  }

  /**
   * Quick recovery of a waiting job of this node or queue version happens exactly before its next
   * activation; it keeps the execution id, and hits that activation exactly if the last one has passed.
   */
  lemma QuickRecoveryExact(env: Env, job: Job, answer: map<nat, Row>, version: nat, now: Instant)
    requires Ticking(env.cron) && job.id in answer && Waiting(env, job.id, answer[job.id])
    requires answer[job.id].node == env.node || answer[job.id].queueVersion == version
    ensures var row, verdict := answer[job.id], Triage(env, job, answer, version, now);
            && (verdict.quick != [] <==> now < row.next)
            && (verdict.quick != [] ==>
                  && verdict.toSchedule == [] && |verdict.quick| == 1
                  && verdict.quick[0].id == job.id && verdict.quick[0].executionId == row.executionId
                  && (NextTimeOf(env.cron, verdict.quick[0], now) == row.next <==> row.last < now))
  {
    NextTimeIsNext(env.cron(job.id), answer[job.id].last, now);
  }

  /** This node or this queue version is to run the job the row is of. */
  predicate Ours(env: Env, row: Row, version: nat) {
    row.node == env.node || row.queueVersion == version
  }

  /** The job as its last row left it. */
  function Restored(job: Job, row: Row): Job {
    Job(job.id, job.project, job.url, job.created, row.last, row.executionId)
  }

  /** A job whose last row is another node's, of another queue version, is left alone. */
  lemma OthersAreSkipped(env: Env, job: Job, answer: map<nat, Row>, version: nat, now: Instant)
    requires job.id in answer
    ensures Triage(env, job, answer, version, now) == Verdict([], []) <==> !Ours(env, answer[job.id], version)
  {
  }

  /** A job of ours that is overdue, or had an outcome, is handed on as its last row left it, and not scheduled here. */
  lemma OverdueIsHandedOn(env: Env, job: Job, answer: map<nat, Row>, version: nat, now: Instant)
    requires job.id in answer && Ours(env, answer[job.id], version)
    ensures var row, verdict := answer[job.id], Triage(env, job, answer, version, now);
            if row.state != Scheduled || now >= env.cron(job.id)(row.last)
            then verdict == Verdict([Restored(job, row)], []) else verdict == Verdict([], [Restored(job, row)])
  {
  }

  /**
   * A job without a row is handed on as it is. A node or queue version numbered zero takes the missing
   * row for one of its own, and handles the job a second time as one that never ran.
   */
  lemma UnseenIsHandedOn(env: Env, job: Job, answer: map<nat, Row>, version: nat, now: Instant)
    requires job.id !in answer
    ensures var verdict := Triage(env, job, answer, version, now);
            && verdict.toSchedule != [] && verdict.toSchedule[0] == job
            && (verdict == Verdict([job], []) <==> env.node != 0 && version != 0)
  {
  }

  /** The job comes out of the triage, one way or the other. */
  ghost predicate Taken(env: Env, job: Job, answer: map<nat, Row>, version: nat) {
    job.id in answer ==> Ours(env, answer[job.id], version)
  }

  lemma {:induction false} TriageTakes(env: Env, jobs: seq<Job>, answer: map<nat, Row>, version: nat, now: Instant,
                                       k: nat)
    requires Distinct(jobs) && k < |jobs|
    ensures var verdict := TriageAll(env, jobs, answer, version, now);
            jobs[k].id in Ids(verdict.toSchedule) + Ids(verdict.quick) <==> Taken(env, jobs[k], answer, version)
    decreases |jobs|
  {
    var n := |jobs| - 1;
    var before, last := TriageAll(env, jobs[..n], answer, version, now), Triage(env, jobs[n], answer, version, now);
    IdsConcat(before.toSchedule, last.toSchedule);
    IdsConcat(before.quick, last.quick);
    OneTriaged(env, jobs[n], answer, version, now);
    if k < n {
      assert jobs[..n][k] == jobs[k];
      TriageTakes(env, jobs[..n], answer, version, now, k);
    } else {
      TriageOnly(env, jobs[..n], answer, version, now, jobs[n].id);
    }
  }

  lemma OneTriaged(env: Env, job: Job, answer: map<nat, Row>, version: nat, now: Instant)
    ensures var verdict := Triage(env, job, answer, version, now);
            Ids(verdict.toSchedule) + Ids(verdict.quick) == if Taken(env, job, answer, version) then {job.id} else {}
  {
    var verdict := Triage(env, job, answer, version, now);
    assert Taken(env, job, answer, version) ==>
        || (verdict.toSchedule != [] && verdict.toSchedule[0].id == job.id)
        || (verdict.quick != [] && verdict.quick[0].id == job.id);
  }

  lemma {:induction false} TriageOnly(env: Env, jobs: seq<Job>, answer: map<nat, Row>, version: nat, now: Instant,
                                      j: nat)
    requires forall job <- jobs :: job.id != j
    ensures var verdict := TriageAll(env, jobs, answer, version, now);
            j !in Ids(verdict.toSchedule) && j !in Ids(verdict.quick)
  {
    if jobs != [] {
      var n := |jobs| - 1;
      TriageOnly(env, jobs[..n], answer, version, now, j);
      var before, last := TriageAll(env, jobs[..n], answer, version, now), Triage(env, jobs[n], answer, version, now);
      IdsConcat(before.toSchedule, last.toSchedule);
      IdsConcat(before.quick, last.quick);
      OneTriaged(env, jobs[n], answer, version, now);
      assert jobs[n] in jobs;
    }
  }

  lemma {:induction false} AddedKeys(env: Env, scheduled: map<nat, Entry>, jobs: seq<Job>, now: Instant)
    requires Ticking(env.cron)
    ensures AddAll(env, scheduled, jobs, now).Keys == scheduled.Keys + Ids(jobs)
  {
    if jobs != [] {
      AddedKeys(env, scheduled, jobs[..|jobs| - 1], now);
      IdsNext(jobs, |jobs| - 1);
    }
  }

  lemma {:induction false} PlannedKeys(env: Env, st: State, jobs: seq<Job>, answer: map<nat, Row>, now: Instant)
    requires Ticking(env.cron)
    ensures PlanAll(env, st, jobs, answer, now).scheduled.Keys == st.scheduled.Keys + Ids(jobs)
  {
    if jobs != [] {
      PlannedKeys(env, st, jobs[..|jobs| - 1], answer, now);
      IdsNext(jobs, |jobs| - 1);
    }
  }

  /**
   * What a restart does with a range: a job that was not scheduled is so afterwards exactly unless its
   * last row is another node's, of another queue version.
   */
  lemma RecoveredIsScheduledIff(env: Env, st: State, jobs: seq<Job>, answer: map<nat, Row>, answer': map<nat, Row>,
                                version: nat, now: Instant, queueVersion: nat, k: nat)
    requires Ticking(env.cron) && Distinct(jobs) && k < |jobs| && jobs[k].id !in st.scheduled
    ensures var verdict := TriageAll(env, jobs, answer, version, now);
            var quick := st.(scheduled := AddAll(env, st.scheduled, verdict.quick, now));
            var st' := ScheduleAll(env, quick, verdict.toSchedule, answer', now, queueVersion);
            jobs[k].id in st'.scheduled <==> (jobs[k].id in answer ==> Ours(env, answer[jobs[k].id], version))
  {
    var verdict := TriageAll(env, jobs, answer, version, now);
    TriageTakes(env, jobs, answer, version, now, k);
    AddedKeys(env, st.scheduled, verdict.quick, now);
    PlannedKeys(env, st.(scheduled := AddAll(env, st.scheduled, verdict.quick, now)), verdict.toSchedule, answer', now);
  }

  lemma {:induction false} AddedEntry(env: Env, scheduled: map<nat, Entry>, jobs: seq<Job>, now: Instant, job: Job)
    requires Ticking(env.cron) && job in jobs && forall other <- jobs :: other.id == job.id ==> other == job
    ensures job.id in AddAll(env, scheduled, jobs, now)
    ensures AddAll(env, scheduled, jobs, now)[job.id] == Entry(job, NextTimeOf(env.cron, job, now))
    decreases |jobs|
  {
    var n := |jobs| - 1;
    assert jobs[n] in jobs;
    if jobs[n].id != job.id {
      assert job in jobs[..n];
      AddedEntry(env, scheduled, jobs[..n], now, job);
    }
  }

  /** The job waits, and its last row is ours and not overdue. */
  ghost predicate QuickFor(env: Env, job: Job, answer: map<nat, Row>, version: nat, now: Instant) {
    && job.id in answer && Ours(env, answer[job.id], version)
    && answer[job.id].state == Scheduled && now < env.cron(job.id)(answer[job.id].last)
  }

  /** A quick job is the only one of its id among the quick, and not handed on. */
  lemma {:induction false} QuickIsKept(env: Env, jobs: seq<Job>, answer: map<nat, Row>, version: nat, now: Instant,
                                       k: nat)
    requires Distinct(jobs) && k < |jobs| && QuickFor(env, jobs[k], answer, version, now)
    ensures var job, verdict := Restored(jobs[k], answer[jobs[k].id]), TriageAll(env, jobs, answer, version, now);
            && job in verdict.quick && job.id !in Ids(verdict.toSchedule)
            && forall other <- verdict.quick :: other.id == job.id ==> other == job
    decreases |jobs|
  {
    var n := |jobs| - 1;
    var before, last := TriageAll(env, jobs[..n], answer, version, now), Triage(env, jobs[n], answer, version, now);
    IdsConcat(before.toSchedule, last.toSchedule);
    OneTriaged(env, jobs[n], answer, version, now);
    if k < n {
      assert jobs[..n][k] == jobs[k];
      QuickIsKept(env, jobs[..n], answer, version, now, k);
      NotAmong(last.quick, jobs[k].id);
    } else {
      OverdueIsHandedOn(env, jobs[n], answer, version, now);
      TriageOnly(env, jobs[..n], answer, version, now, jobs[n].id);
      NotAmong(before.quick, jobs[n].id);
    }
  }

  lemma NotAmong(jobs: seq<Job>, j: nat)
    requires j !in Ids(jobs)
    ensures forall job <- jobs :: job.id != j
  {
    forall job | job in jobs ensures job.id != j {
      var k :| 0 <= k < |jobs| && jobs[k] == job;
    }
  }

  lemma {:induction false} PlanLeaves(env: Env, st: State, jobs: seq<Job>, answer: map<nat, Row>, now: Instant, j: nat)
    requires Ticking(env.cron) && j !in Ids(jobs)
    ensures var st' := PlanAll(env, st, jobs, answer, now);
            && (j in st'.cache <==> j in st.cache) && (j in st.cache ==> st'.cache[j] == st.cache[j])
            && (j in st'.scheduled <==> j in st.scheduled)
            && (j in st.scheduled ==> st'.scheduled[j] == st.scheduled[j])
  {
    if jobs != [] {
      var n := |jobs| - 1;
      IdsNext(jobs, n);
      PlanLeaves(env, st, jobs[..n], answer, now, j);
    }
  }

  /**
   * After a restart a waiting job of ours that is not overdue is on the schedule as its last row left
   * it, for the first activation from there that is not past.
   */
  lemma QuickIsScheduled(env: Env, st: State, jobs: seq<Job>, answer: map<nat, Row>, answer': map<nat, Row>,
                         version: nat, now: Instant, queueVersion: nat, k: nat)
    requires Ticking(env.cron) && Distinct(jobs) && k < |jobs| && QuickFor(env, jobs[k], answer, version, now)
    requires answer[jobs[k].id].last != ZERO_TIME
    ensures var job, verdict := Restored(jobs[k], answer[jobs[k].id]), TriageAll(env, jobs, answer, version, now);
            var quick := st.(scheduled := AddAll(env, st.scheduled, verdict.quick, now));
            var st' := ScheduleAll(env, quick, verdict.toSchedule, answer', now, queueVersion);
            && job.id in st'.scheduled && st'.scheduled[job.id].job == job
            && FirstDue(env.cron(job.id), job.last, now, st'.scheduled[job.id].at)
  {
    var job, verdict := Restored(jobs[k], answer[jobs[k].id]), TriageAll(env, jobs, answer, version, now);
    QuickIsKept(env, jobs, answer, version, now, k);
    AddedEntry(env, st.scheduled, verdict.quick, now, job);
    NextTimeIsFirstDue(env.cron(job.id), job.last, now);
    PlanLeaves(env, st.(scheduled := AddAll(env, st.scheduled, verdict.quick, now)), verdict.toSchedule, answer', now,
               job.id);
  }

  /** What ScheduleJobs makes of a job with a last row: where it counts from, and what it caches. */
  lemma PlannedFromRow(env: Env, job: Job, answer: map<nat, Row>, now: Instant)
    requires Ticking(env.cron) && job.id in answer
    requires answer[job.id].last != ZERO_TIME && answer[job.id].next != ZERO_TIME
    ensures var row, plan := answer[job.id], PlanFor(env, job, answer, now);
            var start := if row.state == Scheduled then row.last else row.next;
            && plan.job.id == job.id && plan.job.project == job.project && plan.job.last == start
            && FirstDue(env.cron(job.id), start, now, plan.mem.next)
            && NextTimeOf(env.cron, plan.job, now) == plan.mem.next
            && plan.mem.version == row.version && plan.mem.failCount == 0 && plan.mem.lastState == row.state
            && plan.mem.last == (if row.state == Scheduled then job.last else row.next)
            && (row.state != Scheduled ==>
                  plan.job.executionId == ExecutionId(job.project, job.id, row.next, plan.mem.next))
  {
    var row := answer[job.id];
    NextTimeIsFirstDue(env.cron(job.id), if row.state == Scheduled then row.last else row.next, now);
  }

  lemma {:induction false} PlanEffect(env: Env, st: State, jobs: seq<Job>, answer: map<nat, Row>, now: Instant, k: nat)
    requires Ticking(env.cron) && Distinct(jobs) && k < |jobs|
    ensures var st', plan := PlanAll(env, st, jobs, answer, now), PlanFor(env, jobs[k], answer, now);
            && jobs[k].id in st'.scheduled && st'.cache[jobs[k].id] == plan.mem
            && st'.scheduled[jobs[k].id] == Entry(plan.job, NextTimeOf(env.cron, plan.job, now))
    decreases |jobs|
  {
    var n := |jobs| - 1;
    if k < n {
      PlanEffect(env, st, jobs[..n], answer, now, k);
      assert jobs[..n][k] == jobs[k];
    }
  }

  /**
   * Rescheduling a waiting job hits its next activation exactly when the restart falls between the
   * two; then the execution id and version are those of the row, in the cache and in the new row alike.
   */
  lemma ScheduleRestartExact(env: Env, st: State, jobs: seq<Job>, answer: map<nat, Row>, now: Instant,
                             queueVersion: nat, k: nat)
    requires Ticking(env.cron) && Distinct(jobs) && k < |jobs|
    requires LastRows(LogRows(st), Ids(jobs), answer)
    requires jobs[k].id in answer && Waiting(env, jobs[k].id, answer[jobs[k].id])
    ensures var j, row := jobs[k].id, answer[jobs[k].id];
            var st' := ScheduleAll(env, st, jobs, answer, now, queueVersion);
            var logged := st'.uncommitted[|st.uncommitted| + k];
            && j in st'.scheduled && j in st'.cache
            && (st'.scheduled[j].at == row.next <==> row.last < now <= row.next)
            && (st'.scheduled[j].at == row.next ==>
                  && st'.scheduled[j].job.executionId == row.executionId
                  && logged.executionId == row.executionId && logged.last == row.last)
            && st'.cache[j].version == row.version == logged.version && logged.job == j && logged.state == Scheduled
  {
    PlanEffect(env, st, jobs, answer, now, k);
    assert jobs[k].id in Ids(jobs);
    NextTimeIsNext(env.cron(jobs[k].id), answer[jobs[k].id].last, now);
    PlannedAt(env, jobs, answer, now, k);
    LoggedRow(env, st, jobs, answer, now, queueVersion, k);
  }

  /** The row ScheduleJobs logs for a job carries what was planned for it, at the version its cache entry selects. */
  lemma LoggedRow(env: Env, st: State, jobs: seq<Job>, answer: map<nat, Row>, now: Instant, queueVersion: nat, k: nat)
    requires Ticking(env.cron) && k < |jobs|
    ensures jobs[k].id in PlanAll(env, st, jobs, answer, now).cache
    ensures var logged := ScheduleAll(env, st, jobs, answer, now, queueVersion).uncommitted[|st.uncommitted| + k];
            var planned := PlannedJobs(env, jobs, answer, now)[k];
            && logged.job == jobs[k].id && logged.state == Scheduled
            && logged.executionId == planned.executionId && logged.last == planned.last
            && logged.version
               == ScheduledVersion(PlanAll(env, st, jobs, answer, now).cache[jobs[k].id], answer, jobs[k].id)
  {
    PlannedAt(env, jobs, answer, now, k);
    assert jobs[k].id in Ids(jobs);
    LoggedIn(env, PlanAll(env, st, jobs, answer, now), jobs, PlannedJobs(env, jobs, answer, now), answer, now,
             queueVersion, k);
  }

  lemma LoggedIn(env: Env, st: State, jobs: seq<Job>, planned: seq<Job>, answer: map<nat, Row>, now: Instant,
                 queueVersion: nat, k: nat)
    requires Ticking(env.cron) && k < |jobs| == |planned| && planned[k].id == jobs[k].id && jobs[k].id in Ids(jobs)
    requires Ids(jobs) <= st.cache.Keys
    ensures var stamp := Stamp(env.node, Scheduled, queueVersion, ScheduledVersions(st.cache, jobs, answer));
            var logged := Record(env, st, planned, stamp, now).uncommitted[|st.uncommitted| + k];
            && Matches(logged, jobs[k].id, ScheduledVersion(st.cache[jobs[k].id], answer, jobs[k].id), Scheduled)
            && logged.executionId == planned[k].executionId && logged.last == planned[k].last
  {
    InsertedAt(env.cron, st.uncommitted, planned,
               Stamp(env.node, Scheduled, queueVersion, ScheduledVersions(st.cache, jobs, answer)), k);
  }

  /**
   * The version ScheduleJobs caches is the version it logs exactly for jobs that never ran or still
   * wait; after a success or a failure the log is one ahead, and counted failures are forgotten.
   */
  lemma ScheduledVersionAgreesIff(env: Env, st: State, jobs: seq<Job>, answer: map<nat, Row>, now: Instant,
                                  queueVersion: nat, k: nat)
    requires Ticking(env.cron) && Distinct(jobs) && k < |jobs|
    ensures var j := jobs[k].id;
            var st' := ScheduleAll(env, st, jobs, answer, now, queueVersion);
            var logged := st'.uncommitted[|st.uncommitted| + k];
            && j in st'.cache && st'.cache[j].failCount == 0
            && (st'.cache[j].version == logged.version <==> j !in answer || answer[j].state == Scheduled)
            && (j in answer && answer[j].state != Scheduled ==> logged.version == st'.cache[j].version + 1)
  {
    PlanEffect(env, st, jobs, answer, now, k);
    PlannedAt(env, jobs, answer, now, k);
    LoggedRow(env, st, jobs, answer, now, queueVersion, k);
  }

  /**
   * After a success or a failure the job is counted from the execution it had: it fires at the first
   * activation from there that is not past, later than that execution exactly if that was due.
   */
  lemma RestartAfterOutcome(env: Env, st: State, jobs: seq<Job>, answer: map<nat, Row>, now: Instant,
                            queueVersion: nat, k: nat)
    requires Ticking(env.cron) && Distinct(jobs) && k < |jobs| && jobs[k].id in answer
    requires answer[jobs[k].id].state != Scheduled && answer[jobs[k].id].next != ZERO_TIME
    ensures var j, row := jobs[k].id, answer[jobs[k].id];
            var st' := ScheduleAll(env, st, jobs, answer, now, queueVersion);
            && j in st'.scheduled && j in st'.cache && st'.scheduled[j].at == st'.cache[j].next
            && st'.scheduled[j].job.last == st'.cache[j].last == row.next
            && st'.scheduled[j].at >= now && (st'.scheduled[j].at > row.next <==> row.next < now)
  {
    PlanEffect(env, st, jobs, answer, now, k);
    assert jobs[k].id in Ids(jobs);
    NextTimeMovesOn(env.cron(jobs[k].id), answer[jobs[k].id].next, now);
  }

  /**
   * Rescheduling a waiting job keeps its execution id exactly if the new fire time is less than half a
   * minute past the stored one, so a schedule finer than that can give two activations one id.
   */
  lemma RestartKeepsIdIff(env: Env, job: Job, answer: map<nat, Row>, now: Instant)
    requires Ticking(env.cron) && job.id in answer && answer[job.id].state == Scheduled
    ensures var row, planned := answer[job.id], PlanFor(env, job, answer, now).job;
            var fire := NextTimeOf(env.cron, planned, now);
            planned.executionId
            == if 2 * (fire - row.next) < MINUTE then row.executionId
               else ExecutionId(job.project, job.id, row.last, fire)
  {
    var planned := PlanFor(env, job, answer, now).job;
    RoundToZero(NextTimeOf(env.cron, planned, now) - answer[job.id].next);
  }
}
