/** Scheduling, callbacks and rescheduling of jobs on one node (pkg/service/executor/executor.go). */
module Executor {
  import opened JobSchedule
  import opened ExecutionLog

  /** What the node remembers of a job's current execution. */
  datatype Mem = Mem(version: nat, failCount: nat, lastState: LogState, last: Instant, next: Instant)

  datatype Entry = Entry(job: Job, at: Instant)

  datatype State = State(cache: map<nat, Mem>, scheduled: map<nat, Entry>,
                         uncommitted: seq<Row>, committed: seq<Row>)

  datatype Env = Env(cron: Cron, node: nat, retryMax: nat, singleNode: bool)

  function LogRows(st: State): seq<Row> {
    st.committed + st.uncommitted
  }

  /** Appends the rows of one insert, and on a single node their replicated copies. */
  function Record(env: Env, st: State, jobs: seq<Job>, stamp: Stamp, now: Instant): State
    requires Ticking(env.cron)
  {
    st.(uncommitted := st.uncommitted + InsertedRows(env.cron, jobs, stamp),
        committed := if env.singleNode then st.committed + RaftRows(env.cron, jobs, stamp, now) else st.committed)
  }

  // ---- ScheduleJobs ----

  /** How a job enters the schedule, and what is cached for it. */
  datatype Plan = Plan(job: Job, mem: Mem)

  function PlanFor(env: Env, job: Job, answer: map<nat, Row>, now: Instant): Plan
    requires Ticking(env.cron)
  {
    if job.id !in answer then
      var j := job.(last := job.created);
      Plan(j.(executionId := NextExecutionId(env.cron, j, now)),
           Mem(1, 0, Scheduled, job.created, NextTimeOf(env.cron, j, now)))
    else
      var row := answer[job.id];
      if row.state == Scheduled then
        var j := job.(last := row.last);
        var next := NextTimeOf(env.cron, j, now);
        Plan(j.(executionId := if Round(next - row.next, MINUTE) < 1 then row.executionId
                               else NextExecutionId(env.cron, j, now)),
             Mem(row.version, 0, Scheduled, job.last, next))
      else
        var j := job.(last := row.next);
        Plan(j.(executionId := NextExecutionId(env.cron, j, now)),
             Mem(row.version, 0, row.state, row.next, NextTimeOf(env.cron, j, now)))
  }

  function PlanAll(env: Env, st: State, jobs: seq<Job>, answer: map<nat, Row>, now: Instant): (r: State)
    requires Ticking(env.cron)
    ensures r.cache.Keys == st.cache.Keys + Ids(jobs)
    ensures r.uncommitted == st.uncommitted && r.committed == st.committed
  {
    if jobs == [] then st
    else
      var n := |jobs| - 1;
      var before := PlanAll(env, st, jobs[..n], answer, now);
      IdsNext(jobs, n);
      PlanStep(env, before, jobs[n].id, PlanFor(env, jobs[n], answer, now), now)
  }

  function PlanStep(env: Env, st: State, j: nat, plan: Plan, now: Instant): State
    requires Ticking(env.cron)
  {
    st.(cache := st.cache[j := plan.mem],
        scheduled := st.scheduled[j := Entry(plan.job, NextTimeOf(env.cron, plan.job, now))])
  }

  function PlannedJobs(env: Env, jobs: seq<Job>, answer: map<nat, Row>, now: Instant): (r: seq<Job>)
    requires Ticking(env.cron)
    ensures |r| == |jobs|
  {
    if jobs == [] then []
    else
      PlannedJobs(env, jobs[..|jobs| - 1], answer, now) + [PlanFor(env, jobs[|jobs| - 1], answer, now).job]
  }

  lemma {:induction false} PlannedAt(env: Env, jobs: seq<Job>, answer: map<nat, Row>, now: Instant, k: nat)
    requires Ticking(env.cron) && k < |jobs|
    ensures PlannedJobs(env, jobs, answer, now)[k] == PlanFor(env, jobs[k], answer, now).job
    ensures PlannedJobs(env, jobs, answer, now)[k].id == jobs[k].id
    decreases |jobs|
  {
    if k < |jobs| - 1 {
      PlannedAt(env, jobs[..|jobs| - 1], answer, now, k);
    }
  }

  /** The version a freshly scheduled job is logged with. */
  function ScheduledVersion(mem: Mem, answer: map<nat, Row>, j: nat): nat {
    if j !in answer then 1
    else if answer[j].state == Success || (mem.failCount == 0 && mem.lastState == Failed) then answer[j].version + 1
    else answer[j].version
  }

  function ScheduledVersions(cache: map<nat, Mem>, jobs: seq<Job>, answer: map<nat, Row>): map<nat, nat>
    requires Ids(jobs) <= cache.Keys
  {
    map j | j in Ids(jobs) :: ScheduledVersion(cache[j], answer, j)
  }

  function ScheduleAll(env: Env, st: State, jobs: seq<Job>, answer: map<nat, Row>, now: Instant,
                       queueVersion: nat): State
    requires Ticking(env.cron)
  {
    var planned := PlanAll(env, st, jobs, answer, now);
    Record(env, planned, PlannedJobs(env, jobs, answer, now),
           Stamp(env.node, Scheduled, queueVersion, ScheduledVersions(planned.cache, jobs, answer)), now)
  }

  // ---- callbacks ----

  /** A cache entry recovered from the log; a job without rows reads as zero. */
  function Rebuilt(env: Env, rows: seq<Row>, answer: map<nat, Row>, j: nat): Mem {
    if j in answer then
      var row := answer[j];
      Mem(row.version, if row.state == Failed then CountFailed(rows, j, env.node, row.version) else 0,
          row.state, row.last, row.next)
    else Mem(0, 0, Scheduled, ZERO_TIME, ZERO_TIME)
  }

  function WithRebuilt(env: Env, st: State, jobs: seq<Job>, answer: map<nat, Row>): State {
    st.(cache := map j | j in st.cache.Keys + Ids(jobs) ::
          if j in st.cache then st.cache[j] else Rebuilt(env, LogRows(st), answer, j))
  }

  function CachedVersions(cache: map<nat, Mem>, jobs: seq<Job>): map<nat, nat>
    requires Ids(jobs) <= cache.Keys
  {
    map j | j in Ids(jobs) :: cache[j].version
  }

  predicate Retries(env: Env, mem: Mem, outcome: LogState) {
    outcome == Failed && mem.failCount < env.retryMax
  }

  /** The job as it is scheduled again, counted from the execution it just had. */
  function NextRun(env: Env, job: Job, mem: Mem, now: Instant): Job
    requires Ticking(env.cron)
  {
    var j := job.(last := mem.next);
    j.(executionId := NextExecutionId(env.cron, j, now))
  }

  function NextMem(env: Env, job: Job, mem: Mem, outcome: LogState, now: Instant): Mem
    requires Ticking(env.cron)
  {
    if Retries(env, mem, outcome) then mem.(failCount := mem.failCount + 1, lastState := outcome)
    else Mem(mem.version + 1, 0, outcome, mem.next, NextTimeOf(env.cron, NextRun(env, job, mem, now), now))
  }

  /** State of the rescheduling sweep: cache, schedule, and the jobs moved to their next version. */
  datatype Sweep = Sweep(cache: map<nat, Mem>, scheduled: map<nat, Entry>, moved: seq<Job>)

  function SweepAll(env: Env, sw: Sweep, jobs: seq<Job>, outcome: LogState, now: Instant): (r: Sweep)
    requires Ticking(env.cron) && Ids(jobs) <= sw.cache.Keys && Ids(sw.moved) <= sw.cache.Keys
    ensures r.cache.Keys == sw.cache.Keys && Ids(r.moved) <= r.cache.Keys
  {
    if jobs == [] then sw
    else
      var n := |jobs| - 1;
      IdsNext(jobs, n);
      var before := SweepAll(env, sw, jobs[..n], outcome, now);
      SweepStep(env, before, jobs[n], outcome, now)
  }

  function SweepStep(env: Env, sw: Sweep, job: Job, outcome: LogState, now: Instant): (r: Sweep)
    requires Ticking(env.cron) && job.id in sw.cache && Ids(sw.moved) <= sw.cache.Keys
    ensures r.cache.Keys == sw.cache.Keys && Ids(r.moved) <= r.cache.Keys
  {
    var mem := sw.cache[job.id];
    var cache := sw.cache[job.id := NextMem(env, job, mem, outcome, now)];
    if Retries(env, mem, outcome) then sw.(cache := cache)
    else
      var run := NextRun(env, job, mem, now);
      IdsConcat(sw.moved, [run]);
      Sweep(cache, sw.scheduled[job.id := Entry(run, NextTimeOf(env.cron, run, now))], sw.moved + [run])
  }

  function Reschedule(env: Env, st: State, jobs: seq<Job>, outcome: LogState, now: Instant,
                      queueVersion: nat): State
    requires Ticking(env.cron) && Ids(jobs) <= st.cache.Keys
  {
    var sw := SweepAll(env, Sweep(st.cache, st.scheduled, []), jobs, outcome, now);
    Record(env, st.(cache := sw.cache, scheduled := sw.scheduled), sw.moved,
           Stamp(env.node, Scheduled, queueVersion, CachedVersions(sw.cache, sw.moved)), now)
  }

  /** handleSuccessJobs and handleFailedJobs, told apart by `outcome`. */
  function Callback(env: Env, st: State, jobs: seq<Job>, outcome: LogState, answer: map<nat, Row>,
                    now: Instant, queueVersion: nat): State
    requires Ticking(env.cron)
  {
    var known := WithRebuilt(env, st, jobs, answer);
    var logged := Record(env, known, jobs,
                         Stamp(env.node, outcome, queueVersion, CachedVersions(known.cache, jobs)), now);
    Reschedule(env, logged, jobs, outcome, now, queueVersion)
  }

  lemma IdsConcat(a: seq<Job>, b: seq<Job>)
    ensures Ids(a + b) == Ids(a) + Ids(b)
  {
    forall j | j in Ids(a) + Ids(b) ensures j in Ids(a + b) {
      if j in Ids(a) {
        var k :| 0 <= k < |a| && a[k].id == j;
        assert (a + b)[k].id == j;
      } else {
        var k :| 0 <= k < |b| && b[k].id == j;
        assert (a + b)[|a| + k].id == j;
      }
    }
  }

  lemma IdsListed(jobs: seq<Job>)
    ensures Ids(jobs) == set j | j in JobIds(jobs)
  {
    forall j | j in Ids(jobs) ensures j in JobIds(jobs) {
      var k :| 0 <= k < |jobs| && jobs[k].id == j;
      assert JobIds(jobs)[k] == j;
    }
  }

  function JobIds(jobs: seq<Job>): seq<nat> {
    seq(|jobs|, k requires 0 <= k < |jobs| => jobs[k].id)
  }

  class JobExecutor {
    var cache: map<nat, Mem>
    var scheduled: map<nat, Entry>
    const tables: Tables
    const env: Env

    constructor (env: Env)
      ensures this.env == env && fresh(tables)
      ensures View() == State(map[], map[], [], [])
    {
      this.env := env;
      cache, scheduled := map[], map[];
      tables := new Tables();
    }

    ghost function View(): State
      reads this, tables
    {
      State(cache, scheduled, tables.uncommitted, tables.committed)
    }

    method AddJobSchedule(job: Job, now: Instant)
      requires Ticking(env.cron)
      modifies this`scheduled
      ensures scheduled == old(scheduled)[job.id := Entry(job, NextTimeOf(env.cron, job, now))]
    {
      var at := GetNextExecutionTime(env.cron(job.id), job.last, job.created, now);
      scheduled := scheduled[job.id := Entry(job, at)];
    }

    method Log(jobs: seq<Job>, stamp: Stamp, now: Instant)
      requires Ticking(env.cron)
      modifies tables
      ensures View() == Record(env, old(View()), jobs, stamp, now)
    {
      tables.BatchInsert(env.cron, jobs, stamp);
      if env.singleNode {
        tables.LogInRaft(env.cron, jobs, stamp, now);
      }
    }

    /** One job of ScheduleJobs, through whichever branches its last log row selects. */
    method ScheduleOne(job: Job, answer: map<nat, Row>, now: Instant) returns (planned: Job)
      requires Ticking(env.cron)
      modifies this
      ensures planned == PlanFor(env, job, answer, now).job
      ensures View() == PlanStep(env, old(View()), job.id, PlanFor(env, job, answer, now), now)
    {
      if job.id !in answer {
        planned := job.(last := job.created);
        var next := GetNextExecutionTime(env.cron(job.id), planned.last, planned.created, now);
        planned := planned.(executionId := NextExecutionId(env.cron, planned, now));
        AddJobSchedule(planned, now);
        cache := cache[job.id := Mem(1, 0, Scheduled, job.created, next)];
        return;
      }
      planned := ScheduleAgain(job, answer[job.id], answer, now);
    }

    /** A job with a last log row; after a failure the retry entry is overwritten by the one for the next time. */
    method ScheduleAgain(job: Job, row: Row, ghost answer: map<nat, Row>, now: Instant) returns (planned: Job)
      requires Ticking(env.cron) && job.id in answer && answer[job.id] == row
      modifies this
      ensures planned == PlanFor(env, job, answer, now).job
      ensures View() == PlanStep(env, old(View()), job.id, PlanFor(env, job, answer, now), now)
    {
      planned := job;
      if row.state == Scheduled {
        planned := planned.(last := row.last);
        var next := GetNextExecutionTime(env.cron(job.id), planned.last, planned.created, now);
        if Round(next - row.next, MINUTE) < 1 {
          planned := planned.(executionId := row.executionId);
        } else {
          planned := planned.(executionId := NextExecutionId(env.cron, planned, now));
        }
        AddJobSchedule(planned, now);
        cache := cache[job.id := Mem(row.version, 0, Scheduled, job.last, next)];
      }
      if row.state == Success {
        planned := ScheduleNext(planned, row, now);
      }
      if row.state == Failed {
        var failCounts := tables.CountLastFailedExecutionLogs(job.id, env.node, row.version);
        if failCounts < env.retryMax {
          planned := planned.(last := row.last);
          planned := planned.(executionId := NextExecutionId(env.cron, planned, now));
          cache := cache[job.id := Mem(row.version, failCounts, Failed, row.last, row.next)];
          AddJobSchedule(planned, now);
        }
        planned := ScheduleNext(planned, row, now);
      }
    }

    /** The job counted from the execution its last row names. */
    method ScheduleNext(job: Job, row: Row, now: Instant) returns (planned: Job)
      requires Ticking(env.cron)
      modifies this
      ensures planned == job.(last := row.next, executionId := NextExecutionId(env.cron, job.(last := row.next), now))
      ensures cache
           == old(cache)[job.id := Mem(row.version, 0, row.state, row.next, NextTimeOf(env.cron, planned, now))]
      ensures scheduled == old(scheduled)[job.id := Entry(planned, NextTimeOf(env.cron, planned, now))]
    {
      planned := job.(last := row.next);
      var next := GetNextExecutionTime(env.cron(job.id), planned.last, planned.created, now);
      planned := planned.(executionId := NextExecutionId(env.cron, planned, now));
      AddJobSchedule(planned, now);
      cache := cache[job.id := Mem(row.version, 0, row.state, row.next, next)];
    }

    method ScheduleJobs(jobs: seq<Job>, now: Instant, queueVersion: nat) returns (ghost answer: map<nat, Row>)
      requires Ticking(env.cron)
      modifies this, tables
      ensures LastRows(old(tables.All()), Ids(jobs), answer)
      ensures View() == ScheduleAll(env, old(View()), jobs, answer, now, queueVersion)
    {
      var found := tables.GetLastExecutionLogForJobIds(JobIds(jobs));
      answer := found;
      IdsListed(jobs);
      var planned := PlanJobs(jobs, found, now);
      var versions := VersionsToLog(jobs, found);
      Log(planned, Stamp(env.node, Scheduled, queueVersion, versions), now);
    }

    method PlanJobs(jobs: seq<Job>, answer: map<nat, Row>, now: Instant) returns (planned: seq<Job>)
      requires Ticking(env.cron)
      modifies this
      ensures View() == PlanAll(env, old(View()), jobs, answer, now)
      ensures planned == PlannedJobs(env, jobs, answer, now)
    {
      planned := [];
      for i := 0 to |jobs|
        invariant View() == PlanAll(env, old(View()), jobs[..i], answer, now)
        invariant planned == PlannedJobs(env, jobs[..i], answer, now)
      {
        assert jobs[..i + 1][..i] == jobs[..i] && jobs[..i + 1][i] == jobs[i];
        var job := ScheduleOne(jobs[i], answer, now);
        planned := planned + [job];
      }
      assert jobs[..|jobs|] == jobs;
    }

    method VersionsToLog(jobs: seq<Job>, answer: map<nat, Row>) returns (versions: map<nat, nat>)
      requires Ids(jobs) <= cache.Keys
      ensures versions == ScheduledVersions(cache, jobs, answer)
    {
      versions := map[];
      for i := 0 to |jobs|
        invariant versions.Keys == Ids(jobs[..i])
        invariant forall j <- versions :: j in cache && versions[j] == ScheduledVersion(cache[j], answer, j)
      {
        IdsNext(jobs, i);
        assert jobs[i].id in Ids(jobs);
        var id := jobs[i].id;
        if id !in versions {
          if id in answer {
            if answer[id].state == Success || (cache[id].failCount == 0 && cache[id].lastState == Failed) {
              versions := versions[id := answer[id].version + 1];
            } else {
              versions := versions[id := answer[id].version];
            }
          } else {
            versions := versions[id := 1];
          }
        }
      }
      assert jobs[..|jobs|] == jobs;
    }

    method CreateInMemExecutionsForJobsIfNotExist(jobs: seq<Job>) returns (ghost answer: map<nat, Row>)
      modifies this`cache
      ensures LastRows(tables.All(), Ids(jobs) - old(cache).Keys, answer)
      ensures View() == WithRebuilt(env, old(View()), jobs, answer)
    {
      var missing := MissingIds(jobs);
      var found := tables.GetLastExecutionLogForJobIds(missing);
      answer := found;
      assert (set j | j in missing) == Ids(jobs) - cache.Keys;
      FillCache(missing, found);
    }

    method MissingIds(jobs: seq<Job>) returns (missing: seq<nat>)
      ensures forall j :: j in missing <==> j in Ids(jobs) && j !in cache
    {
      missing := [];
      for i := 0 to |jobs|
        invariant forall j :: j in missing <==> j in Ids(jobs[..i]) && j !in cache
      {
        IdsNext(jobs, i);
        if jobs[i].id !in cache {
          missing := missing + [jobs[i].id];
        }
      }
      assert jobs[..|jobs|] == jobs;
    }

    method FillCache(missing: seq<nat>, found: map<nat, Row>)
      requires forall j <- missing :: j !in cache
      modifies this`cache
      ensures cache.Keys == old(cache).Keys + (set j | j in missing)
      ensures forall j <- cache ::
                cache[j] == if j in old(cache) then old(cache)[j] else Rebuilt(env, tables.All(), found, j)
    {
      ghost var known := cache;
      for i := 0 to |missing|
        invariant cache.Keys == known.Keys + (set j | j in missing[..i])
        invariant forall j <- cache ::
                    cache[j] == if j in known then known[j] else Rebuilt(env, tables.All(), found, j)
      {
        var id, failCounts := missing[i], 0;
        var row := if id in found then found[id] else Row(0, Scheduled, 0, 0, Unset, ZERO_TIME, ZERO_TIME, 0);
        if row.state == Failed {
          failCounts := tables.CountLastFailedExecutionLogs(id, env.node, row.version);
        }
        cache := cache[id := Mem(row.version, failCounts, row.state, row.last, row.next)];
        assert missing[..i + 1] == missing[..i] + [id];
      }
      assert missing[..|missing|] == missing;
    }

    method SweepOne(job: Job, outcome: LogState, now: Instant, moved: seq<Job>) returns (moved': seq<Job>)
      requires Ticking(env.cron) && job.id in cache && Ids(moved) <= cache.Keys
      modifies this
      ensures Sweep(cache, scheduled, moved')
              == SweepStep(env, Sweep(old(cache), old(scheduled), moved), job, outcome, now)
    {
      var mem := cache[job.id];
      moved' := moved;
      if outcome == Failed && mem.failCount < env.retryMax {
        cache := cache[job.id := Mem(mem.version, mem.failCount + 1, outcome, mem.last, mem.next)];
      } else {
        var run := job.(last := mem.next);
        run := run.(executionId := NextExecutionId(env.cron, run, now));
        var executionTime := GetNextExecutionTime(env.cron(job.id), run.last, run.created, now);
        AddJobSchedule(run, now);
        cache := cache[job.id := Mem(mem.version + 1, 0, outcome, mem.next, executionTime)];
        moved' := moved + [run];
      }
    }

    method Sweeping(jobs: seq<Job>, outcome: LogState, now: Instant) returns (moved: seq<Job>)
      requires Ticking(env.cron) && Ids(jobs) <= cache.Keys
      modifies this
      ensures Sweep(cache, scheduled, moved)
              == SweepAll(env, Sweep(old(cache), old(scheduled), []), jobs, outcome, now)
    {
      moved := [];
      ghost var start := Sweep(cache, scheduled, []);
      assert Ids(start.moved) == {};
      for i := 0 to |jobs|
        invariant Ids(jobs[..i]) <= start.cache.Keys
        invariant Sweep(cache, scheduled, moved) == SweepAll(env, start, jobs[..i], outcome, now)
      {
        var job := jobs[i];
        assert job.id in Ids(jobs);
        assert jobs[..i + 1][..i] == jobs[..i] && jobs[..i + 1][i] == job;
        IdsNext(jobs, i);
        moved := SweepOne(job, outcome, now, moved);
      }
      assert jobs[..|jobs|] == jobs;
    }

    method VersionsOf(jobs: seq<Job>) returns (versions: map<nat, nat>)
      requires Ids(jobs) <= cache.Keys
      ensures versions == CachedVersions(cache, jobs)
    {
      versions := map[];
      for i := 0 to |jobs|
        invariant versions.Keys == Ids(jobs[..i])
        invariant forall j <- versions :: j in cache && versions[j] == cache[j].version
      {
        IdsNext(jobs, i);
        assert jobs[i].id in Ids(jobs);
        versions := versions[jobs[i].id := cache[jobs[i].id].version];
      }
      assert jobs[..|jobs|] == jobs;
    }

    method RescheduleJobs(jobs: seq<Job>, outcome: LogState, now: Instant, queueVersion: nat)
      requires Ticking(env.cron) && Ids(jobs) <= cache.Keys
      modifies this, tables
      ensures View() == Reschedule(env, old(View()), jobs, outcome, now, queueVersion)
    {
      var moved := Sweeping(jobs, outcome, now);
      var versions := VersionsOf(moved);
      Log(moved, Stamp(env.node, Scheduled, queueVersion, versions), now);
    }

    method HandleJobs(jobs: seq<Job>, outcome: LogState, now: Instant, queueVersion: nat)
      returns (ghost answer: map<nat, Row>)
      requires Ticking(env.cron)
      modifies this, tables
      ensures LastRows(old(tables.All()), Ids(jobs) - old(cache).Keys, answer)
      ensures View() == Callback(env, old(View()), jobs, outcome, answer, now, queueVersion)
    {
      answer := CreateInMemExecutionsForJobsIfNotExist(jobs);
      var versions := VersionsOf(jobs);
      Log(jobs, Stamp(env.node, outcome, queueVersion, versions), now);
      RescheduleJobs(jobs, outcome, now, queueVersion);
    }
  }
}
