/** When jobs fire: the times in cache, schedule and log over whole runs of the executor. */
module FireTimes {
  import opened JobSchedule
  import opened ExecutionLog
  import opened Executor
  import opened Lifecycle
  import opened Processor
  import opened Batcher

  /**
   * The time side of a job's current version: it is counted from `from`, was scheduled at `setAt` for
   * `due`, and `lost` says that the memory of `due` was dropped since.
   */
  datatype Clock = Clock(project: nat, from: Instant, due: Instant, setAt: Instant, lost: bool)

  function IdOf(j: nat, c: Clock): ExecutionId {
    ExecutionId(c.project, j, c.from, c.due)
  }

  /** The execution the next version is counted from: the one scheduled, or after a loss the one the log implies. */
  function Executed(cron: Cron, j: nat, c: Clock): Instant {
    if c.lost then cron(j)(c.from) else c.due
  }

  function Find(jobs: seq<Job>, j: nat): Job
    requires j in Ids(jobs)
  {
    var n := |jobs| - 1;
    IdsNext(jobs, n);
    if jobs[n].id == j then jobs[n] else Find(jobs[..n], j)
  }

  function Begun(env: Env, job: Job, now: Instant): Clock
    requires Ticking(env.cron)
  {
    Clock(job.project, job.created, NextTime(env.cron(job.id), job.created, now), now, false)
  }

  function MovedOn(env: Env, j: nat, c: Clock, now: Instant): Clock
    requires Ticking(env.cron)
  {
    var from := Executed(env.cron, j, c);
    Clock(c.project, from, NextTime(env.cron(j), from, now), now, false)
  }

  /** The reference: what an event does to the clocks, given each job's progress before it. */
  function Ticked(env: Env, prog: map<nat, Progress>, clocks: map<nat, Clock>, e: Event): map<nat, Clock>
    requires Ticking(env.cron)
  {
    match e
    case First(jobs, now, _) =>
      map j | j in clocks.Keys + Ids(jobs) :: if j in Ids(jobs) then Begun(env, Find(jobs, j), now) else clocks[j]
    case Called(jobs, outcome, _, now, _) =>
      map j | j in clocks ::
        if j in Ids(jobs) && j in prog && Advance(env.retryMax, prog[j], outcome).version > prog[j].version
        then MovedOn(env, j, clocks[j], now) else clocks[j]
    case Drop => map j | j in clocks :: clocks[j].(lost := true)
  }

  /**
   * Inserts fit one batch; new jobs were created on a real date; callbacks come for the jobs as they
   * were scheduled.
   */
  ghost predicate Timely(clocks: map<nat, Clock>, e: Event) {
    match e
    case First(jobs, _, _) => |jobs| <= MaxRows(LOG_COLUMNS) && forall job <- jobs :: job.created > ZERO_TIME
    case Called(jobs, _, _, _, _) =>
      && |jobs| <= MaxRows(LOG_COLUMNS)
      && forall job <- jobs :: job.id in clocks ==> InFlight(job, clocks[job.id])
    case Drop => true
  }

  predicate InFlight(job: Job, c: Clock) {
    job.project == c.project && job.last == c.from && job.executionId == IdOf(job.id, c)
  }

  // ---- the invariant ----

  predicate ClockOk(env: Env, j: nat, c: Clock)
    requires Ticking(env.cron)
  {
    c.from > ZERO_TIME && c.due > ZERO_TIME && c.due == NextTime(env.cron(j), c.from, c.setAt)
  }

  /** The local rows of the current version carry its start, the activation after it, and its id. */
  ghost predicate LocalTimed(env: Env, rows: seq<Row>, j: nat, v: nat, c: Clock) {
    forall r <- rows :: r.job == j && r.version == v ==>
      r.last == c.from && r.next == env.cron(j)(c.from) && r.executionId == IdOf(j, c)
  }

  /** The replicated rows carry its start and id, and the scheduled one the time it is due. */
  ghost predicate RaftTimed(rows: seq<Row>, j: nat, v: nat, c: Clock) {
    forall r <- rows :: r.job == j && r.version == v ==>
      r.last == c.from && r.executionId == IdOf(j, c) && (r.state == Scheduled ==> r.next == c.due)
  }

  ghost predicate CacheTimed(env: Env, cache: map<nat, Mem>, j: nat, c: Clock) {
    && (!c.lost ==> j in cache)
    && (j in cache ==> cache[j].last == c.from && cache[j].next == Executed(env.cron, j, c))
  }

  ghost predicate ScheduleTimed(scheduled: map<nat, Entry>, j: nat, c: Clock) {
    && (!c.lost ==> j in scheduled)
    && (j in scheduled ==>
          scheduled[j].at == c.due && scheduled[j].job.id == j && InFlight(scheduled[j].job, c))
  }

  ghost predicate JobTimed(env: Env, st: State, j: nat, v: nat, c: Clock)
    requires Ticking(env.cron)
  {
    && ClockOk(env, j, c) && CacheTimed(env, st.cache, j, c) && ScheduleTimed(st.scheduled, j, c)
    && LocalTimed(env, st.uncommitted, j, v, c) && RaftTimed(st.committed, j, v, c)
  }

  ghost predicate Timed(env: Env, st: State, prog: map<nat, Progress>, clocks: map<nat, Clock>)
    requires Ticking(env.cron)
  {
    clocks.Keys == prog.Keys && forall j <- prog :: JobTimed(env, st, j, prog[j].version, clocks[j])
  }

  // ---- first schedules ----

  /** The job as it is first scheduled, counted from its creation, for `at`. */
  function FirstJob(job: Job, at: Instant): Job {
    job.(last := job.created, executionId := ExecutionId(job.project, job.id, job.created, at))
  }

  lemma FirstPlanned(env: Env, job: Job, now: Instant)
    requires Ticking(env.cron)
    ensures var at, plan := NextTime(env.cron(job.id), job.created, now), PlanFor(env, job, map[], now);
            && FirstDue(env.cron(job.id), job.created, now, at) && plan.job == FirstJob(job, at)
            && plan.mem == Mem(1, 0, Scheduled, job.created, at) && NextTimeOf(env.cron, plan.job, now) == at
  {
    NextTimeIsFirstDue(env.cron(job.id), job.created, now);
  }

  /** A first row: version 1 of the job, counted from its creation, under the id of the activation due. */
  ghost predicate FirstRow(env: Env, job: Job, at: Instant, queueVersion: nat, row: Row) {
    && Matches(row, job.id, 1, Scheduled) && row.last == job.created
    && row.node == env.node && row.queueVersion == queueVersion
    && row.executionId == ExecutionId(job.project, job.id, job.created, at)
  }

  lemma FirstLogged(env: Env, st: State, jobs: seq<Job>, now: Instant, queueVersion: nat, k: nat)
    requires Ticking(env.cron) && k < |jobs|
    ensures var rows := ScheduleAll(env, st, jobs, map[], now, queueVersion).uncommitted;
            var job, row := jobs[k], rows[|st.uncommitted| + k];
            && FirstRow(env, job, NextTime(env.cron(job.id), job.created, now), queueVersion, row)
            && (k < MaxRows(LOG_COLUMNS) ==> row.next == env.cron(job.id)(job.created))
  {
    FirstPlanned(env, jobs[k], now);
    PlannedAt(env, jobs, map[], now, k);
    var planned := PlanAll(env, st, jobs, map[], now);
    assert jobs[k].id in Ids(jobs);
    InsertedAt(env.cron, st.uncommitted, PlannedJobs(env, jobs, map[], now),
               Stamp(env.node, Scheduled, queueVersion, ScheduledVersions(planned.cache, jobs, map[])), k);
  }

  /**
   * A job without a log row is scheduled for the first activation, counted from its creation, that is
   * not past; cache, schedule, log row and execution id agree on it.
   */
  lemma FirstFires(env: Env, st: State, jobs: seq<Job>, now: Instant, queueVersion: nat, k: nat)
    requires Ticking(env.cron) && Distinct(jobs) && k < |jobs|
    ensures var job, j := jobs[k], jobs[k].id;
            var st' := ScheduleAll(env, st, jobs, map[], now, queueVersion);
            && j in st'.scheduled && j in st'.cache
            && var at, row := st'.scheduled[j].at, st'.uncommitted[|st.uncommitted| + k];
               && FirstDue(env.cron(j), job.created, now, at) && at == NextTime(env.cron(j), job.created, now)
               && st'.cache[j] == Mem(1, 0, Scheduled, job.created, at)
               && st'.scheduled[j].job == FirstJob(job, at) && FirstRow(env, job, at, queueVersion, row)
               && (k < MaxRows(LOG_COLUMNS) ==> row.next == env.cron(j)(job.created))
  {
    PlanEffect(env, st, jobs, map[], now, k);
    FirstPlanned(env, jobs[k], now);
    FirstLogged(env, st, jobs, now, queueVersion, k);
  }

  // ---- one insert ----

  lemma RowOfInsert(cron: Cron, jobs: seq<Job>, stamp: Stamp, r: Row) returns (k: nat)
    requires r in InsertedRows(cron, jobs, stamp) && |jobs| <= MaxRows(LOG_COLUMNS)
    ensures k < |jobs| && r == RowOf(jobs[k], stamp, cron(jobs[k].id)(jobs[k].last))
  {
    var rows := InsertedRows(cron, jobs, stamp);
    k :| 0 <= k < |rows| && rows[k] == r;
    assert rows[k] == InsertedRow(cron, jobs, MaxRows(LOG_COLUMNS), k, stamp);
  }

  lemma RowOfRaft(cron: Cron, jobs: seq<Job>, stamp: Stamp, now: Instant, r: Row) returns (k: nat)
    requires Ticking(cron) && r in RaftRows(cron, jobs, stamp, now)
    ensures k < |jobs| && r == RowOf(jobs[k], stamp, NextTimeOf(cron, jobs[k], now))
  {
    var rows := RaftRows(cron, jobs, stamp, now);
    k :| 0 <= k < |rows| && rows[k] == r;
  }

  /** What an insert writes for job `j` at version `v` belongs to the clock `c`. */
  ghost predicate Fitting(cron: Cron, jobs: seq<Job>, stamp: Stamp, now: Instant, j: nat, v: nat, c: Clock)
    requires Ticking(cron)
  {
    forall job <- jobs :: job.id == j && VersionOf(stamp.versions, j) == v ==>
      InFlight(job, c) && (stamp.state == Scheduled ==> NextTimeOf(cron, job, now) == c.due)
  }

  lemma InsertTimed(env: Env, rows: seq<Row>, jobs: seq<Job>, stamp: Stamp, now: Instant, j: nat, v: nat, c: Clock)
    requires Ticking(env.cron) && LocalTimed(env, rows, j, v, c) && |jobs| <= MaxRows(LOG_COLUMNS)
    requires Fitting(env.cron, jobs, stamp, now, j, v, c)
    ensures LocalTimed(env, rows + InsertedRows(env.cron, jobs, stamp), j, v, c)
  {
    forall r | r in InsertedRows(env.cron, jobs, stamp) && r.job == j && r.version == v
      ensures r.last == c.from && r.next == env.cron(j)(c.from) && r.executionId == IdOf(j, c)
    {
      var k := RowOfInsert(env.cron, jobs, stamp, r);
      assert jobs[k] in jobs;
    }
  }

  lemma RaftInsertTimed(env: Env, rows: seq<Row>, jobs: seq<Job>, stamp: Stamp, now: Instant, j: nat, v: nat, c: Clock)
    requires Ticking(env.cron) && RaftTimed(rows, j, v, c) && Fitting(env.cron, jobs, stamp, now, j, v, c)
    ensures RaftTimed(rows + RaftRows(env.cron, jobs, stamp, now), j, v, c)
  {
    forall r | r in RaftRows(env.cron, jobs, stamp, now) && r.job == j && r.version == v
      ensures r.last == c.from && r.executionId == IdOf(j, c) && (r.state == Scheduled ==> r.next == c.due)
    {
      var k := RowOfRaft(env.cron, jobs, stamp, now, r);
      assert jobs[k] in jobs;
    }
  }

  ghost predicate RowsTimed(env: Env, st: State, j: nat, v: nat, c: Clock) {
    LocalTimed(env, st.uncommitted, j, v, c) && RaftTimed(st.committed, j, v, c)
  }

  lemma RecordTimed(env: Env, st: State, jobs: seq<Job>, stamp: Stamp, now: Instant, j: nat, v: nat, c: Clock)
    requires Ticking(env.cron) && RowsTimed(env, st, j, v, c) && |jobs| <= MaxRows(LOG_COLUMNS)
    requires Fitting(env.cron, jobs, stamp, now, j, v, c)
    ensures RowsTimed(env, Record(env, st, jobs, stamp, now), j, v, c)
  {
    InsertTimed(env, st.uncommitted, jobs, stamp, now, j, v, c);
    RaftInsertTimed(env, st.committed, jobs, stamp, now, j, v, c);
  }

  // ---- a first schedule keeps time ----

  lemma {:induction false} FindAt(jobs: seq<Job>, k: nat)
    requires Distinct(jobs) && k < |jobs|
    ensures jobs[k].id in Ids(jobs) && Find(jobs, jobs[k].id) == jobs[k]
    decreases |jobs|
  {
    var n := |jobs| - 1;
    assert jobs[k].id in Ids(jobs);
    if k < n {
      assert jobs[..n][k] == jobs[k];
      FindAt(jobs[..n], k);
    }
  }

  lemma CatchUpForward(next: Instant -> Instant, start: Instant, now: Instant)
    requires Advancing(next)
    ensures NextTime(next, start, now) >= start
  {
    NextTimeMovesOn(next, start, now);
  }

  lemma NoRowsTimed(env: Env, st: State, j: nat, v: nat, c: Clock)
    requires !HasRow(LogRows(st), j)
    ensures RowsTimed(env, st, j, v, c)
  {
    assert forall r <- st.uncommitted :: r in LogRows(st);
    assert forall r <- st.committed :: r in LogRows(st);
  }

  /** The planned jobs of a first schedule belong to the clocks they begin. */
  lemma PlannedFit(env: Env, jobs: seq<Job>, stamp: Stamp, now: Instant, j: nat, v: nat, c: Clock)
    requires Ticking(env.cron) && Distinct(jobs)
    requires j in Ids(jobs) ==> c == Begun(env, Find(jobs, j), now)
    ensures Fitting(env.cron, PlannedJobs(env, jobs, map[], now), stamp, now, j, v, c)
  {
    var planned := PlannedJobs(env, jobs, map[], now);
    forall job | job in planned && job.id == j
      ensures j in Ids(jobs) && InFlight(job, c) && NextTimeOf(env.cron, job, now) == c.due
    {
      var k :| 0 <= k < |planned| && planned[k] == job;
      PlannedAt(env, jobs, map[], now, k);
      FindAt(jobs, k);
      FirstPlanned(env, jobs[k], now);
    }
  }

  lemma BegunTimed(env: Env, st: State, jobs: seq<Job>, now: Instant, queueVersion: nat, k: nat)
    requires Ticking(env.cron) && Distinct(jobs) && k < |jobs| <= MaxRows(LOG_COLUMNS)
    requires jobs[k].created > ZERO_TIME && !HasRow(LogRows(st), jobs[k].id)
    ensures JobTimed(env, ScheduleAll(env, st, jobs, map[], now, queueVersion), jobs[k].id, 1, Begun(env, jobs[k], now))
  {
    var j, c := jobs[k].id, Begun(env, jobs[k], now);
    FirstFires(env, st, jobs, now, queueVersion, k);
    CatchUpForward(env.cron(j), jobs[k].created, now);
    FindAt(jobs, k);
    FirstRowsTimed(env, st, jobs, now, queueVersion, j, 1, c);
  }

  lemma FirstRowsTimed(env: Env, st: State, jobs: seq<Job>, now: Instant, queueVersion: nat, j: nat, v: nat, c: Clock)
    requires Ticking(env.cron) && Distinct(jobs) && |jobs| <= MaxRows(LOG_COLUMNS)
    requires if j in Ids(jobs) then c == Begun(env, Find(jobs, j), now) && !HasRow(LogRows(st), j)
             else RowsTimed(env, st, j, v, c)
    ensures RowsTimed(env, ScheduleAll(env, st, jobs, map[], now, queueVersion), j, v, c)
  {
    var planned := PlanAll(env, st, jobs, map[], now);
    var stamp := Stamp(env.node, Scheduled, queueVersion, ScheduledVersions(planned.cache, jobs, map[]));
    if j in Ids(jobs) {
      NoRowsTimed(env, planned, j, v, c);
    }
    PlannedFit(env, jobs, stamp, now, j, v, c);
    RecordTimed(env, planned, PlannedJobs(env, jobs, map[], now), stamp, now, j, v, c);
  }

  lemma OthersTimed(env: Env, st: State, jobs: seq<Job>, now: Instant, queueVersion: nat, j: nat, v: nat, c: Clock)
    requires Ticking(env.cron) && Distinct(jobs) && |jobs| <= MaxRows(LOG_COLUMNS) && j !in Ids(jobs)
    requires JobTimed(env, st, j, v, c)
    ensures JobTimed(env, ScheduleAll(env, st, jobs, map[], now, queueVersion), j, v, c)
  {
    PlanLeaves(env, st, jobs, map[], now, j);
    FirstRowsTimed(env, st, jobs, now, queueVersion, j, v, c);
  }

  lemma FirstKeepsTime(env: Env, st: State, prog: map<nat, Progress>, clocks: map<nat, Clock>, e: Event)
    requires Ticking(env.cron) && Inv(env, st, prog) && Timed(env, st, prog, clocks)
    requires e.First? && Lifecycle.Enabled(env, st, e) && Timely(clocks, e)
    ensures Timed(env, Lifecycle.Step(env, st, e), Reference(env.retryMax, prog, e), Ticked(env, prog, clocks, e))
  {
    var prog', clocks' := Reference(env.retryMax, prog, e), Ticked(env, prog, clocks, e);
    forall j | j in prog'
      ensures JobTimed(env, Lifecycle.Step(env, st, e), j, prog'[j].version, clocks'[j])
    {
      if j in Ids(e.jobs) {
        var k :| 0 <= k < |e.jobs| && e.jobs[k].id == j;
        FindAt(e.jobs, k);
        BegunTimed(env, st, e.jobs, e.now, e.queueVersion, k);
      } else {
        OthersTimed(env, st, e.jobs, e.now, e.queueVersion, j, prog[j].version, clocks[j]);
      }
    }
  }

  // ---- a callback keeps time ----

  /** Rebuilding a missing entry from the log gives its start, and as next time the activation after it. */
  lemma KnownTimed(env: Env, st: State, prog: map<nat, Progress>, jobs: seq<Job>, answer: map<nat, Row>, j: nat,
                   c: Clock)
    requires Ticking(env.cron) && Inv(env, st, prog) && j in prog && JobTimed(env, st, j, prog[j].version, c)
    requires LastRows(LogRows(st), Ids(jobs) - st.cache.Keys, answer)
    ensures CacheTimed(env, WithRebuilt(env, st, jobs, answer).cache, j, c)
  {
    if j !in st.cache && j in Ids(jobs) {
      TrackedHasRow(env, st, prog, j);
      assert answer[j] in LogRows(st) && answer[j] in st.uncommitted;
      LastVersion(env, st, prog, answer, j);
    }
  }

  lemma LastVersion(env: Env, st: State, prog: map<nat, Progress>, answer: map<nat, Row>, j: nat)
    requires Inv(env, st, prog) && j in prog && j in answer && IsLast(LogRows(st), j, answer[j])
    ensures answer[j].version == prog[j].version
  {
    RebuiltFromLog(env, st, prog, answer, j);
  }

  lemma NoRowAbove(retryMax: nat, rows: seq<Row>, j: nat, p: Progress, r: Row)
    requires Tracked(retryMax, multiset(History(rows, j)), p) && r in rows && r.job == j
    ensures r.version <= p.version
  {
    assert Matches(r, j, r.version, r.state);
    HistoryMembers(rows, j, Key(r.version, r.state));
    assert multiset(History(rows, j))[Key(r.version, r.state)] > 0;
  }

  lemma NextVersionTimed(env: Env, st: State, prog: map<nat, Progress>, j: nat, c: Clock)
    requires Inv(env, st, prog) && j in prog
    ensures RowsTimed(env, st, j, prog[j].version + 1, c)
  {
    forall r | r in st.uncommitted && r.job == j ensures r.version <= prog[j].version {
      NoRowAbove(env.retryMax, st.uncommitted, j, prog[j], r);
    }
    forall r | r in st.committed && r.job == j ensures r.version <= prog[j].version {
      NoRowAbove(env.retryMax, st.committed, j, prog[j], r);
    }
  }

  /** The job as it is scheduled again, counted from `from`. */
  function RunFrom(env: Env, job: Job, from: Instant, now: Instant): Job
    requires Ticking(env.cron)
  {
    job.(last := from, executionId := ExecutionId(job.project, job.id, from, NextTime(env.cron(job.id), from, now)))
  }

  /** What a sweep does to the times of one of its jobs. */
  ghost predicate SweptTimes(env: Env, start: Sweep, sw: Sweep, job: Job, outcome: LogState, now: Instant)
    requires Ticking(env.cron) && job.id in start.cache && job.id in sw.cache
  {
    var j, mem := job.id, start.cache[job.id];
    if Retries(env, mem, outcome) then
      && sw.cache[j].lastState == outcome && sw.cache[j].last == mem.last && sw.cache[j].next == mem.next
      && (j in sw.scheduled <==> j in start.scheduled)
      && (j in sw.scheduled ==> sw.scheduled[j] == start.scheduled[j])
    else
      var at := NextTime(env.cron(j), mem.next, now);
      && sw.cache[j].lastState == outcome && sw.cache[j].last == mem.next && sw.cache[j].next == at
      && j in sw.scheduled && sw.scheduled[j] == Entry(RunFrom(env, job, mem.next, now), at)
  }

  lemma {:induction false} SweepKeepsTimes(env: Env, start: Sweep, jobs: seq<Job>, outcome: LogState, now: Instant,
                                           k: nat)
    requires Ticking(env.cron) && Ids(jobs) <= start.cache.Keys && Distinct(jobs) && start.moved == []
    requires k < |jobs| && jobs[k].id in start.cache && start.cache[jobs[k].id].next > ZERO_TIME
    ensures SweptTimes(env, start, SweepAll(env, start, jobs, outcome, now), jobs[k], outcome, now)
    decreases |jobs|
  {
    var n := |jobs| - 1;
    IdsNext(jobs, n);
    if k < n {
      assert jobs[..n][k] == jobs[k];
      SweepKeepsTimes(env, start, jobs[..n], outcome, now, k);
    } else {
      assert jobs[n].id !in Ids(jobs[..n]);
      SweepLeaves(env, start, jobs[..n], outcome, now, jobs[n].id);
    }
  }

  /** The jobs that move on are the ones the schedule holds, and no more than were called. */
  ghost predicate MovedScheduled(sw: Sweep, n: nat) {
    && |sw.moved| <= n
    && forall job <- sw.moved :: job.id in sw.scheduled && sw.scheduled[job.id].job == job
  }

  lemma {:induction false} SweepMoves(env: Env, start: Sweep, jobs: seq<Job>, outcome: LogState, now: Instant)
    requires Ticking(env.cron) && Ids(jobs) <= start.cache.Keys && Distinct(jobs) && start.moved == []
    ensures MovedScheduled(SweepAll(env, start, jobs, outcome, now), |jobs|)
  {
    if jobs != [] {
      var n := |jobs| - 1;
      IdsNext(jobs, n);
      assert jobs[n].id !in Ids(jobs[..n]);
      SweepMoves(env, start, jobs[..n], outcome, now);
      SweepEffect(env, start, jobs[..n], outcome, now);
      MovesNext(env, SweepAll(env, start, jobs[..n], outcome, now), jobs[n], outcome, now, n);
    }
  }

  lemma MovesNext(env: Env, sw: Sweep, job: Job, outcome: LogState, now: Instant, n: nat)
    requires Ticking(env.cron) && MovedScheduled(sw, n)
    requires job.id in sw.cache && job.id !in Ids(sw.moved) && Ids(sw.moved) <= sw.cache.Keys
    ensures MovedScheduled(SweepStep(env, sw, job, outcome, now), n + 1)
  {
    forall other | other in sw.moved ensures other.id != job.id {
      var k :| 0 <= k < |sw.moved| && sw.moved[k] == other;
    }
  }

  /** Both inserts of a callback write what belongs to the clock `c` of job `j` at version `v`. */
  ghost predicate CallFits(env: Env, cache: map<nat, Mem>, sw: Sweep, jobs: seq<Job>, now: Instant, j: nat, v: nat,
                           c: Clock)
    requires Ticking(env.cron) && Ids(jobs) <= cache.Keys
  {
    && (forall job <- jobs :: job.id == j && j in cache && cache[j].version == v ==> InFlight(job, c))
    && (forall job <- sw.moved :: job.id == j ==> InFlight(job, c) && NextTimeOf(env.cron, job, now) == c.due)
  }

  /** What a callback does once every entry it needs is cached. */
  function Handled(env: Env, known: State, jobs: seq<Job>, outcome: LogState, now: Instant, queueVersion: nat): State
    requires Ticking(env.cron) && Ids(jobs) <= known.cache.Keys
  {
    var stamp := Stamp(env.node, outcome, queueVersion, CachedVersions(known.cache, jobs));
    Reschedule(env, Record(env, known, jobs, stamp, now), jobs, outcome, now, queueVersion)
  }

  lemma CallbackRowsTimed(env: Env, known: State, jobs: seq<Job>, outcome: LogState, now: Instant, queueVersion: nat,
                          j: nat, v: nat, c: Clock)
    requires Ticking(env.cron) && Distinct(jobs) && Ids(jobs) <= known.cache.Keys
    requires |jobs| <= MaxRows(LOG_COLUMNS) && outcome != Scheduled && RowsTimed(env, known, j, v, c)
    requires var sw := SweepAll(env, Sweep(known.cache, known.scheduled, []), jobs, outcome, now);
             CallFits(env, known.cache, sw, jobs, now, j, v, c)
    ensures RowsTimed(env, Handled(env, known, jobs, outcome, now, queueVersion), j, v, c)
  {
    var stamp := Stamp(env.node, outcome, queueVersion, CachedVersions(known.cache, jobs));
    forall job | job in jobs && job.id == j && VersionOf(stamp.versions, j) == v ensures InFlight(job, c) {
      var k :| 0 <= k < |jobs| && jobs[k] == job;
      assert j in Ids(jobs);
    }
    RecordTimed(env, known, jobs, stamp, now, j, v, c);
    var logged := Record(env, known, jobs, stamp, now);
    var start := Sweep(known.cache, known.scheduled, []);
    var sw := SweepAll(env, start, jobs, outcome, now);
    SweepMoves(env, start, jobs, outcome, now);
    RecordTimed(env, logged.(cache := sw.cache, scheduled := sw.scheduled), sw.moved,
                Stamp(env.node, Scheduled, queueVersion, CachedVersions(sw.cache, sw.moved)), now, j, v, c);
  }

  /** What is needed of the state a callback is counted from, for job `j`. */
  ghost predicate Ready(env: Env, known: State, jobs: seq<Job>, j: nat, p: Progress, c: Clock)
    requires Ticking(env.cron)
  {
    && Distinct(jobs) && Ids(jobs) <= known.cache.Keys && |jobs| <= MaxRows(LOG_COLUMNS)
    && JobTimed(env, known, j, p.version, c)
    && (j in Ids(jobs) ==> Agrees(known.cache[j], p) && forall job <- jobs :: job.id == j ==> InFlight(job, c))
  }

  lemma UncalledTimed(env: Env, known: State, jobs: seq<Job>, outcome: LogState, now: Instant, queueVersion: nat,
                      j: nat, p: Progress, c: Clock)
    requires Ticking(env.cron) && Ready(env, known, jobs, j, p, c) && outcome != Scheduled && j !in Ids(jobs)
    ensures JobTimed(env, Handled(env, known, jobs, outcome, now, queueVersion), j, p.version, c)
  {
    var start := Sweep(known.cache, known.scheduled, []);
    SweepEffect(env, start, jobs, outcome, now);
    SweepLeaves(env, start, jobs, outcome, now, j);
    NotAmong(jobs, j);
    NotAmong(SweepAll(env, start, jobs, outcome, now).moved, j);
    CallbackRowsTimed(env, known, jobs, outcome, now, queueVersion, j, p.version, c);
  }

  lemma RetriedTimed(env: Env, known: State, jobs: seq<Job>, outcome: LogState, now: Instant, queueVersion: nat, k: nat,
                     p: Progress, c: Clock)
    requires Ticking(env.cron) && k < |jobs| && Ready(env, known, jobs, jobs[k].id, p, c) && outcome != Scheduled
    requires jobs[k].id in Ids(jobs) && Retries(env, known.cache[jobs[k].id], outcome)
    ensures JobTimed(env, Handled(env, known, jobs, outcome, now, queueVersion), jobs[k].id, p.version, c)
  {
    var j, start := jobs[k].id, Sweep(known.cache, known.scheduled, []);
    ExecutedAhead(env, j, c);
    SweepEffect(env, start, jobs, outcome, now);
    SweepKeepsTimes(env, start, jobs, outcome, now, k);
    NotAmong(SweepAll(env, start, jobs, outcome, now).moved, j);
    CallbackRowsTimed(env, known, jobs, outcome, now, queueVersion, j, p.version, c);
  }

  lemma ExecutedAhead(env: Env, j: nat, c: Clock)
    requires Ticking(env.cron) && ClockOk(env, j, c)
    ensures Executed(env.cron, j, c) > ZERO_TIME
  {
  }

  lemma MovedTimed(env: Env, known: State, jobs: seq<Job>, outcome: LogState, now: Instant, queueVersion: nat, k: nat,
                   p: Progress, c: Clock)
    requires Ticking(env.cron) && k < |jobs| && Ready(env, known, jobs, jobs[k].id, p, c) && outcome != Scheduled
    requires jobs[k].id in Ids(jobs) && !Retries(env, known.cache[jobs[k].id], outcome)
    requires RowsTimed(env, known, jobs[k].id, p.version + 1, MovedOn(env, jobs[k].id, c, now))
    ensures JobTimed(env, Handled(env, known, jobs, outcome, now, queueVersion), jobs[k].id, p.version + 1,
                     MovedOn(env, jobs[k].id, c, now))
  {
    var j, start := jobs[k].id, Sweep(known.cache, known.scheduled, []);
    var sw, c' := SweepAll(env, start, jobs, outcome, now), MovedOn(env, jobs[k].id, c, now);
    ExecutedAhead(env, j, c);
    CatchUpForward(env.cron(j), c'.from, now);
    SweepKeepsTimes(env, start, jobs, outcome, now, k);
    SweepMoves(env, start, jobs, outcome, now);
    assert jobs[k] in jobs;
    CallbackRowsTimed(env, known, jobs, outcome, now, queueVersion, j, p.version + 1, c');
  }

  /** The clock of a job after a callback. */
  function AfterCall(env: Env, jobs: seq<Job>, outcome: LogState, now: Instant, j: nat, p: Progress, c: Clock): Clock
    requires Ticking(env.cron)
  {
    if j in Ids(jobs) && Advance(env.retryMax, p, outcome).version > p.version then MovedOn(env, j, c, now) else c
  }

  function VersionAfter(env: Env, jobs: seq<Job>, outcome: LogState, j: nat, p: Progress): nat {
    if j in Ids(jobs) then Advance(env.retryMax, p, outcome).version else p.version
  }

  lemma HandledTimed(env: Env, known: State, jobs: seq<Job>, outcome: LogState, now: Instant, queueVersion: nat, j: nat,
                     p: Progress, c: Clock)
    requires Ticking(env.cron) && Ready(env, known, jobs, j, p, c) && outcome != Scheduled
    requires RowsTimed(env, known, j, p.version + 1, MovedOn(env, j, c, now))
    ensures JobTimed(env, Handled(env, known, jobs, outcome, now, queueVersion), j,
                     VersionAfter(env, jobs, outcome, j, p), AfterCall(env, jobs, outcome, now, j, p, c))
  {
    if j !in Ids(jobs) {
      UncalledTimed(env, known, jobs, outcome, now, queueVersion, j, p, c);
    } else {
      var k :| 0 <= k < |jobs| && jobs[k].id == j;
      if Retries(env, known.cache[j], outcome) {
        RetriedTimed(env, known, jobs, outcome, now, queueVersion, k, p, c);
      } else {
        MovedTimed(env, known, jobs, outcome, now, queueVersion, k, p, c);
      }
    }
  }

  lemma KnownReady(env: Env, st: State, prog: map<nat, Progress>, clocks: map<nat, Clock>, e: Event, j: nat)
    requires Ticking(env.cron) && Inv(env, st, prog) && Timed(env, st, prog, clocks) && j in prog
    requires e.Called? && Lifecycle.Enabled(env, st, e) && Timely(clocks, e)
    ensures Ready(env, WithRebuilt(env, st, e.jobs, e.answer), e.jobs, j, prog[j], clocks[j])
  {
    KnownAgrees(env, st, prog, e.jobs, e.outcome, e.answer, e.now, e.queueVersion);
    KnownTimed(env, st, prog, e.jobs, e.answer, j, clocks[j]);
  }

  lemma CalledTimed(env: Env, st: State, prog: map<nat, Progress>, clocks: map<nat, Clock>, e: Event, j: nat)
    requires Ticking(env.cron) && Inv(env, st, prog) && Timed(env, st, prog, clocks) && j in prog
    requires e.Called? && Lifecycle.Enabled(env, st, e) && Timely(clocks, e)
    ensures JobTimed(env, Lifecycle.Step(env, st, e), j, VersionAfter(env, e.jobs, e.outcome, j, prog[j]),
                     AfterCall(env, e.jobs, e.outcome, e.now, j, prog[j], clocks[j]))
  {
    KnownReady(env, st, prog, clocks, e, j);
    NextVersionTimed(env, st, prog, j, MovedOn(env, j, clocks[j], e.now));
    HandledTimed(env, WithRebuilt(env, st, e.jobs, e.answer), e.jobs, e.outcome, e.now, e.queueVersion, j, prog[j],
                 clocks[j]);
  }

  lemma CallKeepsTime(env: Env, st: State, prog: map<nat, Progress>, clocks: map<nat, Clock>, e: Event)
    requires Ticking(env.cron) && Inv(env, st, prog) && Timed(env, st, prog, clocks)
    requires e.Called? && Lifecycle.Enabled(env, st, e) && Timely(clocks, e)
    ensures Timed(env, Lifecycle.Step(env, st, e), Reference(env.retryMax, prog, e), Ticked(env, prog, clocks, e))
  {
    var st', prog' := Lifecycle.Step(env, st, e), Reference(env.retryMax, prog, e);
    var clocks' := Ticked(env, prog, clocks, e);
    KeysKept(env, prog, clocks, e);
    forall j | j in prog ensures JobTimed(env, st', j, prog'[j].version, clocks'[j]) {
      CalledTimed(env, st, prog, clocks, e, j);
      TickedAt(env, prog, clocks, e, j);
    }
  }

  lemma KeysKept(env: Env, prog: map<nat, Progress>, clocks: map<nat, Clock>, e: Event)
    requires Ticking(env.cron) && e.Called?
    ensures Reference(env.retryMax, prog, e).Keys == prog.Keys && Ticked(env, prog, clocks, e).Keys == clocks.Keys
  {
  }

  lemma TickedAt(env: Env, prog: map<nat, Progress>, clocks: map<nat, Clock>, e: Event, j: nat)
    requires Ticking(env.cron) && e.Called? && j in prog && j in clocks
    ensures j in Reference(env.retryMax, prog, e) && j in Ticked(env, prog, clocks, e)
    ensures Reference(env.retryMax, prog, e)[j].version == VersionAfter(env, e.jobs, e.outcome, j, prog[j])
    ensures Ticked(env, prog, clocks, e)[j] == AfterCall(env, e.jobs, e.outcome, e.now, j, prog[j], clocks[j])
  {
  }

  // ---- every run ----

  lemma DropKeepsTime(env: Env, st: State, prog: map<nat, Progress>, clocks: map<nat, Clock>)
    requires Ticking(env.cron) && Timed(env, st, prog, clocks)
    ensures Timed(env, Lifecycle.Step(env, st, Drop), prog, Ticked(env, prog, clocks, Drop))
  {
    forall j | j in prog
      ensures JobTimed(env, Lifecycle.Step(env, st, Drop), j, prog[j].version, clocks[j].(lost := true))
    {
      LostTimed(env, st, j, prog[j].version, clocks[j]);
    }
  }

  lemma LostTimed(env: Env, st: State, j: nat, v: nat, c: Clock)
    requires Ticking(env.cron) && JobTimed(env, st, j, v, c)
    ensures JobTimed(env, st.(cache := map[], scheduled := map[]), j, v, c.(lost := true))
  {
    assert IdOf(j, c.(lost := true)) == IdOf(j, c);
  }

  lemma StepKeepsTime(env: Env, st: State, prog: map<nat, Progress>, clocks: map<nat, Clock>, e: Event)
    requires Ticking(env.cron) && Inv(env, st, prog) && Timed(env, st, prog, clocks)
    requires Lifecycle.Enabled(env, st, e) && Timely(clocks, e)
    ensures Timed(env, Lifecycle.Step(env, st, e), Reference(env.retryMax, prog, e), Ticked(env, prog, clocks, e))
  {
    match e
    case First(_, _, _) => FirstKeepsTime(env, st, prog, clocks, e);
    case Called(_, _, _, _, _) => CallKeepsTime(env, st, prog, clocks, e);
    case Drop => DropKeepsTime(env, st, prog, clocks);
  }

  function ClockRun(env: Env, events: seq<Event>): map<nat, Clock>
    requires Ticking(env.cron)
  {
    if events == [] then map[]
    else
      var init := events[..|events| - 1];
      Ticked(env, ReferenceRun(env.retryMax, init), ClockRun(env, init), events[|events| - 1])
  }

  ghost predicate TimelyRun(env: Env, events: seq<Event>)
    requires Ticking(env.cron)
  {
    events != [] ==>
      && TimelyRun(env, events[..|events| - 1])
      && Timely(ClockRun(env, events[..|events| - 1]), events[|events| - 1])
  }

  /**
   * In every run, with the memory dropped at arbitrary points, cache, schedule and log keep the time of
   * every job: each version is counted from the execution of the one before, or after a loss from the
   * activation the log implies, and is due at the first activation from there not past when it was
   * scheduled; all its rows carry its start and its id.
   */
  lemma {:induction false} EveryRunKeepsTime(env: Env, events: seq<Event>)
    requires Ticking(env.cron) && ValidRun(env, events) && TimelyRun(env, events)
    ensures Timed(env, Run(env, events), ReferenceRun(env.retryMax, events), ClockRun(env, events))
  {
    if events != [] {
      var n := |events| - 1;
      EveryRunKeepsTime(env, events[..n]);
      EveryRunFollowsTheAutomaton(env, events[..n]);
      StepKeepsTime(env, Run(env, events[..n]), ReferenceRun(env.retryMax, events[..n]), ClockRun(env, events[..n]),
                    events[n]);
    }
  }

  /** A scheduled job fires at an activation of its version, and no earlier one was left when it was scheduled. */
  lemma ScheduledAtFirstDue(env: Env, events: seq<Event>, j: nat)
    requires Ticking(env.cron) && ValidRun(env, events) && TimelyRun(env, events)
    requires j in ReferenceRun(env.retryMax, events) && j in Run(env, events).scheduled
    ensures j in ClockRun(env, events)
    ensures var c := ClockRun(env, events)[j];
            FirstDue(env.cron(j), c.from, c.setAt, Run(env, events).scheduled[j].at)
  {
    EveryRunKeepsTime(env, events);
    var c := ClockRun(env, events)[j];
    NextTimeIsFirstDue(env.cron(j), c.from, c.setAt);
  }

  /** The callback that ends a job's version in a run, with and without a loss of memory right before it. */
  ghost predicate EndsVersion(env: Env, events: seq<Event>, e: Event, j: nat)
    requires Ticking(env.cron)
  {
    && ValidRun(env, events + [e]) && TimelyRun(env, events + [e])
    && e.Called? && j in Ids(e.jobs) && j in ReferenceRun(env.retryMax, events)
    && Advance(env.retryMax, ReferenceRun(env.retryMax, events)[j], e.outcome).version
       > ReferenceRun(env.retryMax, events)[j].version
  }

  lemma OneEventOn(env: Env, events: seq<Event>, e: Event)
    requires Ticking(env.cron)
    ensures ClockRun(env, events + [e]) == Ticked(env, ReferenceRun(env.retryMax, events), ClockRun(env, events), e)
    ensures ReferenceRun(env.retryMax, events + [e]) == Reference(env.retryMax, ReferenceRun(env.retryMax, events), e)
    ensures ValidRun(env, events + [e]) ==> ValidRun(env, events)
    ensures TimelyRun(env, events + [e]) ==> TimelyRun(env, events)
  {
    assert (events + [e])[..|events|] == events;
  }

  /** When a version ends, the next is counted from the execution its clock names. */
  lemma NextCountedFrom(env: Env, events: seq<Event>, e: Event, j: nat)
    requires Ticking(env.cron) && EndsVersion(env, events, e, j)
    ensures j in ClockRun(env, events) && j in Run(env, events + [e]).scheduled
    ensures var from := Executed(env.cron, j, ClockRun(env, events)[j]);
            var entry := Run(env, events + [e]).scheduled[j];
            && entry.job.last == from && entry.at == NextTime(env.cron(j), from, e.now)
            && entry.job.executionId == ExecutionId(entry.job.project, j, from, entry.at)
            && forall r <- Run(env, events + [e]).uncommitted ::
                 r.job == j && r.version == ReferenceRun(env.retryMax, events)[j].version + 1 ==>
                   r.last == from && r.next == env.cron(j)(from) && r.executionId == entry.job.executionId
  {
    OneEventOn(env, events, e);
    EveryRunKeepsTime(env, events);
    EveryRunKeepsTime(env, events + [e]);
    var c' := ClockRun(env, events + [e])[j];
    assert c' == MovedOn(env, j, ClockRun(env, events)[j], e.now);
    assert JobTimed(env, Run(env, events + [e]), j, ReferenceRun(env.retryMax, events + [e])[j].version, c');
  }

  /**
   * Losing the memory before the callback that ends a version: the next version is then counted from
   * the activation after the last execution the log stores, and not from the one scheduled. The job
   * still fires at the same time exactly if the execution the version was counted from is past.
   */
  lemma LossKeepsFireTimeIff(env: Env, events: seq<Event>, e: Event, e': Event, j: nat)
    requires Ticking(env.cron) && EndsVersion(env, events, e, j) && EndsVersion(env, events + [Drop], e', j)
    requires e'.now == e.now && j in ClockRun(env, events)
    requires !ClockRun(env, events)[j].lost && ClockRun(env, events)[j].setAt <= e.now
    ensures j in Run(env, events + [e]).scheduled && j in Run(env, events + [Drop] + [e']).scheduled
    ensures var c := ClockRun(env, events)[j];
            var kept, lost := Run(env, events + [e]).scheduled[j], Run(env, events + [Drop] + [e']).scheduled[j];
            && kept.job.last == c.due && lost.job.last == env.cron(j)(c.from)
            && (lost.at == kept.at <==> c.from < e.now)
  {
    NextCountedFrom(env, events, e, j);
    NextCountedFrom(env, events + [Drop], e', j);
    OneEventOn(env, events, Drop);
    OneEventOn(env, events, e);
    EveryRunKeepsTime(env, events);
    var c := ClockRun(env, events)[j];
    assert ClockRun(env, events + [Drop])[j] == c.(lost := true);
    assert ClockOk(env, j, c);
    FiresAlikeIff(env.cron(j), c.from, c.setAt, e.now);
  }

  // ---- runs that exist ----

  lemma OneJob(job: Job)
    ensures Ids([job]) == {job.id} && Find([job], job.id) == job && Distinct([job])
  {
    assert [job][0].id in Ids([job]);
  }

  /** The state after one job was scheduled for the first time. */
  lemma FirstState(env: Env, job: Job, now: Instant)
    requires Ticking(env.cron) && job.created > ZERO_TIME
    ensures var events, at := [First([job], now, 0)], NextTime(env.cron(job.id), job.created, now);
            && ValidRun(env, events) && TimelyRun(env, events)
            && ReferenceRun(env.retryMax, events) == map[job.id := Progress(1, 0)]
            && ClockRun(env, events) == map[job.id := Begun(env, job, now)]
            && job.id in Run(env, events).cache && |Run(env, events).uncommitted| == 1
            && Matches(Run(env, events).uncommitted[0], job.id, 1, Scheduled)
            && (!env.singleNode ==> Run(env, events).committed == [])
  {
    var events := [First([job], now, 0)];
    OneJob(job);
    assert events[..0] == [];
    FirstFires(env, START, [job], now, 0, 0);
  }

  /** The callback of a job in flight after its first schedule. */
  function FirstCall(env: Env, job: Job, now: Instant, answer: map<nat, Row>, later: Instant): Event
    requires Ticking(env.cron)
  {
    Called([FirstJob(job, NextTime(env.cron(job.id), job.created, now))], Success, answer, later, 0)
  }

  lemma CallEnds(env: Env, events: seq<Event>, job: Job, now: Instant, answer: map<nat, Row>, later: Instant)
    requires Ticking(env.cron) && ValidRun(env, events) && TimelyRun(env, events)
    requires ReferenceRun(env.retryMax, events) == map[job.id := Progress(1, 0)]
    requires job.id in ClockRun(env, events)
    requires ClockRun(env, events)[job.id].(lost := false) == Begun(env, job, now)
    requires HasRow(LogRows(Run(env, events)), job.id)
    requires LastRows(LogRows(Run(env, events)), {job.id} - Run(env, events).cache.Keys, answer)
    ensures EndsVersion(env, events, FirstCall(env, job, now, answer, later), job.id)
  {
    var e := FirstCall(env, job, now, answer, later);
    OneJob(e.jobs[0]);
    assert (events + [e])[..|events|] == events;
  }

  /** For every node of a cluster and every job there are runs as above, with and without the loss. */
  lemma LossHappens(env: Env, job: Job, now: Instant, later: Instant)
    returns (events: seq<Event>, e: Event, e': Event)
    requires Ticking(env.cron) && !env.singleNode && job.created > ZERO_TIME && now <= later
    ensures EndsVersion(env, events, e, job.id) && EndsVersion(env, events + [Drop], e', job.id)
    ensures e.now == e'.now == later && job.id in ClockRun(env, events)
    ensures !ClockRun(env, events)[job.id].lost && ClockRun(env, events)[job.id].setAt <= later
  {
    events := [First([job], now, 0)];
    FirstState(env, job, now);
    var row := Run(env, events).uncommitted[0];
    assert row in LogRows(Run(env, events));
    e := FirstCall(env, job, now, map[], later);
    CallEnds(env, events, job, now, map[], later);
    e' := FirstCall(env, job, now, map[job.id := row], later);
    OneEventOn(env, events, Drop);
    Dropped(env, events);
    SoleRow(LogRows(Run(env, events)), job.id, row);
    CallEnds(env, events + [Drop], job, now, map[job.id := row], later);
  }

  lemma Dropped(env: Env, events: seq<Event>)
    requires Ticking(env.cron) && !env.singleNode && ValidRun(env, events) && TimelyRun(env, events)
    ensures ValidRun(env, events + [Drop]) && TimelyRun(env, events + [Drop])
    ensures LogRows(Run(env, events + [Drop])) == LogRows(Run(env, events)) && Run(env, events + [Drop]).cache == map[]
  {
    assert (events + [Drop])[..|events|] == events;
  }

  lemma SoleRow(rows: seq<Row>, j: nat, row: Row)
    requires rows == [row] && row.job == j
    ensures HasRow(rows, j) && LastRows(rows, {j}, map[j := row])
  {
    assert row in rows;
  }
}
