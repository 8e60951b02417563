/** Whole runs of the executor: what the log and the cache say about every job's executions. */
module Lifecycle {
  import opened JobSchedule
  import opened ExecutionLog
  import opened Executor
  import opened Batcher

  /** The automaton each job follows: its current version and the failures of that version so far. */
  datatype Progress = Progress(version: nat, fails: nat)

  function Advance(retryMax: nat, p: Progress, outcome: LogState): Progress {
    if outcome == Failed && p.fails < retryMax then Progress(p.version, p.fails + 1)
    else Progress(p.version + 1, 0)
  }

  /** A finished version: one success after at most `retryMax` failures, or one failure more and no success. */
  ghost predicate Closed(retryMax: nat, rows: multiset<Key>, v: nat) {
    || (rows[Key(v, Success)] == 1 && rows[Key(v, Failed)] <= retryMax)
    || (rows[Key(v, Success)] == 0 && rows[Key(v, Failed)] == retryMax + 1)
  }

  /** A job's rows are exactly those of an execution history that reached `p`. */
  ghost predicate Tracked(retryMax: nat, rows: multiset<Key>, p: Progress) {
    && p.version >= 1 && p.fails <= retryMax
    && (forall v: nat :: rows[Key(v, Scheduled)] == if 1 <= v <= p.version then 1 else 0)
    && (forall v: nat :: 1 <= v < p.version ==> Closed(retryMax, rows, v))
    && (forall v: nat :: v == 0 || v > p.version ==> rows[Key(v, Success)] == rows[Key(v, Failed)] == 0)
    && rows[Key(p.version, Success)] == 0
    && rows[Key(p.version, Failed)] == p.fails
  }

  ghost predicate RowsOk(retryMax: nat, rows: seq<Row>, prog: map<nat, Progress>) {
    && (forall j <- prog :: Tracked(retryMax, multiset(History(rows, j)), prog[j]))
    && (forall j :: j !in prog ==> History(rows, j) == [])
  }

  ghost predicate CacheOk(env: Env, cache: map<nat, Mem>, prog: map<nat, Progress>) {
    && (forall j <- cache :: j in prog && Agrees(cache[j], prog[j]))
    && (env.singleNode ==> prog.Keys <= cache.Keys)
  }

  ghost predicate Inv(env: Env, st: State, prog: map<nat, Progress>) {
    && RowsOk(env.retryMax, st.uncommitted, prog)
    && CacheOk(env, st.cache, prog)
    && OwnedBy(LogRows(st), env.node)
    && Mirrored(env, st)
  }

  /** A single node writes every row to both tables; a cluster node only to its own. */
  ghost predicate Mirrored(env: Env, st: State) {
    if env.singleNode then forall j :: History(st.committed, j) == History(st.uncommitted, j)
    else st.committed == []
  }

  predicate Agrees(mem: Mem, p: Progress) {
    mem.version == p.version && mem.failCount == p.fails
  }

  // ---- runs ----

  /** `First` schedules jobs without any log row; `Called` is a success or failure callback; `Drop` loses the memory. */
  datatype Event =
    | First(jobs: seq<Job>, now: Instant, queueVersion: nat)
    | Called(jobs: seq<Job>, outcome: LogState, answer: map<nat, Row>, now: Instant, queueVersion: nat)
    | Drop

  function Step(env: Env, st: State, e: Event): State
    requires Ticking(env.cron)
  {
    match e
    case First(jobs, now, queueVersion) => ScheduleAll(env, st, jobs, map[], now, queueVersion)
    case Called(jobs, outcome, answer, now, queueVersion) =>
      Callback(env, st, jobs, outcome, answer, now, queueVersion)
    case Drop => st.(cache := map[], scheduled := map[])
  }

  ghost predicate Enabled(env: Env, st: State, e: Event) {
    match e
    case First(jobs, _, _) => Distinct(jobs) && forall j <- Ids(jobs) :: !HasRow(LogRows(st), j)
    case Called(jobs, outcome, answer, _, _) =>
      && Distinct(jobs) && outcome != Scheduled
      && (forall j <- Ids(jobs) :: HasRow(LogRows(st), j))
      && LastRows(LogRows(st), Ids(jobs) - st.cache.Keys, answer)
    case Drop => !env.singleNode
  }

  function Reference(retryMax: nat, prog: map<nat, Progress>, e: Event): map<nat, Progress> {
    match e
    case First(jobs, _, _) =>
      Started(prog, Ids(jobs))
    case Called(jobs, outcome, _, _, _) =>
      Advanced(retryMax, prog, Ids(jobs), outcome)
    case Drop => prog
  }

  const START := State(map[], map[], [], [])

  function Run(env: Env, events: seq<Event>): State
    requires Ticking(env.cron)
  {
    if events == [] then START
    else Step(env, Run(env, events[..|events| - 1]), events[|events| - 1])
  }

  ghost predicate ValidRun(env: Env, events: seq<Event>)
    requires Ticking(env.cron)
  {
    events != [] ==>
      && ValidRun(env, events[..|events| - 1])
      && Enabled(env, Run(env, events[..|events| - 1]), events[|events| - 1])
  }

  function ReferenceRun(retryMax: nat, events: seq<Event>): map<nat, Progress> {
    if events == [] then map[]
    else Reference(retryMax, ReferenceRun(retryMax, events[..|events| - 1]), events[|events| - 1])
  }

  /**
   * Every run, with the cache dropped at arbitrary points, follows the per-job automaton: one
   * scheduled row per version reached, none above, every earlier version closed, and cache entries
   * that agree with the log.
   */
  lemma {:induction false} EveryRunFollowsTheAutomaton(env: Env, events: seq<Event>)
    requires Ticking(env.cron) && ValidRun(env, events)
    ensures Inv(env, Run(env, events), ReferenceRun(env.retryMax, events))
  {
    if events != [] {
      var n := |events| - 1;
      EveryRunFollowsTheAutomaton(env, events[..n]);
      StepPreserves(env, Run(env, events[..n]), ReferenceRun(env.retryMax, events[..n]), events[n]);
    }
  }

  lemma StepPreserves(env: Env, st: State, prog: map<nat, Progress>, e: Event)
    requires Ticking(env.cron) && Inv(env, st, prog) && Enabled(env, st, e)
    ensures Inv(env, Step(env, st, e), Reference(env.retryMax, prog, e))
  {
    match e
    case First(jobs, now, queueVersion) => FirstPreserves(env, st, prog, jobs, now, queueVersion);
    case Called(jobs, outcome, answer, now, queueVersion) =>
      CallbackPreserves(env, st, prog, jobs, outcome, answer, now, queueVersion);
    case Drop =>
  }

  // ---- one insert ----

  /** An insert of one row per distinct job adds one key to each of their histories, in both tables alike. */
  lemma RecordHistories(env: Env, st: State, jobs: seq<Job>, stamp: Stamp, now: Instant)
    requires Ticking(env.cron) && Distinct(jobs)
    requires Mirrored(env, st) && OwnedBy(LogRows(st), env.node) && stamp.node == env.node
    ensures var st' := Record(env, st, jobs, stamp, now);
            && Mirrored(env, st') && OwnedBy(LogRows(st'), env.node)
            && forall j :: History(st'.uncommitted, j) == Extended(History(st.uncommitted, j), jobs, stamp, j)
  {
    var local := InsertedRows(env.cron, jobs, stamp);
    var raft := RaftRows(env.cron, jobs, stamp, now);
    forall j
      ensures History(st.uncommitted + local, j) == Extended(History(st.uncommitted, j), jobs, stamp, j)
      ensures History(st.committed + raft, j) == Extended(History(st.committed, j), jobs, stamp, j)
    {
      HistoryConcat(st.uncommitted, local, j);
      HistoryConcat(st.committed, raft, j);
      HistoryRecords(local, jobs, stamp, j);
      HistoryRecords(raft, jobs, stamp, j);
    }
  }

  function Extended(keys: seq<Key>, jobs: seq<Job>, stamp: Stamp, j: nat): seq<Key> {
    if j in Ids(jobs) then keys + [Key(VersionOf(stamp.versions, j), stamp.state)] else keys
  }

  // ---- first schedule ----

  lemma {:induction false} FirstPlans(env: Env, st: State, jobs: seq<Job>, now: Instant)
    requires Ticking(env.cron)
    ensures var cache := PlanAll(env, st, jobs, map[], now).cache;
            forall j <- cache :: if j in Ids(jobs) then cache[j].version == 1 && cache[j].failCount == 0
                                 else j in st.cache && cache[j] == st.cache[j]
  {
    if jobs != [] {
      var n := |jobs| - 1;
      FirstPlans(env, st, jobs[..n], now);
      IdsNext(jobs, n);
      var before := PlanAll(env, st, jobs[..n], map[], now);
      FirstPlan(env, before, jobs[n], now);
      assert PlanAll(env, st, jobs, map[], now)
          == PlanStep(env, before, jobs[n].id, PlanFor(env, jobs[n], map[], now), now);
    }
  }

  lemma FirstPlan(env: Env, st: State, job: Job, now: Instant)
    requires Ticking(env.cron)
    ensures var cache := PlanStep(env, st, job.id, PlanFor(env, job, map[], now), now).cache;
            && cache.Keys == st.cache.Keys + {job.id}
            && cache[job.id].version == 1 && cache[job.id].failCount == 0
            && forall j <- cache :: j != job.id ==> cache[j] == st.cache[j]
  {
  }

  lemma FirstPreserves(env: Env, st: State, prog: map<nat, Progress>, jobs: seq<Job>, now: Instant,
                       queueVersion: nat)
    requires Ticking(env.cron) && Inv(env, st, prog) && Enabled(env, st, First(jobs, now, queueVersion))
    ensures Inv(env, ScheduleAll(env, st, jobs, map[], now, queueVersion),
                Reference(env.retryMax, prog, First(jobs, now, queueVersion)))
  {
    FirstRows(env, st, jobs, now, queueVersion);
    forall j | j in Ids(jobs) ensures j !in prog { Fresh(env, st, prog, j); }
    FirstRowsOk(env.retryMax, st.uncommitted, ScheduleAll(env, st, jobs, map[], now, queueVersion).uncommitted,
                prog, Ids(jobs));
    FirstPlans(env, st, jobs, now);
  }

  function Started(prog: map<nat, Progress>, ids: set<nat>): map<nat, Progress> {
    map j | j in prog.Keys + ids :: if j in ids then Progress(1, 0) else prog[j]
  }

  lemma FirstRowsOk(retryMax: nat, rows: seq<Row>, rows': seq<Row>, prog: map<nat, Progress>, ids: set<nat>)
    requires RowsOk(retryMax, rows, prog) && ids !! prog.Keys
    requires forall j :: History(rows', j) ==
               if j in ids then History(rows, j) + [Key(1, Scheduled)] else History(rows, j)
    ensures RowsOk(retryMax, rows', Started(prog, ids))
  {
    forall j | j in ids ensures Tracked(retryMax, multiset(History(rows', j)), Progress(1, 0)) {
      FirstTracked(retryMax, History(rows', j));
    }
  }

  lemma FirstTracked(retryMax: nat, keys: seq<Key>)
    requires keys == [Key(1, Scheduled)]
    ensures Tracked(retryMax, multiset(keys), Progress(1, 0))
  {
  }

  lemma FirstRows(env: Env, st: State, jobs: seq<Job>, now: Instant, queueVersion: nat)
    requires Ticking(env.cron) && Distinct(jobs) && Mirrored(env, st) && OwnedBy(LogRows(st), env.node)
    ensures var st' := ScheduleAll(env, st, jobs, map[], now, queueVersion);
            && Mirrored(env, st') && OwnedBy(LogRows(st'), env.node)
            && forall j :: History(st'.uncommitted, j) == if j in Ids(jobs)
                 then History(st.uncommitted, j) + [Key(1, Scheduled)] else History(st.uncommitted, j)
  {
    var planned := PlanAll(env, st, jobs, map[], now);
    var runs := PlannedJobs(env, jobs, map[], now);
    forall k | 0 <= k < |jobs| ensures runs[k].id == jobs[k].id { PlannedAt(env, jobs, map[], now, k); }
    SameIds(runs, jobs);
    RecordHistories(env, planned, runs,
                    Stamp(env.node, Scheduled, queueVersion, ScheduledVersions(planned.cache, jobs, map[])), now);
  }

  lemma SameIds(a: seq<Job>, b: seq<Job>)
    requires |a| == |b| && forall k :: 0 <= k < |a| ==> a[k].id == b[k].id
    ensures Ids(a) == Ids(b)
  {
  }

  lemma Fresh(env: Env, st: State, prog: map<nat, Progress>, j: nat)
    requires Inv(env, st, prog) && !HasRow(LogRows(st), j)
    ensures j !in prog
  {
    if j in prog {
      TrackedHasRow(env, st, prog, j);
    }
  }

  lemma TrackedHasRow(env: Env, st: State, prog: map<nat, Progress>, j: nat)
    requires Inv(env, st, prog) && j in prog
    ensures HasRow(LogRows(st), j)
  {
    assert multiset(History(st.uncommitted, j))[Key(1, Scheduled)] == 1;
    HistoryConcat(st.committed, st.uncommitted, j);
    HistoryEmpty(LogRows(st), j);
  }

  // ---- rebuilding the cache ----

  /** The latest row of a tracked job is the current version's, failed exactly when a failure was counted. */
  lemma LastRowOfTracked(retryMax: nat, rows: seq<Row>, keys: multiset<Key>, j: nat, p: Progress, row: Row)
    requires Tracked(retryMax, keys, p) && IsLast(rows, j, row)
    requires forall k :: k in History(rows, j) <==> k in keys
    ensures row.version == p.version
    ensures row.state == if p.fails > 0 then Failed else Scheduled
  {
    assert Matches(row, j, row.version, row.state);
    HistoryMembers(rows, j, Key(row.version, row.state));
    assert keys[Key(row.version, row.state)] > 0;
    assert Key(p.version, Scheduled) in keys;
    HistoryMembers(rows, j, Key(p.version, Scheduled));
    if p.fails > 0 {
      assert Key(p.version, Failed) in keys;
      HistoryMembers(rows, j, Key(p.version, Failed));
    }
  }

  /** `rows` holds, of the job, `m` copies of every key. */
  ghost predicate HoldsCopies(rows: seq<Row>, j: nat, keys: multiset<Key>, m: nat) {
    forall k :: multiset(History(rows, j))[k] == m * keys[k]
  }

  lemma SameKeys(rows: seq<Row>, j: nat, keys: multiset<Key>, m: nat, k: Key)
    requires m >= 1 && HoldsCopies(rows, j, keys, m)
    ensures k in History(rows, j) <==> k in keys
  {
    assert k in History(rows, j) <==> multiset(History(rows, j))[k] > 0;
    assert keys[k] > 0 <==> m * keys[k] > 0;
  }

  /**
   * What a dropped cache entry is rebuilt to if the tables hold the job's rows `m` times over: always
   * the right version, and the fail count `m` times over.
   */
  lemma RebuiltFromCopies(env: Env, rows: seq<Row>, keys: multiset<Key>, m: nat, p: Progress, answer: map<nat, Row>,
                          j: nat)
    requires m >= 1 && Tracked(env.retryMax, keys, p) && HoldsCopies(rows, j, keys, m) && OwnedBy(rows, env.node)
    requires j in answer && IsLast(rows, j, answer[j])
    ensures var mem := Rebuilt(env, rows, answer, j);
            && mem.version == p.version && mem.failCount == m * p.fails
            && mem.lastState == (if p.fails > 0 then Failed else Scheduled)
            && (Agrees(mem, p) <==> m == 1 || p.fails == 0)
  {
    forall k ensures k in History(rows, j) <==> k in keys {
      SameKeys(rows, j, keys, m, k);
    }
    LastRowOfTracked(env.retryMax, rows, keys, j, p, answer[j]);
    CountFailedOwned(rows, j, env.node, p.version);
    OnlyOnce(m, p.fails);
  }

  lemma OnlyOnce(m: nat, n: nat)
    ensures m * n == n <==> m == 1 || n == 0
  {
    assert m > 1 && n > 0 ==> m * n > 1 * n;
  }

  lemma CopiesInLog(env: Env, st: State, j: nat)
    requires Mirrored(env, st)
    ensures HoldsCopies(LogRows(st), j, multiset(History(st.uncommitted, j)), if env.singleNode then 2 else 1)
  {
    HistoryConcat(st.committed, st.uncommitted, j);
    var own := History(st.uncommitted, j);
    assert multiset(History(LogRows(st), j)) == multiset(History(st.committed, j)) + multiset(own);
  }

  /** In a cluster the tables hold the rows once; a single node wrote every row to both tables. */
  lemma RebuiltFromLog(env: Env, st: State, prog: map<nat, Progress>, answer: map<nat, Row>, j: nat)
    requires Inv(env, st, prog) && j in prog && j in answer && IsLast(LogRows(st), j, answer[j])
    ensures var mem := Rebuilt(env, LogRows(st), answer, j);
            && mem.version == prog[j].version
            && mem.failCount == (if env.singleNode then 2 else 1) * prog[j].fails
            && (Agrees(mem, prog[j]) <==> !env.singleNode || prog[j].fails == 0)
  {
    CopiesInLog(env, st, j);
    RebuiltFromCopies(env, LogRows(st), multiset(History(st.uncommitted, j)), if env.singleNode then 2 else 1, prog[j],
                      answer, j);
  }

  /** Dropping and rebuilding gives back the cached counters of every job exactly in these cases. */
  lemma RebuildAgreesIff(env: Env, events: seq<Event>, answer: map<nat, Row>, j: nat)
    requires Ticking(env.cron) && ValidRun(env, events)
    requires j in ReferenceRun(env.retryMax, events)
    requires LastRows(LogRows(Run(env, events)), {j}, answer)
    ensures Agrees(Rebuilt(env, LogRows(Run(env, events)), answer, j), ReferenceRun(env.retryMax, events)[j])
            <==> !env.singleNode || ReferenceRun(env.retryMax, events)[j].fails == 0
    ensures j in Run(env, events).cache ==>
              Agrees(Run(env, events).cache[j], ReferenceRun(env.retryMax, events)[j])
  {
    EveryRunFollowsTheAutomaton(env, events);
    var st, prog := Run(env, events), ReferenceRun(env.retryMax, events);
    TrackedHasRow(env, st, prog, j);
    RebuiltFromLog(env, st, prog, answer, j);
  }

  // ---- callbacks ----

  /** What the sweep did to the jobs in `ids`: counters moved, and which jobs go on to a next version. */
  ghost predicate Swept(env: Env, cache: map<nat, Mem>, ids: set<nat>, outcome: LogState, sw: Sweep)
    requires ids <= cache.Keys
  {
    && sw.cache.Keys == cache.Keys
    && (forall j <- cache :: j !in ids ==> sw.cache[j] == cache[j])
    && (forall j <- ids :: Moved(env, cache[j], outcome, sw.cache[j]))
    && Distinct(sw.moved)
    && (forall j :: j in Ids(sw.moved) <==> j in ids && !Retries(env, cache[j], outcome))
  }

  predicate Moved(env: Env, mem: Mem, outcome: LogState, mem': Mem) {
    if Retries(env, mem, outcome) then mem'.version == mem.version && mem'.failCount == mem.failCount + 1
    else mem'.version == mem.version + 1 && mem'.failCount == 0
  }

  lemma {:induction false} SweepEffect(env: Env, start: Sweep, jobs: seq<Job>, outcome: LogState, now: Instant)
    requires Ticking(env.cron) && Ids(jobs) <= start.cache.Keys && Distinct(jobs) && start.moved == []
    ensures Swept(env, start.cache, Ids(jobs), outcome, SweepAll(env, start, jobs, outcome, now))
  {
    if jobs != [] {
      var n := |jobs| - 1;
      IdsNext(jobs, n);
      assert jobs[n].id !in Ids(jobs[..n]);
      SweepEffect(env, start, jobs[..n], outcome, now);
      SweepOne(env, start.cache, Ids(jobs[..n]), SweepAll(env, start, jobs[..n], outcome, now), jobs[n], outcome, now);
    }
  }

  lemma SweepOne(env: Env, cache: map<nat, Mem>, ids: set<nat>, sw: Sweep, job: Job, outcome: LogState, now: Instant)
    requires Ticking(env.cron) && ids <= cache.Keys && job.id in cache && job.id !in ids
    requires Swept(env, cache, ids, outcome, sw)
    requires Ids(sw.moved) <= sw.cache.Keys
    ensures Swept(env, cache, ids + {job.id}, outcome, SweepStep(env, sw, job, outcome, now))
  {
    if !Retries(env, cache[job.id], outcome) {
      MovedJobs(sw.moved, NextRun(env, job, cache[job.id], now));
    }
  }

  lemma MovedJobs(moved: seq<Job>, run: Job)
    requires Distinct(moved) && run.id !in Ids(moved)
    ensures Distinct(moved + [run]) && Ids(moved + [run]) == Ids(moved) + {run.id}
  {
    IdsConcat(moved, [run]);
    assert Ids([run]) == {[run][0].id};
    assert forall i :: 0 <= i < |moved| ==> moved[i].id in Ids(moved);
  }

  lemma {:induction false} SweepLeaves(env: Env, start: Sweep, jobs: seq<Job>, outcome: LogState, now: Instant, j: nat)
    requires Ticking(env.cron) && Ids(jobs) <= start.cache.Keys && start.moved == [] && j !in Ids(jobs)
    ensures var sw := SweepAll(env, start, jobs, outcome, now);
            && (j in sw.scheduled <==> j in start.scheduled)
            && (j in sw.scheduled ==> sw.scheduled[j] == start.scheduled[j])
            && (j in start.cache ==> sw.cache[j] == start.cache[j])
  {
    if jobs != [] {
      var n := |jobs| - 1;
      IdsNext(jobs, n);
      SweepLeaves(env, start, jobs[..n], outcome, now, j);
    }
  }

  /** What one callback does to the schedule of a job that had `mem` cached. */
  ghost predicate Rescheduled(env: Env, start: Sweep, sw: Sweep, j: nat, outcome: LogState, now: Instant)
    requires j in start.cache && j in sw.cache
  {
    var mem := start.cache[j];
    if Retries(env, mem, outcome) then
      && sw.cache[j].next == mem.next && (j in sw.scheduled <==> j in start.scheduled)
      && (j in sw.scheduled ==> sw.scheduled[j] == start.scheduled[j])
    else
      && j in sw.scheduled && sw.scheduled[j].at == sw.cache[j].next
      && sw.scheduled[j].job.last == sw.cache[j].last == mem.next
      && (mem.next != ZERO_TIME ==>
            sw.scheduled[j].at >= now && (sw.scheduled[j].at > mem.next <==> mem.next < now))
  }

  /**
   * A retried job keeps its place in the schedule. A job that moves on is scheduled for the time the
   * cache holds, never in the past, and later than the execution it just had exactly when the
   * callback comes after that execution was due.
   */
  lemma {:induction false} CallbackReschedules(env: Env, start: Sweep, jobs: seq<Job>, outcome: LogState, now: Instant,
                                               k: nat)
    requires Ticking(env.cron) && Ids(jobs) <= start.cache.Keys && Distinct(jobs) && start.moved == []
    requires k < |jobs| && jobs[k].id in start.cache
    ensures Rescheduled(env, start, SweepAll(env, start, jobs, outcome, now), jobs[k].id, outcome, now)
    decreases |jobs|
  {
    var n := |jobs| - 1;
    IdsNext(jobs, n);
    if k < n {
      assert jobs[..n][k] == jobs[k];
      CallbackReschedules(env, start, jobs[..n], outcome, now, k);
    } else {
      assert jobs[n].id !in Ids(jobs[..n]);
      SweepLeaves(env, start, jobs[..n], outcome, now, jobs[n].id);
      NextTimeMovesOn(env.cron(jobs[n].id), start.cache[jobs[n].id].next, now);
    }
  }

  /** Every moved job is cached with the time it is scheduled for. */
  ghost predicate MovedCached(env: Env, sw: Sweep, now: Instant)
    requires Ticking(env.cron)
  {
    forall m :: 0 <= m < |sw.moved| ==>
      sw.moved[m].id in sw.cache && sw.cache[sw.moved[m].id].next == NextTimeOf(env.cron, sw.moved[m], now)
  }

  lemma {:induction false} SweepCaches(env: Env, start: Sweep, jobs: seq<Job>, outcome: LogState, now: Instant)
    requires Ticking(env.cron) && Ids(jobs) <= start.cache.Keys && Distinct(jobs) && start.moved == []
    ensures MovedCached(env, SweepAll(env, start, jobs, outcome, now), now)
  {
    if jobs != [] {
      var n := |jobs| - 1;
      IdsNext(jobs, n);
      assert jobs[n].id !in Ids(jobs[..n]);
      SweepCaches(env, start, jobs[..n], outcome, now);
      SweepEffect(env, start, jobs[..n], outcome, now);
      CacheNext(env, SweepAll(env, start, jobs[..n], outcome, now), jobs[n], outcome, now);
    }
  }

  lemma CacheNext(env: Env, sw: Sweep, job: Job, outcome: LogState, now: Instant)
    requires Ticking(env.cron) && MovedCached(env, sw, now)
    requires job.id in sw.cache && job.id !in Ids(sw.moved) && Ids(sw.moved) <= sw.cache.Keys
    ensures MovedCached(env, SweepStep(env, sw, job, outcome, now), now)
  {
    assert forall m :: 0 <= m < |sw.moved| ==> sw.moved[m].id in Ids(sw.moved);
  }

  /**
   * The next time the log stores for a rescheduled job and the one the cache holds are not the same.
   * A cache entry rebuilt from the log still leads a later callback to the same fire time exactly if
   * the execution the job was counted from is past by then.
   */
  lemma RebuiltFiresAlikeIff(env: Env, st: State, jobs: seq<Job>, outcome: LogState, now: Instant, queueVersion: nat,
                             m: nat, later: Instant)
    requires Ticking(env.cron) && Ids(jobs) <= st.cache.Keys && Distinct(jobs) && now <= later
    requires var moved := SweepAll(env, Sweep(st.cache, st.scheduled, []), jobs, outcome, now).moved;
             m < |moved| && m < MaxRows(LOG_COLUMNS) && moved[m].last != ZERO_TIME
    ensures var run := SweepAll(env, Sweep(st.cache, st.scheduled, []), jobs, outcome, now).moved[m];
            var st' := Reschedule(env, st, jobs, outcome, now, queueVersion);
            var row := st'.uncommitted[|st.uncommitted| + m];
            && run.id in st'.cache && Matches(row, run.id, st'.cache[run.id].version, Scheduled)
            && (NextTime(env.cron(run.id), row.next, later) == NextTime(env.cron(run.id), st'.cache[run.id].next, later)
                <==> run.last < later)
  {
    var start := Sweep(st.cache, st.scheduled, []);
    var sw := SweepAll(env, start, jobs, outcome, now);
    SweepCaches(env, start, jobs, outcome, now);
    assert sw.moved[m].id in Ids(sw.moved);
    InsertedAt(env.cron, st.uncommitted, sw.moved,
               Stamp(env.node, Scheduled, queueVersion, CachedVersions(sw.cache, sw.moved)), m);
    FiresAlikeIff(env.cron(sw.moved[m].id), sw.moved[m].last, now, later);
  }

  /** What a callback does to one job's history: the outcome at its version, then the next version's schedule. */
  function Stepped(retryMax: nat, keys: seq<Key>, p: Progress, outcome: LogState): seq<Key> {
    if outcome == Failed && p.fails < retryMax then keys + [Key(p.version, outcome)]
    else keys + [Key(p.version, outcome)] + [Key(p.version + 1, Scheduled)]
  }

  lemma TrackedStep(retryMax: nat, keys: seq<Key>, p: Progress, outcome: LogState)
    requires Tracked(retryMax, multiset(keys), p) && outcome != Scheduled
    ensures Tracked(retryMax, multiset(Stepped(retryMax, keys, p, outcome)), Advance(retryMax, p, outcome))
  {
    if outcome == Failed && p.fails < retryMax {
      TrackedRetry(retryMax, multiset(keys), p);
    } else {
      assert multiset(Stepped(retryMax, keys, p, outcome))
          == multiset(keys) + multiset{Key(p.version, outcome)} + multiset{Key(p.version + 1, Scheduled)};
      TrackedNext(retryMax, multiset(keys), p, outcome);
    }
  }

  lemma TrackedRetry(retryMax: nat, rows: multiset<Key>, p: Progress)
    requires Tracked(retryMax, rows, p) && p.fails < retryMax
    ensures Tracked(retryMax, rows + multiset{Key(p.version, Failed)}, Progress(p.version, p.fails + 1))
  {
    var rows' := rows + multiset{Key(p.version, Failed)};
    forall v: nat | 1 <= v < p.version ensures Closed(retryMax, rows', v) {
      assert Closed(retryMax, rows, v);
    }
  }

  lemma TrackedNext(retryMax: nat, rows: multiset<Key>, p: Progress, outcome: LogState)
    requires Tracked(retryMax, rows, p) && outcome != Scheduled && (outcome == Failed ==> p.fails == retryMax)
    ensures Tracked(retryMax, rows + multiset{Key(p.version, outcome)} + multiset{Key(p.version + 1, Scheduled)},
                    Progress(p.version + 1, 0))
  {
    var rows' := rows + multiset{Key(p.version, outcome)} + multiset{Key(p.version + 1, Scheduled)};
    forall v: nat | 1 <= v < p.version + 1 ensures Closed(retryMax, rows', v) {
      assert v < p.version ==> Closed(retryMax, rows, v);
    }
  }

  function Advanced(retryMax: nat, prog: map<nat, Progress>, ids: set<nat>, outcome: LogState): map<nat, Progress> {
    map j | j in prog :: if j in ids then Advance(retryMax, prog[j], outcome) else prog[j]
  }

  lemma SteppedRowsOk(retryMax: nat, rows: seq<Row>, rows': seq<Row>, prog: map<nat, Progress>, ids: set<nat>,
                      outcome: LogState)
    requires RowsOk(retryMax, rows, prog) && ids <= prog.Keys && outcome != Scheduled
    requires forall j :: History(rows', j) == if j in ids
                    then Stepped(retryMax, History(rows, j), prog[j], outcome) else History(rows, j)
    ensures RowsOk(retryMax, rows', Advanced(retryMax, prog, ids, outcome))
  {
    forall j | j in ids
      ensures Tracked(retryMax, multiset(History(rows', j)), Advance(retryMax, prog[j], outcome))
    {
      TrackedStep(retryMax, History(rows, j), prog[j], outcome);
    }
  }

  lemma SweptCacheOk(env: Env, cache: map<nat, Mem>, prog: map<nat, Progress>, ids: set<nat>, outcome: LogState,
                     sw: Sweep)
    requires CacheOk(env, cache, prog) && ids <= cache.Keys && Swept(env, cache, ids, outcome, sw)
    ensures CacheOk(env, sw.cache, Advanced(env.retryMax, prog, ids, outcome))
  {
  }

  lemma BothKeys(env: Env, cache: map<nat, Mem>, p: Progress, jobs: seq<Job>, outcome: LogState, queueVersion: nat,
                 sw: Sweep, keys: seq<Key>, j: nat)
    requires Ids(jobs) <= cache.Keys && Swept(env, cache, Ids(jobs), outcome, sw) && Ids(sw.moved) <= sw.cache.Keys
    requires j in Ids(jobs) && Agrees(cache[j], p)
    ensures Extended(Extended(keys, jobs, Stamp(env.node, outcome, queueVersion, CachedVersions(cache, jobs)), j),
                     sw.moved, Stamp(env.node, Scheduled, queueVersion, CachedVersions(sw.cache, sw.moved)), j)
            == Stepped(env.retryMax, keys, p, outcome)
  {
    assert Moved(env, cache[j], outcome, sw.cache[j]);
  }

  /** Both inserts of a callback together. */
  lemma CallbackRows(env: Env, known: State, prog: map<nat, Progress>, jobs: seq<Job>, outcome: LogState,
                     now: Instant, queueVersion: nat)
    requires Ticking(env.cron) && Distinct(jobs) && Ids(jobs) <= known.cache.Keys
    requires CacheOk(env, known.cache, prog) && Mirrored(env, known) && OwnedBy(LogRows(known), env.node)
    ensures var stamp := Stamp(env.node, outcome, queueVersion, CachedVersions(known.cache, jobs));
            var st' := Reschedule(env, Record(env, known, jobs, stamp, now), jobs, outcome, now, queueVersion);
            && Mirrored(env, st') && OwnedBy(LogRows(st'), env.node)
            && forall j :: History(st'.uncommitted, j) == if j in Ids(jobs)
                 then Stepped(env.retryMax, History(known.uncommitted, j), prog[j], outcome)
                 else History(known.uncommitted, j)
  {
    var stamp := Stamp(env.node, outcome, queueVersion, CachedVersions(known.cache, jobs));
    var logged := Record(env, known, jobs, stamp, now);
    RecordHistories(env, known, jobs, stamp, now);
    var start := Sweep(known.cache, known.scheduled, []);
    var sw := SweepAll(env, start, jobs, outcome, now);
    SweepEffect(env, start, jobs, outcome, now);
    var stamp' := Stamp(env.node, Scheduled, queueVersion, CachedVersions(sw.cache, sw.moved));
    RecordHistories(env, logged.(cache := sw.cache, scheduled := sw.scheduled), sw.moved, stamp', now);
    forall j
      ensures Extended(Extended(History(known.uncommitted, j), jobs, stamp, j), sw.moved, stamp', j)
              == if j in Ids(jobs) then Stepped(env.retryMax, History(known.uncommitted, j), prog[j], outcome)
                 else History(known.uncommitted, j)
    {
      if j in Ids(jobs) {
        BothKeys(env, known.cache, prog[j], jobs, outcome, queueVersion, sw, History(known.uncommitted, j), j);
      }
    }
  }

  lemma CallbackPreserves(env: Env, st: State, prog: map<nat, Progress>, jobs: seq<Job>, outcome: LogState,
                          answer: map<nat, Row>, now: Instant, queueVersion: nat)
    requires Ticking(env.cron) && Inv(env, st, prog)
    requires Enabled(env, st, Called(jobs, outcome, answer, now, queueVersion))
    ensures Inv(env, Callback(env, st, jobs, outcome, answer, now, queueVersion),
                Reference(env.retryMax, prog, Called(jobs, outcome, answer, now, queueVersion)))
  {
    var known := WithRebuilt(env, st, jobs, answer);
    KnownAgrees(env, st, prog, jobs, outcome, answer, now, queueVersion);
    CallbackRows(env, known, prog, jobs, outcome, now, queueVersion);
    var st' := Callback(env, st, jobs, outcome, answer, now, queueVersion);
    SteppedRowsOk(env.retryMax, st.uncommitted, st'.uncommitted, prog, Ids(jobs), outcome);
    var start := Sweep(known.cache, known.scheduled, []);
    SweepEffect(env, start, jobs, outcome, now);
    SweptCacheOk(env, known.cache, prog, Ids(jobs), outcome, SweepAll(env, start, jobs, outcome, now));
  }

  /** Once the missing entries are rebuilt, every job of the callback is cached with its true counters. */
  lemma KnownAgrees(env: Env, st: State, prog: map<nat, Progress>, jobs: seq<Job>, outcome: LogState,
                    answer: map<nat, Row>, now: Instant, queueVersion: nat)
    requires Ticking(env.cron) && Inv(env, st, prog)
    requires Enabled(env, st, Called(jobs, outcome, answer, now, queueVersion))
    ensures Inv(env, WithRebuilt(env, st, jobs, answer), prog)
    ensures Ids(jobs) <= prog.Keys
  {
    var known := WithRebuilt(env, st, jobs, answer);
    forall j | j in Ids(jobs) ensures j in prog && Agrees(known.cache[j], prog[j]) {
      ListedIsTracked(env, st, prog, j);
      if j !in st.cache {
        RebuiltFromLog(env, st, prog, answer, j);
      }
    }
  }

  lemma ListedIsTracked(env: Env, st: State, prog: map<nat, Progress>, j: nat)
    requires Inv(env, st, prog) && HasRow(LogRows(st), j)
    ensures j in prog
  {
    HistoryConcat(st.committed, st.uncommitted, j);
    HistoryEmpty(LogRows(st), j);
  }
}
