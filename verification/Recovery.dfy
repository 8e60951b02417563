/** Applying Raft entries, and rebuilding the state from snapshot and log (pkg/fsm, pkg/shared_repo). */
module Recovery {
  import opened Batcher
  import opened Collections
  import opened Snapshot
  import E = ExecutionLog

  // ---- the local table of uncommitted execution logs ----

  /** Rows under their ids; ids are never given out twice. */
  datatype Table = Table(rows: map<nat, E.Row>, lastId: nat)

  const EMPTY_TABLE := Table(map[], 0)

  ghost predicate ValidTable(t: Table) {
    forall id <- t.rows :: 1 <= id <= t.lastId
  }

  function RowAt(t: Table, id: nat): seq<E.Row> {
    if id in t.rows then [t.rows[id]] else []
  }

  /** The rows with ids from `lo` up to but not including `hi`, in the order of their ids. */
  function RowsBetween(t: Table, lo: nat, hi: nat): seq<E.Row>
    decreases hi
  {
    if hi <= lo then [] else RowsBetween(t, lo, hi - 1) + RowAt(t, hi - 1)
  }

  function Rows(t: Table): seq<E.Row> {
    RowsBetween(t, 1, t.lastId + 1)
  }

  function Insert(t: Table, logs: seq<E.Row>): Table
    decreases |logs|
  {
    if logs == [] then t else Insert(Table(t.rows[t.lastId + 1 := logs[0]], t.lastId + 1), logs[1..])
  }

  /** Deleting a job deletes its rows with it. */
  function Cascade(t: Table, jobs: set<nat>): Table {
    t.(rows := map id | id in t.rows && t.rows[id].job in jobs :: t.rows[id])
  }

  // ---- the database and the commands on it ----

  datatype Db<+T> = Db(tables: T, local: Table)

  /** A command is rolled back, or leaves new tables and the numbers of its result. */
  datatype Executed<+T> = Refused | Done(tables: T, lastInsertedId: int, rowsAffected: int)

  /** `exec` is the SQL engine on the replicated tables, `jobs` the job ids in them; the rest is the file format. */
  datatype System<!T, !C> = System(exec: (T, C) -> Executed<T>, jobs: T -> set<nat>, initial: T,
                                   gz: Gzip, save: Db<T> -> seq<Byte>, load: Option<seq<Byte>> -> Db<T>)

  datatype Data<+C> = Configuration | Garbled | Command(sql: C, action: nat, targets: seq<nat>)

  datatype Entry<+C> = Entry(index: nat, term: nat, data: Data<C>)

  datatype Response = Ignored | Failure | Success(lastInsertedId: int, rowsAffected: int)

  datatype Post = Post(action: nat, targets: seq<nat>, lastInsertedId: int, rowsAffected: int)

  function Executing<T, C>(sys: System<T, C>, t: T, d: Data<C>): Executed<T> {
    if d.Command? then sys.exec(t, d.sql) else Refused
  }

  function TablesAfter<T, C>(sys: System<T, C>, t: T, d: Data<C>): T {
    match Executing(sys, t, d)
    case Refused => t
    case Done(t', _, _) => t'
  }

  function DbAfter<T, C>(sys: System<T, C>, db: Db<T>, d: Data<C>): Db<T> {
    match Executing(sys, db.tables, d)
    case Refused => db
    case Done(t', _, _) => Db(t', Cascade(db.local, sys.jobs(t')))
  }

  function ResponseOf<T, C>(sys: System<T, C>, t: T, d: Data<C>): Response {
    if d.Configuration? then Ignored
    else match Executing(sys, t, d)
      case Refused => Failure
      case Done(_, last, affected) => Success(last, affected)
  }

  /** The message sent on after a command that succeeded and asks for one. */
  function PostOf<T, C>(sys: System<T, C>, t: T, d: Data<C>): seq<Post> {
    match Executing(sys, t, d)
    case Refused => []
    case Done(_, last, affected) => if d.action <= 2 then [Post(d.action, d.targets, last, affected)] else []
  }

  /** What a list of entries makes of given tables. */
  function FoldFrom<T, C>(sys: System<T, C>, t: T, history: seq<Data<C>>): T {
    if history == [] then t
    else TablesAfter(sys, FoldFrom(sys, t, history[..|history| - 1]), history[|history| - 1])
  }

  /** What the whole history of entries makes of the replicated tables. */
  function Fold<T, C>(sys: System<T, C>, history: seq<Data<C>>): T {
    FoldFrom(sys, sys.initial, history)
  }

  /** The database, the answers and the messages after a list of entries. */
  datatype Applied<+T> = Applied(db: Db<T>, responses: seq<Response>, posts: seq<Post>)

  function ApplyAll<T, C>(sys: System<T, C>, db: Db<T>, entries: seq<Entry<C>>): (r: Applied<T>)
    ensures |r.responses| == |entries|
  {
    if entries == [] then Applied(db, [], [])
    else
      var before, d := ApplyAll(sys, db, entries[..|entries| - 1]), entries[|entries| - 1].data;
      Applied(DbAfter(sys, before.db, d), before.responses + [ResponseOf(sys, before.db.tables, d)],
              before.posts + PostOf(sys, before.db.tables, d))
  }

  // ---- snapshots and log ----

  /** A snapshot file: can it be opened, its bytes, and the spare capacity they are read into. */
  datatype Snap = Snap(index: nat, term: nat, opens: bool, file: seq<Byte>, spare: seq<Byte>)

  /** The log store: consecutive entries, the first one at index `first`. */
  datatype Log<+C> = Log(first: nat, entries: seq<Entry<C>>)

  function LastIndex<C>(log: Log<C>): int {
    if log.entries == [] then 0 else log.first + |log.entries| - 1
  }

  predicate Holds<C>(log: Log<C>, index: nat) {
    log.first <= index < log.first + |log.entries|
  }

  function GetLog<C>(log: Log<C>, index: nat): Entry<C>
    requires Holds(log, index)
  {
    log.entries[index - log.first]
  }

  /** The point recovery starts from. */
  datatype Base<+T> = Fatal | Base(index: nat, term: nat, db: Db<T>)

  /**
   * The first snapshot that opens is used whether or not its bytes could be decoded: the decoding
   * error is overwritten by the result of closing the file, and the bytes are then none.
   */
  function BaseOf<T, C>(sys: System<T, C>, snaps: seq<Snap>): Base<T> {
    if snaps == [] then Base(0, 0, sys.load(None))
    else if !snaps[0].opens then BaseOf(sys, snaps[1..])
    else match Parsed(sys.gz, snaps[0].file, snaps[0].spare)
      case Panicked => Fatal
      case Err => Base(snaps[0].index, snaps[0].term, sys.load(None))
      case Ok(image) => Base(snaps[0].index, snaps[0].term, sys.load(image))
  }

  function FirstOpening(snaps: seq<Snap>): Option<Snap> {
    if snaps == [] then None else if snaps[0].opens then Some(snaps[0]) else FirstOpening(snaps[1..])
  }

  function Replay<T, C>(sys: System<T, C>, base: Base<T>, log: Log<C>, last: int): Base<T>
    decreases if base.Fatal? then 0 else last - base.index
  {
    if base.Fatal? || base.index >= last then base
    else if !Holds(log, base.index + 1) then Fatal
    else
      var entry := GetLog(log, base.index + 1);
      Replay(sys, Base(base.index + 1, entry.term, DbAfter(sys, base.db, entry.data)), log, last)
  }

  predicate AllKnown(logs: seq<E.Row>, jobs: set<nat>) {
    forall row <- logs :: row.job in jobs
  }

  function Completed<T, C>(sys: System<T, C>, base: Base<T>, log: Log<C>, logs: seq<E.Row>): Base<T> {
    var end := Replay(sys, base, log, LastIndex(log));
    if end.Fatal? || !AllKnown(logs, sys.jobs(end.db.tables)) then Fatal
    else end.(db := end.db.(local := Insert(end.db.local, logs)))
  }

  /** The state a recovery writes its new snapshot from. */
  function Recovered<T, C>(sys: System<T, C>, main: Db<T>, snaps: seq<Snap>, log: Log<C>): Base<T> {
    Completed(sys, BaseOf(sys, snaps), log, Rows(main.local))
  }

  // ---- table facts ----

  lemma {:induction false} RowsSplit(t: Table, lo: nat, mid: nat, hi: nat)
    requires lo <= mid <= hi
    ensures RowsBetween(t, lo, hi) == RowsBetween(t, lo, mid) + RowsBetween(t, mid, hi)
    decreases hi
  {
    if mid < hi {
      RowsSplit(t, lo, mid, hi - 1);
    }
  }

  lemma {:induction false} RowsSame(t: Table, t': Table, lo: nat, hi: nat)
    requires forall id :: lo <= id < hi ==> RowAt(t, id) == RowAt(t', id)
    ensures RowsBetween(t, lo, hi) == RowsBetween(t', lo, hi)
    decreases hi
  {
    if lo < hi {
      RowsSame(t, t', lo, hi - 1);
    }
  }

  /** Inserted rows follow the ones already there; nothing is overwritten. */
  lemma {:induction false} InsertAppends(t: Table, logs: seq<E.Row>)
    requires ValidTable(t)
    ensures Rows(Insert(t, logs)) == Rows(t) + logs && ValidTable(Insert(t, logs))
    decreases |logs|
  {
    if logs == [] {
    } else {
      var t' := Table(t.rows[t.lastId + 1 := logs[0]], t.lastId + 1);
      RowsSame(t, t', 1, t.lastId + 1);
      assert Rows(t') == Rows(t) + [logs[0]];
      InsertAppends(t', logs[1..]);
      assert Rows(t) + logs == Rows(t) + [logs[0]] + logs[1..];
    }
  }

  lemma {:induction false} RowsMembers(t: Table, lo: nat, hi: nat, row: E.Row)
    ensures row in RowsBetween(t, lo, hi) <==> exists id :: lo <= id < hi && id in t.rows && t.rows[id] == row
    decreases hi
  {
    if lo < hi {
      RowsMembers(t, lo, hi - 1, row);
    }
  }

  lemma CascadeKnown(t: Table, jobs: set<nat>)
    ensures AllKnown(Rows(Cascade(t, jobs)), jobs)
    ensures ValidTable(t) ==> ValidTable(Cascade(t, jobs))
  {
    forall row | row in Rows(Cascade(t, jobs)) ensures row.job in jobs {
      RowsMembers(Cascade(t, jobs), 1, t.lastId + 1, row);
    }
  }

  /** The rows of the given jobs, in their order. */
  function OfJobs(rows: seq<E.Row>, jobs: set<nat>): seq<E.Row> {
    if rows == [] then []
    else OfJobs(rows[..|rows| - 1], jobs) + if rows[|rows| - 1].job in jobs then [rows[|rows| - 1]] else []
  }

  lemma {:induction false} OfJobsConcat(a: seq<E.Row>, b: seq<E.Row>, jobs: set<nat>)
    ensures OfJobs(a + b, jobs) == OfJobs(a, jobs) + OfJobs(b, jobs)
    decreases |b|
  {
    if b == [] {
      assert a + b == a;
    } else {
      OfJobsConcat(a, b[..|b| - 1], jobs);
      assert (a + b)[..|a + b| - 1] == a + b[..|b| - 1] && (a + b)[|a + b| - 1] == b[|b| - 1];
    }
  }

  lemma {:induction false} CascadeBetween(t: Table, jobs: set<nat>, lo: nat, hi: nat)
    ensures RowsBetween(Cascade(t, jobs), lo, hi) == OfJobs(RowsBetween(t, lo, hi), jobs)
    decreases hi
  {
    if lo < hi {
      CascadeBetween(t, jobs, lo, hi - 1);
      OfJobsConcat(RowsBetween(t, lo, hi - 1), RowAt(t, hi - 1), jobs);
      OfOneRow(RowAt(t, hi - 1), jobs);
    }
  }

  lemma OfOneRow(rows: seq<E.Row>, jobs: set<nat>)
    requires |rows| <= 1
    ensures OfJobs(rows, jobs) == if rows != [] && rows[0].job in jobs then rows else []
  {
  }

  /** A cascade keeps exactly the rows of the jobs that are left, under their ids and in their order. */
  lemma CascadeKeeps(t: Table, jobs: set<nat>)
    ensures Rows(Cascade(t, jobs)) == OfJobs(Rows(t), jobs) && Cascade(t, jobs).lastId == t.lastId
    ensures forall id :: id in Cascade(t, jobs).rows <==> id in t.rows && t.rows[id].job in jobs
    ensures forall id <- Cascade(t, jobs).rows :: Cascade(t, jobs).rows[id] == t.rows[id]
  {
    CascadeBetween(t, jobs, 1, t.lastId + 1);
  }

  // ---- recovery is the fold of the history ----

  /** A database file that does not exist yet is set up empty. */
  ghost predicate StartsEmpty<T, C>(sys: System<T, C>) {
    sys.load(None) == Db(sys.initial, EMPTY_TABLE)
  }

  ghost predicate ValidSystem<T, C>(sys: System<T, C>) {
    Faithful(sys.gz) && StartsEmpty(sys)
  }

  /** The length of the compressed image can be written down in the file. */
  predicate Fits<T, C>(sys: System<T, C>, db: Db<T>) {
    |sys.gz.compress(sys.save(db))| < TWO_64
  }

  /** This database can be written to a snapshot, and its file opens as the same database. */
  ghost predicate Writable<T, C>(sys: System<T, C>, db: Db<T>) {
    Fits(sys, db) && sys.load(Some(sys.save(db))) == db
  }

  /** The store holds a stretch of the history that reaches its end, unless it is empty. */
  ghost predicate LogOk<C>(log: Log<C>, history: seq<Data<C>>) {
    && log.first >= 1
    && (log.entries != [] ==> log.first + |log.entries| == |history| + 1)
    && (forall k :: 0 <= k < |log.entries| && log.first + k <= |history| ==>
          log.entries[k].index == log.first + k && log.entries[k].data == history[log.first + k - 1])
  }

  /** The local rows of a database lie under valid ids and belong to jobs it has. */
  ghost predicate LocalOk<T, C>(sys: System<T, C>, db: Db<T>) {
    ValidTable(db.local) && AllKnown(Rows(db.local), sys.jobs(db.tables))
  }

  /** The state at `base` is what the history makes of the tables up to there. */
  ghost predicate BaseOk<T, C>(sys: System<T, C>, history: seq<Data<C>>, base: Base<T>) {
    && base.Base? && base.index <= |history|
    && base.db.tables == Fold(sys, history[..base.index]) && LocalOk(sys, base.db)
  }

  ghost predicate SnapOk<T, C>(sys: System<T, C>, history: seq<Data<C>>, s: Snap) {
    var parsed := Parsed(sys.gz, s.file, s.spare);
    s.opens && parsed.Ok? && BaseOk(sys, history, Base(s.index, s.term, sys.load(parsed.image)))
  }

  function NewSnap<T, C>(sys: System<T, C>, end: Base<T>, spare: seq<Byte>): Snap
    requires end.Base? && Fits(sys, end.db)
  {
    Snap(end.index, end.term, true, Persisted(sys.gz, sys.save(end.db)), spare)
  }

  /** A snapshot written from a state reads back as that state. */
  lemma NewSnapOk<T, C>(sys: System<T, C>, history: seq<Data<C>>, end: Base<T>, spare: seq<Byte>)
    requires Faithful(sys.gz) && BaseOk(sys, history, end) && Writable(sys, end.db)
    ensures SnapOk(sys, history, NewSnap(sys, end, spare))
    ensures BaseOf(sys, [NewSnap(sys, end, spare)]) == end
  {
    PersistRoundTrip(sys.gz, sys.save(end.db), spare);
  }

  lemma {:induction false} FoldFromSplit<T, C>(sys: System<T, C>, t: T, a: seq<Data<C>>, b: seq<Data<C>>)
    ensures FoldFrom(sys, t, a + b) == FoldFrom(sys, FoldFrom(sys, t, a), b)
    decreases |b|
  {
    if b == [] {
      assert a + b == a;
    } else {
      FoldFromSplit(sys, t, a, b[..|b| - 1]);
      assert (a + b)[..|a + b| - 1] == a + b[..|b| - 1];
    }
  }

  lemma FoldFromNext<T, C>(sys: System<T, C>, t: T, history: seq<Data<C>>, i: nat, end: nat)
    requires i < end <= |history|
    ensures FoldFrom(sys, t, history[i..end]) == FoldFrom(sys, TablesAfter(sys, t, history[i]), history[i + 1..end])
  {
    assert history[i..end] == [history[i]] + history[i + 1..end];
    FoldFromSplit(sys, t, [history[i]], history[i + 1..end]);
    assert FoldFrom(sys, t, [history[i]]) == TablesAfter(sys, FoldFrom(sys, t, []), history[i]) by {
      assert [history[i]][..0] == [];
    }
  }

  /** One entry keeps the local rows to existing jobs, by cascading or by changing nothing. */
  lemma LocalStaysOk<T, C>(sys: System<T, C>, db: Db<T>, d: Data<C>)
    requires LocalOk(sys, db)
    ensures LocalOk(sys, DbAfter(sys, db, d))
  {
    CascadeKnown(db.local, sys.jobs(TablesAfter(sys, db.tables, d)));
  }

  function Reached<C>(log: Log<C>, history: seq<Data<C>>, index: nat): nat {
    if index < LastIndex(log) then |history| else index
  }

  predicate Starts<C>(log: Log<C>, index: nat) {
    index < LastIndex(log) ==> log.first <= index + 1
  }

  /**
   * From any tables whatever, replay fails exactly when the log starts too late, and otherwise ends
   * in the fold of the entries past the index.
   */
  lemma {:induction false} ReplayFrom<T, C>(sys: System<T, C>, history: seq<Data<C>>, base: Base<T>, log: Log<C>)
    requires LogOk(log, history) && base.Base? && base.index <= |history| && LocalOk(sys, base.db)
    ensures var end := Replay(sys, base, log, LastIndex(log));
            && (end.Base? <==> Starts(log, base.index))
            && (end.Base? ==>
                  && end.index == Reached(log, history, base.index) && LocalOk(sys, end.db)
                  && end.db.tables == FoldFrom(sys, base.db.tables, history[base.index..end.index]))
    decreases |history| - base.index
  {
    if base.index < LastIndex(log) && log.first <= base.index + 1 {
      var entry := GetLog(log, base.index + 1);
      assert entry == log.entries[base.index + 1 - log.first] && entry.data == history[base.index];
      LocalStaysOk(sys, base.db, entry.data);
      ReplayFrom(sys, history, Base(base.index + 1, entry.term, DbAfter(sys, base.db, entry.data)), log);
      FoldFromNext(sys, base.db.tables, history, base.index, |history|);
    }
  }

  /** The job is there from the given tables on, after every one of the entries. */
  ghost predicate Outlives<T, C>(sys: System<T, C>, t: T, entries: seq<Data<C>>, job: nat) {
    forall k :: 0 <= k <= |entries| ==> job in sys.jobs(FoldFrom(sys, t, entries[..k]))
  }

  /** The rows whose job outlives the entries, in their order. */
  ghost function Surviving<T, C>(sys: System<T, C>, t: T, entries: seq<Data<C>>, rows: seq<E.Row>): seq<E.Row> {
    if rows == [] then []
    else
      var row := rows[|rows| - 1];
      Surviving(sys, t, entries, rows[..|rows| - 1]) + if Outlives(sys, t, entries, row.job) then [row] else []
  }

  lemma OutlivesNext<T, C>(sys: System<T, C>, t: T, history: seq<Data<C>>, i: nat, end: nat, job: nat)
    requires i < end <= |history|
    ensures Outlives(sys, t, history[i..end], job)
            <==> job in sys.jobs(t) && Outlives(sys, TablesAfter(sys, t, history[i]), history[i + 1..end], job)
  {
    var all, rest, t' := history[i..end], history[i + 1..end], TablesAfter(sys, t, history[i]);
    assert all[..0] == [];
    forall k | 0 <= k <= |rest| ensures FoldFrom(sys, t, all[..k + 1]) == FoldFrom(sys, t', rest[..k]) {
      OneEntryOn(sys, t, history, i, end, k);
    }
    if job in sys.jobs(t) && Outlives(sys, t', rest, job) {
      forall k | 0 <= k <= |all| ensures job in sys.jobs(FoldFrom(sys, t, all[..k])) {
        if k > 0 {
          assert FoldFrom(sys, t, all[..k - 1 + 1]) == FoldFrom(sys, t', rest[..k - 1]);
        }
      }
    }
  }

  lemma OneEntryOn<T, C>(sys: System<T, C>, t: T, history: seq<Data<C>>, i: nat, end: nat, k: nat)
    requires i < end <= |history| && k <= end - i - 1
    ensures FoldFrom(sys, t, history[i..end][..k + 1])
            == FoldFrom(sys, TablesAfter(sys, t, history[i]), history[i + 1..end][..k])
  {
    assert history[i..end][..k + 1] == history[i..i + k + 1];
    assert history[i + 1..end][..k] == history[i + 1..i + k + 1];
    FoldFromNext(sys, t, history, i, i + k + 1);
  }

  lemma {:induction false} SurvivingNext<T, C>(sys: System<T, C>, t: T, history: seq<Data<C>>, i: nat, end: nat,
                                               rows: seq<E.Row>, t': T)
    requires i < end <= |history| && AllKnown(rows, sys.jobs(t)) && t' == TablesAfter(sys, t, history[i])
    ensures Surviving(sys, t, history[i..end], rows)
            == Surviving(sys, t', history[i + 1..end], OfJobs(rows, sys.jobs(t')))
    decreases |rows|
  {
    if rows != [] {
      var init, row := rows[..|rows| - 1], rows[|rows| - 1];
      SurvivingNext(sys, t, history, i, end, init, t');
      OutlivesNext(sys, t, history, i, end, row.job);
      assert row in rows;
      var kept := OfJobs(init, sys.jobs(t'));
      SurvivingOne(sys, t', history[i + 1..end], kept, row);
      assert OfJobs(rows, sys.jobs(t')) == if row.job in sys.jobs(t') then kept + [row] else kept;
    }
  }

  lemma SurvivingOne<T, C>(sys: System<T, C>, t: T, entries: seq<Data<C>>, rows: seq<E.Row>, row: E.Row)
    ensures Surviving(sys, t, entries, rows + [row])
            == Surviving(sys, t, entries, rows) + if Outlives(sys, t, entries, row.job) then [row] else []
    ensures Outlives(sys, t, entries, row.job) ==> row.job in sys.jobs(t)
  {
    assert (rows + [row])[..|rows|] == rows;
    assert entries[..0] == [];
  }

  lemma {:induction false} SurvivingNone<T, C>(sys: System<T, C>, t: T, rows: seq<E.Row>)
    requires AllKnown(rows, sys.jobs(t))
    ensures Surviving(sys, t, [], rows) == rows
    decreases |rows|
  {
    if rows != [] {
      var none: seq<Data<C>> := [];
      SurvivingNone(sys, t, rows[..|rows| - 1]);
      assert rows[|rows| - 1] in rows && none[..0] == none;
      assert rows == rows[..|rows| - 1] + [rows[|rows| - 1]];
    }
  }

  /** An entry leaves the rows of the jobs that are there after it. */
  lemma RowsAfter<T, C>(sys: System<T, C>, db: Db<T>, d: Data<C>)
    requires LocalOk(sys, db)
    ensures Rows(DbAfter(sys, db, d).local) == OfJobs(Rows(db.local), sys.jobs(TablesAfter(sys, db.tables, d)))
  {
    CascadeKeeps(db.local, sys.jobs(TablesAfter(sys, db.tables, d)));
    if AllKnown(Rows(db.local), sys.jobs(TablesAfter(sys, db.tables, d))) {
      AllOfJobs(Rows(db.local), sys.jobs(TablesAfter(sys, db.tables, d)));
    }
  }

  lemma {:induction false} AllOfJobs(rows: seq<E.Row>, jobs: set<nat>)
    requires AllKnown(rows, jobs)
    ensures OfJobs(rows, jobs) == rows
  {
    if rows != [] {
      AllOfJobs(rows[..|rows| - 1], jobs);
      assert rows[|rows| - 1] in rows;
      assert rows == rows[..|rows| - 1] + [rows[|rows| - 1]];
    }
  }

  /** Replay keeps exactly the rows of the starting point whose job survives every replayed entry, in order. */
  lemma {:induction false} ReplayKeepsRows<T, C>(sys: System<T, C>, history: seq<Data<C>>, base: Base<T>, log: Log<C>)
    requires LogOk(log, history) && base.Base? && base.index <= |history| && LocalOk(sys, base.db)
    requires Starts(log, base.index)
    ensures var end, reached := Replay(sys, base, log, LastIndex(log)), Reached(log, history, base.index);
            && end.Base? && base.index <= reached <= |history|
            && Rows(end.db.local)
               == Surviving(sys, base.db.tables, history[base.index..reached], Rows(base.db.local))
    decreases |history| - base.index
  {
    if base.index < LastIndex(log) {
      var entry := GetLog(log, base.index + 1);
      assert entry == log.entries[base.index + 1 - log.first] && entry.data == history[base.index];
      LocalStaysOk(sys, base.db, entry.data);
      var next := Base(base.index + 1, entry.term, DbAfter(sys, base.db, entry.data));
      ReplayKeepsRows(sys, history, next, log);
      RowsNext(sys, base.db, history, base.index, |history|, next.db);
    } else {
      assert history[base.index..base.index] == [];
      SurvivingNone(sys, base.db.tables, Rows(base.db.local));
    }
  }

  lemma RowsNext<T, C>(sys: System<T, C>, db: Db<T>, history: seq<Data<C>>, i: nat, end: nat, db': Db<T>)
    requires LocalOk(sys, db) && i < end <= |history| && db' == DbAfter(sys, db, history[i])
    ensures Surviving(sys, db.tables, history[i..end], Rows(db.local))
            == Surviving(sys, db'.tables, history[i + 1..end], Rows(db'.local))
  {
    RowsAfter(sys, db, history[i]);
    SurvivingNext(sys, db.tables, history, i, end, Rows(db.local), db'.tables);
  }

  function LastTerm<C>(log: Log<C>, index: nat, term: nat): nat {
    if index < LastIndex(log) then log.entries[|log.entries| - 1].term else term
  }

  /** Replay ends at the term of the last entry in the log, or of the starting point if there is none past it. */
  lemma {:induction false} ReplayTerm<T, C>(sys: System<T, C>, base: Base<T>, log: Log<C>)
    requires base.Base? && Starts(log, base.index)
    ensures var end := Replay(sys, base, log, LastIndex(log));
            end.Base? && end.term == LastTerm(log, base.index, base.term)
    decreases LastIndex(log) - base.index
  {
    if base.index < LastIndex(log) {
      var entry := GetLog(log, base.index + 1);
      ReplayTerm(sys, Base(base.index + 1, entry.term, DbAfter(sys, base.db, entry.data)), log);
    }
  }

  /** From a sound state replay reaches the fold of the history. */
  lemma ReplayIsFold<T, C>(sys: System<T, C>, history: seq<Data<C>>, base: Base<T>, log: Log<C>)
    requires LogOk(log, history) && BaseOk(sys, history, base)
    ensures var end := Replay(sys, base, log, LastIndex(log));
            && (end.Base? <==> Starts(log, base.index))
            && (end.Base? ==> BaseOk(sys, history, end) && end.index == Reached(log, history, base.index))
  {
    ReplayFrom(sys, history, base, log);
    var reached := Reached(log, history, base.index);
    FoldFromSplit(sys, sys.initial, history[..base.index], history[base.index..reached]);
    PrefixAndSlice(history, base.index, reached);
  }

  /**
   * From a sound starting point recovery succeeds exactly if the log reaches back to it and every
   * local row belongs to a job that the end of the history still has. It then yields the fold of
   * the history up to where it ends, and the local rows behind those of the snapshot whose jobs
   * survive every replayed entry.
   */
  lemma RecoveryIsFold<T, C>(sys: System<T, C>, history: seq<Data<C>>, main: Db<T>, snaps: seq<Snap>, log: Log<C>)
    requires LogOk(log, history) && BaseOk(sys, history, BaseOf(sys, snaps))
    ensures var base, end := BaseOf(sys, snaps), Recovered(sys, main, snaps, log);
            var reached := Reached(log, history, base.index);
            && (end.Base? <==>
                  Starts(log, base.index) && AllKnown(Rows(main.local), sys.jobs(Fold(sys, history[..reached]))))
            && (end.Base? ==>
                  && BaseOk(sys, history, end) && end.index == reached
                  && end.term == LastTerm(log, base.index, base.term)
                  && (reached == |history| <==> log.entries != [] || base.index == |history|)
                  && Rows(end.db.local)
                     == Surviving(sys, base.db.tables, history[base.index..reached], Rows(base.db.local))
                        + Rows(main.local))
  {
    var base := BaseOf(sys, snaps);
    ReplayIsFold(sys, history, base, log);
    var end := Replay(sys, base, log, LastIndex(log));
    if end.Base? {
      ReplayKeepsRows(sys, history, base, log);
      ReplayTerm(sys, base, log);
      InsertAppends(end.db.local, Rows(main.local));
    }
  }

  /** If the snapshots that open decode to the fold, the starting point is sound; so it is if none opens. */
  lemma {:induction false} SoundBase<T, C>(sys: System<T, C>, history: seq<Data<C>>, snaps: seq<Snap>)
    requires StartsEmpty(sys) && forall s <- snaps :: s.opens ==> SnapOk(sys, history, s)
    ensures BaseOk(sys, history, BaseOf(sys, snaps))
  {
    if snaps == [] {
      assert history[..0] == [];
      assert Rows(EMPTY_TABLE) == [];
    } else if !snaps[0].opens {
      SoundBase(sys, history, snaps[1..]);
    } else {
      assert snaps[0] in snaps;
    }
  }

  // ---- a snapshot that does not decode ----

  lemma {:induction false} BaseOfOpening<T, C>(sys: System<T, C>, snaps: seq<Snap>, s: Snap)
    requires FirstOpening(snaps) == Some(s) && Parsed(sys.gz, s.file, s.spare) == Err
    ensures BaseOf(sys, snaps) == Base(s.index, s.term, sys.load(None))
  {
    if !snaps[0].opens {
      BaseOfOpening(sys, snaps[1..], s);
    }
  }

  /**
   * If the first snapshot that opens does not decode, recovery carries on at its index from empty
   * tables: whatever the system, the result is the fold of the later entries alone, and with an
   * empty log the empty tables themselves, under the index of the snapshot.
   */
  lemma UndecodableSnapshotForgets<T, C>(sys: System<T, C>, history: seq<Data<C>>, main: Db<T>, snaps: seq<Snap>,
                                         log: Log<C>, s: Snap)
    requires StartsEmpty(sys) && LogOk(log, history) && s.index <= |history|
    requires FirstOpening(snaps) == Some(s) && Parsed(sys.gz, s.file, s.spare) == Err
    ensures var end := Recovered(sys, main, snaps, log);
            var reached := Reached(log, history, s.index);
            var rest := Fold(sys, history[s.index..reached]);
            && (end.Base? <==> Starts(log, s.index) && AllKnown(Rows(main.local), sys.jobs(rest)))
            && (end.Base? ==> end.index == reached && end.db.tables == rest)
  {
    BaseOfOpening(sys, snaps, s);
    assert Rows(EMPTY_TABLE) == [];
    ReplayFrom(sys, history, BaseOf(sys, snaps), log);
  }

  /** Every command succeeds and counts one. */
  ghost predicate Counts<C(!new)>(sys: System<nat, C>) {
    sys.initial == 0 && forall t, c :: sys.exec(t, c) == Done(t + 1, 0, 1)
  }

  lemma {:induction false} FoldFromCounts<C(!new)>(sys: System<nat, C>, t: nat, history: seq<Data<C>>)
    requires Counts(sys) && forall d <- history :: d.Command?
    ensures FoldFrom(sys, t, history) == t + |history|
  {
    if history != [] {
      FoldFromCounts(sys, t, history[..|history| - 1]);
      assert history[|history| - 1] in history;
    }
  }

  /** Where every command leaves a trace, that result is wrong exactly when the snapshot stood for anything. */
  lemma ForgettingShows<C(!new)>(sys: System<nat, C>, history: seq<Data<C>>, main: Db<nat>, snaps: seq<Snap>,
                                 log: Log<C>, s: Snap)
    requires Counts(sys) && forall d <- history :: d.Command?
    requires StartsEmpty(sys) && LogOk(log, history) && s.index <= |history|
    requires FirstOpening(snaps) == Some(s) && Parsed(sys.gz, s.file, s.spare) == Err
    requires Recovered(sys, main, snaps, log).Base?
    ensures var end := Recovered(sys, main, snaps, log);
            end.index <= |history| && (end.db.tables == Fold(sys, history[..end.index]) <==> s.index == 0)
  {
    UndecodableSnapshotForgets(sys, history, main, snaps, log, s);
    var reached := Reached(log, history, s.index);
    FoldFromCounts(sys, 0, history[s.index..reached]);
    FoldFromCounts(sys, 0, history[..reached]);
  }

  // ---- concrete systems ----

  /** A stand-in for gzip: one byte in front. */
  const PREFIX_GZIP := Gzip((b: seq<Byte>) => [0] + b, (b: seq<Byte>) => if b == [] then None else Some(b[1..]))

  /** Tables that count the commands; the file is as long as the count. */
  function Counter(): System<nat, ()> {
    var exec: (nat, ()) -> Executed<nat> := (t, c) => Done(t + 1, 0, 1);
    var save: Db<nat> -> seq<Byte> := (db: Db<nat>) => seq(db.tables, (i: nat) => 1);
    var load: Option<seq<Byte>> -> Db<nat> :=
      (image: Option<seq<Byte>>) => Db(if image == None then 0 else |image.value|, EMPTY_TABLE);
    System<nat, ()>.System(exec, t => {}, 0, PREFIX_GZIP, save, load)
  }

  lemma PrefixIsFaithful()
    ensures Faithful(PREFIX_GZIP)
  {
    forall b: seq<Byte>
      ensures PREFIX_GZIP.compress(b) != [] && PREFIX_GZIP.expand(PREFIX_GZIP.compress(b)) == Some(b)
    {
      assert ([0] + b)[1..] == b;
    }
  }

  /** The assumptions on a system can be met, and all its databases short of 2^63 commands be written. */
  lemma CounterIsValid()
    ensures ValidSystem(Counter()) && Counts(Counter())
    ensures forall n: nat :: n < TWO_63 ==> Writable(Counter(), Db(n, EMPTY_TABLE))
  {
    PrefixIsFaithful();
  }

  /** A plain file that ends behind its length is such a snapshot: one command is forgotten, and no error shown. */
  lemma ShortFileForgets(main: Db<nat>)
    requires Rows(main.local) == []
    ensures var history, snaps := [Command((), 0, [])], [Snap(1, 1, true, Uint64(5), [])];
            && Parsed(PREFIX_GZIP, Uint64(5), []) == Err && LogOk(Log(2, []), history)
            && Recovered(Counter(), main, snaps, Log(2, [])) == Base(1, 1, Db(0, EMPTY_TABLE))
            && Fold(Counter(), history) == 1
  {
    assert Uint64(5) + [] == Uint64(5) && Uint64(5)[..8] == Uint64(5);
    var history: seq<Data<()>> := [Command((), 0, [])];
    assert history[..0] == [];
  }

  datatype JobCommand = Create(job: nat) | Delete(job: nat)

  /** Tables that are just the set of jobs. */
  function JobBoard(): System<set<nat>, JobCommand> {
    System((t: set<nat>, c: JobCommand) => Done(if c.Create? then t + {c.job} else t - {c.job}, 0, 1),
           (t: set<nat>) => t, {}, PREFIX_GZIP, (db: Db<set<nat>>) => [],
           (image: Option<seq<Byte>>) => Db({}, EMPTY_TABLE))
  }

  // ---- applying entries ----

  /** Applying entries one by one or in batches, however they are cut, comes to the same. */
  lemma {:induction false} ApplyInBatches<T, C>(sys: System<T, C>, db: Db<T>, a: seq<Entry<C>>, b: seq<Entry<C>>)
    ensures var first := ApplyAll(sys, db, a);
            var second := ApplyAll(sys, first.db, b);
            ApplyAll(sys, db, a + b)
            == Applied(second.db, first.responses + second.responses, first.posts + second.posts)
    decreases |b|
  {
    if b == [] {
      assert a + b == a;
    } else {
      var init := b[..|b| - 1];
      ApplyInBatches(sys, db, a, init);
      assert (a + b)[..|a + b| - 1] == a + init && (a + b)[|a + b| - 1] == b[|b| - 1];
      var first := ApplyAll(sys, db, a);
      var middle, d := ApplyAll(sys, first.db, init), b[|b| - 1].data;
      Associates(first.responses, middle.responses, [ResponseOf(sys, middle.db.tables, d)]);
      Associates(first.posts, middle.posts, PostOf(sys, middle.db.tables, d));
    }
  }

  lemma Associates<X>(a: seq<X>, b: seq<X>, c: seq<X>)
    ensures a + b + c == a + (b + c)
  {
  }

  function DataOf<C>(entries: seq<Entry<C>>): seq<Data<C>> {
    seq(|entries|, k requires 0 <= k < |entries| => entries[k].data)
  }

  /**
   * What entry `k` is answered when the tables before it are `t`: nothing for a configuration, the
   * numbers of the result for a command that was done, and a failure otherwise.
   */
  ghost predicate Answers<T, C>(sys: System<T, C>, t: T, d: Data<C>, r: Response) {
    match d
    case Configuration => r == Ignored
    case Garbled => r == Failure
    case Command(sql, _, _) =>
      match sys.exec(t, sql)
      case Refused => r == Failure
      case Done(_, last, affected) => r == Success(last, affected)
  }

  lemma {:induction false} AppliedIsFold<T, C>(sys: System<T, C>, db: Db<T>, entries: seq<Entry<C>>)
    ensures ApplyAll(sys, db, entries).db.tables == FoldFrom(sys, db.tables, DataOf(entries))
  {
    if entries != [] {
      AppliedIsFold(sys, db, entries[..|entries| - 1]);
      assert DataOf(entries)[..|entries| - 1] == DataOf(entries[..|entries| - 1]);
    }
  }

  lemma OneAnswer<T, C>(sys: System<T, C>, t: T, d: Data<C>)
    ensures Answers(sys, t, d, ResponseOf(sys, t, d))
  {
  }

  /** Entry by entry: the answer is that of the entry on the fold of those before it. */
  lemma {:induction false} EveryEntryAnswered<T, C>(sys: System<T, C>, db: Db<T>, entries: seq<Entry<C>>, k: nat)
    requires k < |entries|
    ensures Answers(sys, FoldFrom(sys, db.tables, DataOf(entries[..k])), entries[k].data,
                    ApplyAll(sys, db, entries).responses[k])
    decreases |entries|
  {
    var init := entries[..|entries| - 1];
    if k < |init| {
      EveryEntryAnswered(sys, db, init, k);
      assert init[..k] == entries[..k];
    } else {
      AppliedIsFold(sys, db, init);
      OneAnswer(sys, ApplyAll(sys, db, init).db.tables, entries[k].data);
    }
  }

  /** The message due after an entry answered with `r`: for a success that asks for one, with its numbers. */
  function DueAfter<C>(d: Data<C>, r: Response): seq<Post> {
    match d
    case Command(_, action, targets) =>
      if r.Success? && (action == 0 || action == 1 || action == 2)
      then [Post(action, targets, r.lastInsertedId, r.rowsAffected)] else []
    case _ => []
  }

  lemma PostIsDue<T, C>(sys: System<T, C>, t: T, d: Data<C>)
    ensures PostOf(sys, t, d) == DueAfter(d, ResponseOf(sys, t, d))
  {
  }

  /** The messages due by the answers to a list of entries. */
  function Due<C>(entries: seq<Entry<C>>, responses: seq<Response>): seq<Post>
    requires |entries| == |responses|
  {
    if entries == [] then []
    else
      var n := |entries| - 1;
      Due(entries[..n], responses[..n]) + DueAfter(entries[n].data, responses[n])
  }

  /** The messages sent are those due by the answers given. */
  lemma {:induction false} MessagesMatchAnswers<T, C>(sys: System<T, C>, db: Db<T>, entries: seq<Entry<C>>)
    ensures ApplyAll(sys, db, entries).posts == Due(entries, ApplyAll(sys, db, entries).responses)
  {
    if entries != [] {
      var init := entries[..|entries| - 1];
      MessagesMatchAnswers(sys, db, init);
      var before, all := ApplyAll(sys, db, init), ApplyAll(sys, db, entries);
      assert all.responses[..|entries| - 1] == before.responses;
      PostIsDue(sys, before.db.tables, entries[|entries| - 1].data);
    }
  }

  /** An entry not answered with success leaves no trace: the rest comes to the same without it. */
  lemma UnansweredChangesNothing<T, C>(sys: System<T, C>, db: Db<T>, a: seq<Entry<C>>, e: Entry<C>, b: seq<Entry<C>>)
    requires !ResponseOf(sys, ApplyAll(sys, db, a).db.tables, e.data).Success?
    ensures ApplyAll(sys, db, a + [e] + b).db == ApplyAll(sys, db, a + b).db
    ensures ApplyAll(sys, db, a + [e] + b).posts == ApplyAll(sys, db, a + b).posts
  {
    ApplyInBatches(sys, db, a + [e], b);
    ApplyInBatches(sys, db, a, b);
    assert (a + [e])[..|a|] == a && (a + [e])[|a|] == e;
    assert ApplyAll(sys, db, a + [e]).db == ApplyAll(sys, db, a).db;
    assert ApplyAll(sys, db, a + [e]).posts == ApplyAll(sys, db, a).posts;
  }

  class DataStore<T> {
    var db: Db<T>

    constructor (db: Db<T>)
      ensures this.db == db
    {
      this.db := db;
    }

    /** One transaction; a refused command leaves the database as it was. */
    method Execute<C>(sys: System<T, C>, data: Data<C>) returns (r: Response)
      requires data.Command?
      modifies this
      ensures db == DbAfter(sys, old(db), data) && r == ResponseOf(sys, old(db).tables, data)
    {
      match sys.exec(db.tables, data.sql)
      case Refused => r := Failure;
      case Done(tables, last, affected) =>
        db := Db(tables, Cascade(db.local, sys.jobs(tables)));
        r := Success(last, affected);
    }

    method GetExecutionLogs() returns (executionLogs: seq<E.Row>)
      requires ValidTable(db.local)
      ensures executionLogs == Rows(db.local)
    {
      var t := db.local;
      if |t.rows| < 1 {
        NoRows(t, 1, t.lastId + 1);
        return [];
      }
      var minId, maxId := Bounds(t);
      WholeTable(t, minId, maxId);
      var ids := IdsFrom(minId, maxId);
      var batches := Batch(ids, 7);
      executionLogs := SelectBatches(t, batches);
      ChunksPartition(ids, MaxRows(7));
      RowsInRange(t, ids, minId);
    }

    /** One transaction per batch; a row of a job that does not exist makes its batch fail. */
    method InsertExecutionLogs(jobs: set<nat>, logs: seq<E.Row>) returns (ok: bool)
      requires logs != []
      modifies this
      ensures ok == AllKnown(logs, jobs)
      ensures ok ==> db == old(db).(local := Insert(old(db).local, logs))
      ensures db.tables == old(db).tables
    {
      var batches := Batch(logs, 9);
      ghost var lo, start := 0, db.local;
      ok := true;
      for b := 0 to |batches|
        invariant 0 <= lo <= |logs| && db.tables == old(db).tables
        invariant if b < |batches| then batches[b..] == Chunks(logs[lo..], MaxRows(9)) else lo == |logs|
        invariant AllKnown(logs[..lo], jobs) && Insert(start, logs) == Insert(db.local, logs[lo..])
      {
        var batch := batches[b];
        E.NextBatch(logs, lo, MaxRows(9), batches, b);
        if !AllKnown(batch, jobs) { return false; }
        InsertSplits(db.local, batch, logs[lo + |batch|..]);
        assert logs[lo..] == batch + logs[lo + |batch|..] && logs[..lo + |batch|] == logs[..lo] + batch;
        db := db.(local := Insert(db.local, batch));
        lo := lo + |batch|;
      }
      assert logs[..lo] == logs && logs[lo..] == [];
    }
  }

  lemma WholeTable(t: Table, minId: nat, maxId: nat)
    requires ValidTable(t) && minId in t.rows && maxId in t.rows && forall id <- t.rows :: minId <= id <= maxId
    ensures Rows(t) == RowsBetween(t, minId, maxId + 1)
  {
    OnlyBetween(t, 1, minId, maxId + 1, t.lastId + 1);
  }

  lemma OnlyBetween(t: Table, lo: nat, first: nat, end: nat, hi: nat)
    requires lo <= first <= end <= hi && forall id <- t.rows :: first <= id < end
    ensures RowsBetween(t, lo, hi) == RowsBetween(t, first, end)
  {
    RowsSplit(t, lo, first, hi);
    RowsSplit(t, first, end, hi);
    NoRows(t, lo, first);
    NoRows(t, end, hi);
  }

  function RowsIn(t: Table, ids: seq<nat>): seq<E.Row> {
    if ids == [] then [] else RowsIn(t, ids[..|ids| - 1]) + RowAt(t, ids[|ids| - 1])
  }

  lemma {:induction false} RowsInConcat(t: Table, a: seq<nat>, b: seq<nat>)
    ensures RowsIn(t, a + b) == RowsIn(t, a) + RowsIn(t, b)
  {
    if b == [] {
      assert a + b == a;
    } else {
      var init, last := b[..|b| - 1], b[|b| - 1];
      RowsInConcat(t, a, init);
      assert (a + b)[..|a + b| - 1] == a + init && (a + b)[|a + b| - 1] == last;
      Associates(RowsIn(t, a), RowsIn(t, init), RowAt(t, last));
    }
  }

  lemma {:induction false} RowsInRange(t: Table, ids: seq<nat>, lo: nat)
    requires forall k :: 0 <= k < |ids| ==> ids[k] == lo + k
    ensures RowsIn(t, ids) == RowsBetween(t, lo, lo + |ids|)
  {
    if ids != [] {
      RowsInRange(t, ids[..|ids| - 1], lo);
    }
  }

  lemma FlattenNext(t: Table, batches: seq<seq<nat>>, b: nat)
    requires b < |batches|
    ensures RowsIn(t, Flatten(batches[..b + 1])) == RowsIn(t, Flatten(batches[..b])) + RowsIn(t, batches[b])
  {
    FlattenConcat(batches[..b], [batches[b]]);
    assert batches[..b + 1] == batches[..b] + [batches[b]];
    assert Flatten([batches[b]]) == batches[b] + Flatten([]) == batches[b];
    RowsInConcat(t, Flatten(batches[..b]), batches[b]);
  }

  method SelectBatches(t: Table, batches: seq<seq<nat>>) returns (executionLogs: seq<E.Row>)
    ensures executionLogs == RowsIn(t, Flatten(batches))
  {
    executionLogs := [];
    for b := 0 to |batches|
      invariant executionLogs == RowsIn(t, Flatten(batches[..b]))
    {
      var found := SelectIn(t, batches[b]);
      FlattenNext(t, batches, b);
      executionLogs := executionLogs + found;
    }
    assert batches[..|batches|] == batches;
  }

  lemma {:induction false} NoRows(t: Table, lo: nat, hi: nat)
    requires forall id :: lo <= id < hi ==> id !in t.rows
    ensures RowsBetween(t, lo, hi) == []
    decreases hi
  {
    if lo < hi {
      NoRows(t, lo, hi - 1);
    }
  }

  lemma {:induction false} InsertSplits(t: Table, a: seq<E.Row>, b: seq<E.Row>)
    ensures Insert(t, a + b) == Insert(Insert(t, a), b)
    decreases |a|
  {
    if a == [] {
      assert a + b == b;
    } else {
      InsertSplits(Table(t.rows[t.lastId + 1 := a[0]], t.lastId + 1), a[1..], b);
      assert (a + b)[1..] == a[1..] + b;
    }
  }

  /** select max(id), min(id) */
  method Bounds(t: Table) returns (minId: nat, maxId: nat)
    requires ValidTable(t) && |t.rows| > 0
    ensures minId in t.rows && maxId in t.rows && forall id <- t.rows :: minId <= id <= maxId
  {
    var left := t.rows.Keys;
    assert |t.rows| == |t.rows.Keys|;
    var first :| first in left;
    minId, maxId := first, first;
    left := left - {first};
    while left != {}
      invariant left <= t.rows.Keys && minId in t.rows && maxId in t.rows
      invariant forall id :: id in t.rows && id !in left ==> minId <= id <= maxId
      decreases left
    {
      var id :| id in left;
      if id < minId { minId := id; }
      if id > maxId { maxId := id; }
      left := left - {id};
    }
  }

  method IdsFrom(minId: nat, maxId: nat) returns (ids: seq<nat>)
    requires minId <= maxId
    ensures |ids| == maxId - minId + 1 && forall k :: 0 <= k < |ids| ==> ids[k] == minId + k
  {
    ids := [];
    for i := minId to maxId + 1
      invariant |ids| == i - minId && forall k :: 0 <= k < |ids| ==> ids[k] == minId + k
    {
      ids := ids + [i];
    }
  }

  /** The rows whose id is listed, in the order of the list. */
  method SelectIn(t: Table, ids: seq<nat>) returns (found: seq<E.Row>)
    ensures found == RowsIn(t, ids)
  {
    found := [];
    for i := 0 to |ids|
      invariant found == RowsIn(t, ids[..i])
    {
      assert ids[..i + 1][..i] == ids[..i];
      found := found + RowAt(t, ids[i]);
    }
    assert ids[..|ids|] == ids;
  }

  class Store<T(!new), C(!new)> {
    const sys: System<T, C>
    const hasChannel: bool
    const dataStore: DataStore<T>
    var posts: seq<Post>
    var snaps: seq<Snap>
    var log: Log<C>

    constructor (sys: System<T, C>, hasChannel: bool, dataStore: DataStore<T>)
      ensures this.sys == sys && this.hasChannel == hasChannel && this.dataStore == dataStore
      ensures posts == [] && snaps == [] && log == Log(1, [])
    {
      this.sys, this.hasChannel, this.dataStore := sys, hasChannel, dataStore;
      posts, snaps, log := [], [], Log(1, []);
    }

    method ApplyRaftLog(l: Entry<C>, store: DataStore<T>, ignorePostProcessChannel: bool) returns (r: Response)
      modifies store, this`posts
      ensures store.db == DbAfter(sys, old(store.db), l.data)
      ensures r == ResponseOf(sys, old(store.db).tables, l.data)
      ensures posts == if hasChannel && !ignorePostProcessChannel
                       then old(posts) + PostOf(sys, old(store.db).tables, l.data) else old(posts)
    {
      match l.data
      case Configuration => r := Ignored;
      case Garbled => r := Failure;
      case Command(_, action, targets) =>
        r := store.Execute(sys, l.data);
        if hasChannel && !ignorePostProcessChannel && r.Success? {
          if action == 0 || action == 1 || action == 2 {
            posts := posts + [Post(action, targets, r.lastInsertedId, r.rowsAffected)];
          }
        }
    }

    method Apply(l: Entry<C>) returns (r: Response)
      modifies dataStore, this`posts
      ensures dataStore.db == DbAfter(sys, old(dataStore.db), l.data)
      ensures r == ResponseOf(sys, old(dataStore.db).tables, l.data)
      ensures posts == if hasChannel then old(posts) + PostOf(sys, old(dataStore.db).tables, l.data) else old(posts)
    {
      r := ApplyRaftLog(l, dataStore, false);
    }

    method ApplyBatch(logs: seq<Entry<C>>) returns (results: seq<Response>)
      modifies dataStore, this`posts
      ensures var all := ApplyAll(sys, old(dataStore.db), logs);
              && dataStore.db == all.db && results == all.responses
              && posts == if hasChannel then old(posts) + all.posts else old(posts)
    {
      results := [];
      ghost var start, sent := dataStore.db, [];
      for i := 0 to |logs|
        invariant Applied(dataStore.db, results, sent) == ApplyAll(sys, start, logs[..i])
        invariant posts == if hasChannel then old(posts) + sent else old(posts)
      {
        assert logs[..i + 1][..i] == logs[..i] && logs[..i + 1][i] == logs[i];
        sent := sent + PostOf(sys, dataStore.db.tables, logs[i].data);
        var result := ApplyRaftLog(logs[i], dataStore, false);
        results := results + [result];
      }
      assert logs[..|logs|] == logs;
    }

    /** Replaces the main database by a snapshot's image; on a decoding error it stays. */
    method Restore(snapshot: Snap) returns (r: Reading)
      requires |snapshot.file| + |snapshot.spare| < TWO_63 - 16
      modifies dataStore
      ensures r == Parsed(sys.gz, snapshot.file, snapshot.spare)
      ensures dataStore.db == if r.Ok? then sys.load(r.image) else old(dataStore.db)
    {
      r := BytesFromSnapshot(sys.gz, snapshot.file, snapshot.spare);
      if r.Ok? {
        dataStore.db := sys.load(r.image);
      }
    }

    /** The snapshot to start from; false where the process ends. */
    method ChooseSnapshot() returns (ok: bool, index: nat, term: nat, image: Option<seq<Byte>>)
      requires forall s <- snaps :: |s.file| + |s.spare| < TWO_63 - 16
      ensures ok <==> BaseOf(sys, snaps).Base?
      ensures ok ==> BaseOf(sys, snaps) == Base(index, term, sys.load(image))
    {
      ok, index, term, image := true, 0, 0, None;
      for k := 0 to |snaps|
        invariant BaseOf(sys, snaps) == BaseOf(sys, snaps[k..])
        invariant ok && index == 0 && term == 0 && image == None
      {
        var snapshot := snaps[k];
        if !snapshot.opens { continue; }
        var parsed := BytesFromSnapshot(sys.gz, snapshot.file, snapshot.spare);
        if parsed.Panicked? {
          ok := false;
          return;
        }
        image := if parsed.Ok? then parsed.image else None;
        index, term := snapshot.index, snapshot.term;
        return;
      }
    }

    /** Applies the entries past the snapshot to the recovery database, without post-processing. */
    method ReplayLog(store: DataStore<T>, index: nat, term: nat, ghost base: Base<T>)
      returns (ok: bool, lastIndex: nat, lastTerm: nat)
      requires base == Base(index, term, store.db)
      modifies store, this`posts
      ensures posts == old(posts)
      ensures ok <==> Replay(sys, base, log, LastIndex(log)).Base?
      ensures ok ==> Replay(sys, base, log, LastIndex(log)) == Base(lastIndex, lastTerm, store.db)
    {
      ok, lastIndex, lastTerm := true, index, term;
      var lastLogIndex := LastIndex(log);
      while lastIndex < lastLogIndex
        invariant posts == old(posts) && ok
        invariant Replay(sys, base, log, lastLogIndex)
               == Replay(sys, Base(lastIndex, lastTerm, store.db), log, lastLogIndex)
        decreases lastLogIndex - lastIndex
      {
        if !Holds(log, lastIndex + 1) {
          ok := false;
          return;
        }
        var entry := GetLog(log, lastIndex + 1);
        var r := ApplyRaftLog(entry, store, true);
        lastIndex, lastTerm := lastIndex + 1, entry.term;
      }
    }

    /** False where the process ends; the files are then as they were. */
    method RecoverRaftState(spare: seq<Byte>, fails: nat -> bool) returns (ok: bool)
      requires ValidTable(dataStore.db.local)
      requires forall s <- snaps :: |s.file| + |s.spare| < TWO_63 - 16
      requires var end := Recovered(sys, dataStore.db, snaps, log); end.Base? ==> Fits(sys, end.db)
      modifies this`posts, this`snaps, this`log
      ensures posts == old(posts)
      ensures ok <==> Recovered(sys, dataStore.db, old(snaps), old(log)).Base? && Accepts(fails)
      ensures ok ==> log.entries == []
                     && snaps == [NewSnap(sys, Recovered(sys, dataStore.db, old(snaps), old(log)), spare)] + old(snaps)
      ensures !ok ==> snaps == old(snaps) && log == old(log)
    {
      var found, snapshotIndex, snapshotTerm, image := ChooseSnapshot();
      if !found { return false; }
      var executionLogs := dataStore.GetExecutionLogs();
      ghost var base := Base(snapshotIndex, snapshotTerm, sys.load(image));
      var rebuilt, recovery, lastIndex, lastTerm := Rebuild(snapshotIndex, snapshotTerm, image, executionLogs, base);
      if !rebuilt { return false; }
      var written, snap := WriteSnapshot(recovery, lastIndex, lastTerm, spare, fails);
      if !written { return false; }
      snaps := [snap] + snaps;
      log := Log(log.first + |log.entries|, []);
      ok := true;
    }

    method WriteSnapshot(store: DataStore<T>, index: nat, term: nat, spare: seq<Byte>, fails: nat -> bool)
      returns (ok: bool, snap: Snap)
      requires Fits(sys, store.db)
      ensures ok == Accepts(fails)
      ensures ok ==> snap == NewSnap(sys, Base(index, term, store.db), spare)
    {
      var sink := new Sink();
      ok := Persist(sys.gz, sys.save(store.db), sink, fails);
      snap := Snap(index, term, true, sink.content, spare);
    }

    /** The recovery database: the snapshot's image, the entries past it, and the local rows. */
    method Rebuild(index: nat, term: nat, image: Option<seq<Byte>>, executionLogs: seq<E.Row>, ghost base: Base<T>)
      returns (ok: bool, recovery: DataStore<T>, lastIndex: nat, lastTerm: nat)
      requires base == Base(index, term, sys.load(image))
      modifies this`posts
      ensures posts == old(posts) && fresh(recovery)
      ensures ok <==> Completed(sys, base, log, executionLogs).Base?
      ensures ok ==> Completed(sys, base, log, executionLogs) == Base(lastIndex, lastTerm, recovery.db)
    {
      recovery := new DataStore(sys.load(image));
      ok, lastIndex, lastTerm := ReplayLog(recovery, index, term, base);
      if ok && |executionLogs| > 0 {
        ok := recovery.InsertExecutionLogs(sys.jobs(recovery.db.tables), executionLogs);
      }
    }
  }
}
