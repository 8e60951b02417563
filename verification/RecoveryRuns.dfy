/** Whole runs of a node's storage: log, snapshots, restarts and recoveries (pkg/fsm/fsm_store.go). */
module RecoveryRuns {
  import opened Collections
  import opened Snapshot
  import opened Recovery
  import E = ExecutionLog

  /**
   * `history` is every entry ever put in the log; the first `applied` of them count as being in the
   * main database. It is stale after a restart that found no snapshot and so started counting again
   * over a database that has entries in it already.
   */
  datatype Disk<T, C> = Disk(history: seq<Data<C>>, applied: nat, main: Db<T>, stale: bool, snaps: seq<Snap>,
                             log: Log<C>, posts: seq<Post>)

  /**
   * An entry is put in the log, or applied later; a row is logged locally; Raft takes a snapshot,
   * drops old entries, or deletes old snapshots; the process restarts; the node recovers.
   */
  datatype Event<C> =
    | Append(term: nat, data: Data<C>)
    | ApplyNext
    | LogRow(row: E.Row)
    | TakeSnapshot(term: nat, spare: seq<Byte>)
    | Compact(upTo: nat)
    | Reap(kept: nat)
    | Restart
    | Recover(spare: seq<Byte>)

  function Newest<T, C>(d: Disk<T, C>): nat {
    if d.snaps == [] then 0 else d.snaps[0].index
  }

  function Extend<C>(log: Log<C>, entry: Entry<C>): Log<C> {
    if log.entries == [] then Log(entry.index, [entry]) else log.(entries := log.entries + [entry])
  }

  function DropUpTo<C>(log: Log<C>, upTo: nat): Log<C> {
    if upTo < log.first then log
    else if upTo >= LastIndex(log) then Log(upTo + 1, [])
    else Log(upTo + 1, log.entries[upTo + 1 - log.first..])
  }

  /** Starting Raft restores the newest snapshot over the main database, if there is one. */
  function Restarted<T, C>(sys: System<T, C>, d: Disk<T, C>): Disk<T, C> {
    if d.snaps == [] then d.(applied := 0, stale := d.stale || d.applied > 0)
    else
      var parsed := Parsed(sys.gz, d.snaps[0].file, d.snaps[0].spare);
      d.(applied := d.snaps[0].index, main := if parsed.Ok? then sys.load(parsed.image) else d.main, stale := false)
  }

  /** What is written can be written, and no snapshot is taken of a stale database. */
  ghost predicate Enabled<T, C>(sys: System<T, C>, d: Disk<T, C>, e: Event<C>) {
    match e
    case Append(_, _) => true
    case ApplyNext => Holds(d.log, d.applied + 1)
    case LogRow(row) => row.job in sys.jobs(d.main.tables)
    case TakeSnapshot(_, _) => !d.stale && Newest(d) <= d.applied && Writable(sys, d.main)
    case Compact(upTo) => d.snaps != [] && upTo <= d.snaps[0].index
    case Reap(kept) => 1 <= kept <= |d.snaps|
    case Restart => true
    case Recover(_) =>
      var end := Recovered(sys, d.main, d.snaps, d.log);
      end.Base? ==> Writable(sys, end.db)
  }

  ghost function Step<T, C>(sys: System<T, C>, d: Disk<T, C>, e: Event<C>): Disk<T, C>
    requires Enabled(sys, d, e)
  {
    match e
    case Append(term, data) =>
      d.(history := d.history + [data], log := Extend(d.log, Entry(|d.history| + 1, term, data)))
    case ApplyNext =>
      var data := GetLog(d.log, d.applied + 1).data;
      d.(applied := d.applied + 1, main := DbAfter(sys, d.main, data),
         posts := d.posts + PostOf(sys, d.main.tables, data))
    case LogRow(row) => d.(main := d.main.(local := Insert(d.main.local, [row])))
    case TakeSnapshot(term, spare) => d.(snaps := [NewSnap(sys, Base(d.applied, term, d.main), spare)] + d.snaps)
    case Compact(upTo) => d.(log := DropUpTo(d.log, upTo))
    case Reap(kept) => d.(snaps := d.snaps[..kept])
    case Restart => Restarted(sys, d)
    case Recover(spare) =>
      var end := Recovered(sys, d.main, d.snaps, d.log);
      if end.Fatal? then d
      else d.(snaps := [NewSnap(sys, end, spare)] + d.snaps, log := Log(|d.history| + 1, []))
  }

  // ---- what every run keeps ----

  /** Newest snapshot and log together reach from the beginning to the end of the history. */
  ghost predicate Covered<T, C>(d: Disk<T, C>) {
    if d.log.entries == [] then Newest(d) == |d.history| else d.log.first <= Newest(d) + 1
  }

  ghost predicate Inv<T, C>(sys: System<T, C>, d: Disk<T, C>) {
    && (forall s <- d.snaps :: SnapOk(sys, d.history, s))
    && LogOk(d.log, d.history) && Covered(d)
    && d.applied <= |d.history| && ValidTable(d.main.local)
    && (d.stale || BaseOk(sys, d.history, Base(d.applied, 0, d.main)))
  }

  /** The rows of the newest snapshot whose jobs survive every entry past it. */
  ghost function KeptRows<T, C>(sys: System<T, C>, d: Disk<T, C>, snapshot: Db<T>): seq<E.Row>
    requires Newest(d) <= |d.history|
  {
    Surviving(sys, snapshot.tables, d.history[Newest(d)..], Rows(snapshot.local))
  }

  /**
   * Recovery succeeds exactly if every local row of the main database belongs to a job that the
   * whole history leaves in place, applied yet or not. Its tables are then the fold of the whole
   * history, and its local rows those of the newest snapshot whose jobs survive every later entry,
   * then those of the main database.
   */
  lemma RecoverySucceedsIff<T, C>(sys: System<T, C>, d: Disk<T, C>)
    requires StartsEmpty(sys) && Inv(sys, d)
    ensures BaseOf(sys, d.snaps).Base? && BaseOf(sys, d.snaps).index == Newest(d) <= |d.history|
    ensures var end := Recovered(sys, d.main, d.snaps, d.log);
            && (end.Base? <==> AllKnown(Rows(d.main.local), sys.jobs(Fold(sys, d.history))))
            && (end.Base? ==>
                  && BaseOk(sys, d.history, end) && end.index == |d.history|
                  && end.db.tables == Fold(sys, d.history)
                  && Rows(end.db.local) == KeptRows(sys, d, BaseOf(sys, d.snaps).db) + Rows(d.main.local))
  {
    SoundBase(sys, d.history, d.snaps);
    NewestIsBase(sys, d);
    assert d.history[..|d.history|] == d.history;
    assert d.history[Newest(d)..|d.history|] == d.history[Newest(d)..];
    RecoveryIsFold(sys, d.history, d.main, d.snaps, d.log);
  }

  lemma NewestIsBase<T, C>(sys: System<T, C>, d: Disk<T, C>)
    requires StartsEmpty(sys) && Inv(sys, d)
    ensures BaseOf(sys, d.snaps).Base? && BaseOf(sys, d.snaps).index == Newest(d)
    ensures BaseOf(sys, d.snaps).index <= |d.history|
  {
    if d.snaps != [] {
      assert SnapOk(sys, d.history, d.snaps[0]);
    }
  }

  /** A node that has applied all it has logged always recovers. */
  lemma CaughtUpRecovers<T, C>(sys: System<T, C>, d: Disk<T, C>)
    requires StartsEmpty(sys) && Inv(sys, d) && d.applied == |d.history| && !d.stale
    ensures Recovered(sys, d.main, d.snaps, d.log).Base?
  {
    assert d.history[..|d.history|] == d.history;
    RecoverySucceedsIff(sys, d);
  }

  lemma AppendKeeps<T, C>(sys: System<T, C>, d: Disk<T, C>, term: nat, data: Data<C>)
    requires Inv(sys, d)
    ensures Inv(sys, Step(sys, d, Append(term, data)))
  {
    var d' := Step(sys, d, Append(term, data));
    forall s | s in d.snaps ensures SnapOk(sys, d'.history, s) {
      assert (d.history + [data])[..s.index] == d.history[..s.index];
    }
    assert (d.history + [data])[..d.applied] == d.history[..d.applied];
    ExtendOk(d.log, d.history, term, data);
  }

  lemma ExtendOk<C>(log: Log<C>, history: seq<Data<C>>, term: nat, data: Data<C>)
    requires LogOk(log, history)
    ensures LogOk(Extend(log, Entry(|history| + 1, term, data)), history + [data])
  {
  }

  lemma ApplyKeeps<T, C>(sys: System<T, C>, d: Disk<T, C>)
    requires Inv(sys, d) && Enabled(sys, d, ApplyNext)
    ensures Inv(sys, Step(sys, d, ApplyNext))
  {
    var k := d.applied + 1 - d.log.first;
    assert d.log.entries[k].data == d.history[d.applied];
    assert d.history[..d.applied + 1][..d.applied] == d.history[..d.applied];
    CascadeKnown(d.main.local, sys.jobs(TablesAfter(sys, d.main.tables, d.history[d.applied])));
    if !d.stale {
      LocalStaysOk(sys, d.main, d.history[d.applied]);
    }
  }

  lemma SnapshotKeeps<T, C>(sys: System<T, C>, d: Disk<T, C>, end: Base<T>, spare: seq<Byte>, log: Log<C>)
    requires Faithful(sys.gz) && Inv(sys, d) && BaseOk(sys, d.history, end) && Writable(sys, end.db)
    requires Newest(d) <= end.index
    requires log == d.log || (log == Log(|d.history| + 1, []) && end.index == |d.history|)
    ensures Inv(sys, d.(snaps := [NewSnap(sys, end, spare)] + d.snaps, log := log))
  {
    NewSnapOk(sys, d.history, end, spare);
  }

  lemma CompactKeeps<T, C>(sys: System<T, C>, d: Disk<T, C>, upTo: nat)
    requires Inv(sys, d) && Enabled(sys, d, Compact(upTo))
    ensures Inv(sys, d.(log := DropUpTo(d.log, upTo)))
  {
    assert SnapOk(sys, d.history, d.snaps[0]);
  }

  lemma RecoverKeeps<T, C>(sys: System<T, C>, d: Disk<T, C>, spare: seq<Byte>)
    requires ValidSystem(sys) && Inv(sys, d) && Enabled(sys, d, Recover(spare))
    ensures Inv(sys, Step(sys, d, Recover(spare)))
  {
    RecoverySucceedsIff(sys, d);
    NewestIsBase(sys, d);
    var end := Recovered(sys, d.main, d.snaps, d.log);
    if end.Base? {
      SnapshotKeeps(sys, d, end, spare, Log(|d.history| + 1, []));
    }
  }

  lemma StepKeeps<T, C>(sys: System<T, C>, d: Disk<T, C>, e: Event<C>)
    requires ValidSystem(sys) && Inv(sys, d) && Enabled(sys, d, e)
    ensures Inv(sys, Step(sys, d, e))
  {
    match e
    case Append(term, data) => AppendKeeps(sys, d, term, data);
    case ApplyNext => ApplyKeeps(sys, d);
    case LogRow(row) => InsertAppends(d.main.local, [row]);
    case TakeSnapshot(term, spare) => SnapshotKeeps(sys, d, Base(d.applied, term, d.main), spare, d.log);
    case Compact(upTo) => CompactKeeps(sys, d, upTo);
    case Reap(kept) =>
    case Restart => if d.snaps != [] { assert SnapOk(sys, d.history, d.snaps[0]); }
    case Recover(spare) => RecoverKeeps(sys, d, spare);
  }

  function Start<T, C>(sys: System<T, C>): Disk<T, C> {
    Disk([], 0, Db(sys.initial, EMPTY_TABLE), false, [], Log(1, []), [])
  }

  ghost predicate IsRun<T, C>(sys: System<T, C>, states: seq<Disk<T, C>>, events: seq<Event<C>>) {
    && |states| == |events| + 1 && states[0] == Start(sys)
    && forall i: nat {:trigger At(i)} :: At(i) && i < |events| ==>
         Enabled(sys, states[i], events[i]) && states[i + 1] == Step(sys, states[i], events[i])
  }

  lemma {:induction false} EveryStateKeeps<T, C>(sys: System<T, C>, states: seq<Disk<T, C>>, events: seq<Event<C>>,
                                                 i: nat)
    requires ValidSystem(sys) && IsRun(sys, states, events) && i < |states|
    ensures Inv(sys, states[i])
    decreases i
  {
    if i > 0 {
      EveryStateKeeps(sys, states, events, i - 1);
      assert At(i - 1);
      StepKeeps(sys, states[i - 1], events[i - 1]);
    } else {
      assert Rows(EMPTY_TABLE) == [];
    }
  }

  /**
   * After any run of appends, applications, local rows, snapshots, compactions, restarts and earlier
   * recoveries: every snapshot decodes to the fold of its prefix, and a recovery rebuilds the fold of
   * the whole history exactly if no local row belongs to a job the history has deleted. It then keeps
   * the snapshot's rows whose jobs survive every later entry, and the rows of the main database.
   */
  lemma EveryRecoveryIsExact<T, C>(sys: System<T, C>, states: seq<Disk<T, C>>, events: seq<Event<C>>, i: nat)
    requires ValidSystem(sys) && IsRun(sys, states, events) && i < |states|
    ensures forall s <- states[i].snaps :: SnapOk(sys, states[i].history, s)
    ensures BaseOf(sys, states[i].snaps).Base? && Newest(states[i]) <= |states[i].history|
    ensures var d := states[i];
            var end := Recovered(sys, d.main, d.snaps, d.log);
            && (end.Base? <==> AllKnown(Rows(d.main.local), sys.jobs(Fold(sys, d.history))))
            && (end.Base? ==>
                  && end.index == |d.history| && end.db.tables == Fold(sys, d.history)
                  && Rows(end.db.local) == KeptRows(sys, d, BaseOf(sys, d.snaps).db) + Rows(d.main.local))
  {
    EveryStateKeeps(sys, states, events, i);
    RecoverySucceedsIff(sys, states[i]);
  }

  // ---- what a restart does to the local rows ----

  /** The state an event writes to a snapshot, if it writes one. */
  function Written<T, C>(sys: System<T, C>, d: Disk<T, C>, e: Event<C>): Base<T> {
    match e
    case TakeSnapshot(term, _) => Base(d.applied, term, d.main)
    case Recover(_) => Recovered(sys, d.main, d.snaps, d.log)
    case _ => Fatal
  }

  lemma WritesNewest<T, C>(sys: System<T, C>, d: Disk<T, C>, e: Event<C>)
    requires Enabled(sys, d, e) && Written(sys, d, e).Base?
    ensures Writable(sys, Written(sys, d, e).db) && Step(sys, d, e).snaps != []
    ensures Step(sys, d, e).snaps[0] == NewSnap(sys, Written(sys, d, e), e.spare)
  {
  }

  lemma NewestKept<T, C>(sys: System<T, C>, d: Disk<T, C>, e: Event<C>)
    requires Enabled(sys, d, e) && Written(sys, d, e).Fatal? && d.snaps != []
    ensures Step(sys, d, e).snaps != [] && Step(sys, d, e).snaps[0] == d.snaps[0]
  {
  }

  lemma NewestStaysNext<T, C>(sys: System<T, C>, states: seq<Disk<T, C>>, events: seq<Event<C>>, k: nat)
    requires IsRun(sys, states, events) && k < |events| && Written(sys, states[k], events[k]).Fatal?
    requires states[k].snaps != []
    ensures states[k + 1].snaps != [] && states[k + 1].snaps[0] == states[k].snaps[0]
  {
    assert At(k);
    NewestKept(sys, states[k], events[k]);
  }

  lemma {:induction false} NewestStays<T, C>(sys: System<T, C>, states: seq<Disk<T, C>>, events: seq<Event<C>>, s: nat,
                                             i: nat)
    requires IsRun(sys, states, events) && s < i < |states|
    requires forall k {:trigger events[k]} :: s < k < i ==> Written(sys, states[k], events[k]).Fatal?
    requires states[s + 1].snaps != []
    ensures states[i].snaps != [] && states[i].snaps[0] == states[s + 1].snaps[0]
    decreases i
  {
    if i > s + 1 {
      NewestStays(sys, states, events, s, i - 1);
      NewestStaysNext(sys, states, events, i - 1);
    }
  }

  /**
   * A restart goes back to the last snapshot written, by Raft or by a recovery, whatever was appended,
   * applied, logged, compacted or deleted since: exactly the local rows in that snapshot remain.
   */
  lemma RestartForgetsSince<T, C>(sys: System<T, C>, states: seq<Disk<T, C>>, events: seq<Event<C>>, s: nat, i: nat)
    requires ValidSystem(sys) && IsRun(sys, states, events) && s < i < |states|
    requires Written(sys, states[s], events[s]).Base?
    requires forall k {:trigger events[k]} :: s < k < i ==> Written(sys, states[k], events[k]).Fatal?
    ensures var written, restarted := Written(sys, states[s], events[s]), Restarted(sys, states[i]);
            && restarted.main == written.db && restarted.applied == written.index && !restarted.stale
  {
    assert At(s);
    WritesNewest(sys, states[s], events[s]);
    NewestStays(sys, states, events, s, i);
    var written := Written(sys, states[s], events[s]);
    PersistRoundTrip(sys.gz, sys.save(written.db), events[s].spare);
  }

  /** A recovery right after a restart finds every surviving row twice: in the snapshot and in the main database. */
  lemma RecoveryAfterRestartDoubles<T, C>(sys: System<T, C>, d: Disk<T, C>)
    requires StartsEmpty(sys) && Inv(sys, d) && d.snaps != [] && d.log.entries == []
    ensures var r := Restarted(sys, d);
            var end := Recovered(sys, r.main, r.snaps, r.log);
            end.Base? && Rows(end.db.local) == Rows(r.main.local) + Rows(r.main.local)
  {
    assert SnapOk(sys, d.history, d.snaps[0]);
    var r := Restarted(sys, d);
    assert r.applied == Newest(d) == |d.history|;
    CaughtUpRecovers(sys, r);
    RecoverySucceedsIff(sys, r);
    assert r.history[Newest(r)..] == [];
    SurvivingNone(sys, r.main.tables, Rows(r.main.local));
  }

  /** Raft applies the next `n` entries. */
  ghost function ApplyTimes<T, C>(sys: System<T, C>, d: Disk<T, C>, n: nat): (r: Disk<T, C>)
    requires forall k :: d.applied < k <= d.applied + n ==> Holds(d.log, k)
    ensures r.log == d.log && r.history == d.history && r.applied == d.applied + n
  {
    if n == 0 then d
    else
      var before := ApplyTimes(sys, d, n - 1);
      assert Holds(d.log, d.applied + n);
      Step(sys, before, ApplyNext)
  }

  lemma {:induction false} ApplyTimesFolds<T, C>(sys: System<T, C>, d: Disk<T, C>, n: nat)
    requires LogOk(d.log, d.history) && d.applied == 0 && n <= |d.log.entries| && (n > 0 ==> d.log.first == 1)
    ensures ApplyTimes(sys, d, n).main.tables == FoldFrom(sys, d.main.tables, d.history[..n])
  {
    if n > 0 {
      ApplyTimesFolds(sys, d, n - 1);
      assert d.log.entries[n - 1].data == d.history[n - 1];
      assert d.history[..n][..n - 1] == d.history[..n - 1];
    }
  }

  /**
   * Without a snapshot a restart leaves the main database as it is and starts over at the first entry:
   * the log is applied to the tables it has made already.
   */
  lemma RestartWithoutSnapshot<T, C>(sys: System<T, C>, d: Disk<T, C>, n: nat)
    requires Inv(sys, d) && !d.stale && d.snaps == [] && n <= |d.log.entries|
    ensures ApplyTimes(sys, Restarted(sys, d), n).main.tables
            == FoldFrom(sys, Fold(sys, d.history[..d.applied]), d.history[..n])
  {
    ApplyTimesFolds(sys, Restarted(sys, d), n);
  }

  /** Where every command leaves a trace this is right exactly if nothing had been applied. */
  lemma ReapplyingShows<C(!new)>(sys: System<nat, C>, d: Disk<nat, C>, n: nat)
    requires Inv(sys, d) && !d.stale && d.snaps == [] && n <= |d.log.entries|
    requires Counts(sys) && forall e <- d.history :: e.Command?
    ensures ApplyTimes(sys, Restarted(sys, d), n).main.tables == Fold(sys, d.history[..n]) <==> d.applied == 0
  {
    RestartWithoutSnapshot(sys, d, n);
    CountsTo(sys, d.history, d.applied);
    CountsTo(sys, d.history, n);
    FoldFromCounts(sys, d.applied, d.history[..n]);
  }

  lemma CountsTo<C(!new)>(sys: System<nat, C>, history: seq<Data<C>>, n: nat)
    requires Counts(sys) && n <= |history| && forall e <- history :: e.Command?
    ensures Fold(sys, history[..n]) == n && forall e <- history[..n] :: e.Command?
  {
    FoldFromCounts(sys, 0, history[..n]);
  }

  // ---- restart after restart ----

  /** The process restarts and recovers. */
  ghost function Cycle<T, C>(sys: System<T, C>, d: Disk<T, C>, spare: seq<Byte>): Disk<T, C>
    requires Enabled(sys, Restarted(sys, d), Recover(spare))
  {
    Step(sys, Restarted(sys, d), Recover(spare))
  }

  /** What each of the next `n` recoveries writes can be written. */
  ghost predicate CanCycle<T, C>(sys: System<T, C>, d: Disk<T, C>, spare: seq<Byte>, n: nat)
    decreases n
  {
    n > 0 ==> Enabled(sys, Restarted(sys, d), Recover(spare)) && CanCycle(sys, Cycle(sys, d, spare), spare, n - 1)
  }

  ghost function Cycles<T, C>(sys: System<T, C>, d: Disk<T, C>, spare: seq<Byte>, n: nat): Disk<T, C>
    requires CanCycle(sys, d, spare, n)
    decreases n
  {
    if n == 0 then d else Cycles(sys, Cycle(sys, d, spare), spare, n - 1)
  }

  function Power2(n: nat): nat {
    if n == 0 then 1 else 2 * Power2(n - 1)
  }

  lemma CycleDoubles<T, C>(sys: System<T, C>, d: Disk<T, C>, spare: seq<Byte>)
    requires ValidSystem(sys) && Inv(sys, d) && d.snaps != [] && d.log.entries == []
    requires Enabled(sys, Restarted(sys, d), Recover(spare))
    ensures var d' := Cycle(sys, d, spare);
            && Inv(sys, d') && d'.snaps != [] && d'.log.entries == []
            && Rows(Restarted(sys, d').main.local)
               == Rows(Restarted(sys, d).main.local) + Rows(Restarted(sys, d).main.local)
  {
    var r := Restarted(sys, d);
    StepKeeps(sys, d, Restart);
    StepKeeps(sys, r, Recover(spare));
    RecoveryAfterRestartDoubles(sys, d);
    var end := Recovered(sys, r.main, r.snaps, r.log);
    PersistRoundTrip(sys.gz, sys.save(end.db), spare);
  }

  function Doubled<X>(s: seq<X>, n: nat): seq<X>
    decreases n
  {
    if n == 0 then s else Doubled(s + s, n - 1)
  }

  /**
   * Restarting and recovering `n` times on an empty log doubles the local rows of the snapshot `n`
   * times, so that each is there 2^n times.
   */
  lemma {:induction false} CyclesMultiply<T, C>(sys: System<T, C>, d: Disk<T, C>, spare: seq<Byte>, n: nat)
    requires ValidSystem(sys) && Inv(sys, d) && d.snaps != [] && d.log.entries == [] && CanCycle(sys, d, spare, n)
    ensures var before, after := Restarted(sys, d).main.local, Restarted(sys, Cycles(sys, d, spare, n)).main.local;
            && Rows(after) == Doubled(Rows(before), n)
            && forall row :: multiset(Rows(after))[row] == Power2(n) * multiset(Rows(before))[row]
    decreases n
  {
    if n > 0 {
      CycleDoubles(sys, d, spare);
      CyclesMultiply(sys, Cycle(sys, d, spare), spare, n - 1);
    }
    forall row {
      DoubledCount(Rows(Restarted(sys, d).main.local), n, row);
    }
  }

  lemma {:induction false} DoubledCount<X>(s: seq<X>, n: nat, x: X)
    ensures multiset(Doubled(s, n))[x] == Power2(n) * multiset(s)[x]
    decreases n
  {
    if n > 0 {
      DoubledCount(s + s, n - 1, x);
      TwiceAsMany(Power2(n - 1), s, x);
    }
  }

  lemma TwiceAsMany<X>(k: nat, s: seq<X>, x: X)
    ensures k * multiset(s + s)[x] == 2 * k * multiset(s)[x]
  {
    var m := multiset(s)[x];
    assert multiset(s + s)[x] == 2 * m;
    assert k * (2 * m) == 2 * k * m;
  }

  // ---- messages ----

  /** The messages of entries applied one after the other to given tables. */
  function PostsOver<T, C>(sys: System<T, C>, t: T, entries: seq<Data<C>>): seq<Post> {
    if entries == [] then []
    else
      var init := entries[..|entries| - 1];
      PostsOver(sys, t, init) + PostOf(sys, FoldFrom(sys, t, init), entries[|entries| - 1])
  }

  /** The messages sent while entry number `i` to number `k` (from 0, not including it) were applied, each once. */
  ghost predicate SentOver<T, C>(sys: System<T, C>, before: seq<Post>, history: seq<Data<C>>, i: nat, k: nat,
                                 after: seq<Post>)
    requires i <= k <= |history|
  {
    after == before + PostsOver(sys, Fold(sys, history[..i]), history[i..k])
  }

  ghost predicate Sent<T, C>(sys: System<T, C>, a: Disk<T, C>, b: Disk<T, C>) {
    && a.history <= b.history && a.applied <= b.applied <= |b.history|
    && SentOver(sys, a.posts, b.history, a.applied, b.applied, b.posts)
  }

  lemma AppendSendsNone<T, C>(sys: System<T, C>, a: Disk<T, C>, b: Disk<T, C>, term: nat, data: Data<C>)
    requires Sent(sys, a, b)
    ensures Sent(sys, a, Step(sys, b, Append(term, data)))
  {
    var history := b.history + [data];
    assert history[..a.applied] == b.history[..a.applied];
    assert history[a.applied..b.applied] == b.history[a.applied..b.applied];
  }

  lemma ApplySends<T, C>(sys: System<T, C>, a: Disk<T, C>, b: Disk<T, C>, data: Data<C>)
    requires b.applied < |b.history| && data == b.history[b.applied] && Sent(sys, a, b)
    requires b.main.tables == Fold(sys, b.history[..b.applied])
    ensures Sent(sys, a, b.(applied := b.applied + 1, main := DbAfter(sys, b.main, data),
                            posts := b.posts + PostOf(sys, b.main.tables, data)))
  {
    SentOneMore(sys, a.posts, b.history, a.applied, b.applied, b.posts);
  }

  lemma SentNext<T, C>(sys: System<T, C>, a: Disk<T, C>, b: Disk<T, C>, e: Event<C>)
    requires Inv(sys, b) && !b.stale && Enabled(sys, b, e) && !e.Restart? && Sent(sys, a, b)
    ensures Sent(sys, a, Step(sys, b, e)) && !Step(sys, b, e).stale
  {
    match e
    case Append(term, data) => AppendSendsNone(sys, a, b, term, data);
    case ApplyNext =>
      assert b.log.entries[b.applied + 1 - b.log.first].data == b.history[b.applied];
      ApplySends(sys, a, b, b.history[b.applied]);
    case _ =>
  }

  lemma SentOneMore<T, C>(sys: System<T, C>, before: seq<Post>, history: seq<Data<C>>, i: nat, k: nat, after: seq<Post>)
    requires i <= k < |history| && SentOver(sys, before, history, i, k, after)
    ensures SentOver(sys, before, history, i, k + 1, after + PostOf(sys, Fold(sys, history[..k]), history[k]))
  {
    PrefixAndSlice(history, i, k + 1);
    PrefixAndSlice(history, i, k);
    FoldFromSplit(sys, sys.initial, history[..i], history[i..k]);
  }

  lemma NoneSent<T, C>(sys: System<T, C>, d: Disk<T, C>)
    requires d.applied <= |d.history|
    ensures Sent(sys, d, d)
  {
    assert d.history[d.applied..d.applied] == [];
  }

  lemma SentInRun<T, C>(sys: System<T, C>, states: seq<Disk<T, C>>, events: seq<Event<C>>, a: Disk<T, C>, k: nat,
                        next: Disk<T, C>)
    requires ValidSystem(sys) && IsRun(sys, states, events) && k < |events| && !events[k].Restart?
    requires Sent(sys, a, states[k]) && !states[k].stale && next == states[k + 1]
    ensures Sent(sys, a, next) && !next.stale
  {
    EveryStateKeeps(sys, states, events, k);
    assert At(k);
    SentNext(sys, a, states[k], events[k]);
  }

  /**
   * From any moment the database is not stale until the next restart, the messages sent are exactly
   * those of the entries applied meanwhile, in order and each once; recoveries send none.
   */
  lemma {:induction false} MessagesOfApplied<T, C>(sys: System<T, C>, states: seq<Disk<T, C>>, events: seq<Event<C>>,
                                                   a: nat, b: nat)
    requires ValidSystem(sys) && IsRun(sys, states, events) && a <= b < |states| && !states[a].stale
    requires forall k {:trigger events[k]} :: a <= k < b ==> !events[k].Restart?
    ensures Sent(sys, states[a], states[b]) && !states[b].stale
    decreases b
  {
    if b == a {
      EveryStateKeeps(sys, states, events, a);
      NoneSent(sys, states[a]);
    } else {
      MessagesOfApplied(sys, states, events, a, b - 1);
      SentInRun(sys, states, events, states[a], b - 1, states[b]);
    }
  }

  // ---- runs that exist ----

  const ROW_OF_JOB_3 := E.Row(3, E.Scheduled, 1, 1, E.Unset, 1, 2, 1)

  /**
   * A job is created and applied and a row of it is logged; its deletion is in the log but not applied
   * when the process restarts, before any snapshot.
   */
  function LaggingRun(): seq<Event<JobCommand>> {
    [Append(1, Command(Create(3), 0, [])), ApplyNext, LogRow(ROW_OF_JOB_3), Append(1, Command(Delete(3), 0, [])),
     Restart]
  }

  function LaggingState(k: nat): Disk<set<nat>, JobCommand> {
    var create, delete := Command(Create(3), 0, []), Command(Delete(3), 0, []);
    var first, second := Entry(1, 1, create), Entry(2, 1, delete);
    var before, posts := Log(1, [first]), [Post(0, [], 0, 1)];
    if k == 0 then Start(JobBoard())
    else if k == 1 then Disk([create], 0, Db({}, EMPTY_TABLE), false, [], before, [])
    else if k == 2 then Disk([create], 1, Db({3}, EMPTY_TABLE), false, [], before, posts)
    else
      var main := Db({3}, Table(map[1 := ROW_OF_JOB_3], 1));
      if k == 3 then Disk([create], 1, main, false, [], before, posts)
      else Disk([create, delete], if k == 4 then 1 else 0, main, k > 4, [], Log(1, [first, second]), posts)
  }

  lemma LaggingStep(k: nat)
    requires k < 5
    ensures Enabled(JobBoard(), LaggingState(k), LaggingRun()[k])
    ensures LaggingState(k + 1) == Step(JobBoard(), LaggingState(k), LaggingRun()[k])
  {
    if k == 1 {
      var none: set<nat> := {};
      assert none + {3} == {3} && Cascade(EMPTY_TABLE, {3}) == EMPTY_TABLE;
    } else if k == 2 {
      InsertOne(EMPTY_TABLE, ROW_OF_JOB_3);
    }
  }

  lemma LaggingFold()
    ensures Fold(JobBoard(), LaggingState(5).history) == {}
    ensures ROW_OF_JOB_3 in Rows(LaggingState(5).main.local)
  {
    var sys, history := JobBoard(), LaggingState(5).history;
    assert history[..1] == [history[0]];
    assert Fold(sys, history[..1]) == TablesAfter(sys, FoldFrom(sys, {}, history[..1][..0]), history[0]);
    var t := LaggingState(5).main.local;
    assert RowsBetween(t, 1, 2) == RowsBetween(t, 1, 1) + RowAt(t, 1);
  }

  lemma LaggingStates() returns (states: seq<Disk<set<nat>, JobCommand>>)
    ensures IsRun(JobBoard(), states, LaggingRun()) && states[5] == LaggingState(5)
  {
    states := seq(6, (k: nat) => LaggingState(k));
    forall k: nat | At(k) && k < 5
      ensures Enabled(JobBoard(), states[k], LaggingRun()[k])
      ensures states[k + 1] == Step(JobBoard(), states[k], LaggingRun()[k])
    {
      LaggingStep(k);
    }
  }

  /** In that run recovery ends the process: the row can no longer be inserted. */
  lemma LaggingRecoveryFails() returns (states: seq<Disk<set<nat>, JobCommand>>)
    ensures ValidSystem(JobBoard()) && IsRun(JobBoard(), states, LaggingRun())
    ensures Recovered(JobBoard(), states[5].main, states[5].snaps, states[5].log) == Fatal
  {
    PrefixIsFaithful();
    states := LaggingStates();
    EveryRecoveryIsExact(JobBoard(), states, LaggingRun(), 5);
    LaggingFold();
  }

  lemma RecoveredWithoutLog<T, C>(sys: System<T, C>, d: Disk<T, C>, base: Base<T>)
    requires d.log.entries == [] && base.Base? && BaseOf(sys, d.snaps) == base
    requires AllKnown(Rows(d.main.local), sys.jobs(base.db.tables))
    ensures Recovered(sys, d.main, d.snaps, d.log)
            == base.(db := Db(base.db.tables, Insert(base.db.local, Rows(d.main.local))))
  {
  }

  lemma RecoverGoes<T, C>(sys: System<T, C>, d: Disk<T, C>, end: Base<T>, spare: seq<Byte>, next: Disk<T, C>)
    requires end == Recovered(sys, d.main, d.snaps, d.log) && end.Base? && Writable(sys, end.db)
    requires next == d.(snaps := [NewSnap(sys, end, spare)] + d.snaps, log := Log(|d.history| + 1, []))
    ensures Enabled(sys, d, Recover(spare)) && next == Step(sys, d, Recover(spare))
  {
  }

  lemma FiveSteps<T, C>(sys: System<T, C>, d1: Disk<T, C>, d2: Disk<T, C>, d3: Disk<T, C>, d4: Disk<T, C>,
                        d5: Disk<T, C>, e0: Event<C>, e1: Event<C>, e2: Event<C>, e3: Event<C>, e4: Event<C>)
    returns (states: seq<Disk<T, C>>)
    requires Enabled(sys, Start(sys), e0) && d1 == Step(sys, Start(sys), e0)
    requires Enabled(sys, d1, e1) && d2 == Step(sys, d1, e1)
    requires Enabled(sys, d2, e2) && d3 == Step(sys, d2, e2)
    requires Enabled(sys, d3, e3) && d4 == Step(sys, d3, e3)
    requires Enabled(sys, d4, e4) && d5 == Step(sys, d4, e4)
    ensures IsRun(sys, states, [e0, e1, e2, e3, e4]) && states[1] == d1 && states[5] == d5
  {
    states := [Start(sys), d1, d2, d3, d4, d5];
  }

  /** A disk with an empty history and this main database. */
  function WithoutHistory<T, C>(db: Db<T>, snaps: seq<Snap>): Disk<T, C> {
    Disk([], 0, db, false, snaps, Log(1, []), [])
  }

  lemma SnapshotOf<T, C>(sys: System<T, C>, d: Disk<T, C>, db: Db<T>)
    requires d == WithoutHistory(db, []) && Writable(sys, db)
    ensures Enabled(sys, d, TakeSnapshot(1, []))
    ensures Step(sys, d, TakeSnapshot(1, [])) == WithoutHistory(db, [NewSnap(sys, Base(0, 1, db), [])])
  {
  }

  lemma RestartOn<T, C>(sys: System<T, C>, d: Disk<T, C>, index: nat, db: Db<T>)
    requires Faithful(sys.gz) && Writable(sys, db)
    requires d.snaps != [] && d.snaps[0] == NewSnap(sys, Base(index, 1, db), [])
    ensures Restarted(sys, d) == d.(applied := index, main := db, stale := false)
    ensures BaseOf(sys, d.snaps) == Base(index, 1, db)
  {
    PersistRoundTrip(sys.gz, sys.save(db), []);
  }

  lemma RecoverOn<T, C>(sys: System<T, C>, d: Disk<T, C>, once: Db<T>, twice: Db<T>)
    requires d.log == Log(1, []) && d.history == [] && d.main == once && BaseOf(sys, d.snaps) == Base(0, 1, once)
    requires twice == Db(once.tables, Insert(once.local, Rows(once.local))) && Writable(sys, twice)
    requires AllKnown(Rows(once.local), sys.jobs(once.tables))
    ensures Enabled(sys, d, Recover([]))
    ensures Step(sys, d, Recover([])) == d.(snaps := [NewSnap(sys, Base(0, 1, twice), [])] + d.snaps)
  {
    RecoveredWithoutLog(sys, d, Base(0, 1, once));
    RecoverGoes(sys, d, Base(0, 1, twice), [], d.(snaps := [NewSnap(sys, Base(0, 1, twice), [])] + d.snaps));
  }

  lemma OneRow(row: E.Row)
    ensures Rows(Insert(EMPTY_TABLE, [row])) == [row]
    ensures Rows(Insert(Insert(EMPTY_TABLE, [row]), [row])) == [row, row]
  {
    assert Rows(EMPTY_TABLE) == [];
    InsertAppends(EMPTY_TABLE, [row]);
    InsertAppends(Insert(EMPTY_TABLE, [row]), [row]);
  }

  /**
   * In every system that can write the two databases: a row is logged and written to a snapshot; the
   * process restarts, recovers and restarts; the row is there twice.
   */
  lemma RowIsDoubled<T, C>(sys: System<T, C>, row: E.Row, once: Db<T>, twice: Db<T>) returns (states: seq<Disk<T, C>>)
    requires ValidSystem(sys) && row.job in sys.jobs(sys.initial) && Writable(sys, once) && Writable(sys, twice)
    requires once == Db(sys.initial, Insert(EMPTY_TABLE, [row])) && twice == Db(sys.initial, Insert(once.local, [row]))
    ensures IsRun(sys, states, [LogRow(row), TakeSnapshot(1, []), Restart, Recover([]), Restart])
    ensures states[1].main == once && states[5].main == twice
    ensures Rows(once.local) == [row] && Rows(twice.local) == [row, row]
  {
    OneRow(row);
    var d1: Disk<T, C> := WithoutHistory(once, []);
    SnapshotOf(sys, d1, once);
    var d2 := Step(sys, d1, TakeSnapshot(1, []));
    RestartOn(sys, d2, 0, once);
    RecoverOn(sys, d2, once, twice);
    var d4 := Step(sys, d2, Recover([]));
    RestartOn(sys, d4, 0, twice);
    states := FiveSteps(sys, d1, d2, d2, d4, Restarted(sys, d4), LogRow(row), TakeSnapshot(1, []), Restart, Recover([]),
                        Restart);
  }

  /** Such a system: job 3 is all there is, and the file as long as the last row id. */
  function RowFiler(): System<(), ()> {
    System((t: (), c: ()) => Refused, (t: ()) => {3}, (), PREFIX_GZIP,
           (db: Db<()>) => seq(db.local.lastId, (i: nat) => 1),
           (image: Option<seq<Byte>>) => Db((), if image == None then EMPTY_TABLE else RowTable(|image.value|)))
  }

  lemma InsertOne(t: Table, row: E.Row)
    ensures Insert(t, [row]) == Table(t.rows[t.lastId + 1 := row], t.lastId + 1)
  {
    var logs := [row];
    assert logs[1..] == [];
    assert Insert(t, logs) == Insert(Table(t.rows[t.lastId + 1 := row], t.lastId + 1), logs[1..]);
  }

  function RowTable(n: nat): (t: Table)
    ensures t.lastId == n
  {
    if n == 0 then EMPTY_TABLE
    else
      InsertOne(RowTable(n - 1), ROW_OF_JOB_3);
      Insert(RowTable(n - 1), [ROW_OF_JOB_3])
  }

  lemma RowFilerWrites(n: nat)
    requires n < TWO_63
    ensures ValidSystem(RowFiler()) && Writable(RowFiler(), Db((), RowTable(n)))
  {
    PrefixIsFaithful();
  }

  lemma DoublingRunExists() returns (states: seq<Disk<(), ()>>)
    ensures ValidSystem(RowFiler())
    ensures IsRun(RowFiler(), states, [LogRow(ROW_OF_JOB_3), TakeSnapshot(1, []), Restart, Recover([]), Restart])
    ensures Rows(states[5].main.local) == [ROW_OF_JOB_3, ROW_OF_JOB_3]
  {
    RowFilerWrites(1);
    RowFilerWrites(2);
    assert RowTable(1) == Insert(RowTable(0), [ROW_OF_JOB_3]);
    states := RowIsDoubled(RowFiler(), ROW_OF_JOB_3, Db((), RowTable(1)), Db((), RowTable(2)));
  }

  lemma ThreeSteps<T, C>(sys: System<T, C>, d1: Disk<T, C>, d2: Disk<T, C>, d3: Disk<T, C>, e0: Event<C>, e1: Event<C>,
                         e2: Event<C>)
    returns (states: seq<Disk<T, C>>)
    requires Enabled(sys, Start(sys), e0) && d1 == Step(sys, Start(sys), e0)
    requires Enabled(sys, d1, e1) && d2 == Step(sys, d1, e1)
    requires Enabled(sys, d2, e2) && d3 == Step(sys, d2, e2)
    ensures IsRun(sys, states, [e0, e1, e2]) && states[3] == d3
  {
    states := [Start(sys), d1, d2, d3];
  }

  lemma RecoveredFirst<T, C>(sys: System<T, C>, d: Disk<T, C>, data: Data<C>, after: Db<T>)
    requires StartsEmpty(sys) && d.snaps == [] && d.main.local == EMPTY_TABLE && d.log == Log(1, [Entry(1, 1, data)])
    requires after == DbAfter(sys, Db(sys.initial, EMPTY_TABLE), data)
    ensures Recovered(sys, d.main, d.snaps, d.log) == Base(1, 1, after)
  {
    var base := Base(0, 0, Db(sys.initial, EMPTY_TABLE));
    assert Replay(sys, base, d.log, 1) == Replay(sys, Base(1, 1, after), d.log, 1);
    assert Rows(EMPTY_TABLE) == [];
  }

  /**
   * In every system that can write the result: an entry is logged, the node recovers from the log
   * alone, and restarts from the snapshot this wrote with the entry applied.
   */
  lemma EntryIsRecovered<T, C>(sys: System<T, C>, data: Data<C>, after: Db<T>) returns (states: seq<Disk<T, C>>)
    requires ValidSystem(sys) && Writable(sys, after) && after == DbAfter(sys, Db(sys.initial, EMPTY_TABLE), data)
    ensures IsRun(sys, states, [Append(1, data), Recover([]), Restart])
    ensures states[3].main == after && states[3].applied == 1
  {
    var d1 := Disk([data], 0, Db(sys.initial, EMPTY_TABLE), false, [], Log(1, [Entry(1, 1, data)]), []);
    RecoveredFirst(sys, d1, data, after);
    var none: seq<Data<C>> := [];
    assert none + [data] == [data];
    var d2 := d1.(snaps := [NewSnap(sys, Base(1, 1, after), [])], log := Log(2, []));
    RecoverGoes(sys, d1, Base(1, 1, after), [], d2);
    RestartOn(sys, d2, 1, after);
    states := ThreeSteps(sys, d1, d2, Restarted(sys, d2), Append(1, data), Recover([]), Restart);
  }

  const COUNT := Command((), 0, [])

  lemma RecoveringRunExists() returns (states: seq<Disk<nat, ()>>)
    ensures ValidSystem(Counter()) && IsRun(Counter(), states, [Append(1, COUNT), Recover([]), Restart])
    ensures states[3].main == Db(1, EMPTY_TABLE) && states[3].applied == 1
  {
    CounterIsValid();
    assert Cascade(EMPTY_TABLE, {}) == EMPTY_TABLE;
    states := EntryIsRecovered(Counter(), COUNT, Db(1, EMPTY_TABLE));
  }
}
