/** How long a locally logged row lives (pkg/fsm/fsm_actions.go, the cascading key in pkg/db/db.go). */
module LocalRows {
  import opened Collections
  import opened Recovery
  import opened RecoveryRuns
  import E = ExecutionLog

  ghost predicate HoldsRow<T, C>(d: Disk<T, C>, id: nat, row: E.Row) {
    id in d.main.local.rows && d.main.local.rows[id] == row
  }

  /** No application among the events from `s` up to but not including `i` left tables without the job. */
  ghost predicate JobStays<T, C>(sys: System<T, C>, states: seq<Disk<T, C>>, events: seq<Event<C>>, s: nat, i: nat,
                                 job: nat)
    requires |states| == |events| + 1 && i <= |events|
  {
    forall k {:trigger events[k]} :: s <= k < i && events[k].ApplyNext? ==> job in sys.jobs(states[k + 1].main.tables)
  }

  /** Ids up to `last` are given out, and a row under `id` is of a job that is there. */
  ghost predicate Tracks<T, C>(sys: System<T, C>, d: Disk<T, C>, id: nat, row: E.Row) {
    && id <= d.main.local.lastId
    && (id in d.main.local.rows ==> HoldsRow(d, id, row) && row.job in sys.jobs(d.main.tables))
  }

  lemma LogKeeps<T, C>(sys: System<T, C>, d: Disk<T, C>, id: nat, row: E.Row, logged: E.Row)
    requires Tracks(sys, d, id, row) && Enabled(sys, d, LogRow(logged))
    ensures var d' := Step(sys, d, LogRow(logged));
            Tracks(sys, d', id, row) && (HoldsRow(d', id, row) <==> HoldsRow(d, id, row))
  {
    InsertOne(d.main.local, logged);
  }

  lemma ApplyKeepsIff<T, C>(sys: System<T, C>, d: Disk<T, C>, id: nat, row: E.Row)
    requires Tracks(sys, d, id, row) && Enabled(sys, d, ApplyNext)
    ensures var d' := Step(sys, d, ApplyNext);
            && Tracks(sys, d', id, row)
            && (HoldsRow(d', id, row) <==> HoldsRow(d, id, row) && row.job in sys.jobs(d'.main.tables))
  {
    var data := GetLog(d.log, d.applied + 1).data;
    CascadeKeeps(d.main.local, sys.jobs(TablesAfter(sys, d.main.tables, data)));
  }

  lemma StepKeepsIff<T, C>(sys: System<T, C>, d: Disk<T, C>, e: Event<C>, id: nat, row: E.Row)
    requires Tracks(sys, d, id, row) && Enabled(sys, d, e) && !e.Restart?
    ensures var d' := Step(sys, d, e);
            && Tracks(sys, d', id, row)
            && (HoldsRow(d', id, row) <==>
                  HoldsRow(d, id, row) && (e.ApplyNext? ==> row.job in sys.jobs(d'.main.tables)))
  {
    match e
    case ApplyNext => ApplyKeepsIff(sys, d, id, row);
    case LogRow(logged) => LogKeeps(sys, d, id, row, logged);
    case _ =>
  }

  lemma InRun<T, C>(sys: System<T, C>, states: seq<Disk<T, C>>, events: seq<Event<C>>, k: nat, id: nat, row: E.Row,
                    next: Disk<T, C>)
    requires IsRun(sys, states, events) && k < |events| && !events[k].Restart? && next == states[k + 1]
    requires Tracks(sys, states[k], id, row)
    ensures Tracks(sys, next, id, row)
    ensures HoldsRow(next, id, row) <==>
              HoldsRow(states[k], id, row) && (events[k].ApplyNext? ==> row.job in sys.jobs(next.main.tables))
  {
    assert At(k);
    StepKeepsIff(sys, states[k], events[k], id, row);
  }

  /** From any state of a run to a later one before the next restart, a row stays exactly as long as its job. */
  lemma {:induction false} RowStaysIff<T, C>(sys: System<T, C>, states: seq<Disk<T, C>>, events: seq<Event<C>>, s: nat,
                                             i: nat, id: nat, row: E.Row)
    requires IsRun(sys, states, events) && s <= i < |states|
    requires forall k {:trigger events[k]} :: s <= k < i ==> !events[k].Restart?
    requires Tracks(sys, states[s], id, row)
    ensures Tracks(sys, states[i], id, row)
    ensures HoldsRow(states[i], id, row) <==>
              HoldsRow(states[s], id, row) && JobStays(sys, states, events, s, i, row.job)
    decreases i
  {
    if i > s {
      RowStaysIff(sys, states, events, s, i - 1, id, row);
      InRun(sys, states, events, i - 1, id, row, states[i]);
      assert JobStays(sys, states, events, s, i, row.job) <==>
          && JobStays(sys, states, events, s, i - 1, row.job)
          && (events[i - 1].ApplyNext? ==> row.job in sys.jobs(states[i].main.tables));
    }
  }

  /**
   * A row logged at step `s` is still there at a later step, before the next restart, exactly if no
   * entry applied in between left tables without its job; no other row ever takes its id.
   */
  lemma LoggedRowSurvivesIff<T, C>(sys: System<T, C>, states: seq<Disk<T, C>>, events: seq<Event<C>>, s: nat, i: nat)
    requires IsRun(sys, states, events) && s < i < |states| && events[s].LogRow?
    requires forall k {:trigger events[k]} :: s < k < i ==> !events[k].Restart?
    ensures var row, id, local := events[s].row, states[s].main.local.lastId + 1, states[i].main.local;
            && (id in local.rows <==> JobStays(sys, states, events, s + 1, i, row.job))
            && (id in local.rows ==> local.rows[id] == row && row in Rows(local))
  {
    var row, id := events[s].row, states[s].main.local.lastId + 1;
    assert At(s);
    InsertOne(states[s].main.local, row);
    RowStaysIff(sys, states, events, s + 1, i, id, row);
    RowsMembers(states[i].main.local, 1, states[i].main.local.lastId + 1, row);
  }
}
