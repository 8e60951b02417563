/** Jobs, their execution log tables, and the queries on them (pkg/repository/job_execution). */
module ExecutionLog {
  import opened JobSchedule
  import opened Batcher

  datatype LogState = Scheduled | Success | Failed

  /** The number stored in the state column, which the queries order by. */
  function Rank(s: LogState): nat {
    match s
    case Scheduled => 0
    case Success => 1
    case Failed => 2
  }

  /** The digest of one execution; the text it is computed from determines its four parts. */
  datatype ExecutionId = Unset | ExecutionId(project: nat, job: nat, last: Instant, next: Instant)

  datatype Job = Job(id: nat, project: nat, url: string, created: Instant, last: Instant,
                     executionId: ExecutionId)

  datatype Row = Row(job: nat, state: LogState, version: nat, node: nat, executionId: ExecutionId,
                     last: Instant, next: Instant, queueVersion: nat)

  /** The parsed cron schedule of each job id. */
  type Cron = nat -> Instant -> Instant

  ghost predicate Ticking(cron: Cron) {
    forall j :: Advancing(cron(j))
  }

  function NextTimeOf(cron: Cron, job: Job, now: Instant): Instant
    requires Ticking(cron)
  {
    NextTime(cron(job.id), LastExecution(job.last, job.created), now)
  }

  function NextExecutionId(cron: Cron, job: Job, now: Instant): ExecutionId
    requires Ticking(cron)
  {
    ExecutionId(job.project, job.id, job.last, NextTimeOf(cron, job, now))
  }

  function Ids(jobs: seq<Job>): set<nat> {
    set k | 0 <= k < |jobs| :: jobs[k].id
  }

  lemma IdsNext(jobs: seq<Job>, i: nat)
    requires i < |jobs|
    ensures Ids(jobs[..i + 1]) == Ids(jobs[..i]) + {jobs[i].id}
    ensures i + 1 == |jobs| ==> Ids(jobs) == Ids(jobs[..i]) + {jobs[i].id}
  {
    var some := jobs[..i + 1];
    assert Ids(some) == Ids(jobs[..i]) + {jobs[i].id} by {
      assert some[i] == jobs[i];
      assert forall k :: 0 <= k < i ==> some[k] == jobs[..i][k];
    }
    assert i + 1 == |jobs| ==> some == jobs;
  }

  predicate Distinct(jobs: seq<Job>) {
    forall i, k :: 0 <= i < k < |jobs| ==> jobs[i].id != jobs[k].id
  }

  function VersionOf(versions: map<nat, nat>, j: nat): nat {
    if j in versions then versions[j] else 0
  }

  // ---- rows written ----

  const LOG_COLUMNS := 9

  /** What the rows of one insert share: node, state, queue version, and each job's execution version. */
  datatype Stamp = Stamp(node: nat, state: LogState, queueVersion: nat, versions: map<nat, nat>)

  function RowOf(job: Job, stamp: Stamp, next: Instant): Row {
    Row(job.id, stamp.state, VersionOf(stamp.versions, job.id), stamp.node, job.executionId, job.last, next,
        stamp.queueVersion)
  }

  /** Row `k` of an insert in batches of `m`; its next time is dated from the job at the index within the batch. */
  function InsertedRow(cron: Cron, jobs: seq<Job>, m: nat, k: nat, stamp: Stamp): Row
    requires m > 0 && k < |jobs|
  {
    RowOf(jobs[k], stamp, cron(jobs[k].id)(jobs[IndexInBatch(k, m)].last))
  }

  function BatchedRows(cron: Cron, jobs: seq<Job>, m: nat, stamp: Stamp): seq<Row>
    requires m > 0
  {
    seq(|jobs|, k requires 0 <= k < |jobs| => InsertedRow(cron, jobs, m, k, stamp))
  }

  function InsertedRows(cron: Cron, jobs: seq<Job>, stamp: Stamp): seq<Row> {
    BatchedRows(cron, jobs, MaxRows(LOG_COLUMNS), stamp)
  }

  /** The rows a single node also hands to the replicated table. */
  function RaftRows(cron: Cron, jobs: seq<Job>, stamp: Stamp, now: Instant): seq<Row>
    requires Ticking(cron)
  {
    seq(|jobs|, k requires 0 <= k < |jobs| => RowOf(jobs[k], stamp, NextTimeOf(cron, jobs[k], now)))
  }

  /** Every row of the insert carries the activation after its own job's last execution. */
  ghost predicate NextTimesRight(cron: Cron, jobs: seq<Job>, stamp: Stamp) {
    forall k :: 0 <= k < |jobs| ==>
      InsertedRows(cron, jobs, stamp)[k].next == cron(jobs[k].id)(jobs[k].last)
  }

  /**
   * The stored next times are right for every job list of a given length exactly when the list
   * fits one batch; past that a row is dated from another job.
   */
  lemma NextTimesRightIff(n: nat, stamp: Stamp)
    ensures (forall cron: Cron, jobs: seq<Job> :: |jobs| == n ==> NextTimesRight(cron, jobs, stamp))
            <==> n <= MaxRows(LOG_COLUMNS)
  {
    var m := MaxRows(LOG_COLUMNS);
    if n > m {
      var cron: Cron := j => t => t + 1;
      var jobs := seq(n, (k: nat) => Job(k, 0, "", 0, k, Unset));
      assert InsertedRows(cron, jobs, stamp)[m].next == 1;
      assert !NextTimesRight(cron, jobs, stamp);
    } else {
      assert forall k :: 0 <= k < n ==> IndexInBatch(k, m) == k;
    }
  }

  lemma InsertedAt(cron: Cron, before: seq<Row>, jobs: seq<Job>, stamp: Stamp, k: nat)
    requires k < |jobs|
    ensures var row := (before + InsertedRows(cron, jobs, stamp))[|before| + k];
            && Matches(row, jobs[k].id, VersionOf(stamp.versions, jobs[k].id), stamp.state)
            && row.executionId == jobs[k].executionId && row.last == jobs[k].last
            && row.node == stamp.node && row.queueVersion == stamp.queueVersion
            && (k < MaxRows(LOG_COLUMNS) ==> row.next == cron(jobs[k].id)(jobs[k].last))
  {
    var rows := InsertedRows(cron, jobs, stamp);
    assert (before + rows)[|before| + k] == rows[k];
    assert rows[k] == InsertedRow(cron, jobs, MaxRows(LOG_COLUMNS), k, stamp);
  }

  // ---- one job's rows ----

  predicate Matches(r: Row, j: nat, v: nat, s: LogState) {
    r.job == j && r.version == v && r.state == s
  }

  datatype Key = Key(version: nat, state: LogState)

  /** Versions and states of a job's rows, in the order they were written. */
  function History(rows: seq<Row>, j: nat): seq<Key> {
    if rows == [] then []
    else
      var r := rows[|rows| - 1];
      History(rows[..|rows| - 1], j) + if r.job == j then [Key(r.version, r.state)] else []
  }

  lemma {:induction false} HistoryConcat(a: seq<Row>, b: seq<Row>, j: nat)
    ensures History(a + b, j) == History(a, j) + History(b, j)
  {
    if b == [] {
      assert a + b == a;
    } else {
      HistoryConcat(a, b[..|b| - 1], j);
      assert (a + b)[..|a + b| - 1] == a + b[..|b| - 1];
    }
  }

  lemma {:induction false} HistoryMembers(rows: seq<Row>, j: nat, k: Key)
    ensures k in History(rows, j) <==> exists r <- rows :: Matches(r, j, k.version, k.state)
  {
    if rows != [] {
      var init := rows[..|rows| - 1];
      HistoryMembers(init, j, k);
      var last := rows[|rows| - 1];
      assert rows == init + [last];
      if Matches(last, j, k.version, k.state) {
        assert last in rows;
      }
    }
  }

  lemma HistoryEmpty(rows: seq<Row>, j: nat)
    ensures HasRow(rows, j) <==> History(rows, j) != []
  {
    if HasRow(rows, j) {
      var r :| r in rows && r.job == j;
      assert Matches(r, j, r.version, r.state);
      HistoryMembers(rows, j, Key(r.version, r.state));
    }
    if History(rows, j) != [] {
      HistoryMembers(rows, j, History(rows, j)[0]);
    }
  }

  /** `rows` holds one row of the given state per job, at that job's version. */
  predicate Records(rows: seq<Row>, jobs: seq<Job>, stamp: Stamp) {
    && |rows| == |jobs|
    && forall k :: 0 <= k < |rows| ==>
         Matches(rows[k], jobs[k].id, VersionOf(stamp.versions, jobs[k].id), stamp.state)
  }

  lemma {:induction false} HistoryRecords(rows: seq<Row>, jobs: seq<Job>, stamp: Stamp, j: nat)
    requires Records(rows, jobs, stamp) && Distinct(jobs)
    ensures History(rows, j) == if j in Ids(jobs) then [Key(VersionOf(stamp.versions, j), stamp.state)] else []
    decreases |rows|
  {
    if rows != [] {
      var n := |rows| - 1;
      HistoryRecords(rows[..n], jobs[..n], stamp, j);
      IdsNext(jobs, n);
      assert jobs[n].id !in Ids(jobs[..n]);
    }
  }

  predicate OwnedBy(rows: seq<Row>, node: nat) {
    forall r <- rows :: r.node == node
  }

  function CountFailed(rows: seq<Row>, j: nat, node: nat, v: nat): nat {
    if rows == [] then 0
    else CountFailed(rows[..|rows| - 1], j, node, v) +
         if Matches(rows[|rows| - 1], j, v, Failed) && rows[|rows| - 1].node == node then 1 else 0
  }

  lemma {:induction false} CountFailedOwned(rows: seq<Row>, j: nat, node: nat, v: nat)
    requires OwnedBy(rows, node)
    ensures CountFailed(rows, j, node, v) == multiset(History(rows, j))[Key(v, Failed)]
  {
    if rows != [] {
      CountFailedOwned(rows[..|rows| - 1], j, node, v);
    }
  }

  function OfNode(rows: seq<Row>, node: nat): seq<Row> {
    if rows == [] then []
    else OfNode(rows[..|rows| - 1], node) + if rows[|rows| - 1].node == node then [rows[|rows| - 1]] else []
  }

  lemma CountFailedNext(rows: seq<Row>, r: Row, j: nat, node: nat, v: nat)
    ensures CountFailed(rows + [r], j, node, v)
            == CountFailed(rows, j, node, v) + if Matches(r, j, v, Failed) && r.node == node then 1 else 0
  {
    assert (rows + [r])[..|rows|] == rows && (rows + [r])[|rows|] == r;
  }

  lemma OfNodeNext(rows: seq<Row>, r: Row, node: nat)
    ensures OfNode(rows + [r], node) == if r.node == node then OfNode(rows, node) + [r] else OfNode(rows, node)
  {
    assert (rows + [r])[..|rows|] == rows && (rows + [r])[|rows|] == r;
  }

  lemma {:induction false} CountFailedKept(rows: seq<Row>, j: nat, node: nat, v: nat)
    ensures OwnedBy(OfNode(rows, node), node)
    ensures CountFailed(OfNode(rows, node), j, node, v) == CountFailed(rows, j, node, v)
  {
    if rows != [] {
      var init, last := rows[..|rows| - 1], rows[|rows| - 1];
      CountFailedKept(init, j, node, v);
      assert rows == init + [last];
      OfNodeNext(init, last, node);
      CountFailedNext(init, last, j, node, v);
      CountFailedNext(OfNode(init, node), last, j, node, v);
    }
  }

  /** Only the node's own rows count: the failed ones of the job and version among them. */
  lemma CountFailedOfNode(rows: seq<Row>, j: nat, node: nat, v: nat)
    ensures CountFailed(rows, j, node, v) == multiset(History(OfNode(rows, node), j))[Key(v, Failed)]
  {
    CountFailedKept(rows, j, node, v);
    CountFailedOwned(OfNode(rows, node), j, node, v);
  }

  // ---- the latest row of a job ----

  /** Order by version, then by state, both descending. */
  predicate AtLeast(a: Row, b: Row) {
    a.version > b.version || (a.version == b.version && Rank(a.state) >= Rank(b.state))
  }

  predicate IsLast(rows: seq<Row>, j: nat, r: Row) {
    r in rows && r.job == j && forall x <- rows :: x.job == j ==> AtLeast(r, x)
  }

  predicate HasRow(rows: seq<Row>, j: nat) {
    exists r <- rows :: r.job == j
  }

  /** One latest row per job id that has any; the database picks freely among equal ones. */
  ghost predicate LastRows(rows: seq<Row>, ids: set<nat>, answer: map<nat, Row>) {
    && (forall j :: j in answer <==> j in ids && HasRow(rows, j))
    && (forall j <- answer :: IsLast(rows, j, answer[j]))
  }

  /** The tables a node logs executions to. */
  class Tables {
    var uncommitted: seq<Row>
    var committed: seq<Row>

    constructor ()
      ensures uncommitted == [] && committed == []
    {
      uncommitted, committed := [], [];
    }

    function All(): seq<Row>
      reads this
    {
      committed + uncommitted
    }

    method BatchInsert(cron: Cron, jobs: seq<Job>, stamp: Stamp)
      modifies this`uncommitted
      ensures uncommitted == old(uncommitted) + InsertedRows(cron, jobs, stamp)
    {
      if |jobs| < 1 { return; }
      var batches := Batch(jobs, LOG_COLUMNS);
      InsertBatches(cron, jobs, batches, MaxRows(LOG_COLUMNS), stamp);
    }

    /** One transaction per batch. */
    method InsertBatches(cron: Cron, jobs: seq<Job>, batches: seq<seq<Job>>, ghost m: nat, stamp: Stamp)
      requires m > 0 && batches == Chunks(jobs, m)
      modifies this`uncommitted
      ensures uncommitted == old(uncommitted) + BatchedRows(cron, jobs, m, stamp)
    {
      ghost var rows, lo := BatchedRows(cron, jobs, m, stamp), 0;
      for b := 0 to |batches|
        invariant 0 <= lo <= |jobs| && (b < |batches| ==> IndexInBatch(lo, m) == 0)
        invariant if b < |batches| then batches[b..] == Chunks(jobs[lo..], m) else lo == |jobs|
        invariant uncommitted == old(uncommitted) + rows[..lo]
      {
        var batch := batches[b];
        NextBatch(jobs, lo, m, batches, b);
        AppendBatch(cron, jobs, batch, m, lo, stamp);
        JoinSlices(old(uncommitted), rows, lo, lo + |batch|);
        lo := lo + |batch|;
      }
      assert rows[..lo] == rows;
    }

    method AppendBatch(cron: Cron, jobs: seq<Job>, batch: seq<Job>, ghost m: nat, ghost lo: nat, stamp: Stamp)
      requires m > 0 && IndexInBatch(lo, m) == 0 && |batch| <= m
      requires lo + |batch| <= |jobs| && batch == jobs[lo..lo + |batch|]
      modifies this`uncommitted
      ensures uncommitted == old(uncommitted) + BatchedRows(cron, jobs, m, stamp)[lo..lo + |batch|]
    {
      var inserted := BatchRows(cron, batch, jobs, stamp);
      SliceRows(cron, jobs, m, lo, batch, inserted, stamp);
      uncommitted := uncommitted + inserted;
    }

    /** The replicated insert, once applied. */
    method LogInRaft(cron: Cron, jobs: seq<Job>, stamp: Stamp, now: Instant)
      requires Ticking(cron)
      modifies this`committed
      ensures committed == old(committed) + RaftRows(cron, jobs, stamp, now)
    {
      var logs := [];
      for k := 0 to |jobs|
        invariant committed == old(committed)
        invariant logs == RaftRows(cron, jobs, stamp, now)[..k]
      {
        var executionTime := GetNextExecutionTime(cron(jobs[k].id), jobs[k].last, jobs[k].created, now);
        logs := logs + [RowOf(jobs[k], stamp, executionTime)];
      }
      assert RaftRows(cron, jobs, stamp, now)[..|jobs|] == RaftRows(cron, jobs, stamp, now);
      committed := committed + logs;
    }

    method GetLastExecutionLogForJobIds(ids: seq<nat>) returns (answer: map<nat, Row>)
      ensures LastRows(All(), (set j | j in ids), answer)
    {
      var rows := All();
      var results := QueryAll(rows, ids);
      answer := map[];
      for i := 0 to |ids|
        invariant LastRows(rows, (set j | j in ids[..i]), answer)
      {
        answer := KeepLatest(rows, answer, results, ids[i]);
        assert ids[..i + 1] == ids[..i] + [ids[i]];
      }
      assert ids[..|ids|] == ids;
    }

    method CountLastFailedExecutionLogs(j: nat, node: nat, v: nat) returns (n: nat)
      ensures n == CountFailed(All(), j, node, v)
    {
      n := 0;
      var rows := All();
      for i := 0 to |rows|
        invariant n == CountFailed(rows[..i], j, node, v)
      {
        assert rows[..i + 1][..i] == rows[..i];
        if Matches(rows[i], j, v, Failed) && rows[i].node == node {
          n := n + 1;
        }
      }
      assert rows[..|rows|] == rows;
    }
  }

  /** Rows of one batch; the next time is dated from `jobs` at the index within the batch. */
  method BatchRows(cron: Cron, batch: seq<Job>, jobs: seq<Job>, stamp: Stamp) returns (rows: seq<Row>)
    requires |batch| <= |jobs|
    ensures |rows| == |batch|
    ensures forall i :: 0 <= i < |batch| ==> rows[i] == RowOf(batch[i], stamp, cron(batch[i].id)(jobs[i].last))
  {
    rows := [];
    for i := 0 to |batch|
      invariant |rows| == i
      invariant forall k :: 0 <= k < i ==> rows[k] == RowOf(batch[k], stamp, cron(batch[k].id)(jobs[k].last))
    {
      rows := rows + [RowOf(batch[i], stamp, cron(batch[i].id)(jobs[i].last))];
    }
  }

  /** The rows of a batch that starts at `lo` are the matching slice of the whole insert. */
  lemma SliceRows(cron: Cron, jobs: seq<Job>, m: nat, lo: nat, batch: seq<Job>, rows: seq<Row>, stamp: Stamp)
    requires m > 0 && IndexInBatch(lo, m) == 0 && |rows| == |batch| <= m
    requires lo + |batch| <= |jobs| && batch == jobs[lo..lo + |batch|]
    requires forall i :: 0 <= i < |rows| ==> rows[i] == RowOf(batch[i], stamp, cron(batch[i].id)(jobs[i].last))
    ensures rows == BatchedRows(cron, jobs, m, stamp)[lo..lo + |rows|]
  {
    var all := BatchedRows(cron, jobs, m, stamp);
    forall i | 0 <= i < |rows| ensures rows[i] == all[lo + i] {
      assert batch[i] == jobs[lo + i];
      RowInBatch(cron, jobs, m, lo, i, stamp);
    }
    assert rows == all[lo..lo + |rows|];
  }

  lemma RowInBatch(cron: Cron, jobs: seq<Job>, m: nat, lo: nat, i: nat, stamp: Stamp)
    requires i < m && IndexInBatch(lo, m) == 0 && lo + i < |jobs|
    ensures BatchedRows(cron, jobs, m, stamp)[lo + i]
            == RowOf(jobs[lo + i], stamp, cron(jobs[lo + i].id)(jobs[i].last))
  {
    IndexFrom(lo, m, lo + i);
  }

  /** The window query over every batch of ids: for each id that has rows, one ranked first. */
  method QueryAll(rows: seq<Row>, ids: seq<nat>) returns (results: seq<Row>)
    ensures forall r <- results :: IsLast(rows, r.job, r)
    ensures forall j <- ids :: HasRow(rows, j) ==> exists r <- results :: r.job == j
  {
    var batches := Batch(ids, 1);
    results := [];
    for b := 0 to |batches|
      invariant forall r <- results :: IsLast(rows, r.job, r)
      invariant forall k, j :: 0 <= k < b && j in batches[k] && HasRow(rows, j) ==>
                  exists r <- results :: r.job == j
    {
      var found := QueryLast(rows, batches[b]);
      results := results + found;
    }
    forall j | j in ids && HasRow(rows, j) ensures exists r <- results :: r.job == j {
      var i :| 0 <= i < |ids| && ids[i] == j;
      MemberOfChunk(ids, MaxRows(1), i);
    }
  }

  method QueryLast(rows: seq<Row>, ids: seq<nat>) returns (results: seq<Row>)
    ensures forall r <- results :: IsLast(rows, r.job, r)
    ensures forall j <- ids :: HasRow(rows, j) ==> exists r <- results :: r.job == j
  {
    results := [];
    for i := 0 to |ids|
      invariant forall r <- results :: IsLast(rows, r.job, r)
      invariant forall k :: 0 <= k < i && HasRow(rows, ids[k]) ==> exists r <- results :: r.job == ids[k]
    {
      var best := FirstRanked(rows, ids[i]);
      results := results + best;
    }
  }

  method FirstRanked(rows: seq<Row>, j: nat) returns (best: seq<Row>)
    ensures |best| <= 1
    ensures best == [] <==> !HasRow(rows, j)
    ensures best != [] ==> IsLast(rows, j, best[0])
  {
    best := [];
    for i := 0 to |rows|
      invariant best == [] <==> !HasRow(rows[..i], j)
      invariant |best| <= 1 && (best != [] ==> IsLast(rows[..i], j, best[0]))
    {
      assert rows[..i + 1] == rows[..i] + [rows[i]];
      assert HasRow(rows[..i + 1], j) <==> HasRow(rows[..i], j) || rows[i].job == j;
      if rows[i].job == j && (best == [] || AtLeast(rows[i], best[0])) {
        if best == [] || !AtLeast(best[0], rows[i]) {
          best := [rows[i]];
        } else if * {
          best := [rows[i]];
        }
      }
    }
    assert rows[..|rows|] == rows;
  }

  /** One turn of the map-filling loop. */
  method KeepLatest(rows: seq<Row>, known: map<nat, Row>, results: seq<Row>, id: nat)
    returns (answer: map<nat, Row>)
    requires forall r <- results :: IsLast(rows, r.job, r)
    requires HasRow(rows, id) ==> exists r <- results :: r.job == id
    requires id in known ==> IsLast(rows, id, known[id])
    ensures forall j :: j != id ==>
              (j in answer <==> j in known) && (j in known ==> answer[j] == known[j])
    ensures id in answer <==> HasRow(rows, id)
    ensures id in answer ==> IsLast(rows, id, answer[id])
  {
    answer := known;
    for r := 0 to |results|
      invariant forall j :: j != id ==>
                  (j in answer <==> j in known) && (j in known ==> answer[j] == known[j])
      invariant id in answer ==> IsLast(rows, id, answer[id])
      invariant forall k :: 0 <= k < r && results[k].job == id ==> id in answer
    {
      var row := results[r];
      if row.job == id {
        if id !in answer {
          answer := answer[id := row];
        } else if answer[id].version < row.version {
          answer := answer[id := row];
        } else if Rank(answer[id].state) < Rank(row.state) {
          answer := answer[id := row];
        }
      }
    }
  }

  lemma JoinSlices<T>(before: seq<T>, rows: seq<T>, lo: nat, hi: nat)
    requires lo <= hi <= |rows|
    ensures before + rows[..lo] + rows[lo..hi] == before + rows[..hi]
  {
    assert rows[..lo] + rows[lo..hi] == rows[..hi];
  }

  /** Peels one batch off the part of the input still to be inserted. */
  lemma NextBatch<T>(items: seq<T>, lo: nat, m: nat, batches: seq<seq<T>>, b: nat)
    requires m > 0 && lo <= |items| && b < |batches| && batches[b..] == Chunks(items[lo..], m)
    ensures |batches[b]| <= m && lo + |batches[b]| <= |items|
    ensures batches[b] == items[lo..lo + |batches[b]|]
    ensures b + 1 < |batches| ==> |batches[b]| == m && batches[b + 1..] == Chunks(items[lo + m..], m)
    ensures b + 1 == |batches| ==> lo + |batches[b]| == |items|
  {
    var rest := items[lo..];
    assert batches[b..][0] == batches[b];
    if |rest| > m {
      assert batches[b + 1..] == batches[b..][1..] == Chunks(rest[m..], m);
      assert rest[m..] == items[lo + m..];
    }
  }

  lemma {:induction false} MemberOfChunk<T>(items: seq<T>, size: nat, i: nat)
    requires i < |items|
    ensures exists b :: 0 <= b < |Chunks(items, size)| && items[i] in Chunks(items, size)[b]
    decreases |items|
  {
    var cs := Chunks(items, size);
    if size == 0 || |items| <= size || i < size {
      assert items[i] in cs[0];
    } else {
      MemberOfChunk(items[size..], size, i - size);
      var b :| 0 <= b < |Chunks(items[size..], size)| && items[size..][i - size] in Chunks(items[size..], size)[b];
      assert cs[b + 1] == Chunks(items[size..], size)[b];
    }
  }
}
