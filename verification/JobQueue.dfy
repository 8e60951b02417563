/** Splitting a range of job ids over the worker nodes (pkg/service/queue/queue.go). */
module JobQueue {
  import opened Collections

  const MAX_INT64: int := 0x7fff_ffff_ffff_ffff
  const MIN_INT64: int := -0x8000_0000_0000_0000
  const MIN_INT16: int := -0x8000

  /** Ids up to here survive the detour through float64. */
  const MAX_EXACT_ID: nat := 0x20_0000_0000_0000

  datatype Range = Range(lower: nat, upper: nat)

  datatype QueueLog = QueueLog(node: nat, lower: nat, upper: nat, version: nat)

  // ---- cutting a range ----

  /** Consecutive ranges of `width + 1` ids from `lo` up to `hi`, the last one cut short. */
  function Tiles(lo: nat, hi: nat, width: nat): seq<Range>
    decreases hi + 1 - lo
  {
    if lo > hi then []
    else
      var up := Min(lo + width, hi);
      [Range(lo, up)] + Tiles(up + 1, hi, width)
  }

  /** The ranges follow each other without gap or overlap from `lo` to `hi`. */
  ghost predicate Partition(ranges: seq<Range>, lo: nat, hi: nat) {
    && ranges != [] && ranges[0].lower == lo && ranges[|ranges| - 1].upper == hi
    && (forall k :: 0 <= k < |ranges| ==> ranges[k].lower <= ranges[k].upper)
    && (forall k :: 0 < k < |ranges| ==> ranges[k].lower == ranges[k - 1].upper + 1)
  }

  lemma PartitionCons(r: Range, rest: seq<Range>, hi: nat)
    requires r.lower <= r.upper && Partition(rest, r.upper + 1, hi)
    ensures Partition([r] + rest, r.lower, hi)
  {
    var ranges := [r] + rest;
    forall k | 0 < k < |ranges| ensures ranges[k].lower == ranges[k - 1].upper + 1 {
      assert ranges[k] == rest[k - 1];
      assert k > 1 ==> ranges[k - 1] == rest[k - 2];
    }
  }

  lemma {:induction false} TilesPartition(lo: nat, hi: nat, width: nat)
    requires lo <= hi
    ensures Partition(Tiles(lo, hi, width), lo, hi)
    decreases hi - lo
  {
    var up := Min(lo + width, hi);
    if up < hi {
      TilesPartition(up + 1, hi, width);
      PartitionCons(Range(lo, up), Tiles(up + 1, hi, width), hi);
    } else {
      assert Tiles(up + 1, hi, width) == [];
      assert Tiles(lo, hi, width) == [Range(lo, up)];
    }
  }

  lemma {:induction false} TilesWidth(lo: nat, hi: nat, width: nat)
    ensures forall r <- Tiles(lo, hi, width) :: r.lower <= r.upper <= r.lower + width
    decreases hi + 1 - lo
  {
    if lo <= hi {
      TilesWidth(Min(lo + width, hi) + 1, hi, width);
    }
  }

  /** All ranges but the last hold `width + 1` ids, and the last no more. */
  ghost predicate Even(ranges: seq<Range>, width: nat) {
    && (forall k :: 0 <= k < |ranges| - 1 ==> ranges[k].upper - ranges[k].lower == width)
    && (ranges != [] ==> ranges[|ranges| - 1].upper - ranges[|ranges| - 1].lower <= width)
  }

  lemma EvenCons(r: Range, rest: seq<Range>, width: nat)
    requires Even(rest, width) && (if rest == [] then r.upper - r.lower <= width else r.upper - r.lower == width)
    ensures Even([r] + rest, width)
  {
    var ranges := [r] + rest;
    forall k | 0 <= k < |ranges| - 1 ensures ranges[k].upper - ranges[k].lower == width {
      assert k > 0 ==> ranges[k] == rest[k - 1];
    }
    assert rest != [] ==> ranges[|ranges| - 1] == rest[|rest| - 1];
  }

  lemma {:induction false} TilesEven(lo: nat, hi: nat, width: nat)
    ensures Even(Tiles(lo, hi, width), width)
    ensures Tiles(lo, hi, width) == [] <==> lo > hi
    decreases hi + 1 - lo
  {
    if lo <= hi {
      var up := Min(lo + width, hi);
      TilesEven(up + 1, hi, width);
      EvenCons(Range(lo, up), Tiles(up + 1, hi, width), width);
    }
  }

  predicate Holds(r: Range, id: nat) {
    r.lower <= id <= r.upper
  }

  ghost predicate InSome(ranges: seq<Range>, id: nat) {
    exists k :: 0 <= k < |ranges| && Holds(ranges[k], id)
  }

  /** Every id of the range lies in exactly one part, and no part reaches outside. */
  lemma {:induction false} PartitionCovers(ranges: seq<Range>, lo: nat, hi: nat, id: nat)
    requires Partition(ranges, lo, hi)
    ensures lo <= id <= hi <==> InSome(ranges, id)
    ensures forall i, k :: 0 <= i < k < |ranges| ==> !(Holds(ranges[i], id) && Holds(ranges[k], id))
    decreases |ranges|
  {
    var n := |ranges| - 1;
    if n == 0 {
      assert Holds(ranges[0], id) <==> lo <= id <= hi;
    } else {
      var init := ranges[..n];
      PartitionCovers(init, lo, init[n - 1].upper, id);
      PartitionEnds(init, lo, init[n - 1].upper);
      forall k | 0 <= k < n ensures Holds(ranges[k], id) <==> Holds(init[k], id) {}
      if lo <= id < ranges[n].lower {
        var k :| 0 <= k < |init| && Holds(init[k], id);
        assert Holds(ranges[k], id);
      } else if ranges[n].lower <= id <= hi {
        assert Holds(ranges[n], id);
      }
    }
  }

  lemma {:induction false} PartitionEnds(ranges: seq<Range>, lo: nat, hi: nat)
    requires Partition(ranges, lo, hi)
    ensures lo <= hi
    ensures forall k :: 0 <= k < |ranges| ==> lo <= ranges[k].lower && ranges[k].upper <= hi
    decreases |ranges|
  {
    var n := |ranges| - 1;
    if n > 0 {
      var init := ranges[..n];
      PartitionEnds(init, lo, init[n - 1].upper);
      forall k | 0 <= k < n ensures lo <= ranges[k].lower && ranges[k].upper <= hi { assert init[k] == ranges[k]; }
    }
  }

  /** Ids that `k` servers of `cycle + 1` ids each can take. */
  function Room(k: nat, cycle: nat): nat {
    if k == 0 then 0 else Room(k - 1, cycle) + cycle + 1
  }

  lemma {:induction false} RoomIsProduct(k: nat, cycle: nat)
    ensures Room(k, cycle) == k * (cycle + 1)
  {
    if k > 0 {
      RoomIsProduct(k - 1, cycle);
      assert k * (cycle + 1) == (k - 1) * (cycle + 1) + (cycle + 1);
    }
  }

  /** n servers taking floor(D / n) + 1 ids each leave nothing of D + 1 ids. */
  lemma EnoughServers(n: nat, d: nat)
    requires n > 0
    ensures Room(n, d / n) > d
  {
    RoomIsProduct(n, d / n);
    assert d == n * (d / n) + d % n;
    assert n * (d / n + 1) == n * (d / n) + n;
  }

  function Pairs(ranges: seq<Range>): seq<seq<nat>> {
    seq(|ranges|, k requires 0 <= k < |ranges| => [ranges[k].lower, ranges[k].upper])
  }

  /** The ranges a call with `servers` workers hands out. */
  function Shares(servers: int, lo: nat, hi: nat): seq<Range> {
    if servers < 0 then []
    else if servers == 0 then [Range(lo, hi)]
    else if lo > hi then []
    else Tiles(lo, hi, (hi - lo) / servers)
  }

  lemma SharesPartition(servers: int, lo: nat, hi: nat)
    requires servers >= 0 && lo <= hi
    ensures Partition(Shares(servers, lo, hi), lo, hi)
  {
    if servers > 0 {
      TilesPartition(lo, hi, (hi - lo) / servers);
    }
  }

  /**
   * With `n` workers every share but the last takes the n-th part of the distance, and the last no
   * more; two workers or more share any range of more than one id, and none is asked twice.
   */
  lemma SharesEven(n: nat, lo: nat, hi: nat)
    requires n >= 1 && lo <= hi
    ensures Even(Shares(n, lo, hi), (hi - lo) / n)
    ensures n > 1 && lo < hi ==> |Shares(n, lo, hi)| > 1
    ensures |Shares(n, lo, hi)| <= n
  {
    var width := (hi - lo) / n;
    TilesEven(lo, hi, width);
    TilesPartition(lo, hi, width);
    TilesCount(lo, hi, width, n) by { EnoughServers(n, hi - lo); }
    if n > 1 && lo < hi {
      PartOfMany(hi - lo, n);
    }
  }

  lemma TwiceOrMore(n: nat, q: nat)
    requires n > 1
    ensures n * q >= 2 * q
  {
    assert n * q == 2 * q + (n - 2) * q;
  }

  lemma PartOfMany(d: nat, n: nat)
    requires n > 1 && d > 0
    ensures d / n < d
  {
    var q, r := d / n, d % n;
    assert d == n * q + r;
    TwiceOrMore(n, q);
  }

  lemma {:induction false} TilesCount(lo: nat, hi: nat, width: nat, n: nat)
    requires lo > hi || Room(n, width) > hi - lo
    ensures |Tiles(lo, hi, width)| <= n
    decreases hi + 1 - lo
  {
    if lo <= hi {
      TilesCount(Min(lo + width, hi) + 1, hi, width, n - 1);
    }
  }

  lemma SharesOrdered(servers: int, lo: nat, hi: nat)
    requires lo <= hi
    ensures forall r <- Shares(servers, lo, hi) :: r.lower <= r.upper
  {
    if servers > 0 {
      TilesWidth(lo, hi, (hi - lo) / servers);
    }
  }

  method AssignJobRangeToServers(servers: int, minId: nat, maxId: nat) returns (slots: seq<seq<nat>>)
    ensures slots == Pairs(Shares(servers, minId, maxId))
    ensures servers >= 1 ==> |slots| <= servers
  {
    slots := [];
    if servers == 0 {
      slots := [[minId, maxId]];
    }
    if servers > 0 && minId <= maxId {
      slots := CutForServers(servers, minId, maxId);
    }
  }

  /** The allocation loop; wrapping back to slot 0 with ids left would append to an occupied slot. */
  method CutForServers(servers: nat, minId: nat, maxId: nat) returns (slots: seq<seq<nat>>)
    requires servers > 0 && minId <= maxId
    ensures slots == Pairs(Tiles(minId, maxId, (maxId - minId) / servers))
    ensures |slots| <= servers
  {
    slots := [];
    var currentServer, cycle, epoc := 0, (maxId - minId) / servers, minId;
    EnoughServers(servers, maxId - minId);
    ghost var done := [];
    assert done + Tiles(epoc, maxId, cycle) == Tiles(minId, maxId, cycle);
    while epoc <= maxId
      invariant done + Tiles(epoc, maxId, cycle) == Tiles(minId, maxId, cycle)
      invariant slots == Pairs(done) && |slots| <= servers
      invariant epoc <= maxId ==> currentServer == |slots| && Room(servers - |slots|, cycle) > maxId - epoc
      decreases maxId + 1 - epoc
    {
      if |slots| <= currentServer {
        slots := slots + [[]];
      }
      var lowerBound, upperBound := epoc, Min(epoc + cycle, maxId);
      FillSlot(Pairs(done), lowerBound, upperBound);
      slots := slots[currentServer := slots[currentServer] + [lowerBound]];
      slots := slots[currentServer := slots[currentServer] + [upperBound]];
      TilesNext(done, epoc, maxId, cycle);
      PairsAppend(done, Range(lowerBound, upperBound));
      done := done + [Range(lowerBound, upperBound)];
      epoc := upperBound + 1;
      currentServer := currentServer + 1;
      if currentServer == servers {
        currentServer := 0;
      }
    }
    assert done + Tiles(epoc, maxId, cycle) == done;
  }

  lemma TilesNext(done: seq<Range>, lo: nat, hi: nat, width: nat)
    requires lo <= hi
    ensures var up := Min(lo + width, hi);
            done + Tiles(lo, hi, width) == done + [Range(lo, up)] + Tiles(up + 1, hi, width)
  {
  }

  lemma FillSlot(full: seq<seq<nat>>, lower: nat, upper: nat)
    ensures var n := |full|;
            var wide := full + [[]];
            var half := wide[n := wide[n] + [lower]];
            half[n := half[n] + [upper]] == full + [[lower, upper]]
  {
    var slot: seq<nat> := [];
    assert slot + [lower] + [upper] == [lower, upper];
  }

  lemma PairsAppend(ranges: seq<Range>, r: Range)
    ensures Pairs(ranges + [r]) == Pairs(ranges) + [[r.lower, r.upper]]
  {
  }

  // ---- least-loaded assignment ----

  datatype Assignment = Assignment(node: nat, range: Range)

  function Load(alloc: map<nat, nat>, node: nat): nat {
    if node in alloc then alloc[node] else 0
  }

  function Width(r: Range): nat {
    if r.lower <= r.upper then r.upper - r.lower else 0
  }

  function Replay(base: map<nat, nat>, trace: seq<Assignment>): map<nat, nat> {
    if trace == [] then base
    else
      var before, a := Replay(base, trace[..|trace| - 1]), trace[|trace| - 1];
      before[a.node := Load(before, a.node) + Width(a.range)]
  }

  /** A least-loaded node other than the leader, or node 0 when none has room left. */
  ghost predicate Chosen(alloc: map<nat, nat>, leader: nat, node: nat) {
    if forall w <- alloc :: w != leader ==> alloc[w] >= MAX_INT64 then node == 0
    else node in alloc && node != leader && alloc[node] < MAX_INT64 &&
         forall w <- alloc :: w != leader ==> alloc[node] <= alloc[w]
  }

  ghost predicate Greedy(base: map<nat, nat>, leader: nat, trace: seq<Assignment>) {
    trace != [] ==>
      && Greedy(base, leader, trace[..|trace| - 1])
      && Chosen(Replay(base, trace[..|trace| - 1]), leader, trace[|trace| - 1].node)
  }

  lemma ExtendTrace(base: map<nat, nat>, leader: nat, trace: seq<Assignment>, a: Assignment, longer: seq<Assignment>)
    requires Greedy(base, leader, trace) && Chosen(Replay(base, trace), leader, a.node) && longer == trace + [a]
    ensures Greedy(base, leader, longer)
    ensures var alloc := Replay(base, trace);
            Replay(base, longer) == alloc[a.node := Load(alloc, a.node) + Width(a.range)]
  {
    LastOf(trace, a, longer);
  }

  lemma LastOf(trace: seq<Assignment>, a: Assignment, longer: seq<Assignment>)
    requires longer == trace + [a]
    ensures longer != [] && longer[..|longer| - 1] == trace && longer[|longer| - 1] == a
  {
  }

  ghost function Sum(alloc: map<nat, nat>): nat {
    if alloc == map[] then 0
    else
      var k :| k in alloc;
      alloc[k] + Sum(alloc - {k})
  }

  lemma {:induction false} SumWithout(alloc: map<nat, nat>, k: nat)
    requires k in alloc
    ensures Sum(alloc) == alloc[k] + Sum(alloc - {k})
    decreases |alloc|
  {
    var c :| c in alloc && Sum(alloc) == alloc[c] + Sum(alloc - {c});
    if c != k {
      SumWithout(alloc - {c}, k);
      SumWithout(alloc - {k}, c);
      assert alloc - {c} - {k} == alloc - {k} - {c};
    }
  }

  lemma SumUpdate(alloc: map<nat, nat>, k: nat, v: nat)
    requires k in alloc
    ensures Sum(alloc[k := v]) == Sum(alloc) - alloc[k] + v
  {
    SumWithout(alloc, k);
    SumWithout(alloc[k := v], k);
    assert alloc[k := v] - {k} == alloc - {k};
  }

  lemma {:induction false} SumZero(alloc: map<nat, nat>)
    requires forall k <- alloc :: alloc[k] == 0
    ensures Sum(alloc) == 0
    decreases |alloc|
  {
    if alloc != map[] {
      var k :| k in alloc && Sum(alloc) == alloc[k] + Sum(alloc - {k});
      SumZero(alloc - {k});
    }
  }

  function IdsQueued(trace: seq<Assignment>): nat {
    if trace == [] then 0 else IdsQueued(trace[..|trace| - 1]) + Width(trace[|trace| - 1].range) + 1
  }

  function Widest(trace: seq<Assignment>): nat {
    if trace == [] then 0 else Max(Widest(trace[..|trace| - 1]), Width(trace[|trace| - 1].range))
  }

  ghost predicate Spread(alloc: map<nat, nat>, leader: nat, w: nat) {
    forall a <- alloc, b <- alloc :: a != leader && b != leader ==> alloc[a] <= alloc[b] + w
  }

  /** All workers' counters lie between `lo` and `lo + w`. */
  ghost predicate Band(alloc: map<nat, nat>, leader: nat, lo: nat, w: nat) {
    forall a <- alloc :: a != leader ==> lo <= alloc[a] <= lo + w
  }

  lemma BandStep(alloc: map<nat, nat>, leader: nat, lo: nat, widest: nat, node: nat, width: nat)
    requires Band(alloc, leader, lo, widest) && node in alloc && node != leader
    requires forall w <- alloc :: w != leader ==> alloc[node] <= alloc[w]
    ensures Band(alloc[node := Load(alloc, node) + width], leader, alloc[node], Max(widest, width))
  {
  }

  /** Counters were just reset and there is a worker to give to. */
  ghost predicate Reset(base: map<nat, nat>, leader: nat) {
    (forall k <- base :: base[k] == 0) && exists w <- base :: w != leader
  }

  /** While the counters stay below the limit the choice falls on a least-loaded worker. */
  lemma ChosenIsWorker(base: map<nat, nat>, leader: nat, alloc: map<nat, nat>, node: nat)
    requires Reset(base, leader) && alloc.Keys == base.Keys && Sum(alloc) < MAX_INT64 && Chosen(alloc, leader, node)
    ensures node in alloc && node != leader && forall w <- alloc :: w != leader ==> alloc[node] <= alloc[w]
  {
    var w :| w in base && w != leader;
    SumWithout(alloc, w);
    assert alloc[w] < MAX_INT64;
  }

  lemma AddLoad(alloc: map<nat, nat>, leader: nat, node: nat, width: nat, alloc': map<nat, nat>)
    requires node in alloc && node != leader && alloc' == alloc[node := Load(alloc, node) + width]
    ensures alloc'.Keys == alloc.Keys && Load(alloc', leader) == Load(alloc, leader)
    ensures Sum(alloc') == Sum(alloc) + width
  {
    var v := alloc[node] + width;
    assert alloc' == alloc[node := v];
    SumUpdate(alloc, node, v);
  }

  /**
   * After the counters were reset, whatever order the map is visited in: the leader stays at zero, no
   * server appears or vanishes, and the counters plus the number of logs account for every id queued.
   */
  lemma {:induction false} GreedyAccounts(base: map<nat, nat>, leader: nat, trace: seq<Assignment>)
    requires Reset(base, leader) && Greedy(base, leader, trace) && IdsQueued(trace) <= MAX_INT64
    ensures var alloc := Replay(base, trace);
            alloc.Keys == base.Keys && Load(alloc, leader) == 0 && Sum(alloc) + |trace| == IdsQueued(trace)
    decreases |trace|
  {
    if |trace| == 0 {
      SumZero(base);
    } else {
      var a, init := trace[|trace| - 1], trace[..|trace| - 1];
      GreedyAccounts(base, leader, init);
      var before := Replay(base, init);
      ChosenIsWorker(base, leader, before, a.node);
      AddLoad(before, leader, a.node, Width(a.range), Replay(base, trace));
      assert |init| == |trace| - 1 && IdsQueued(trace) == IdsQueued(init) + Width(a.range) + 1;
    }
  }

  lemma {:induction false} GreedyBand(base: map<nat, nat>, leader: nat, trace: seq<Assignment>) returns (lo: nat)
    requires Reset(base, leader) && Greedy(base, leader, trace) && IdsQueued(trace) <= MAX_INT64
    ensures Band(Replay(base, trace), leader, lo, Widest(trace))
    decreases |trace|
  {
    lo := 0;
    if |trace| > 0 {
      var n, init := |trace| - 1, trace[..|trace| - 1];
      lo := GreedyBand(base, leader, init);
      GreedyAccounts(base, leader, init);
      var before := Replay(base, init);
      ChosenIsWorker(base, leader, before, trace[n].node);
      BandStep(before, leader, lo, Widest(init), trace[n].node, Width(trace[n].range));
      lo := before[trace[n].node];
    }
  }

  /** Any two workers' counters differ by at most the widest range handed out so far. */
  lemma GreedyIsFair(base: map<nat, nat>, leader: nat, trace: seq<Assignment>)
    requires Reset(base, leader) && Greedy(base, leader, trace) && IdsQueued(trace) <= MAX_INT64
    ensures Spread(Replay(base, trace), leader, Widest(trace))
  {
    var lo := GreedyBand(base, leader, trace);
  }

  /** Every share goes to a worker, never to the leader. */
  lemma {:induction false} GreedyAvoidsLeader(base: map<nat, nat>, leader: nat, trace: seq<Assignment>, k: nat)
    requires Reset(base, leader) && Greedy(base, leader, trace) && IdsQueued(trace) <= MAX_INT64 && k < |trace|
    ensures trace[k].node in base && trace[k].node != leader
    decreases |trace|
  {
    var init := trace[..|trace| - 1];
    if k < |init| {
      GreedyAvoidsLeader(base, leader, init, k);
    } else {
      GreedyAccounts(base, leader, init);
      ChosenIsWorker(base, leader, Replay(base, init), trace[k].node);
    }
  }

  // ---- the queue service ----

  function Ranges(trace: seq<Assignment>): seq<Range> {
    seq(|trace|, k requires 0 <= k < |trace| => trace[k].range)
  }

  function LogsOf(trace: seq<Assignment>, version: nat): seq<QueueLog> {
    seq(|trace|, k requires 0 <= k < |trace| =>
      QueueLog(trace[k].node, trace[k].range.lower, trace[k].range.upper, version))
  }

  function MinOf(ids: seq<nat>): nat
    requires ids != []
  {
    if |ids| == 1 then ids[0] else Min(MinOf(ids[..|ids| - 1]), ids[|ids| - 1])
  }

  function MaxOf(ids: seq<nat>): nat
    requires ids != []
  {
    if |ids| == 1 then ids[0] else Max(MaxOf(ids[..|ids| - 1]), ids[|ids| - 1])
  }

  class Queue {
    var allocations: map<nat, nat>
    var minId: int
    var maxId: int
    var singleNode: bool
    var logs: seq<QueueLog>
    const nodeId: nat
    ghost var base: map<nat, nat>
    ghost var trace: seq<Assignment>

    /** The counters replay a greedy trace. */
    ghost predicate Valid()
      reads this
    {
      allocations == Replay(base, trace) && Greedy(base, nodeId, trace)
    }

    /** No bound of an earlier call is left over. */
    predicate Idle()
      reads this
    {
      minId == MAX_INT64 && maxId < 0
    }

    constructor (nodeId: nat)
      ensures Valid() && Idle() && allocations == map[] && logs == [] && !singleNode && this.nodeId == nodeId
    {
      this.nodeId := nodeId;
      minId, maxId, singleNode := MAX_INT64, MIN_INT64, false;
      allocations, logs, base, trace := map[], [], map[], [];
    }

    method AddServers(nodeIds: seq<nat>)
      requires Valid()
      modifies this`allocations, this`base, this`trace
      ensures Valid() && base == allocations && trace == []
      ensures allocations.Keys == old(allocations).Keys + (set n | n in nodeIds)
      ensures forall n <- allocations :: allocations[n] == if n in nodeIds then 0 else old(allocations)[n]
    {
      for i := 0 to |nodeIds|
        invariant allocations.Keys == old(allocations).Keys + (set n | n in nodeIds[..i])
        invariant forall n <- allocations :: allocations[n] == if n in nodeIds[..i] then 0 else old(allocations)[n]
      {
        allocations := allocations[nodeIds[i] := 0];
        assert nodeIds[..i + 1] == nodeIds[..i] + [nodeIds[i]];
      }
      assert nodeIds[..|nodeIds|] == nodeIds;
      base, trace := allocations, [];
    }

    method RemoveServers(nodeIds: seq<nat>)
      requires Valid()
      modifies this`allocations, this`base, this`trace
      ensures Valid() && base == allocations && trace == []
      ensures allocations == old(allocations) - (set n | n in nodeIds)
    {
      for i := 0 to |nodeIds|
        invariant allocations == old(allocations) - (set n | n in nodeIds[..i])
      {
        allocations := allocations - {nodeIds[i]};
        assert nodeIds[..i + 1] == nodeIds[..i] + [nodeIds[i]];
      }
      assert nodeIds[..|nodeIds|] == nodeIds;
      base, trace := allocations, [];
    }

    method GetNextServerToQueue() returns (minServer: nat)
      ensures Chosen(allocations, nodeId, minServer)
    {
      var minAllocation, rest := MAX_INT64, allocations.Keys;
      minServer := 0;
      while rest != {}
        invariant rest <= allocations.Keys && minAllocation <= MAX_INT64
        invariant forall w <- allocations :: w !in rest && w != nodeId ==> minAllocation <= allocations[w]
        invariant if minAllocation == MAX_INT64 then minServer == 0
                  else minServer in allocations && minServer != nodeId && allocations[minServer] == minAllocation
      {
        var server :| server in rest;
        if allocations[server] < minAllocation && server != nodeId {
          minAllocation, minServer := allocations[server], server;
        }
        rest := rest - {server};
      }
    }

    /** One share handed to the least-loaded worker. */
    method Assign(range: Range, version: nat) returns (a: Assignment)
      requires Valid() && range.lower <= range.upper
      modifies this`allocations, this`logs, this`trace
      ensures Valid() && a.range == range
      ensures trace == old(trace) + [a]
      ensures logs == old(logs) + [QueueLog(a.node, range.lower, range.upper, version)]
    {
      var server := GetNextServerToQueue();
      a := Assignment(server, range);
      logs := logs + [QueueLog(server, range.lower, range.upper, version)];
      ExtendTrace(base, nodeId, trace, a, trace + [a]);
      allocations := allocations[server := Load(allocations, server) + (range.upper - range.lower)];
      assert allocations == Replay(base, trace + [a]);
      trace := trace + [a];
    }

    /** Widens the bounds over the ids of one call. */
    method TakeBounds(ids: seq<nat>)
      requires ids != [] && Idle() && forall id <- ids :: id <= MAX_EXACT_ID
      modifies this`minId, this`maxId
      ensures minId == MinOf(ids) && maxId == MaxOf(ids)
    {
      for i := 0 to |ids|
        invariant i == 0 ==> minId == MAX_INT64 && maxId < 0
        invariant i > 0 ==> minId == MinOf(ids[..i]) && maxId == MaxOf(ids[..i])
      {
        assert ids[..i + 1][..i] == ids[..i] && ids[..i + 1][i] == ids[i] && ids[i] in ids;
        if maxId < ids[i] { maxId := ids[i]; }
        if minId > ids[i] { minId := ids[i]; }
      }
      assert ids[..|ids|] == ids;
    }

    method QueueJobs(ids: seq<nat>, verifiedLeader: bool, version: nat) returns (ghost handed: seq<Assignment>)
      requires Valid() && Idle() && forall id <- ids :: id <= MAX_EXACT_ID
      modifies this
      ensures Valid() && Idle() && base == old(base) && singleNode == old(singleNode)
      ensures trace == old(trace) + handed
      ensures ids == [] || !verifiedLeader ==> handed == [] && logs == old(logs)
      ensures ids != [] && verifiedLeader && singleNode ==>
                handed == [] && logs == old(logs) + [QueueLog(nodeId, MinOf(ids), MaxOf(ids), version)]
      ensures ids != [] && verifiedLeader && !singleNode ==>
                && Ranges(handed) == Shares(|old(allocations)| - 1, MinOf(ids), MaxOf(ids))
                && logs == old(logs) + LogsOf(handed, version)
      ensures ids != [] && verifiedLeader && !singleNode && |old(allocations)| > 1 ==>
                EvenlyCut(LogsOf(handed, version), |old(allocations)| - 1, MinOf(ids), MaxOf(ids), version)
    {
      handed := [];
      if |ids| < 1 { return; }
      TakeBounds(ids);
      MinAtMostMax(ids);
      ghost var workers := |allocations| - 1;
      handed := QueueRange(minId, maxId, verifiedLeader, version);
      if verifiedLeader && !singleNode && workers >= 1 {
        CallIsEven(workers, MinOf(ids), MaxOf(ids), handed, version);
      }
      minId, maxId := MAX_INT64, MIN_INT16;
    }

    method QueueRange(lo: nat, hi: nat, verifiedLeader: bool, version: nat) returns (ghost handed: seq<Assignment>)
      requires Valid() && lo <= hi
      modifies this`allocations, this`logs, this`trace
      ensures Valid() && trace == old(trace) + handed
      ensures !verifiedLeader ==> handed == [] && logs == old(logs)
      ensures verifiedLeader && singleNode ==> handed == [] && logs == old(logs) + [QueueLog(nodeId, lo, hi, version)]
      ensures verifiedLeader && !singleNode ==>
                Ranges(handed) == Shares(|old(allocations)| - 1, lo, hi) && logs == old(logs) + LogsOf(handed, version)
    {
      handed := [];
      if !verifiedLeader { return; }
      var servers := |allocations| - 1;
      SharesOrdered(servers, lo, hi);
      var slots := AssignJobRangeToServers(servers, lo, hi);
      if singleNode {
        logs := logs + [QueueLog(nodeId, lo, hi, version)];
      } else {
        handed := AssignSlots(Shares(servers, lo, hi), slots, version);
      }
    }

    method AssignSlots(ghost shares: seq<Range>, slots: seq<seq<nat>>, version: nat)
      returns (ghost handed: seq<Assignment>)
      requires Valid() && slots == Pairs(shares)
      requires forall r <- shares :: r.lower <= r.upper
      modifies this`allocations, this`logs, this`trace
      ensures Valid() && trace == old(trace) + handed
      ensures Ranges(handed) == shares && logs == old(logs) + LogsOf(handed, version)
    {
      handed := [];
      for j := 0 to |slots|
        invariant Valid() && trace == old(trace) + handed
        invariant Ranges(handed) == shares[..j] && logs == old(logs) + LogsOf(handed, version)
      {
        assert shares[j] in shares;
        var a := Assign(Range(slots[j][0], slots[j][1]), version);
        LogsNext(handed, a, version);
        handed := handed + [a];
      }
    }
  }

  lemma LogsNext(trace: seq<Assignment>, a: Assignment, version: nat)
    ensures LogsOf(trace + [a], version)
            == LogsOf(trace, version) + [QueueLog(a.node, a.range.lower, a.range.upper, version)]
    ensures Ranges(trace + [a]) == Ranges(trace) + [a.range]
  {
  }

  lemma {:induction false} MinAtMostMax(ids: seq<nat>)
    requires ids != []
    ensures MinOf(ids) <= MaxOf(ids)
    ensures MinOf(ids) in ids && MaxOf(ids) in ids
    ensures forall id <- ids :: MinOf(ids) <= id <= MaxOf(ids)
  {
    if |ids| > 1 {
      MinAtMostMax(ids[..|ids| - 1]);
      assert ids == ids[..|ids| - 1] + [ids[|ids| - 1]];
    }
  }

  /** The logs of one cluster-mode call cut smallest to largest id of its jobs exactly. */
  lemma CallIsPartition(servers: int, ids: seq<nat>, handed: seq<Assignment>)
    requires ids != [] && servers >= 0 && Ranges(handed) == Shares(servers, MinOf(ids), MaxOf(ids))
    ensures Partition(Ranges(handed), MinOf(ids), MaxOf(ids))
  {
    MinAtMostMax(ids);
    SharesPartition(servers, MinOf(ids), MaxOf(ids));
  }

  /** Logs that cut a distance for `n` workers: even parts, more than one if there is anything to share. */
  ghost predicate EvenlyCut(logs: seq<QueueLog>, n: nat, lo: nat, hi: nat, version: nat)
    requires n >= 1
  {
    && 1 <= |logs| <= n && (n > 1 && lo < hi ==> |logs| > 1)
    && (forall k :: 0 <= k < |logs| ==> logs[k].version == version && logs[k].upper - logs[k].lower <= (hi - lo) / n)
    && (forall k :: 0 <= k < |logs| - 1 ==> logs[k].upper - logs[k].lower == (hi - lo) / n)
  }

  lemma CallIsEven(n: nat, lo: nat, hi: nat, handed: seq<Assignment>, version: nat)
    requires n >= 1 && lo <= hi && Ranges(handed) == Shares(n, lo, hi)
    ensures EvenlyCut(LogsOf(handed, version), n, lo, hi, version)
  {
    SharesEven(n, lo, hi);
    SharesPartition(n, lo, hi);
    var logs, ranges, w := LogsOf(handed, version), Ranges(handed), (hi - lo) / n;
    forall k | 0 <= k < |logs| ensures logs[k].upper - logs[k].lower == ranges[k].upper - ranges[k].lower <= w {
      assert ranges[k] == handed[k].range;
    }
  }

  lemma {:induction false} WidestWithin(trace: seq<Assignment>, w: nat)
    requires forall a <- trace :: Width(a.range) <= w
    ensures Widest(trace) <= w
  {
    if trace != [] {
      WidestWithin(trace[..|trace| - 1], w);
    }
  }

  /** Each call had a worker, and the n-th part of its distance is at most `w`. */
  ghost predicate Narrow(c: Call, w: nat) {
    Served(c) && c.servers >= 1 && MaxOf(c.ids) - MinOf(c.ids) >= 0 && (MaxOf(c.ids) - MinOf(c.ids)) / c.servers <= w
  }

  lemma {:induction false} HandedNarrow(calls: seq<Call>, w: nat)
    requires forall c <- calls :: Narrow(c, w)
    ensures forall a <- Handed(calls) :: Width(a.range) <= w
  {
    if calls != [] {
      var c := calls[|calls| - 1];
      HandedNarrow(calls[..|calls| - 1], w);
      assert c in calls;
      CallIsEven(c.servers, MinOf(c.ids), MaxOf(c.ids), c.handed, 0);
      forall a | a in c.handed ensures Width(a.range) <= w {
        var k :| 0 <= k < |c.handed| && c.handed[k] == a;
        assert LogsOf(c.handed, 0)[k].upper - LogsOf(c.handed, 0)[k].lower == a.range.upper - a.range.lower;
      }
    }
  }

  /** Over any calls since a reset, two workers' counters differ by no more than the widest n-th part of a call. */
  lemma CallsAreFair(base: map<nat, nat>, leader: nat, calls: seq<Call>, w: nat)
    requires (forall c <- calls :: Narrow(c, w)) && Spans(calls) <= MAX_INT64
    requires Reset(base, leader) && Greedy(base, leader, Handed(calls))
    ensures Spread(Replay(base, Handed(calls)), leader, w)
  {
    CallsCount(calls);
    GreedyIsFair(base, leader, Handed(calls));
    HandedNarrow(calls, w);
    WidestWithin(Handed(calls), w);
  }

  // ---- accounting by calls ----

  /** The ids the logs of a partition stand for are all ids of the range. */
  lemma {:induction false} PartitionCounts(trace: seq<Assignment>, lo: nat, hi: nat)
    requires Partition(Ranges(trace), lo, hi)
    ensures IdsQueued(trace) == hi - lo + 1
    decreases |trace|
  {
    var n := |trace| - 1;
    var last := trace[n].range;
    assert Ranges(trace)[n] == last;
    if n > 0 {
      assert Ranges(trace[..n]) == Ranges(trace)[..n];
      PartitionCounts(trace[..n], lo, last.lower - 1) by { PartitionInit(Ranges(trace), lo, hi); }
    } else {
      assert IdsQueued(trace) == IdsQueued(trace[..0]) + Width(last) + 1;
    }
  }

  lemma PartitionInit(ranges: seq<Range>, lo: nat, hi: nat)
    requires Partition(ranges, lo, hi) && |ranges| > 1
    ensures ranges[|ranges| - 1].lower >= 1
    ensures Partition(ranges[..|ranges| - 1], lo, ranges[|ranges| - 1].lower - 1)
    ensures hi == ranges[|ranges| - 1].upper >= ranges[|ranges| - 1].lower
  {
    var n := |ranges| - 1;
    assert ranges[n].lower == ranges[n - 1].upper + 1;
  }

  /** One cluster-mode call: its job ids, and the shares it handed out. */
  datatype Call = Call(ids: seq<nat>, servers: nat, handed: seq<Assignment>)

  ghost predicate Served(c: Call) {
    c.ids != [] && Ranges(c.handed) == Shares(c.servers, MinOf(c.ids), MaxOf(c.ids))
  }

  /** How many ids lie from the smallest to the largest of a call. */
  function Span(ids: seq<nat>): int {
    if ids == [] then 0 else MaxOf(ids) - MinOf(ids) + 1
  }

  function Handed(calls: seq<Call>): seq<Assignment> {
    if calls == [] then [] else Handed(calls[..|calls| - 1]) + calls[|calls| - 1].handed
  }

  function Spans(calls: seq<Call>): int {
    if calls == [] then 0 else Spans(calls[..|calls| - 1]) + Span(calls[|calls| - 1].ids)
  }

  lemma {:induction false} IdsQueuedConcat(a: seq<Assignment>, b: seq<Assignment>)
    ensures IdsQueued(a + b) == IdsQueued(a) + IdsQueued(b)
    decreases |b|
  {
    if b == [] {
      assert a + b == a;
    } else {
      IdsQueuedConcat(a, b[..|b| - 1]);
      assert (a + b)[..|a + b| - 1] == a + b[..|b| - 1];
    }
  }

  lemma {:induction false} CallsCount(calls: seq<Call>)
    requires forall c <- calls :: Served(c)
    ensures IdsQueued(Handed(calls)) == Spans(calls)
  {
    if calls != [] {
      var init, last := calls[..|calls| - 1], calls[|calls| - 1];
      assert last in calls;
      CallsCount(init);
      CallIsPartition(last.servers, last.ids, last.handed);
      PartitionCounts(last.handed, MinOf(last.ids), MaxOf(last.ids));
      IdsQueuedConcat(Handed(init), last.handed);
    }
  }

  /**
   * Over any calls since the counters were reset, the workers' counters and the number of logs add up
   * to the ids from smallest to largest of every call, and the leader's counter stays zero.
   */
  lemma CallsAccount(base: map<nat, nat>, leader: nat, calls: seq<Call>)
    requires (forall c <- calls :: Served(c)) && Spans(calls) <= MAX_INT64
    requires Reset(base, leader) && Greedy(base, leader, Handed(calls))
    ensures var alloc := Replay(base, Handed(calls));
            Sum(alloc) + |Handed(calls)| == Spans(calls) && Load(alloc, leader) == 0
  {
    CallsCount(calls);
    GreedyAccounts(base, leader, Handed(calls));
  }
}
