/** How a node turns queue logs into fetches of job ranges (QueueExecutions in pkg/service/executor/executor.go). */
module RangeScan {
  import opened Collections
  import opened JobQueue
  import opened Batcher

  const JOB_MAX_BATCH: nat := 5461

  /** The loop from `lo` on: it runs while ids below `hi` are left. */
  function Scan(lo: nat, hi: nat, width: nat): seq<Range>
    decreases hi - lo
  {
    if lo >= hi then []
    else
      var up := Min(lo + width, hi);
      [Range(lo, up)] + Scan(up + 1, hi, width)
  }

  method FetchRanges(lowerBound: nat, upperBound: nat) returns (fetched: seq<Range>)
    requires lowerBound <= upperBound
    ensures fetched == Fetched(lowerBound, upperBound)
  {
    if upperBound - lowerBound > JOB_MAX_BATCH {
      fetched := FetchInBatches(lowerBound, upperBound, JOB_MAX_BATCH);
    } else {
      fetched := [Range(lowerBound, upperBound)];
    }
  }

  method FetchInBatches(lowerBound: nat, upperBound: nat, width: nat) returns (fetched: seq<Range>)
    requires upperBound - lowerBound > width
    ensures fetched == Scan(lowerBound, upperBound, width)
  {
    fetched := [];
    var currentLowerBound, currentUpperBound := lowerBound, lowerBound + width;
    ghost var all := Scan(lowerBound, upperBound, width);
    while currentLowerBound < upperBound
      invariant currentLowerBound <= upperBound + 1
      invariant currentLowerBound < upperBound ==> currentUpperBound == Min(currentLowerBound + width, upperBound)
      invariant all == fetched + Scan(currentLowerBound, upperBound, width)
      decreases upperBound + 1 - currentLowerBound
    {
      ScanNext(fetched, currentLowerBound, upperBound, width);
      fetched := fetched + [Range(currentLowerBound, currentUpperBound)];
      currentLowerBound := currentUpperBound + 1;
      if upperBound - currentUpperBound < width {
        currentUpperBound := upperBound;
      } else {
        currentUpperBound := Min(currentLowerBound + width, upperBound);
      }
    }
  }

  lemma ScanNext(fetched: seq<Range>, lo: nat, hi: nat, width: nat)
    requires lo < hi
    ensures var up := Min(lo + width, hi);
            fetched + Scan(lo, hi, width) == fetched + [Range(lo, up)] + Scan(up + 1, hi, width)
  {
  }

  /** The scan is the full cut of the range, one id short when whole batches end just before its last id. */
  lemma {:induction false} ScanIsTiles(lo: nat, hi: nat, width: nat)
    requires lo <= hi + 1
    ensures Scan(lo, hi, width) ==
            if lo <= hi && (hi - lo) % (width + 1) == 0 then (if hi == 0 then [] else Tiles(lo, hi - 1, width))
            else Tiles(lo, hi, width)
    decreases hi + 1 - lo
  {
    if lo < hi {
      var up := Min(lo + width, hi);
      ScanIsTiles(up + 1, hi, width);
      if lo + width < hi {
        RemainderShift(hi - lo, width + 1);
        assert Min(lo + width, hi - 1) == up;
      } else {
        DivUnique(hi - lo, width + 1, 0, hi - lo);
      }
    } else if lo == hi {
      DivUnique(0, width + 1, 0, 0);
    }
  }

  function Fetched(lo: nat, hi: nat): seq<Range>
    requires lo <= hi
  {
    if hi - lo > JOB_MAX_BATCH then Scan(lo, hi, JOB_MAX_BATCH) else [Range(lo, hi)]
  }

  /** The last id of the range is left out exactly when its distance is a positive multiple of the batch length. */
  predicate Misses(lo: nat, hi: nat) {
    hi > lo && (hi - lo) % (JOB_MAX_BATCH + 1) == 0
  }

  lemma FetchedIsTiles(lo: nat, hi: nat)
    requires lo <= hi
    ensures Fetched(lo, hi) == Tiles(lo, if Misses(lo, hi) then hi - 1 else hi, JOB_MAX_BATCH)
  {
    if hi - lo > JOB_MAX_BATCH {
      ScanIsTiles(lo, hi, JOB_MAX_BATCH);
    } else {
      if hi > lo { DivUnique(hi - lo, JOB_MAX_BATCH + 1, 0, hi - lo); }
      assert Tiles(hi + 1, hi, JOB_MAX_BATCH) == [];
    }
  }

  /** The fetches are consecutive, short enough, and reach every id of the range but possibly the last. */
  lemma FetchedCovers(lo: nat, hi: nat, id: nat)
    requires lo <= hi
    ensures Partition(Fetched(lo, hi), lo, if Misses(lo, hi) then hi - 1 else hi)
    ensures forall r <- Fetched(lo, hi) :: r.lower <= r.upper <= r.lower + JOB_MAX_BATCH
    ensures InSome(Fetched(lo, hi), id) <==> lo <= id <= hi && !(id == hi && Misses(lo, hi))
  {
    var end := if Misses(lo, hi) then hi - 1 else hi;
    FetchedIsTiles(lo, hi);
    TilesPartition(lo, end, JOB_MAX_BATCH);
    TilesWidth(lo, end, JOB_MAX_BATCH);
    PartitionCovers(Fetched(lo, hi), lo, end, id);
  }

  // ---- which bounds are scanned ----

  function AsUint64(x: int): int { if x < 0 then x + 0x1_0000_0000_0000_0000 else x }

  /** The bounds taken over the rows of a queue insert: the least lower and, by the same test, the least upper. */
  method FoldBounds(logs: seq<Range>) returns (lowerBound: int, upperBound: int)
    requires forall r <- logs :: r.lower <= MAX_EXACT_ID && r.upper <= MAX_EXACT_ID
    ensures logs == [] ==> lowerBound == MAX_INT64 && upperBound == MIN_INT64
    ensures logs != [] ==>
              && lowerBound == MinOf(Lowers(logs))
              && upperBound == MinOf(Uppers(logs))
  {
    lowerBound, upperBound := MAX_INT64, MIN_INT64;
    for i := 0 to |logs|
      invariant i == 0 ==> lowerBound == MAX_INT64 && upperBound == MIN_INT64
      invariant i > 0 ==> lowerBound == MinOf(Lowers(logs)[..i]) && upperBound == MinOf(Uppers(logs)[..i])
    {
      assert logs[i] in logs;
      assert Lowers(logs)[..i + 1][..i] == Lowers(logs)[..i] && Uppers(logs)[..i + 1][..i] == Uppers(logs)[..i];
      if AsUint64(lowerBound) > logs[i].lower { lowerBound := logs[i].lower; }
      if AsUint64(upperBound) > logs[i].upper { upperBound := logs[i].upper; }
    }
    assert Lowers(logs)[..|logs|] == Lowers(logs) && Uppers(logs)[..|logs|] == Uppers(logs);
  }

  function Lowers(logs: seq<Range>): seq<nat> {
    seq(|logs|, k requires 0 <= k < |logs| => logs[k].lower)
  }

  function Uppers(logs: seq<Range>): seq<nat> {
    seq(|logs|, k requires 0 <= k < |logs| => logs[k].upper)
  }

  /**
   * The rows of the queue table that a node reads after an insert; row `k` has id `k + 1`. The lookup
   * is closed at both ends, so the row before the inserted ones belongs to it.
   */
  function Looked(table: seq<Range>, lastInsertedId: nat, rowsAffected: nat): seq<Range>
    requires rowsAffected <= lastInsertedId <= |table|
  {
    table[Max(lastInsertedId - rowsAffected, 1) - 1..lastInsertedId]
  }

  /** The row before the inserted ones, if there is one. */
  function Previous(before: seq<Range>): seq<Range> {
    if before == [] then [] else [before[|before| - 1]]
  }

  lemma LookedAfterInsert(before: seq<Range>, shares: seq<Range>)
    ensures Looked(before + shares, |before| + |shares|, |shares|) == Previous(before) + shares
  {
  }

  /** What the fold makes of a call's shares, read back in any order behind the row before them. */
  lemma FoldedBounds(before: seq<Range>, shares: seq<Range>, logs: seq<Range>, lo: nat, hi: nat)
    requires Partition(shares, lo, hi)
    requires multiset(logs) == multiset(Looked(before + shares, |before| + |shares|, |shares|))
    ensures logs != []
    ensures MinOf(Lowers(logs)) == LowerWith(before, lo)
    ensures MinOf(Uppers(logs)) == UpperWith(before, shares[0].upper)
  {
    LookedAfterInsert(before, shares);
    var rows := Previous(before) + shares;
    LowersOfRows(before, shares, lo, hi, rows);
    UppersOfRows(before, shares, lo, hi, rows);
    LeastLower(rows, logs, LowerWith(before, lo));
    LeastUpper(rows, logs, UpperWith(before, shares[0].upper));
  }

  function LowerWith(before: seq<Range>, lower: nat): nat {
    if before == [] then lower else Min(before[|before| - 1].lower, lower)
  }

  function UpperWith(before: seq<Range>, upper: nat): nat {
    if before == [] then upper else Min(before[|before| - 1].upper, upper)
  }

  lemma LowersOfRows(before: seq<Range>, shares: seq<Range>, lo: nat, hi: nat, rows: seq<Range>)
    requires Partition(shares, lo, hi) && rows == Previous(before) + shares
    ensures forall r <- rows :: LowerWith(before, lo) <= r.lower
    ensures exists r <- rows :: r.lower == LowerWith(before, lo)
  {
    PartitionEnds(shares, lo, hi);
    assert shares[0] in rows;
    if before != [] { assert rows[0] == before[|before| - 1] && rows[0] in rows; }
  }

  lemma UppersOfRows(before: seq<Range>, shares: seq<Range>, lo: nat, hi: nat, rows: seq<Range>)
    requires Partition(shares, lo, hi) && rows == Previous(before) + shares
    ensures forall r <- rows :: UpperWith(before, shares[0].upper) <= r.upper
    ensures exists r <- rows :: r.upper == UpperWith(before, shares[0].upper)
  {
    FirstUpperLeast(shares, lo, hi);
    assert shares[0] in rows;
    if before != [] { assert rows[0] == before[|before| - 1] && rows[0] in rows; }
  }

  lemma LeastLower(rows: seq<Range>, logs: seq<Range>, m: nat)
    requires multiset(logs) == multiset(rows)
    requires (forall r <- rows :: m <= r.lower) && exists r <- rows :: r.lower == m
    ensures logs != [] && MinOf(Lowers(logs)) == m
  {
    var r :| r in rows && r.lower == m;
    assert r in multiset(logs);
    var k :| 0 <= k < |logs| && logs[k] == r;
    assert Lowers(logs)[k] == m;
    forall x | x in Lowers(logs) ensures m <= x {
      var i :| 0 <= i < |logs| && Lowers(logs)[i] == x;
      assert logs[i] in multiset(rows);
    }
    LeastOver(Lowers(logs), m);
  }

  lemma LeastUpper(rows: seq<Range>, logs: seq<Range>, m: nat)
    requires multiset(logs) == multiset(rows)
    requires (forall r <- rows :: m <= r.upper) && exists r <- rows :: r.upper == m
    ensures logs != [] && MinOf(Uppers(logs)) == m
  {
    var r :| r in rows && r.upper == m;
    assert r in multiset(logs);
    var k :| 0 <= k < |logs| && logs[k] == r;
    assert Uppers(logs)[k] == m;
    forall x | x in Uppers(logs) ensures m <= x {
      var i :| 0 <= i < |logs| && Uppers(logs)[i] == x;
      assert logs[i] in multiset(rows);
    }
    LeastOver(Uppers(logs), m);
  }

  /**
   * The bounds scanned after a call are the call's own at the lower end exactly if no earlier row
   * starts lower, and at the upper end exactly if the call made one share and no earlier row ends lower.
   */
  lemma FoldedBoundsIff(before: seq<Range>, shares: seq<Range>, logs: seq<Range>, lo: nat, hi: nat)
    requires Partition(shares, lo, hi)
    requires multiset(logs) == multiset(Looked(before + shares, |before| + |shares|, |shares|))
    ensures logs != []
    ensures MinOf(Lowers(logs)) == lo <==> before == [] || before[|before| - 1].lower >= lo
    ensures MinOf(Uppers(logs)) == hi <==> |shares| == 1 && (before == [] || before[|before| - 1].upper >= hi)
  {
    FoldedBounds(before, shares, logs, lo, hi);
    FirstUpperLeast(shares, lo, hi);
  }

  /** All ids of the call are fetched exactly if its last id is reached and the scan does not stop short of it. */
  lemma CallFetchedIff(before: seq<Range>, shares: seq<Range>, logs: seq<Range>, lo: nat, hi: nat)
    requires Partition(shares, lo, hi) && forall r <- before :: r.lower <= r.upper
    requires multiset(logs) == multiset(Looked(before + shares, |before| + |shares|, |shares|))
    ensures logs != [] && MinOf(Lowers(logs)) <= MinOf(Uppers(logs))
    ensures var from, to := MinOf(Lowers(logs)), MinOf(Uppers(logs));
            (forall id :: lo <= id <= hi ==> InSome(Fetched(from, to), id)) <==>
            && |shares| == 1 && (before == [] || before[|before| - 1].upper >= hi)
            && !Misses(from, hi)
  {
    FoldedBounds(before, shares, logs, lo, hi);
    FoldedBoundsIff(before, shares, logs, lo, hi);
    PartitionEnds(shares, lo, hi);
    var from, to := MinOf(Lowers(logs)), MinOf(Uppers(logs));
    forall id ensures InSome(Fetched(from, to), id) <==> from <= id <= to && !(id == to && Misses(from, to)) {
      FetchedCovers(from, to, id);
    }
    if to != hi || Misses(from, hi) {
      assert !InSome(Fetched(from, to), hi);
    }
  }

  /** One share, but an earlier row that ends lower: the call's own ids are not fetched at all. */
  lemma EarlierRowHidesTheCall()
    ensures var before, shares := [Range(1, 50)], [Range(100, 200)];
            var logs := Looked(before + shares, 2, 1);
            MinOf(Lowers(logs)) == 1 && MinOf(Uppers(logs)) == 50
  {
    var before, shares := [Range(1, 50)], [Range(100, 200)];
    FoldedBounds(before, shares, Looked(before + shares, 2, 1), 100, 200);
  }

  lemma LeastOver(xs: seq<nat>, m: nat)
    requires m in xs && forall x <- xs :: m <= x
    ensures MinOf(xs) == m
  {
    MinAtMostMax(xs);
  }

  lemma {:induction false} FirstUpperLeast(shares: seq<Range>, lo: nat, hi: nat)
    requires Partition(shares, lo, hi)
    ensures forall r <- shares :: shares[0].upper <= r.upper
    ensures |shares| > 1 ==> shares[0].upper < hi
    decreases |shares|
  {
    var n := |shares| - 1;
    if n > 0 {
      var init := shares[..n];
      FirstUpperLeast(init, lo, init[n - 1].upper);
      assert init[n - 1] in init && shares == init + [shares[n]];
    }
  }
}
