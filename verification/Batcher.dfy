/** Splitting work into bounded batches (pkg/utils/batcher.go). */
module Batcher {

  /** Bound variables SQLite accepts in one statement. */
  const DB_MAX_VARIABLES := 32766

  /** Bytes in a megabyte, as the payload limit counts them. */
  const MEGABYTE := 1_000_000

  datatype Outcome<+T> = Panicked | Returned(value: T)

  /** Consecutive chunks of `size` items, the last one holding the remainder; `size == 0` never cuts. */
  function Chunks<T>(items: seq<T>, size: nat): seq<seq<T>>
    decreases |items|
  {
    if size == 0 || |items| <= size then [items]
    else [items[..size]] + Chunks(items[size..], size)
  }

  function Flatten<T>(parts: seq<seq<T>>): seq<T> {
    if parts == [] then [] else parts[0] + Flatten(parts[1..])
  }

  lemma {:induction false} FlattenConcat<T>(a: seq<seq<T>>, b: seq<seq<T>>)
    ensures Flatten(a + b) == Flatten(a) + Flatten(b)
  {
    if a == [] {
      assert a + b == b;
    } else {
      FlattenConcat(a[1..], b);
      assert (a + b)[0] == a[0] && (a + b)[1..] == a[1..] + b;
    }
  }

  /** Nothing is lost, repeated or reordered, and no chunk is empty or too long. */
  lemma {:induction false} ChunksPartition<T>(items: seq<T>, size: nat)
    ensures Flatten(Chunks(items, size)) == items
    ensures items != [] ==> forall c <- Chunks(items, size) :: c != []
    ensures size > 0 ==> forall c <- Chunks(items, size) :: |c| <= size
    decreases |items|
  {
    if size == 0 || |items| <= size {
      assert Flatten([items]) == items + Flatten([]);
    } else {
      ChunksPartition(items[size..], size);
      assert items == items[..size] + items[size..];
      assert Chunks(items, size)[1..] == Chunks(items[size..], size);
    }
  }

  /** Every chunk but the last is full. */
  lemma {:induction false} ChunksFull<T>(items: seq<T>, size: nat, k: nat)
    requires size > 0 && k + 1 < |Chunks(items, size)|
    ensures |Chunks(items, size)[k]| == size
    decreases k
  {
    if k > 0 {
      assert Chunks(items, size)[1..] == Chunks(items[size..], size);
      ChunksFull(items[size..], size, k - 1);
    }
  }

  /** Rows of `columns` bound values that fit one statement. */
  function MaxRows(columns: nat): nat
    requires columns >= 1
  {
    DB_MAX_VARIABLES / columns
  }

  method Batch<T>(ids: seq<T>, columns: nat) returns (batches: seq<seq<T>>)
    requires columns >= 1
    ensures batches == Chunks(ids, MaxRows(columns))
  {
    var maxVar := MaxRows(columns);
    if |ids| > maxVar {
      batches := FillBatches(ids, maxVar);
    } else {
      batches := [ids];
    }
  }

  /** Fills one batch at a time and flushes it when full. */
  method FillBatches<T>(ids: seq<T>, maxVar: nat) returns (batches: seq<seq<T>>)
    requires ids != []
    ensures batches == Chunks(ids, maxVar)
  {
    batches := [];
    var temp, count := [], 0;
    assert temp + ids[count..] == ids && [] + Chunks(ids, maxVar) == Chunks(ids, maxVar);
    while count < |ids|
      invariant 0 <= count <= |ids|
      invariant maxVar > 0 ==> |temp| < maxVar
      invariant if temp + ids[count..] == [] then Chunks(ids, maxVar) == batches
                else Chunks(ids, maxVar) == batches + Chunks(temp + ids[count..], maxVar)
    {
      temp := temp + [ids[count]];
      ghost var rest := ids[count + 1..];
      assert temp + rest == temp[..|temp| - 1] + ids[count..];
      if |temp| == maxVar {
        CutChunk(temp, rest);
        assert [] + rest == rest;
        assert batches + ([temp] + Chunks(rest, maxVar)) == batches + [temp] + Chunks(rest, maxVar);
        batches := batches + [temp];
        temp := [];
      }
      count := count + 1;
    }
    if |temp| > 0 {
      assert temp + ids[count..] == temp;
      batches := batches + [temp];
    }
  }

  /** A full chunk can be cut off as soon as it is complete. */
  lemma CutChunk<T>(chunk: seq<T>, rest: seq<T>)
    requires chunk != []
    ensures rest != [] ==> Chunks(chunk + rest, |chunk|) == [chunk] + Chunks(rest, |chunk|)
    ensures rest == [] ==> Chunks(chunk + rest, |chunk|) == [chunk]
  {
    if rest != [] {
      assert (chunk + rest)[..|chunk|] == chunk && (chunk + rest)[|chunk|..] == rest;
    } else {
      assert chunk + rest == chunk;
    }
  }

  /** Values bound by a statement with so many rows. */
  function BoundValues(rows: nat, columns: nat): nat {
    if rows == 0 then 0 else BoundValues(rows - 1, columns) + columns
  }

  lemma {:induction false} BoundIsProduct(rows: nat, columns: nat)
    ensures BoundValues(rows, columns) == rows * columns
  {
    if rows > 0 {
      BoundIsProduct(rows - 1, columns);
      NextMultiple(rows - 1, columns);
    }
  }

  /** The statement limit holds for every non-empty input exactly when one row fits a statement. */
  lemma BatchRespectsLimit<T>(ids: seq<T>, columns: nat)
    requires columns >= 1 && ids != []
    ensures (forall c <- Chunks(ids, MaxRows(columns)) :: BoundValues(|c|, columns) <= DB_MAX_VARIABLES)
            <==> columns <= DB_MAX_VARIABLES
  {
    var m := MaxRows(columns);
    ChunksPartition(ids, m);
    if columns <= DB_MAX_VARIABLES {
      forall c | c in Chunks(ids, m) ensures BoundValues(|c|, columns) <= DB_MAX_VARIABLES {
        BoundIsProduct(|c|, columns);
        MulMonotone(|c|, m, columns);
        DivTimes(DB_MAX_VARIABLES, columns);
      }
    } else {
      DivUnique(DB_MAX_VARIABLES, columns, 0, DB_MAX_VARIABLES);
      assert Chunks(ids, m) == [ids] && ids in Chunks(ids, m);
      MulMonotone(1, |ids|, columns);
      BoundIsProduct(|ids|, columns);
    }
  }

  /** Batches are as long as they can be: one row more would not fit a statement. */
  lemma BatchesAreFull<T>(ids: seq<T>, columns: nat, k: nat)
    requires 1 <= columns <= DB_MAX_VARIABLES && k + 1 < |Chunks(ids, MaxRows(columns))|
    ensures MaxRows(columns) > 0
    ensures BoundValues(|Chunks(ids, MaxRows(columns))[k]| + 1, columns) > DB_MAX_VARIABLES
  {
    BoundIsProduct(MaxRows(columns) + 1, columns);
    DivTimes(DB_MAX_VARIABLES, columns);
    ChunksFull(ids, MaxRows(columns), k);
  }

  lemma DivTimes(x: nat, m: nat)
    requires m > 0
    ensures x / m * m <= x < (x / m + 1) * m
  {
    assert x == x / m * m + x % m;
  }

  lemma MulMonotone(a: nat, b: nat, k: nat)
    requires a <= b
    ensures a * k <= b * k
  {
  }

  /** Where item `k` falls within its batch of `m`. */
  function IndexInBatch(k: nat, m: nat): (i: nat)
    requires m > 0
    ensures i < m && i <= k
  {
    if k < m then k else IndexInBatch(k - m, m)
  }

  lemma {:induction false} IndexFrom(lo: nat, m: nat, k: nat)
    requires m > 0 && IndexInBatch(lo, m) == 0 && lo <= k < lo + m
    ensures IndexInBatch(k, m) == k - lo
    decreases lo
  {
    if lo >= m {
      IndexFrom(lo - m, m, k - m);
    }
  }

  lemma {:induction false} IndexIsRemainder(k: nat, m: nat)
    requires m > 0
    ensures IndexInBatch(k, m) == k % m
  {
    if k < m {
      DivUnique(k, m, 0, k);
    } else {
      IndexIsRemainder(k - m, m);
      RemainderShift(k, m);
    }
  }

  lemma RemainderShift(x: nat, m: nat)
    requires x >= m > 0
    ensures (x - m) % m == x % m
  {
    var q, r := x / m, x % m;
    assert x == q * m + r;
    NextMultiple(q - 1, m);
    DivUnique(x - m, m, q - 1, r);
  }

  // ---- batches bounded by their encoded size ----

  function TotalSize<T>(items: seq<T>, size: T -> nat): nat {
    if items == [] then 0 else size(items[0]) + TotalSize(items[1..], size)
  }

  /** Length of the JSON array of `items`: brackets, the items, and the commas between them. */
  function ArraySize<T>(items: seq<T>, size: T -> nat): nat {
    2 + TotalSize(items, size) + (if items == [] then 0 else |items| - 1)
  }

  /** floor((limit - 10 unit) / unit), limit and unit counted in bytes. */
  function ItemsPerBatch(limit: nat, unit: nat): int
    requires unit > 0
  {
    (limit - 10 * unit) / unit
  }

  function Abs(x: int): nat { if x < 0 then -x else x }

  /** The item count per batch that the first item of `data` leads to. */
  function BatchLength<T>(data: seq<T>, size: T -> nat, limitMb: nat): int
    requires data != []
  {
    ItemsPerBatch(limitMb * MEGABYTE, ArraySize([data[0]], size))
  }

  method BatchByBytes<T>(data: seq<T>, size: T -> nat, limitMb: nat) returns (r: Outcome<seq<seq<T>>>)
    ensures r.Panicked? <==> data == [] || BatchLength(data, size, limitMb) == 0
    ensures r.Returned? ==> r.value == Chunks(data, Abs(BatchLength(data, size, limitMb)))
  {
    if data == [] { return Panicked; }
    var itemsPerBatch := BatchLength(data, size, limitMb);
    if itemsPerBatch == 0 { return Panicked; }
    var results := CutEvery(data, itemsPerBatch);
    r := Returned(results);
  }

  /** The flush loop; a negative divisor leaves the same remainders as its magnitude. */
  method CutEvery<T>(data: seq<T>, itemsPerBatch: int) returns (results: seq<seq<T>>)
    requires data != [] && itemsPerBatch != 0
    ensures results == Chunks(data, Abs(itemsPerBatch))
  {
    var m := Abs(itemsPerBatch);
    var current, i := [], 0;
    results := [];
    assert current + data[0..] == data && [] + Chunks(data, m) == Chunks(data, m);
    while i < |data|
      invariant 0 <= |current| <= i <= |data| && |current| <= m && IndexInBatch(i - |current|, m) == 0
      invariant i > 0 ==> |current| > 0
      invariant Chunks(data, m) == results + Chunks(current + data[i..], m)
    {
      AtBoundary(i, |current|, m);
      if i % m == 0 && i > 0 {
        Flush(results, current, data[i..]);
        results, current := results + [current], [];
      }
      TakeNext(current, data, i);
      current := current + [data[i]];
      i := i + 1;
    }
    if |current| > 0 {
      assert current + data[i..] == current;
      results := results + [current];
    }
  }

  /** A batch is full exactly where the position is a multiple of the batch length. */
  lemma AtBoundary(i: nat, held: nat, m: nat)
    requires m > 0 && held <= m && held <= i && IndexInBatch(i - held, m) == 0
    ensures i % m == 0 <==> held == 0 || held == m
    ensures held == m ==> IndexInBatch(i, m) == 0
  {
    IndexIsRemainder(i, m);
    if held < m { IndexFrom(i - held, m, i); }
  }

  lemma TakeNext<T>(current: seq<T>, data: seq<T>, i: nat)
    requires i < |data|
    ensures current + data[i..] == current + [data[i]] + data[i + 1..]
  {
    assert data[i..] == [data[i]] + data[i + 1..];
  }

  lemma Flush<T>(results: seq<seq<T>>, chunk: seq<T>, rest: seq<T>)
    requires chunk != [] && rest != []
    ensures results + Chunks(chunk + rest, |chunk|) == results + [chunk] + Chunks([] + rest, |chunk|)
  {
    CutChunk(chunk, rest);
    assert [] + rest == rest;
  }

  lemma NextMultiple(q: nat, m: nat)
    ensures q * m + m == (q + 1) * m
  {
  }

  lemma DivUnique(x: int, m: int, q: int, r: int)
    requires m > 0 && 0 <= r < m && x == q * m + r
    ensures x % m == r && x / m == q
  {
    var d := q - x / m;
    assert d * m == q * m - x / m * m;
    assert Abs(d) * m == Abs(d * m);
    MulMonotone(if d == 0 then 0 else 1, Abs(d), m);
  }

  lemma {:induction false} TotalSizeBound<T>(items: seq<T>, size: T -> nat, most: nat)
    requires forall x <- items :: size(x) <= most
    ensures TotalSize(items, size) <= |items| * most
    ensures (forall x <- items :: size(x) == most) ==> TotalSize(items, size) == |items| * most
  {
    if items == [] {
    } else {
      TotalSizeBound(items[1..], size, most);
      NextMultiple(|items| - 1, most);
    }
  }

  lemma LengthIsShifted(limit: nat, unit: nat)
    requires unit > 0
    ensures ItemsPerBatch(limit, unit) == limit / unit - 10
  {
    var k := limit / unit;
    assert limit == k * unit + limit % unit;
    assert (k - 10) * unit == k * unit - 10 * unit;
    DivUnique(limit - 10 * unit, unit, k - 10, limit % unit);
  }

  /** With room for five items the chosen length never exceeds the number of items that fit. */
  lemma LengthFits(limit: nat, unit: nat)
    requires unit > 0 && 5 * unit <= limit
    ensures Abs(ItemsPerBatch(limit, unit)) * unit <= limit
  {
    var k := limit / unit;
    DivTimes(limit, unit);
    LengthIsShifted(limit, unit);
    if k <= 4 { MulMonotone(k + 1, 5, unit); }
    MulMonotone(Abs(k - 10), k, unit);
  }

  /** With less room than that it is too long even for items one byte shorter. */
  lemma LengthOverflows(limit: nat, unit: nat)
    requires 5 <= unit && limit < 5 * unit
    ensures Abs(ItemsPerBatch(limit, unit)) * (unit - 1) + 1 > limit
  {
    var k := limit / unit;
    DivTimes(limit, unit);
    LengthIsShifted(limit, unit);
    if k >= 5 { MulMonotone(5, k, unit); }
    MulMonotone(k + 2, Abs(k - 10), unit - 1);
    OneByteShorter(k, unit);
  }

  lemma OneByteShorter(k: nat, unit: nat)
    requires unit > 0
    ensures (k + 2) * (unit - 1) == (k + 1) * unit + unit - (k + 2)
  {
    NextMultiple(k + 1, unit);
    assert (k + 2) * (unit - 1) == (k + 2) * unit - (k + 2);
  }

  lemma ChunkSize<T>(c: seq<T>, size: T -> nat, most: nat)
    requires c != [] && forall x <- c :: size(x) <= most
    ensures ArraySize(c, size) <= |c| * (most + 2)
    ensures (forall x <- c :: size(x) == most) ==> ArraySize(c, size) == |c| * (most + 1) + 1
  {
    TotalSizeBound(c, size, most);
    assert |c| * (most + 2) == |c| * most + 2 * |c|;
    assert |c| * (most + 1) == |c| * most + |c|;
  }

  lemma {:induction false} ChunkMembers<T>(items: seq<T>, size: nat, c: seq<T>)
    requires c in Chunks(items, size)
    ensures forall x <- c :: x in items
    decreases |items|
  {
    if size > 0 && |items| > size && c != items[..size] {
      ChunkMembers(items[size..], size, c);
    }
  }

  lemma UnitSize<T>(x: T, size: T -> nat)
    ensures ArraySize([x], size) == size(x) + 2
  {
    assert TotalSize([x], size) == size(x) + TotalSize([], size);
  }

  /**
   * Every payload stays within the limit when the first item is the longest one and five of it
   * would fit, whatever the sign of the item count.
   */
  lemma PayloadsWithinLimit<T>(data: seq<T>, size: T -> nat, limitMb: nat)
    requires data != [] && forall x <- data :: size(x) <= size(data[0])
    requires BatchLength(data, size, limitMb) != 0
    requires 5 * (size(data[0]) + 2) <= limitMb * MEGABYTE
    ensures forall c <- Chunks(data, Abs(BatchLength(data, size, limitMb))) ::
              ArraySize(c, size) <= limitMb * MEGABYTE
  {
    UnitSize(data[0], size);
    LengthFits(limitMb * MEGABYTE, size(data[0]) + 2);
    ChunksWithin(data, size, Abs(BatchLength(data, size, limitMb)), limitMb * MEGABYTE);
  }

  lemma ChunksWithin<T>(data: seq<T>, size: T -> nat, m: nat, limit: nat)
    requires data != [] && m > 0 && forall x <- data :: size(x) <= size(data[0])
    requires m * (size(data[0]) + 2) <= limit
    ensures forall c <- Chunks(data, m) :: ArraySize(c, size) <= limit
  {
    ChunksPartition(data, m);
    forall c | c in Chunks(data, m) ensures ArraySize(c, size) <= limit {
      ChunkMembers(data, m, c);
      ChunkSize(c, size, size(data[0]));
      MulMonotone(|c|, m, size(data[0]) + 2);
    }
  }

  /** For items of one size that fill a batch, room for five items is exactly what the limit takes. */
  lemma PayloadLimitIff<T>(data: seq<T>, size: T -> nat, limitMb: nat)
    requires data != [] && forall x <- data :: size(x) == size(data[0])
    requires size(data[0]) >= 3
    requires BatchLength(data, size, limitMb) != 0 && |data| >= Abs(BatchLength(data, size, limitMb))
    ensures (forall c <- Chunks(data, Abs(BatchLength(data, size, limitMb))) ::
               ArraySize(c, size) <= limitMb * MEGABYTE)
            <==> 5 * (size(data[0]) + 2) <= limitMb * MEGABYTE
  {
    var unit, limit := size(data[0]) + 2, limitMb * MEGABYTE;
    UnitSize(data[0], size);
    if 5 * unit <= limit {
      PayloadsWithinLimit(data, size, limitMb);
    } else {
      var m := Abs(BatchLength(data, size, limitMb));
      var c := Chunks(data, m)[0];
      assert c == data[..m];
      ChunkSize(c, size, size(data[0]));
      LengthOverflows(limit, unit);
      assert c in Chunks(data, m);
    }
  }
}
