/** The snapshot file format, written and read back (pkg/fsm/fsm_snapshot.go, pkg/utils/misc.go). */
module Snapshot {

  type Byte = x: int | 0 <= x < 256

  const MAX_UINT64 := 0xFFFF_FFFF_FFFF_FFFF
  const TWO_64 := 0x1_0000_0000_0000_0000
  const TWO_63 := 0x8000_0000_0000_0000

  // ---- little-endian numbers ----

  function Power(n: nat): nat {
    if n == 0 then 1 else 256 * Power(n - 1)
  }

  function Encode(v: nat, n: nat): (b: seq<Byte>)
    ensures |b| == n
    decreases n
  {
    if n == 0 then [] else [v % 256] + Encode(v / 256, n - 1)
  }

  function Decode(b: seq<Byte>): nat {
    if b == [] then 0 else b[0] + 256 * Decode(b[1..])
  }

  lemma {:induction false} DecodeEncode(v: nat, n: nat)
    requires v < Power(n)
    ensures Decode(Encode(v, n)) == v
    decreases n
  {
    if n > 0 {
      DecodeEncode(v / 256, n - 1);
      assert Encode(v, n)[1..] == Encode(v / 256, n - 1);
    }
  }

  /** The low bytes come first: what follows `n` bytes counts 256^n. */
  lemma {:induction false} LowBytesFirst(a: seq<Byte>, b: seq<Byte>)
    ensures Decode(a + b) == Decode(a) + Power(|a|) * Decode(b)
  {
    if a == [] {
      assert a + b == b;
    } else {
      LowBytesFirst(a[1..], b);
      assert (a + b)[0] == a[0] && (a + b)[1..] == a[1..] + b;
      Regroup(Power(|a| - 1), Decode(b));
    }
  }

  lemma Regroup(p: nat, d: nat)
    ensures 256 * (p * d) == 256 * p * d
  {
  }

  lemma {:induction false} EncodeDecode(b: seq<Byte>)
    ensures Decode(b) < Power(|b|) && Encode(Decode(b), |b|) == b
  {
    if b != [] {
      EncodeDecode(b[1..]);
      assert Decode(b) / 256 == Decode(b[1..]) && Decode(b) % 256 == b[0];
      assert b == [b[0]] + b[1..];
    }
  }

  lemma EightBytes()
    ensures Power(8) == TWO_64
  {
    assert Power(2) == 0x1_0000;
    assert Power(4) == 0x1_0000_0000;
    assert Power(6) == 0x1_0000_0000_0000;
  }

  function Uint64(v: nat): (b: seq<Byte>)
    requires v < TWO_64
    ensures |b| == 8 && Decode(b) == v
  {
    EightBytes();
    DecodeEncode(v, 8);
    Encode(v, 8)
  }

  // ---- the two formats ----

  datatype Option<+T> = None | Some(value: T)

  datatype Gzip = Gzip(compress: seq<Byte> -> seq<Byte>, expand: seq<Byte> -> Option<seq<Byte>>)

  /** What is relied on: expanding undoes compressing, and something is always written. */
  ghost predicate Faithful(gz: Gzip) {
    forall b :: gz.compress(b) != [] && gz.expand(gz.compress(b)) == Some(b)
  }

  /** The compressed form: the marker, the length of the body, the body. */
  function Persisted(gz: Gzip, image: seq<Byte>): seq<Byte>
    requires |gz.compress(image)| < TWO_64
  {
    Uint64(MAX_UINT64) + Uint64(|gz.compress(image)|) + gz.compress(image)
  }

  /** The older form: the length of the image and the image. */
  function Plain(image: seq<Byte>): seq<Byte>
    requires |image| < TWO_64
  {
    Uint64(|image|) + image
  }

  /** Where a snapshot is written; each operation may fail. */
  class Sink {
    var content: seq<Byte>
    var closed: bool
    var cancelled: bool

    constructor ()
      ensures content == [] && !closed && !cancelled
    {
      content, closed, cancelled := [], false, false;
    }

    method Write(data: seq<Byte>, fails: bool) returns (ok: bool)
      modifies this`content
      ensures ok == !fails
      ensures ok ==> content == old(content) + data
    {
      if fails {
        var n :| 0 <= n <= |data|;
        content := content + data[..n];
        return false;
      }
      content := content + data;
      return true;
    }
  }

  /** `fails(k)` tells whether the sink's operation number `k` fails: three writes and the close. */
  predicate Accepts(fails: nat -> bool) {
    !fails(0) && !fails(1) && !fails(2) && !fails(3)
  }

  method Persist(gz: Gzip, image: seq<Byte>, sink: Sink, fails: nat -> bool) returns (ok: bool)
    requires sink.content == [] && !sink.closed && !sink.cancelled && |gz.compress(image)| < TWO_64
    modifies sink
    ensures ok <==> Accepts(fails)
    ensures ok ==> sink.content == Persisted(gz, image) && sink.closed && !sink.cancelled
    ensures !ok ==> sink.cancelled
  {
    var compressed := gz.compress(image);
    ok := WriteParts(sink, Uint64(MAX_UINT64), Uint64(|compressed|), compressed, fails);
    if !ok { sink.cancelled := true; }
  }

  method WriteParts(sink: Sink, marker: seq<Byte>, size: seq<Byte>, body: seq<Byte>, fails: nat -> bool)
    returns (ok: bool)
    requires sink.content == []
    modifies sink`content, sink`closed
    ensures ok <==> Accepts(fails)
    ensures ok ==> sink.content == marker + size + body && sink.closed
  {
    ok := sink.Write(marker, fails(0));
    if !ok { return; }
    ok := sink.Write(size, fails(1));
    if !ok { return; }
    ok := sink.Write(body, fails(2));
    if !ok { return; }
    assert [] + marker + size + body == marker + size + body;
    ok := !fails(3);
    if ok { sink.closed := true; }
  }

  // ---- reading ----

  /** A read ends in the image, none for an empty one; an error; or a slice past the buffer's capacity. */
  datatype Reading = Panicked | Err | Ok(image: Option<seq<Byte>>)

  /** A slice expression is bounded by the capacity, not the length, of what it slices. */
  function Slice(buffer: seq<Byte>, lo: int, hi: int): Option<seq<Byte>> {
    if 0 <= lo <= hi <= |buffer| then Some(buffer[lo..hi]) else None
  }

  /** Signed 64-bit arithmetic. */
  function Int64(x: int): (r: int)
    ensures -TWO_63 <= r < TWO_63 && (r - x) % TWO_64 == 0
  {
    var m := x % TWO_64;
    if m < TWO_63 then m else m - TWO_64
  }

  /** What the file `b` stands for, with `spare` the unused capacity behind it in memory. */
  function Parsed(gz: Gzip, b: seq<Byte>, spare: seq<Byte>): Reading {
    var buffer := b + spare;
    if |buffer| < 8 then Panicked
    else if Decode(buffer[..8]) == MAX_UINT64 then
      if |buffer| < 16 then Panicked
      else Body(gz, buffer[16..], Decode(buffer[8..16]))
    else
      var size := Decode(buffer[..8]);
      if size == 0 then Ok(None)
      else if size >= TWO_63 - 8 then if |b| + TWO_64 < 8 + size then Err else Panicked
      else if |b| < 8 + size then Err
      else Ok(Some(b[8..8 + size]))
  }

  /** The compressed body is not checked against the length of the file, only against the capacity. */
  function Body(gz: Gzip, rest: seq<Byte>, size: nat): Reading {
    if size == 0 then Ok(None)
    else if size > |rest| then Panicked
    else if gz.expand(rest[..size]) == None then Err
    else Ok(gz.expand(rest[..size]))
  }

  method BytesFromSnapshot(gz: Gzip, b: seq<Byte>, spare: seq<Byte>) returns (r: Reading)
    requires |b| + |spare| < TWO_63 - 16
    ensures r == Parsed(gz, b, spare)
  {
    var inc, offset, buffer := 8, 0, b + spare;
    var head := Slice(buffer, offset, Int64(offset + inc));
    if head.None? { return Panicked; }
    EncodeDecode(head.value);
    EightBytes();
    var sz := Decode(head.value);
    offset := offset + inc;
    var compressed := false;
    if sz == MAX_UINT64 {
      compressed := true;
      head := Slice(buffer, offset, Int64(offset + inc));
      if head.None? { return Panicked; }
      EncodeDecode(head.value);
      sz := Decode(head.value);
      offset := offset + inc;
    }
    if sz == 0 { return Ok(None); }
    EndOfSlice(offset, sz);
    var end := Int64(offset + Int64(sz));
    if compressed {
      var body := Slice(buffer, offset, end);
      if body.None? { return Panicked; }
      assert body.value == buffer[16..][..sz];
      var expanded := gz.expand(body.value);
      return if expanded.None? then Err else Ok(expanded);
    }
    if |b| < end { return Err; }
    var image := Slice(buffer, offset, end);
    if image.None? { return Panicked; }
    assert image.value == b[8..8 + sz];
    return Ok(image);
  }

  /** A size too large for the signed arithmetic leads to an end before the start. */
  lemma EndOfSlice(offset: nat, size: nat)
    requires offset <= 16 && size < TWO_64
    ensures var end := Int64(offset + Int64(size));
            end == if offset + size < TWO_63 then offset + size else offset + size - TWO_64
  {
  }

  // ---- round trips ----

  /** A file with the marker in front is read as a compressed body. */
  lemma MarkedFile(gz: Gzip, marker: seq<Byte>, size: seq<Byte>, body: seq<Byte>, spare: seq<Byte>)
    requires |marker| == |size| == 8 && Decode(marker) == MAX_UINT64
    ensures Parsed(gz, marker + size + body, spare) == Body(gz, body + spare, Decode(size))
  {
    Parts(marker, size, body, spare);
  }

  lemma Parts(a: seq<Byte>, b: seq<Byte>, c: seq<Byte>, spare: seq<Byte>)
    requires |a| == |b| == 8
    ensures var buffer := a + b + c + spare;
            buffer[..8] == a && buffer[8..16] == b && buffer[16..] == c + spare
  {
  }

  /** Whatever lies behind the file in memory, reading back what Persist wrote returns the image. */
  lemma PersistRoundTrip(gz: Gzip, image: seq<Byte>, spare: seq<Byte>)
    requires Faithful(gz) && |gz.compress(image)| < TWO_64
    ensures Parsed(gz, Persisted(gz, image), spare) == Ok(Some(image))
  {
    var body := gz.compress(image);
    MarkedFile(gz, Uint64(MAX_UINT64), Uint64(|body|), body, spare);
    assert (body + spare)[..|body|] == body;
  }

  /** A file of the older form is read back too, for every image whose length leaves the marker free. */
  lemma PlainRoundTrip(gz: Gzip, image: seq<Byte>, spare: seq<Byte>)
    requires |image| < TWO_63 - 8
    ensures Parsed(gz, Plain(image), spare) == Ok(if image == [] then None else Some(image))
  {
    var b := Plain(image);
    assert (b + spare)[..8] == Uint64(|image|);
    assert image != [] ==> b[8..8 + |image|] == image;
  }

  /** A file of the older form that is cut off is an error, however much is missing. */
  lemma TruncatedPlain(gz: Gzip, image: seq<Byte>, kept: nat, spare: seq<Byte>)
    requires |image| < TWO_63 - 8 && kept < |image|
    ensures Parsed(gz, Plain(image)[..8 + kept], spare) == Err
  {
    assert (Plain(image)[..8 + kept] + spare)[..8] == Uint64(|image|);
  }

  /** The two forms never look alike. */
  lemma FormsAreDisjoint(gz: Gzip, image: seq<Byte>, plain: seq<Byte>)
    requires |gz.compress(image)| < TWO_64 && |plain| < MAX_UINT64
    ensures Persisted(gz, image)[..8] != Plain(plain)[..8]
  {
    assert Persisted(gz, image)[..8] == Uint64(MAX_UINT64) && Plain(plain)[..8] == Uint64(|plain|);
  }

  lemma CutFile(a: seq<Byte>, b: seq<Byte>, c: seq<Byte>, kept: nat)
    requires |a| == |b| == 8 && kept <= |c|
    ensures (a + b + c)[..16 + kept] == a + b + c[..kept]
  {
  }

  /**
   * A compressed file cut off inside its body is noticed as such only when the missing part is
   * longer than the spare capacity; otherwise the gap is filled from there.
   */
  lemma TruncatedBody(gz: Gzip, image: seq<Byte>, kept: nat, spare: seq<Byte>)
    requires |gz.compress(image)| < TWO_64 && kept < |gz.compress(image)|
    ensures var body := gz.compress(image);
            var r := Parsed(gz, Persisted(gz, image)[..16 + kept], spare);
            && (r == Panicked <==> |body| - kept > |spare|)
            && (|body| - kept <= |spare| ==>
                  var filled := gz.expand(body[..kept] + spare[..|body| - kept]);
                  r == if filled == None then Err else Ok(filled))
  {
    var body := gz.compress(image);
    var marker, size := Uint64(MAX_UINT64), Uint64(|body|);
    CutFile(marker, size, body, kept);
    MarkedFile(gz, marker, size, body[..kept], spare);
    if |body| - kept <= |spare| {
      FilledUp(body, kept, spare);
    }
  }

  lemma FilledUp(body: seq<Byte>, kept: nat, spare: seq<Byte>)
    requires kept <= |body| && |body| - kept <= |spare|
    ensures (body[..kept] + spare)[..|body|] == body[..kept] + spare[..|body| - kept]
  {
  }

  /** An empty file over cleared memory reads as an empty database, not as an error. */
  lemma EmptyFile(gz: Gzip, spare: seq<Byte>)
    requires |spare| >= 8 && spare[..8] == [0, 0, 0, 0, 0, 0, 0, 0]
    ensures Parsed(gz, [], spare) == Ok(None)
  {
    assert [] + spare == spare;
    assert Decode(spare[..8]) == 0 by {
      EightBytes();
      assert Uint64(0) == [0, 0, 0, 0, 0, 0, 0, 0];
    }
  }
}
