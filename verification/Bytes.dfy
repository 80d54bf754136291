/** Little-endian integers as the cooked files store them. */
module Bytes {
  import opened Results

  type Data = seq<Byte>

  predicate InI32(v: int) { -0x8000_0000 <= v < 0x8000_0000 }
  predicate InI64(v: int) { -0x8000_0000_0000_0000 <= v < 0x8000_0000_0000_0000 }

  /** The unsigned number in the first four bytes. */
  function U32At(b: Data): (v: int)
    requires |b| >= 4
    ensures 0 <= v < 0x1_0000_0000
  {
    b[0] as int + 0x100 * b[1] as int + 0x1_0000 * b[2] as int + 0x100_0000 * b[3] as int
  }

  function EncU32(v: int): (b: Data)
    requires 0 <= v < 0x1_0000_0000
    ensures |b| == 4
  {
    [v % 0x100, v / 0x100 % 0x100, v / 0x1_0000 % 0x100, v / 0x100_0000]
  }

  function DecI32(b: Data): (v: int)
    requires |b| >= 4
    ensures InI32(v)
  {
    var u := U32At(b);
    if u < 0x8000_0000 then u else u - 0x1_0000_0000
  }

  function EncI32(v: int): (b: Data)
    requires InI32(v)
    ensures |b| == 4
  {
    EncU32(if v >= 0 then v else v + 0x1_0000_0000)
  }

  function DecI64(b: Data): (v: int)
    requires |b| >= 8
    ensures InI64(v)
  {
    U32At(b) + 0x1_0000_0000 * DecI32(b[4..])
  }

  function EncI64(v: int): (b: Data)
    requires InI64(v)
    ensures |b| == 8
  {
    EncU32(v % 0x1_0000_0000) + EncI32(v / 0x1_0000_0000)
  }

  lemma U32RoundTrip(v: int, rest: Data)
    requires 0 <= v < 0x1_0000_0000
    ensures U32At(EncU32(v) + rest) == v
  {
    var a, b, c := v / 0x100, v / 0x1_0000, v / 0x100_0000;
    assert a == 0x100 * b + a % 0x100 && b == 0x100 * c + b % 0x100 && c < 0x100;
  }

  /** Reading a written 32-bit number gives it back, whatever follows. */
  lemma I32RoundTrip(v: int, rest: Data)
    requires InI32(v)
    ensures DecI32(EncI32(v) + rest) == v
  {
    U32RoundTrip(if v >= 0 then v else v + 0x1_0000_0000, rest);
  }

  lemma I64RoundTrip(v: int, rest: Data)
    requires InI64(v)
    ensures DecI64(EncI64(v) + rest) == v
  {
    var lo, hi := EncU32(v % 0x1_0000_0000), EncI32(v / 0x1_0000_0000);
    assert lo + hi + rest == lo + (hi + rest);
    assert (lo + hi + rest)[4..] == hi + rest;
    U32RoundTrip(v % 0x1_0000_0000, hi + rest);
    I32RoundTrip(v / 0x1_0000_0000, rest);
  }

  lemma I32Prefix(b: Data, rest: Data)
    requires |b| >= 4
    ensures DecI32(b + rest) == DecI32(b)
  {
  }

  lemma DropDrop(b: Data, i: nat, j: nat)
    requires i + j <= |b|
    ensures b[i..][j..] == b[i + j..]
  {
  }

  /** The bytes of a counted array's elements: the count times the element size. */
  function ArrayBytes(count: int, elem: nat): int {
    if elem == 0 then 0 else count + ArrayBytes(count, elem - 1)
  }

  lemma {:induction false} ArrayBytesIsProduct(count: int, elem: nat)
    ensures ArrayBytes(count, elem) == count * elem
  {
    if elem > 0 {
      ArrayBytesIsProduct(count, elem - 1);
      assert count * elem == count + count * (elem - 1);
    }
  }

  /** `struct.pack_into`: overwrite the bytes at an offset. */
  function Patch(b: Data, at: nat, x: Data): (r: Data)
    requires at + |x| <= |b|
    ensures |r| == |b|
    ensures r[at..at + |x|] == x
    ensures forall i :: 0 <= i < |b| && !(at <= i < at + |x|) ==> r[i] == b[i]
  {
    b[..at] + x + b[at + |x|..]
  }

  /** Python's slice `b[i:j]` for any integers. */
  function Norm(i: int, n: nat): (r: nat)
    ensures r <= n
    ensures 0 <= i <= n ==> r == i
  {
    if i < 0 then (if i + n < 0 then 0 else i + n) else if i > n then n else i
  }

  function Slice(b: Data, i: int, j: int): Data {
    var lo, hi := Norm(i, |b|), Norm(j, |b|);
    if lo < hi then b[lo..hi] else []
  }

  /** `struct.unpack_from` of `n` bytes at an offset that may be negative; `None` is its error. */
  function Unpack(b: Data, o: int, n: nat): (r: Option<Data>)
    ensures r.Some? ==> |r.value| == n
    ensures 0 <= o && o + n <= |b| ==> r == Some(b[o..o + n])
    ensures o >= 0 && r.Some? ==> o + n <= |b|
  {
    var p := if o < 0 then o + |b| else o;
    if 0 <= p && p + n <= |b| then Some(b[p..p + n]) else None
  }
}
