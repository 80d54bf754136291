/** Bytes and numbers found at offsets of a file, and in the parts it is put together from. */
module FoundBytes {
  import opened Results
  import opened Bytes

  /** These bytes are found at this offset. */
  ghost predicate Finds(b: Data, at: int, x: Data) { 0 <= at && at + |x| <= |b| && b[at..at + |x|] == x }

  /** The i32 at an offset inside the bytes. */
  predicate ReadsI32(b: Data, at: int, v: int) { 0 <= at && at + 4 <= |b| && DecI32(b[at..]) == v }

  /** What is found in a part is found in the whole, further on. */
  lemma FindsInside(b: Data, at: int, part: Data, off: int, x: Data)
    requires Finds(b, at, part) && Finds(part, off, x)
    ensures Finds(b, at + off, x)
  {
    assert at + off + |x| <= at + |part| <= |b|;
    SliceSlice(b, at, at + |part|, off, off + |x|);
  }

  lemma SliceSlice(b: Data, i: nat, j: nat, k: nat, l: nat)
    requires i <= j <= |b| && k <= l <= j - i
    ensures b[i..j][k..l] == b[i + k..i + l]
  {
    forall m | 0 <= m < l - k ensures b[i..j][k..l][m] == b[i + k..i + l][m] { assert b[i..j][k + m] == b[i + k + m]; }
  }

  lemma FindsMiddle(a: Data, x: Data, rest: Data)
    ensures Finds(a + x + rest, |a|, x)
  {
  }

  lemma FoundI32(b: Data, at: int, v: int)
    requires InI32(v) && Finds(b, at, EncI32(v))
    ensures ReadsI32(b, at, v)
  {
    hide EncI32, DecI32;
    assert b[at..] == EncI32(v) + b[at + 4..];
    I32RoundTrip(v, b[at + 4..]);
  }

  lemma SmallU32(v: int)
    requires 0 <= v < 0x8000_0000
    ensures EncU32(v) == EncI32(v)
  {
  }

  /** Every one of these is found at its offset. */
  ghost predicate FindsAll(b: Data, fs: seq<(int, Data)>) {
    forall i :: 0 <= i < |fs| ==> Finds(b, fs[i].0, fs[i].1)
  }

  lemma OneMorePart(b: Data, fs: seq<(int, Data)>, x: Data)
    requires FindsAll(b, fs)
    ensures FindsAll(b + x, fs + [(|b|, x)])
  {
    var more := fs + [(|b|, x)];
    forall i | 0 <= i < |more| ensures Finds(b + x, more[i].0, more[i].1) {
      if i < |fs| { assert Finds(b, fs[i].0, fs[i].1); }
    }
  }

  lemma OneOnly(a: Data)
    ensures FindsAll(a, [(0, a)])
  {
  }

  lemma FindsAt(b: Data, fs: seq<(int, Data)>, i: nat)
    requires FindsAll(b, fs) && i < |fs|
    ensures Finds(b, fs[i].0, fs[i].1)
  {
  }

  /** A 32-bit number stands at each of these offsets. */
  ghost predicate Numbers(b: Data, at: seq<(int, int)>) {
    forall i :: 0 <= i < |at| ==> ReadsI32(b, at[i].0, at[i].1)
  }

  lemma NumberInside(b: Data, at: int, part: Data, off: int, v: int)
    requires InI32(v) && Finds(b, at, part) && Finds(part, off, EncI32(v))
    ensures ReadsI32(b, at + off, v)
  {
    hide EncI32, DecI32, Finds;
    FindsInside(b, at, part, off, EncI32(v));
    FoundI32(b, at + off, v);
  }

  lemma TwoNumbers(b: Data, at: int, v: int, at2: int, v2: int)
    requires ReadsI32(b, at, v) && ReadsI32(b, at2, v2)
    ensures Numbers(b, [(at, v), (at2, v2)])
  {
  }
}
