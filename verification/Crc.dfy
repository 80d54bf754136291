/**
 * The case-preserving name hash of tools/client_model/ue_tex.py, and the bit-at-a-time CRC-32
 * that it is the low half of (section 8 of RFC 1952). Machine words are their bits, least
 * significant first.
 */
module Crc {
  type Bits = seq<bool>
  type Word = w: Bits | |w| == 32 witness Zeros(32)

  function Zeros(n: nat): (b: Bits)
    ensures |b| == n && forall i :: 0 <= i < n ==> !b[i]
  {
    seq(n, _ => false)
  }

  /** The `n` low bits of a number. */
  function BitsOf(v: nat, n: nat): (b: Bits)
    ensures |b| == n
  {
    if n == 0 then [] else [v % 2 == 1] + BitsOf(v / 2, n - 1)
  }

  function Value(b: Bits): nat {
    if b == [] then 0 else (if b[0] then 1 else 0) + 2 * Value(b[1..])
  }

  /** Every bit string is the bits of its value, and the value fits. */
  lemma {:induction false} ValueRoundTrip(b: Bits)
    ensures BitsOf(Value(b), |b|) == b
  {
    if b != [] {
      ValueRoundTrip(b[1..]);
      assert Value(b) / 2 == Value(b[1..]);
    }
  }

  function Pow2(n: nat): nat { if n == 0 then 1 else 2 * Pow2(n - 1) }

  lemma {:induction false} ValueFits(b: Bits)
    ensures Value(b) < Pow2(|b|)
  {
    if b != [] { ValueFits(b[1..]); }
  }

  function Xor(a: Bits, b: Bits): (c: Bits)
    requires |a| == |b|
    ensures |c| == |a| && forall i :: 0 <= i < |a| ==> c[i] == (a[i] != b[i])
  {
    seq(|a|, i requires 0 <= i < |a| => a[i] != b[i])
  }

  function Shr(a: Bits, n: nat): (c: Bits)
    ensures |c| == |a| && forall i :: 0 <= i < |a| ==> c[i] == (i + n < |a| && a[i + n])
  {
    seq(|a|, i requires 0 <= i < |a| => i + n < |a| && a[i + n])
  }

  function Not(a: Bits): (c: Bits)
    ensures |c| == |a|
  {
    seq(|a|, i requires 0 <= i < |a| => !a[i])
  }

  /** A byte widened to a word. */
  function Widen(b: Bits): (w: Word)
    requires |b| == 8
    ensures forall i :: 0 <= i < 32 ==> w[i] == (i < 8 && b[i])
  {
    b + Zeros(24)
  }

  const POLY: Word := BitsOf(0xEDB88320, 32)
  const ONES: Word := Not(Zeros(32))

  /** One bit of the reflected polynomial division. */
  function Bit(c: Word): Word {
    if c[0] then Xor(Shr(c, 1), POLY) else Shr(c, 1)
  }

  function Steps(c: Word, n: nat): Word {
    if n == 0 then c else Bit(Steps(c, n - 1))
  }

  /** The register after some bytes: each is mixed into the low end and shifted out bit by bit. */
  function Register(bytes: seq<Bits>): Word
    requires forall i :: 0 <= i < |bytes| ==> |bytes[i]| == 8
  {
    if bytes == [] then ONES
    else Steps(Xor(Register(bytes[..|bytes| - 1]), Widen(bytes[|bytes| - 1])), 8)
  }

  /** CRC-32 of a byte string. */
  function Crc32(bytes: seq<Bits>): Word
    requires forall i :: 0 <= i < |bytes| ==> |bytes[i]| == 8
  {
    Not(Register(bytes))
  }

  /** A character as four little-endian bytes. */
  function CharBytes(ch: char): (bs: seq<Bits>)
    ensures |bs| == 4 && forall i :: 0 <= i < 4 ==> |bs[i]| == 8
  {
    seq(4, k requires 0 <= k < 4 => Shr(BitsOf(ch as int, 32), 8 * k)[..8])
  }

  function StringBytes(s: string): (bs: seq<Bits>)
    ensures forall i :: 0 <= i < |bs| ==> |bs[i]| == 8
  {
    if s == [] then [] else StringBytes(s[..|s| - 1]) + CharBytes(s[|s| - 1])
  }

  // ----- eight bits at once -----

  /** Shifting through the polynomial is linear. */
  lemma BitLinear(a: Word, b: Word)
    ensures Bit(Xor(a, b)) == Xor(Bit(a), Bit(b))
  {
    assert Shr(Xor(a, b), 1) == Xor(Shr(a, 1), Shr(b, 1));
    assert Xor(Xor(Shr(a, 1), Shr(b, 1)), POLY) == Xor(Xor(Shr(a, 1), POLY), Shr(b, 1));
    assert Xor(Xor(Shr(a, 1), Shr(b, 1)), POLY) == Xor(Shr(a, 1), Xor(Shr(b, 1), POLY));
    assert Xor(Shr(a, 1), Shr(b, 1)) == Xor(Xor(Shr(a, 1), POLY), Xor(Shr(b, 1), POLY));
  }

  lemma {:induction false} StepsLinear(a: Word, b: Word, n: nat)
    ensures Steps(Xor(a, b), n) == Xor(Steps(a, n), Steps(b, n))
  {
    if n > 0 {
      StepsLinear(a, b, n - 1);
      BitLinear(Steps(a, n - 1), Steps(b, n - 1));
    }
  }

  /** Steps that meet no set bit only shift. */
  lemma {:induction false} StepsShift(a: Word, n: nat)
    requires n <= 32 && forall i :: 0 <= i < n ==> !a[i]
    ensures Steps(a, n) == Shr(a, n)
  {
    if n == 0 {
      assert Shr(a, 0) == a;
    } else {
      StepsShift(a, n - 1);
      assert Shr(Shr(a, n - 1), 1) == Shr(a, n);
    }
  }

  /** The low byte decides which multiples of the polynomial are folded in; the rest just shifts. */
  lemma ShiftsSplit(x: Word)
    ensures Steps(x, 8) == Xor(Shr(x, 8), Steps(Widen(x[..8]), 8))
  {
    var high: Word := Zeros(8) + x[8..];
    assert x == Xor(high, Widen(x[..8]));
    StepsLinear(high, Widen(x[..8]), 8);
    StepsShift(high, 8);
    assert Shr(high, 8) == Shr(x, 8);
  }

  // ----- the table-driven hash -----

  /** Entry `i` of the table is eight steps on the byte `i`. */
  ghost predicate IsTable(t: seq<Word>) {
    |t| == 256 && forall i :: 0 <= i < 256 ==> t[i] == Steps(Widen(BitsOf(i, 8)), 8)
  }

  /** The reflected table, built by shifting every byte through eight bits. */
  method BuildTable() returns (t: seq<Word>)
    ensures IsTable(t)
  {
    t := [];
    var i := 0;
    while i < 256
      invariant 0 <= i <= 256 && |t| == i
      invariant forall k :: 0 <= k < i ==> t[k] == Steps(Widen(BitsOf(k, 8)), 8)
    {
      var c: Word := Widen(BitsOf(i, 8));
      var step := 0;
      while step < 8
        invariant 0 <= step <= 8 && c == Steps(Widen(BitsOf(i, 8)), step)
      {
        c := if c[0] then Xor(Shr(c, 1), POLY) else Shr(c, 1);
        step := step + 1;
      }
      t := t + [c];
      i := i + 1;
    }
  }

  lemma LookupIsSteps(t: seq<Word>, b: Bits)
    requires IsTable(t) && |b| == 8
    ensures Value(b) < 256 && t[Value(b)] == Steps(Widen(b), 8)
  {
    ValueFits(b);
    assert Pow2(8) == 256;
    ValueRoundTrip(b);
  }

  /** One table step is eight bit steps on the byte. */
  lemma TableStep(t: seq<Word>, crc: Word, cv: Word)
    requires IsTable(t)
    ensures Value(Xor(crc, cv)[..8]) < 256
    ensures Xor(Shr(crc, 8), t[Value(Xor(crc, cv)[..8])]) == Steps(Xor(crc, Widen(cv[..8])), 8)
  {
    var x: Word := Xor(crc, Widen(cv[..8]));
    LookupIsSteps(t, Xor(crc, cv)[..8]);
    ShiftsSplit(x);
    assert x[..8] == Xor(crc, cv)[..8];
    assert Shr(x, 8) == Shr(crc, 8);
  }

  ghost predicate AllBytes(bs: seq<Bits>) { forall i :: 0 <= i < |bs| ==> |bs[i]| == 8 }

  lemma RegisterSnoc(bytes: seq<Bits>, b: Bits)
    requires AllBytes(bytes) && |b| == 8
    ensures AllBytes(bytes + [b])
    ensures Register(bytes + [b]) == Steps(Xor(Register(bytes), Widen(b)), 8)
  {
    assert (bytes + [b])[..|bytes|] == bytes;
  }

  /** One table step takes the register over one more byte. */
  lemma ByteStep(t: seq<Word>, bytes: seq<Bits>, crc: Word, cv: Word)
    requires IsTable(t) && AllBytes(bytes) && crc == Register(bytes)
    ensures Value(Xor(crc, cv)[..8]) < 256 && AllBytes(bytes + [cv[..8]])
    ensures Register(bytes + [cv[..8]]) == Xor(Shr(crc, 8), t[Value(Xor(crc, cv)[..8])])
  {
    TableStep(t, crc, cv);
    RegisterSnoc(bytes, cv[..8]);
  }

  /** The character's shifted code, whose low byte comes next. */
  function CodeFrom(ch: char, k: nat): Word
    requires k <= 4
  {
    Shr(BitsOf(ch as int, 32), 8 * k)
  }

  lemma NextByte(ch: char, k: nat, before: seq<Bits>)
    requires k < 4
    ensures before + CharBytes(ch)[..k + 1] == before + CharBytes(ch)[..k] + [CodeFrom(ch, k)[..8]]
    ensures Shr(CodeFrom(ch, k), 8) == CodeFrom(ch, k + 1)
  {
  }

  /** The four table steps of one character. */
  method HashChar(t: seq<Word>, start: Word, ch: char, ghost before: seq<Bits>) returns (crc: Word)
    requires IsTable(t) && AllBytes(before) && start == Register(before)
    ensures AllBytes(before + CharBytes(ch)) && crc == Register(before + CharBytes(ch))
  {
    hide Register, Steps, Xor, CodeFrom, BitsOf, Shr;
    crc := start;
    var cv: Word := BitsOf(ch as int, 32);
    var k := 0;
    WholeCode(ch, before);
    while k < 4
      invariant 0 <= k <= 4 && cv == CodeFrom(ch, k)
      invariant AllBytes(before + CharBytes(ch)[..k]) && crc == Register(before + CharBytes(ch)[..k])
    {
      ByteStep(t, before + CharBytes(ch)[..k], crc, cv);
      NextByte(ch, k, before);
      crc := Xor(Shr(crc, 8), t[Value(Xor(crc, cv)[..8])]);
      cv := Shr(cv, 8);
      k := k + 1;
    }
  }

  lemma WholeCode(ch: char, before: seq<Bits>)
    ensures CodeFrom(ch, 0) == BitsOf(ch as int, 32)
    ensures before + CharBytes(ch)[..0] == before && CharBytes(ch)[..4] == CharBytes(ch)
  {
  }

  /** `case_hash16`: the low half of the CRC-32 of the string, four bytes a character. */
  method CaseHash16(t: seq<Word>, s: string) returns (h: nat)
    requires IsTable(t)
    ensures h == Value(Crc32(StringBytes(s))[..16])
  {
    var crc := ONES;
    var i := 0;
    while i < |s|
      invariant 0 <= i <= |s| && crc == Register(StringBytes(s[..i]))
    {
      crc := HashChar(t, crc, s[i], StringBytes(s[..i]));
      assert s[..i + 1][..i] == s[..i];
      i := i + 1;
    }
    assert s[..|s|] == s;
    return Value(Not(crc)[..16]);
  }
}
