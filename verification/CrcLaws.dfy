/**
 * The polynomial behind the two name hashes of tools/client_model/ue_tex.py, and what the second hash
 * makes of letter case.
 */
module CrcLaws {
  import opened Results
  import opened Crc
  import opened UeTex

  // ----- the generator -----

  /** The powers of the CRC-32 generator below 32: x^26 + x^23 + ... + x + 1. */
  predicate IsPower(k: int) { k in {0, 1, 2, 4, 5, 7, 8, 10, 11, 12, 16, 22, 23, 26} }

  lemma FourBits(v: nat, n: nat)
    ensures BitsOf(v, n + 4)
         == [v % 2 == 1, v / 2 % 2 == 1, v / 4 % 2 == 1, v / 8 % 2 == 1] + BitsOf(v / 16, n)
  {
    assert v / 2 / 2 == v / 4 && v / 4 / 2 == v / 8 && v / 8 / 2 == v / 16;
    assert BitsOf(v, n + 4) == [v % 2 == 1] + BitsOf(v / 2, n + 3);
    assert BitsOf(v / 2, n + 3) == [v / 2 % 2 == 1] + BitsOf(v / 4, n + 2);
    assert BitsOf(v / 4, n + 2) == [v / 4 % 2 == 1] + BitsOf(v / 8, n + 1);
    assert BitsOf(v / 8, n + 1) == [v / 8 % 2 == 1] + BitsOf(v / 16, n);
  }

  lemma EightBits(v: nat, n: nat)
    ensures BitsOf(v, n + 8)
         == [v % 2 == 1, v / 2 % 2 == 1, v / 4 % 2 == 1, v / 8 % 2 == 1]
          + [v / 16 % 2 == 1, v / 32 % 2 == 1, v / 64 % 2 == 1, v / 128 % 2 == 1] + BitsOf(v / 256, n)
  {
    hide BitsOf;
    FourBits(v, n + 4);
    FourBits(v / 16, n);
    Sixteenths(v);
    var low := [v % 2 == 1, v / 2 % 2 == 1, v / 4 % 2 == 1, v / 8 % 2 == 1];
    assert BitsOf(v, n + 8) == low + BitsOf(v / 16, n + 4);
  }

  lemma Sixteenths(v: nat)
    ensures v / 16 / 2 == v / 32 && v / 16 / 4 == v / 64 && v / 16 / 8 == v / 128 && v / 16 / 16 == v / 256
  {
  }

  lemma NoBits(v: nat)
    ensures BitsOf(v, 0) == []
  {
  }

  lemma ReflectedLow()
    ensures BitsOf(0xEDB88320, 32)
         == [false, false, false, false, false, true, false, false]
          + [true, true, false, false, false, false, false, true] + BitsOf(0xEDB8, 16)
  {
    hide BitsOf;
    EightBits(0xEDB88320, 24);
    EightBits(0xEDB883, 16);
  }

  lemma ReflectedHigh()
    ensures BitsOf(0xEDB8, 16)
         == [false, false, false, true, true, true, false, true]
          + [true, false, true, true, false, true, true, true]
  {
    hide BitsOf;
    EightBits(0xEDB8, 8);
    EightBits(0xED, 0);
    NoBits(0);
  }

  lemma ForwardLow()
    ensures BitsOf(0x04C11DB7, 32)
         == [true, true, true, false, true, true, false, true]
          + [true, false, true, true, true, false, false, false] + BitsOf(0x04C1, 16)
  {
    hide BitsOf;
    EightBits(0x04C11DB7, 24);
    EightBits(0x04C11D, 16);
  }

  lemma ForwardHigh()
    ensures BitsOf(0x04C1, 16)
         == [true, false, false, false, false, false, true, true]
          + [false, false, true, false, false, false, false, false]
  {
    hide BitsOf;
    EightBits(0x04C1, 8);
    EightBits(0x04, 0);
    NoBits(0);
  }

  /** Both tables are built from the CRC-32 generator, the one reflected and the other not. */
  lemma GeneratorPowers(k: nat)
    requires k < 32
    ensures POLY[31 - k] <==> IsPower(k)
    ensures MSB_POLY[k] <==> IsPower(k)
  {
    ReflectedLow();
    ReflectedHigh();
    ForwardLow();
    ForwardHigh();
    hide BitsOf;
    assert POLY == BitsOf(0xEDB88320, 32) && MSB_POLY == BitsOf(0x04C11DB7, 32);
  }

  // ----- the two tables mirror each other -----

  function Mirrored(w: Bits): (r: Bits)
    ensures |r| == |w|
  {
    seq(|w|, i requires 0 <= i < |w| => w[|w| - 1 - i])
  }

  lemma PolysMirror()
    ensures Mirrored(POLY) == MSB_POLY
  {
    hide BitsOf;
    forall k | 0 <= k < 32 ensures Mirrored(POLY)[k] == MSB_POLY[k] { GeneratorPowers(k); }
  }

  lemma BitMirrors(c: Word)
    ensures Mirrored(Bit(c)) == if Mirrored(c)[31] then Xor([false] + Mirrored(c)[..31], MSB_POLY)
                                else [false] + Mirrored(c)[..31]
  {
    PolysMirror();
    hide BitsOf;
    assert Mirrored(Shr(c, 1)) == [false] + Mirrored(c)[..31];
    if c[0] { assert Mirrored(Xor(Shr(c, 1), POLY)) == Xor(Mirrored(Shr(c, 1)), Mirrored(POLY)); }
  }

  /** Shifting through the generator from the top is shifting through it from the bottom, mirrored. */
  lemma {:induction false} StepsMirror(c: Word, n: nat)
    ensures MsbSteps(Mirrored(c), n) == Mirrored(Steps(c, n))
  {
    if n > 0 {
      StepsMirror(c, n - 1);
      BitMirrors(Steps(c, n - 1));
      hide Bit, Xor;
    }
  }

  // ----- letter case -----

  /** The two characters differ in case only: a letter of ASCII or Latin-1 and its capital, or not at all. */
  predicate SameLetter(a: char, b: char) {
    a == b || IsCapitalOf(a, b) || IsCapitalOf(b, a)
  }

  predicate IsCapitalOf(a: char, b: char) {
    b as int == a as int + 32 && ('A' <= a <= 'Z' || (0xC0 <= a as int <= 0xDE && a as int != 0xD7))
  }

  /** The case-insensitive hash does not look at letter case. */
  lemma {:induction false} CaseIsIgnored(s: string, t: string)
    requires Encodable(s) && Encodable(t) && |s| == |t| && forall i :: 0 <= i < |s| ==> SameLetter(s[i], t[i])
    ensures NonCaseRegister(s) == NonCaseRegister(t)
  {
    if s != [] {
      CaseIsIgnored(s[..|s| - 1], t[..|t| - 1]);
      assert SameLetter(s[|s| - 1], t[|t| - 1]);
      assert UpperByte(s[|s| - 1]) == UpperByte(t[|t| - 1]);
      hide MsbSteps, Xor, Shr, BitsOf;
    }
  }
}
