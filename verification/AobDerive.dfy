/**
 * The signature search of tools/debug/ida_aob_derive.py: masked byte patterns over a code segment,
 * wildcards for relocated loads, and the shortest window that is unique.
 */
module AobDerive {
  import opened Results
  import opened Bytes

  // ----- masked matching -----

  /** The pattern matches at a position wherever its mask looks. */
  predicate Matches(data: Data, sig: Data, mask: seq<bool>, at: nat)
    requires |sig| == |mask|
  {
    at + |sig| <= |data| && forall k :: 0 <= k < |sig| && mask[k] ==> data[at + k] == sig[k]
  }

  /** Matches before position `n`. */
  function HitsTo(data: Data, sig: Data, mask: seq<bool>, n: nat): nat
    requires |sig| == |mask|
  {
    if n == 0 then 0
    else HitsTo(data, sig, mask, n - 1) + if Matches(data, sig, mask, n - 1) then 1 else 0
  }

  /** All matches of a pattern that is not empty. */
  function Hits(data: Data, sig: Data, mask: seq<bool>): nat
    requires |sig| == |mask|
  {
    HitsTo(data, sig, mask, |data|)
  }

  /** `bytes.find` of one byte from a position on. */
  method Find(data: Data, b: Byte, from: nat) returns (idx: int)
    ensures idx < 0 ==> forall i :: from <= i < |data| ==> data[i] != b
    ensures idx >= 0 ==> from <= idx < |data| && data[idx] == b && forall i :: from <= i < idx ==> data[i] != b
  {
    idx := from;
    while idx < |data|
      invariant from <= idx && forall i :: from <= i < idx && i < |data| ==> data[i] != b
    {
      if data[idx] == b { return; }
      idx := idx + 1;
    }
    return -1;
  }

  lemma {:induction false} NoHitsBetween(data: Data, sig: Data, mask: seq<bool>, lo: nat, hi: nat)
    requires |sig| == |mask| && lo <= hi
    requires forall i :: lo <= i < hi ==> !Matches(data, sig, mask, i)
    ensures HitsTo(data, sig, mask, hi) == HitsTo(data, sig, mask, lo)
  {
    if lo < hi { NoHitsBetween(data, sig, mask, lo, hi - 1); }
  }

  /**
   * `_count`: jumping from one first byte to the next finds every masked match; the first byte is
   * compared whatever its mask says.
   */
  method Count(data: Data, sig: Data, mask: seq<bool>) returns (hits: nat)
    requires |sig| == |mask|
    ensures hits == if sig == [] then 0 else Hits(data, sig, mask[0 := true])
  {
    var n := |sig|;
    if n == 0 { return 0; }
    hits := 0;
    ghost var seen: nat := 0;
    ghost var look := mask[0 := true];
    var idx := Find(data, sig[0], 0);
    while idx >= 0 && idx + n <= |data|
      invariant 0 <= seen <= |data| && hits == HitsTo(data, sig, look, seen)
      invariant idx < 0 ==> forall i :: seen <= i < |data| ==> data[i] != sig[0]
      invariant idx >= 0 ==> seen <= idx < |data| && data[idx] == sig[0]
      invariant idx >= 0 ==> forall i :: seen <= i < idx ==> data[i] != sig[0]
      decreases |data| - seen
    {
      var ok := true;
      var k := 0;
      while k < n
        invariant 0 <= k <= n
        invariant ok <==> forall j :: 0 <= j < k && mask[j] ==> data[idx + j] == sig[j]
      {
        if mask[k] && data[idx + k] != sig[k] {
          ok := false;
          break;
        }
        k := k + 1;
      }
      FirstByteTells(data, sig, look, seen, idx);
      NoHitsBetween(data, sig, look, seen, idx);
      assert ok <==> Matches(data, sig, look, idx);
      if ok { hits := hits + 1; }
      seen := idx + 1;
      idx := Find(data, sig[0], idx + 1);
    }
    FirstByteTells(data, sig, look, seen, if idx < 0 then |data| else idx);
    NoHitsBetween(data, sig, look, seen, |data|);
  }

  lemma FirstByteTells(data: Data, sig: Data, look: seq<bool>, lo: nat, hi: nat)
    requires |sig| == |look| > 0 && look[0] && lo <= hi <= |data|
    requires forall i :: lo <= i < hi ==> data[i] != sig[0]
    ensures forall i :: lo <= i < hi ==> !Matches(data, sig, look, i)
  {
    forall i | lo <= i < hi ensures !Matches(data, sig, look, i) {
      assert data[i + 0] != sig[0];
    }
  }

  // ----- the wildcards -----

  /** `48 8B 05` and its four displacement bytes lie in the window. */
  predicate LoadAt(b: Data, i: int) {
    0 <= i && i + 6 < |b| && b[i] == 0x48 && b[i + 1] == 0x8B && b[i + 2] == 0x05
  }

  /** The byte is one of the four behind some load's opcode. */
  ghost predicate Displacement(b: Data, j: int) { exists i :: LoadAt(b, i) && i + 3 <= j < i + 7 }

  ghost predicate IsMask(b: Data, m: seq<bool>) {
    |m| == |b| && forall j :: 0 <= j < |b| ==> (m[j] <==> !Displacement(b, j))
  }

  ghost predicate MaskedTo(b: Data, m: seq<bool>, n: int) {
    |m| == |b| && forall j :: 0 <= j < |b| ==> (m[j] <==> !(exists i :: i < n && LoadAt(b, i) && i + 3 <= j < i + 7))
  }

  /** `_mask_rip_loads`. */
  method MaskRipLoads(b: Data) returns (m: seq<bool>)
    ensures IsMask(b, m)
  {
    m := seq(|b|, i => true);
    var i := 0;
    while i < |b| - 6
      invariant 0 <= i && (i <= |b| - 6 || i == 0)
      invariant MaskedTo(b, m, i)
    {
      if b[i] == 0x48 && b[i + 1] == 0x8B && b[i + 2] == 0x05 {
        ghost var before := m;
        m := m[i + 3 := false][i + 4 := false][i + 5 := false][i + 6 := false];
        MaskStep(b, before, m, i);
      }
      i := i + 1;
    }
  }

  lemma MaskStep(b: Data, before: seq<bool>, m: seq<bool>, i: int)
    requires MaskedTo(b, before, i) && LoadAt(b, i)
    requires m == before[i + 3 := false][i + 4 := false][i + 5 := false][i + 6 := false]
    ensures MaskedTo(b, m, i + 1)
  {
    forall j | 0 <= j < |b|
      ensures m[j] <==> !(exists k :: k < i + 1 && LoadAt(b, k) && k + 3 <= j < k + 7)
    {
      if i + 3 <= j < i + 7 {
        assert !m[j] && LoadAt(b, i);
      } else {
        assert m[j] == before[j];
      }
    }
  }

  /** No load masks the first byte, so the scan counts exactly the masked matches. */
  lemma FirstByteUnmasked(b: Data, m: seq<bool>)
    requires IsMask(b, m) && |b| > 0
    ensures m[0] && m[0 := true] == m
  {
  }

  // ----- windows of one function -----

  /** A load of the longer window has its displacement across the shorter one's end. */
  ghost predicate Straddles(raw: Data, short: nat, long: nat)
    requires short <= long <= |raw|
  {
    exists i :: LoadAt(raw[..long], i) && i + 3 < short <= i + 6
  }

  /** Such a load masks the shorter window's last bytes, unless another load ends right there. */
  ghost predicate MarginSafe(raw: Data, short: nat, long: nat)
    requires short <= long <= |raw|
  {
    Straddles(raw, short, long) ==> LoadAt(raw[..short], short - 7)
  }

  lemma LoadInPrefix(raw: Data, short: nat, long: nat, i: int)
    requires short <= long <= |raw|
    ensures LoadAt(raw[..short], i) <==> LoadAt(raw[..long], i) && i + 6 < short
  {
  }

  /** A straddling load beside one that ends the window starts on that one's first displacement byte. */
  lemma StraddleBesideEnd(raw: Data, short: nat, long: nat, i: int)
    requires short <= long <= |raw| && LoadAt(raw[..short], short - 7)
    requires LoadAt(raw[..long], i) && i + 3 < short <= i + 6
    ensures i == short - 4
  {
    assert raw[..short][short - 6] == raw[..long][short - 6] == 0x8B;
    assert raw[..short][short - 5] == raw[..long][short - 5] == 0x05;
  }

  /** When the margin is safe the two windows mask the same bytes of the shorter one. */
  lemma MasksAgree(raw: Data, short: nat, long: nat, m: seq<bool>, l: seq<bool>)
    requires short <= long <= |raw| && IsMask(raw[..short], m) && IsMask(raw[..long], l)
    requires MarginSafe(raw, short, long)
    ensures forall j :: 0 <= j < short ==> m[j] == l[j]
  {
    forall j | 0 <= j < short ensures Displacement(raw[..short], j) <==> Displacement(raw[..long], j) {
      if Displacement(raw[..short], j) {
        var i :| LoadAt(raw[..short], i) && i + 3 <= j < i + 7;
        LoadInPrefix(raw, short, long, i);
      }
      if Displacement(raw[..long], j) {
        var i :| LoadAt(raw[..long], i) && i + 3 <= j < i + 7;
        LoadInPrefix(raw, short, long, i);
        if short <= i + 6 {
          assert i + 3 < short ==> Straddles(raw, short, long);
          if i + 3 < short { StraddleBesideEnd(raw, short, long, i); }
        }
      }
    }
  }

  /** When it is not, they disagree on the shorter one's last byte. */
  lemma LastByteDiffers(raw: Data, short: nat, long: nat, m: seq<bool>, l: seq<bool>)
    requires short <= long <= |raw| && IsMask(raw[..short], m) && IsMask(raw[..long], l)
    requires !MarginSafe(raw, short, long)
    ensures short > 0 && m[short - 1] && !l[short - 1]
  {
    var i :| LoadAt(raw[..long], i) && i + 3 < short <= i + 6;
    assert Displacement(raw[..long], short - 1);
    if Displacement(raw[..short], short - 1) {
      var k :| LoadAt(raw[..short], k) && k + 3 <= short - 1 < k + 7;
    }
  }

  /** Every byte of the shorter window that a straddling load masks is masked there already. */
  ghost predicate StraddledMasked(raw: Data, short: nat, long: nat)
    requires short <= long <= |raw|
  {
    forall i, j :: LoadAt(raw[..long], i) && i + 3 <= j < short <= i + 6 ==> Displacement(raw[..short], j)
  }

  /**
   * Exactly when the longer window's mask agrees with the shorter one's: when every byte that a
   * straddling load masks is masked already, that is when the margin is safe.
   */
  lemma MasksAgreeIff(raw: Data, short: nat, long: nat, m: seq<bool>, l: seq<bool>)
    requires short <= long <= |raw| && IsMask(raw[..short], m) && IsMask(raw[..long], l)
    ensures (forall j :: 0 <= j < short ==> m[j] == l[j]) <==> StraddledMasked(raw, short, long)
    ensures (forall j :: 0 <= j < short ==> m[j] == l[j]) <==> MarginSafe(raw, short, long)
  {
    if MarginSafe(raw, short, long) {
      MasksAgree(raw, short, long, m, l);
      forall i, j | LoadAt(raw[..long], i) && i + 3 <= j < short <= i + 6
        ensures Displacement(raw[..short], j)
      {
        assert Displacement(raw[..long], j) && !l[j];
      }
    } else {
      LastByteDiffers(raw, short, long, m, l);
      var i :| LoadAt(raw[..long], i) && i + 3 < short <= i + 6;
      assert !Displacement(raw[..short], short - 1);
    }
  }

  lemma LongerHitsLess(data: Data, raw: Data, short: nat, long: nat, m: seq<bool>, l: seq<bool>, at: nat)
    requires 0 < short <= long <= |raw| && |m| == short && |l| == long
    requires forall j :: 0 <= j < short ==> m[j] == l[j]
    ensures Matches(data, raw[..long], l, at) ==> Matches(data, raw[..short], m, at)
  {
  }

  lemma {:induction false} FewerHits(data: Data, a: Data, m: seq<bool>, b: Data, l: seq<bool>, n: nat)
    requires |a| == |m| && |b| == |l|
    requires forall at: nat :: Matches(data, b, l, at) ==> Matches(data, a, m, at)
    ensures HitsTo(data, b, l, n) <= HitsTo(data, a, m, n)
  {
    if n > 0 { FewerHits(data, a, m, b, l, n - 1); }
  }

  /** A longer window has no more matches, when the margin is safe. */
  lemma CountsDoNotGrow(data: Data, raw: Data, short: nat, long: nat, m: seq<bool>, l: seq<bool>)
    requires 0 < short <= long <= |raw| && IsMask(raw[..short], m) && IsMask(raw[..long], l)
    requires MarginSafe(raw, short, long)
    ensures Hits(data, raw[..long], l) <= Hits(data, raw[..short], m)
  {
    MasksAgree(raw, short, long, m, l);
    forall at: nat ensures Matches(data, raw[..long], l, at) ==> Matches(data, raw[..short], m, at) {
      LongerHitsLess(data, raw, short, long, m, l, at);
    }
    FewerHits(data, raw[..short], m, raw[..long], l, |data|);
  }

  lemma {:induction false} HitCounts(data: Data, sig: Data, mask: seq<bool>, at: nat, n: nat)
    requires |sig| == |mask| && at < n && Matches(data, sig, mask, at)
    ensures HitsTo(data, sig, mask, n) >= HitsTo(data, sig, mask, at) + 1
  {
    if at < n - 1 { HitCounts(data, sig, mask, at, n - 1); }
  }

  /** The function's own bytes lie in the segment at `at`. */
  predicate LiesAt(data: Data, raw: Data, at: nat) { at + |raw| <= |data| && data[at..at + |raw|] == raw }

  lemma SameBytes(data: Data, raw: Data, at: nat)
    requires LiesAt(data, raw, at)
    ensures forall k :: 0 <= k < |raw| ==> data[at + k] == raw[k]
  {
    forall k | 0 <= k < |raw| ensures raw[k] == data[at + k] {
      assert data[at..at + |raw|][k] == data[at + k];
    }
  }

  /** Every window of the function matches where the function lies. */
  lemma OwnPlaceHits(data: Data, raw: Data, at: nat, n: nat, m: seq<bool>)
    requires LiesAt(data, raw, at) && 0 < n <= |raw| && |m| == n
    ensures Matches(data, raw[..n], m, at) && Hits(data, raw[..n], m) >= 1
  {
    SameBytes(data, raw, at);
    HitCounts(data, raw[..n], m, at, |data|);
  }

  /** The margin signature is still unique and still matches the function, when the margin is safe. */
  lemma MarginStaysUnique(data: Data, raw: Data, at: nat, short: nat, long: nat, m: seq<bool>, l: seq<bool>)
    requires LiesAt(data, raw, at) && 0 < short <= long <= |raw|
    requires IsMask(raw[..short], m) && IsMask(raw[..long], l) && MarginSafe(raw, short, long)
    requires Hits(data, raw[..short], m) == 1
    ensures Hits(data, raw[..long], l) == 1 && Matches(data, raw[..long], l, at)
  {
    CountsDoNotGrow(data, raw, short, long, m, l);
    OwnPlaceHits(data, raw, at, long, l);
  }

  // ----- the condition is exact -----

  /** What matches in the function's own bytes matches wherever the function lies. */
  lemma {:induction false} HitsCarryOver(data: Data, raw: Data, at: nat, sig: Data, mask: seq<bool>, n: nat)
    requires LiesAt(data, raw, at) && |sig| == |mask| && n <= |raw|
    ensures HitsTo(data, sig, mask, at + n) >= HitsTo(raw, sig, mask, n)
  {
    if n > 0 {
      HitsCarryOver(data, raw, at, sig, mask, n - 1);
      if Matches(raw, sig, mask, n - 1) {
        SameBytes(data, raw, at);
        forall k | 0 <= k < |sig| && mask[k] ensures data[at + (n - 1) + k] == sig[k] {
          assert raw[(n - 1) + k] == data[at + ((n - 1) + k)];
        }
      }
    }
  }

  lemma {:induction false} HitsGrow(data: Data, sig: Data, mask: seq<bool>, lo: nat, hi: nat)
    requires |sig| == |mask| && lo <= hi
    ensures HitsTo(data, sig, mask, lo) <= HitsTo(data, sig, mask, hi)
  {
    if lo < hi { HitsGrow(data, sig, mask, lo, hi - 1); }
  }

  /** Two matches are at least two hits. */
  lemma TwoHits(data: Data, sig: Data, mask: seq<bool>, i: nat, j: nat)
    requires |sig| == |mask| && i < j < |data| && Matches(data, sig, mask, i) && Matches(data, sig, mask, j)
    ensures Hits(data, sig, mask) >= 2
  {
    HitCounts(data, sig, mask, i, i + 1);
    HitsGrow(data, sig, mask, i + 1, j);
    HitCounts(data, sig, mask, j, |data|);
  }

  /** Some byte value does not occur in fewer than 256 bytes. */
  lemma {:induction false} FreshByte(raw: Data, bound: nat) returns (v: nat)
    requires |raw| <= bound
    ensures v <= bound && forall k :: 0 <= k < |raw| ==> raw[k] as int != v
    decreases bound
  {
    if i :| 0 <= i < |raw| && raw[i] as int == bound {
      v := FreshByte(raw[..i] + raw[i + 1..], bound - 1);
      forall k | 0 <= k < |raw| ensures raw[k] as int != v {
        if k < i { assert (raw[..i] + raw[i + 1..])[k] == raw[k]; }
        if k > i { assert (raw[..i] + raw[i + 1..])[k - 1] == raw[k]; }
      }
    } else {
      v := bound;
    }
  }

  /** The function, a pad of a byte it does not contain, and its longer window with one byte changed. */
  function Decoy(raw: Data, short: nat, long: nat, v: Byte): Data
    requires 0 < short <= long <= |raw|
  {
    raw + seq(short, i => v) + raw[..long][short - 1 := v]
  }

  lemma DecoyBytes(raw: Data, short: nat, long: nat, v: Byte)
    requires 0 < short <= long <= |raw|
    ensures var d := Decoy(raw, short, long, v);
      && |d| == |raw| + short + long && LiesAt(d, raw, 0)
      && (forall k :: 0 <= k < |raw| ==> d[k] == raw[k])
      && (forall k :: |raw| <= k < |raw| + short ==> d[k] == v)
      && (forall k :: 0 <= k < long ==> d[|raw| + short + k] == if k == short - 1 then v else raw[k])
  {
  }

  /** In the decoy the shorter window matches the changed copy only where it matches the function. */
  lemma DecoyCopyMisses(raw: Data, short: nat, long: nat, m: seq<bool>, v: Byte, q: nat)
    requires 0 < short <= long <= |raw| && |m| == short && m[short - 1]
    requires forall k :: 0 <= k < |raw| ==> raw[k] != v
    requires Matches(Decoy(raw, short, long, v), raw[..short], m, |raw| + short + q)
    ensures q > 0 && Matches(raw, raw[..short], m, q)
  {
    hide Decoy;
    var d := Decoy(raw, short, long, v);
    DecoyBytes(raw, short, long, v);
    forall k | 0 <= k < short && m[k] ensures q + k != short - 1 && raw[q + k] == raw[..short][k] {
      assert d[|raw| + short + (q + k)] == d[(|raw| + short + q) + k] == raw[..short][k];
    }
  }

  lemma InsideMatches(raw: Data, data: Data, sig: Data, mask: seq<bool>, p: nat)
    requires LiesAt(data, raw, 0) && |sig| == |mask| && p + |sig| <= |raw| && Matches(data, sig, mask, p)
    ensures Matches(raw, sig, mask, p)
  {
    SameBytes(data, raw, 0);
    forall k | 0 <= k < |sig| && mask[k] ensures raw[p + k] == sig[k] {
      assert data[0 + (p + k)] == raw[p + k];
    }
  }

  /** In the decoy the shorter window matches nowhere but at the start. */
  lemma DecoyMissesShort(raw: Data, short: nat, long: nat, m: seq<bool>, v: Byte, p: nat)
    requires 0 < short <= long <= |raw| && IsMask(raw[..short], m) && m[short - 1]
    requires forall k :: 0 <= k < |raw| ==> raw[k] != v
    requires forall q :: 0 < q < |raw| ==> !Matches(raw, raw[..short], m, q)
    requires p > 0
    ensures !Matches(Decoy(raw, short, long, v), raw[..short], m, p)
  {
    hide Decoy, Displacement, LoadAt;
    var d, sig := Decoy(raw, short, long, v), raw[..short];
    DecoyBytes(raw, short, long, v);
    FirstByteUnmasked(raw[..short], m);
    if p + short <= |raw| {
      if Matches(d, sig, m, p) { InsideMatches(raw, d, sig, m, p); }
    } else if p < |raw| {
      assert d[p + (short - 1)] != sig[short - 1];
    } else if p < |raw| + short {
      assert d[p + 0] != sig[0];
    } else if Matches(d, sig, m, p) {
      DecoyCopyMisses(raw, short, long, m, v, p - |raw| - short);
    }
  }

  /** In the decoy the longer window matches twice, as it does not look at the changed byte. */
  lemma DecoyTwice(raw: Data, short: nat, long: nat, l: seq<bool>, v: Byte)
    requires 0 < short <= long <= |raw| && |l| == long && !l[short - 1]
    ensures Hits(Decoy(raw, short, long, v), raw[..long], l) >= 2
  {
    hide Decoy;
    var d := Decoy(raw, short, long, v);
    DecoyBytes(raw, short, long, v);
    OwnPlaceHits(d, raw, 0, long, l);
    TwoHits(d, raw[..long], l, 0, |raw| + short);
  }

  /**
   * Whenever the margin is not safe, it can lose what the window had: some segment holds the
   * function, matches the window once and the margin signature at least twice.
   */
  lemma UnsafeMarginLoses(raw: Data, short: nat, long: nat, m: seq<bool>, l: seq<bool>) returns (data: Data)
    requires 0 < short <= long <= |raw| < 256
    requires IsMask(raw[..short], m) && IsMask(raw[..long], l) && !MarginSafe(raw, short, long)
    requires Hits(raw, raw[..short], m) == 1
    ensures LiesAt(data, raw, 0) && Hits(data, raw[..short], m) == 1 && Hits(data, raw[..long], l) >= 2
  {
    hide Decoy, Displacement, MarginSafe;
    LastByteDiffers(raw, short, long, m, l);
    var f := FreshByte(raw, 255);
    var v: Byte := f;
    data := Decoy(raw, short, long, v);
    DecoyBytes(raw, short, long, v);
    OwnPlaceHits(raw, raw, 0, short, m);
    forall q | 0 < q < |raw| ensures !Matches(raw, raw[..short], m, q) {
      if Matches(raw, raw[..short], m, q) { TwoHits(raw, raw[..short], m, 0, q); }
    }
    forall p | 1 <= p < |data| ensures !Matches(data, raw[..short], m, p) {
      DecoyMissesShort(raw, short, long, m, v, p);
    }
    OwnPlaceHits(data, raw, 0, short, m);
    NoHitsBetween(data, raw[..short], m, 1, |data|);
    DecoyTwice(raw, short, long, l, v);
  }

  /** In every segment that holds the function, the margin signature is unique when the window is. */
  ghost predicate MarginAlwaysUnique(raw: Data, short: nat, long: nat, m: seq<bool>, l: seq<bool>)
    requires short == |m| <= |raw| && long == |l| <= |raw|
  {
    forall data: Data, at: nat :: LiesAt(data, raw, at) && Hits(data, raw[..short], m) == 1 ==>
      Hits(data, raw[..long], l) == 1
  }

  /**
   * Exactly when the recommended margin keeps uniqueness, whatever the segment: when it is safe, or
   * when the window repeats inside the function itself and so is unique in no segment at all.
   */
  lemma MarginSafeIff(raw: Data, short: nat, long: nat, m: seq<bool>, l: seq<bool>)
    requires 0 < short <= long <= |raw| < 256
    requires IsMask(raw[..short], m) && IsMask(raw[..long], l)
    ensures MarginAlwaysUnique(raw, short, long, m, l) <==>
      MarginSafe(raw, short, long) || Hits(raw, raw[..short], m) >= 2
  {
    hide MarginSafe, Hits, LiesAt;
    assert LiesAt(raw, raw, 0) by { WholeLies(raw); }
    OwnPlaceHits(raw, raw, 0, short, m);
    if MarginSafe(raw, short, long) {
      forall data: Data, at: nat | LiesAt(data, raw, at) && Hits(data, raw[..short], m) == 1
        ensures Hits(data, raw[..long], l) == 1
      {
        MarginStaysUnique(data, raw, at, short, long, m, l);
      }
    } else if Hits(raw, raw[..short], m) >= 2 {
      forall data: Data, at: nat | LiesAt(data, raw, at) ensures Hits(data, raw[..short], m) >= 2 {
        RepeatsEverywhere(data, raw, at, raw[..short], m);
      }
    } else {
      var data := UnsafeMarginLoses(raw, short, long, m, l);
      assert LiesAt(data, raw, 0);
    }
  }

  lemma WholeLies(raw: Data)
    ensures LiesAt(raw, raw, 0)
  {
  }

  lemma RepeatsEverywhere(data: Data, raw: Data, at: nat, sig: Data, mask: seq<bool>)
    requires LiesAt(data, raw, at) && |sig| == |mask|
    ensures Hits(data, sig, mask) >= Hits(raw, sig, mask)
  {
    HitsCarryOver(data, raw, at, sig, mask, |raw|);
    HitsGrow(data, sig, mask, at + |raw|, |data|);
  }

  // ----- the search -----

  /** The window of `n` bytes with its mask is unique in the segment. */
  ghost predicate UniqueAt(data: Data, raw: Data, n: nat)
    requires n <= |raw|
  {
    n > 0 && exists m :: IsMask(raw[..n], m) && Hits(data, raw[..n], m) == 1
  }

  /** `emit_sig`'s loop: the first unique window of 16, 24, ... bytes, and the one a step longer. */
  method EmitSig(data: Data, raw: Data) returns (r: Option<(nat, nat)>)
    ensures r.None? ==> forall n :: 16 <= n <= |raw| && n % 8 == 0 ==> !UniqueAt(data, raw, n)
    ensures r.Some? ==>
      && 16 <= r.value.0 <= |raw| && r.value.0 % 8 == 0 && UniqueAt(data, raw, r.value.0)
      && (forall n :: 16 <= n < r.value.0 && n % 8 == 0 ==> !UniqueAt(data, raw, n))
      && r.value.1 == (if r.value.0 + 8 <= |raw| then r.value.0 + 8 else |raw|)
  {
    r := None;
    var n: nat := 16;
    while n <= |raw|
      invariant n >= 16 && n % 8 == 0
      invariant r.None? ==> forall k :: 16 <= k < n && k <= |raw| && k % 8 == 0 ==> !UniqueAt(data, raw, k)
      invariant r.Some? ==>
        && 16 <= r.value.0 <= |raw| && r.value.0 % 8 == 0 && UniqueAt(data, raw, r.value.0)
        && (forall k :: 16 <= k < r.value.0 && k % 8 == 0 ==> !UniqueAt(data, raw, k))
        && r.value.1 == (if r.value.0 + 8 <= |raw| then r.value.0 + 8 else |raw|)
      decreases |raw| - n
    {
      var m := MaskRipLoads(raw[..n]);
      var c := Count(data, raw[..n], m);
      MaskIsUnique(raw[..n], m);
      FirstByteUnmasked(raw[..n], m);
      if c == 1 && r.None? { r := Some((n, if n + 8 <= |raw| then n + 8 else |raw|)); }
      n := n + 8;
    }
  }

  lemma MaskIsUnique(b: Data, m: seq<bool>)
    requires IsMask(b, m)
    ensures forall l :: IsMask(b, l) ==> l == m
  {
    forall l | IsMask(b, l) ensures l == m {
      assert forall j :: 0 <= j < |b| ==> l[j] == m[j];
    }
  }

  // ----- what is counted -----

  ghost function PlacesTo(data: Data, sig: Data, mask: seq<bool>, n: nat): set<int>
    requires |sig| == |mask|
  {
    set p | 0 <= p < n && Matches(data, sig, mask, p)
  }

  /** The count is the number of places where the pattern matches. */
  lemma {:induction false} HitsArePlaces(data: Data, sig: Data, mask: seq<bool>, n: nat)
    requires |sig| == |mask|
    ensures HitsTo(data, sig, mask, n) == |PlacesTo(data, sig, mask, n)|
  {
    hide Matches;
    if n == 0 {
      assert PlacesTo(data, sig, mask, 0) == {};
    } else {
      HitsArePlaces(data, sig, mask, n - 1);
      var before, now := PlacesTo(data, sig, mask, n - 1), PlacesTo(data, sig, mask, n);
      assert now == if Matches(data, sig, mask, n - 1) then before + {n - 1} else before;
    }
  }

  /** The segment reads as the window from this place on, but for the bytes behind load opcodes. */
  ghost predicate ReadsAs(data: Data, b: Data, p: int) {
    0 <= p && p + |b| <= |data| && forall k :: 0 <= k < |b| && !Displacement(b, k) ==> data[p + k] == b[k]
  }

  lemma MaskedMatchReads(data: Data, b: Data, m: seq<bool>, p: nat)
    requires IsMask(b, m)
    ensures Matches(data, b, m, p) <==> ReadsAs(data, b, p)
  {
    hide Displacement;
  }

  /** Here and nowhere else. */
  ghost predicate OnlyAt(data: Data, b: Data, p: int) {
    ReadsAs(data, b, p) && forall q :: ReadsAs(data, b, q) ==> q == p
  }

  lemma {:induction false} SomePlace(data: Data, sig: Data, mask: seq<bool>, n: nat) returns (p: nat)
    requires |sig| == |mask| && HitsTo(data, sig, mask, n) > 0
    ensures p < n && Matches(data, sig, mask, p)
  {
    hide Matches;
    p := n - 1;
    if !Matches(data, sig, mask, n - 1) { p := SomePlace(data, sig, mask, n - 1); }
  }

  lemma OneElement(s: set<int>, p: int)
    requires |s| == 1 && p in s
    ensures s == {p}
  {
    assert |s - {p}| == 0;
  }

  /** A window is unique exactly when the segment reads as it at one place and nowhere else. */
  lemma UniqueIsOnePlace(data: Data, raw: Data, n: nat, m: seq<bool>)
    requires 0 < n <= |raw| && |m| == n && IsMask(raw[..n], m)
    ensures UniqueAt(data, raw, n) <==> exists p :: OnlyAt(data, raw[..n], p)
  {
    hide IsMask, ReadsAs, Matches, HitsTo;
    var places := PlacesTo(data, raw[..n], m, |data|);
    MaskIsUnique(raw[..n], m);
    HitsArePlaces(data, raw[..n], m, |data|);
    forall q: int ensures ReadsAs(data, raw[..n], q) <==> q in places { PlaceReads(data, raw[..n], m, q); }
    if UniqueAt(data, raw, n) {
      var p := SomePlace(data, raw[..n], m, |data|);
      OneElement(places, p);
      assert OnlyAt(data, raw[..n], p);
    }
    if p :| OnlyAt(data, raw[..n], p) {
      assert places == {p};
      assert Hits(data, raw[..n], m) == 1;
    }
  }

  lemma PlaceReads(data: Data, b: Data, m: seq<bool>, q: int)
    requires IsMask(b, m) && |b| > 0 && |b| == |m|
    ensures ReadsAs(data, b, q) <==> q in PlacesTo(data, b, m, |data|)
  {
    hide Displacement, IsMask;
    if q >= 0 { MaskedMatchReads(data, b, m, q); }
  }

  // ----- a straddling load -----

  /** A prologue whose load has its displacement across the sixteenth byte, `last` being its first byte. */
  function Prologue(last: Byte): (b: Data)
    ensures |b| == 24
  {
    [1] + Zeros(11) + [0x48, 0x8B, 0x05, last] + Zeros(8)
  }

  function Zeros(n: nat): (b: Data)
    ensures |b| == n
  {
    seq(n, i => 0)
  }

  lemma PrologueBytes(last: Byte)
    requires last == 7 || last == 8
    ensures var b := Prologue(last); b[0] == 1 && b[15] == last
    ensures var b := Prologue(last); forall i :: 1 <= i < 24 ==> b[i] != 1
    ensures var b := Prologue(last); LoadAt(b, 12) && forall i :: LoadAt(b, i) ==> i == 12
  {
  }

  /** In two such prologues end to end only the two starts can match. */
  lemma OnlyStartsHit(n: nat, m: seq<bool>)
    requires 0 < n <= 24 && |m| == n
    requires m[0]
    ensures var data := Prologue(7) + Prologue(8); var sig := Prologue(7)[..n];
      Hits(data, sig, m) == (if Matches(data, sig, m, 0) then 1 else 0) + (if Matches(data, sig, m, 24) then 1 else 0)
  {
    PrologueBytes(7);
    PrologueBytes(8);
    hide Prologue;
    var data, sig := Prologue(7) + Prologue(8), Prologue(7)[..n];
    forall i | 1 <= i < 24 ensures !Matches(data, sig, m, i) { assert data[i + 0] == Prologue(7)[i]; }
    forall i | 25 <= i < 48 ensures !Matches(data, sig, m, i) { assert data[i + 0] == Prologue(8)[i - 24]; }
    NoHitsBetween(data, sig, m, 1, 24);
    NoHitsBetween(data, sig, m, 25, 48);
  }

  /**
   * Such functions and segments exist: sixteen bytes are unique here, and the recommended
   * twenty-four match twice.
   */
  lemma MarginCanLoseUniqueness(m: seq<bool>, l: seq<bool>)
    requires IsMask(Prologue(7)[..16], m) && IsMask(Prologue(7)[..24], l)
    ensures var data := Prologue(7) + Prologue(8);
      && LiesAt(data, Prologue(7), 0) && !MarginSafe(Prologue(7), 16, 24)
      && Hits(data, Prologue(7)[..16], m) == 1 && Hits(data, Prologue(7)[..24], l) == 2
  {
    PrologueBytes(7);
    PrologueBytes(8);
    SameButOne();
    hide Prologue, Hits;
    var a, b := Prologue(7), Prologue(8);
    var data := a + b;
    assert a[..24] == a && data[0..24] == a;
    FirstByteUnmasked(a[..16], m);
    FirstByteUnmasked(a[..24], l);
    OnlyStartsHit(16, m);
    OnlyStartsHit(24, l);
    LoadInPrefix(a, 16, 24, 12);
    assert LoadAt(a[..24], 12);
    assert !LoadAt(a[..16], 9) by { LoadInPrefix(a, 16, 24, 9); }
    OwnPlaceHits(data, a, 0, 16, m);
    OwnPlaceHits(data, a, 0, 24, l);
    NotMaskedAt15(m);
    assert data[24 + 15] == b[15] && !Matches(data, a[..16], m, 24);
    assert Displacement(a[..24], 15);
    forall k | 0 <= k < 24 && l[k] ensures data[24 + k] == a[k] {
      assert data[24 + k] == b[k];
    }
  }

  lemma SameButOne()
    ensures forall k :: 0 <= k < 24 && k != 15 ==> Prologue(7)[k] == Prologue(8)[k]
  {
  }

  lemma NotMaskedAt15(m: seq<bool>)
    requires IsMask(Prologue(7)[..16], m)
    ensures m[15]
  {
    PrologueBytes(7);
    hide Prologue;
    assert Prologue(7)[..24] == Prologue(7);
    if Displacement(Prologue(7)[..16], 15) {
      var i :| LoadAt(Prologue(7)[..16], i) && i + 3 <= 15 < i + 7;
      LoadInPrefix(Prologue(7), 16, 24, i);
    }
  }
}
