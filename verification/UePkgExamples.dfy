/**
 * Three package summaries with a negative array count, all parsed to the end of the file: one whose
 * tokens are not its bytes, one whose tokens are although an array moves the cursor before the start,
 * and one whose tokens are but that an edit of one number changes altogether.
 */
module UePkgExamples {
  import opened Results
  import opened Bytes
  import opened UePkg
  import opened UePkgProofs
  import opened UePkgTiling
  import opened UePkgEdits

  // ----- running over zeros -----

  /** The bytes an operation takes where the file holds zeros. */
  function ZeroWidth(it: Item): nat {
    match it
    case Raw(n) => n
    case I64(_) => 8
    case _ => 4
  }

  function ZeroWidths(items: seq<Item>): nat {
    if items == [] then 0 else ZeroWidth(items[0]) + ZeroWidths(items[1..])
  }

  /** The file holds zeros from `i` to `j`. */
  ghost predicate ZeroIn(b: Data, i: int, j: int) {
    0 <= i <= j <= |b| && forall k :: i <= k < j ==> b[k] == 0
  }

  lemma ZeroWord(b: Data, at: nat)
    requires ZeroIn(b, at, at + 4)
    ensures Unpack(b, at, 4).Some? && DecI32(Unpack(b, at, 4).value) == 0
  {
  }

  lemma ZeroStep(c: CurState, it: Item)
    requires ZeroIn(c.b, c.o, c.o + ZeroWidth(it))
    ensures var d := Do(c, it); d.Some? && d.value.o == c.o + ZeroWidth(it) && d.value.b == c.b
  {
    hide DecI32, Slice;
    if it.FString? || it.Array? { ZeroWord(c.b, c.o); }
    if it.Array? { ArrayBytesIsProduct(0, it.elem); }
  }

  /** Over zeros every operation succeeds and the cursor moves on by the widths. */
  lemma {:induction false} ZeroRun(c: CurState, items: seq<Item>)
    requires ZeroIn(c.b, c.o, c.o + ZeroWidths(items))
    ensures var d := DoAll(c, items); d.Some? && d.value.o == c.o + ZeroWidths(items) && d.value.b == c.b
    ensures NeverNegative(c, items) && NeverBack(c, items)
    decreases |items|
  {
    hide Do, ZeroWidth;
    if items != [] {
      ZeroStep(c, items[0]);
      DoCons(c, items);
      ZeroRun(Do(c, items[0]).value, items[1..]);
    }
  }

  lemma {:induction false} WidthsAppend(s: seq<Item>, t: seq<Item>)
    ensures ZeroWidths(s + t) == ZeroWidths(s) + ZeroWidths(t)
    decreases |s|
  {
    if s == [] {
      assert s + t == t;
    } else {
      assert (s + t)[1..] == s[1..] + t;
      WidthsAppend(s[1..], t);
    }
  }

  lemma {:induction false} FourEach(s: seq<Item>)
    requires forall i :: 0 <= i < |s| ==> s[i].I32? || s[i].FString? || s[i].Array?
    ensures ZeroWidths(s) == 4 * |s|
    decreases |s|
  {
    if s != [] {
      forall i | 0 <= i < |s[1..]| ensures s[1..][i].I32? || s[1..][i].FString? || s[1..][i].Array? {
        assert s[1..][i] == s[i + 1];
      }
      FourEach(s[1..]);
    }
  }

  lemma TwoWidths(x: Item, y: Item)
    ensures ZeroWidths([x, y]) == ZeroWidth(x) + ZeroWidth(y)
  {
    assert [x, y] == [x] + [y] && [x][1..] == [] && [y][1..] == [];
    WidthsAppend([x], [y]);
  }

  lemma ThreeWidths(x: Item, y: Item, z: Item)
    ensures ZeroWidths([x, y, z]) == ZeroWidth(x) + ZeroWidth(y) + ZeroWidth(z)
  {
    assert [x, y, z] == [x, y] + [z] && [z][1..] == [];
    WidthsAppend([x, y], [z]);
    TwoWidths(x, y);
  }

  // ----- one operation, and runs put together -----

  lemma DoesI32(c: CurState, key: Key) returns (d: CurState)
    requires 0 <= c.o && c.o + 4 <= |c.b|
    ensures Do(c, I32(key)) == Some(d) && d.b == c.b && d.o == c.o + 4 && |d.tok| == |c.tok| + 1
    ensures d.tok[|c.tok|].value == Some(DecI32(c.b[c.o..c.o + 4]))
  {
    d := Do(c, I32(key)).value;
  }

  lemma DoesRaw(c: CurState, n: nat) returns (d: CurState)
    ensures Do(c, Raw(n)) == Some(d) && d.b == c.b && d.o == c.o + n && |d.tok| == |c.tok| + 1
  {
    d := Do(c, Raw(n)).value;
  }

  lemma DoesArray(c: CurState, elem: nat, key: Key, n: int) returns (d: CurState)
    requires Unpack(c.b, c.o, 4).Some? && DecI32(Unpack(c.b, c.o, 4).value) == n
    ensures Do(c, Array(elem, key)) == Some(d) && d.b == c.b && d.o == c.o + 4 + n * elem
    ensures PullsNotBack(c, Array(elem, key)) <==> 4 + n * elem >= 0
  {
    hide DecI32, Unpack, Slice;
    ArrayBytesIsProduct(n, elem);
    d := Do(c, Array(elem, key)).value;
  }

  lemma DoesString(c: CurState, ln: int) returns (d: CurState)
    requires Unpack(c.b, c.o, 4).Some? && DecI32(Unpack(c.b, c.o, 4).value) == ln
    ensures Do(c, FString) == Some(d) && d.b == c.b && d.o == c.o + 4 + UePkg.StringBytes(ln)
  {
    hide DecI32, Unpack, Slice;
    d := Do(c, FString).value;
  }

  /** Three operations one after another. */
  lemma ThreeReach(c: CurState, x: Item, y: Item, z: Item, c1: CurState, c2: CurState, c3: CurState)
    requires Do(c, x) == Some(c1) && Do(c1, y) == Some(c2) && Do(c2, z) == Some(c3)
    ensures DoAll(c, [x, y, z]) == Some(c3)
    ensures c.o >= 0 && c1.o >= 0 && c2.o >= 0 && c3.o >= 0 ==> NeverNegative(c, [x, y, z])
    ensures Pos(c) <= Pos(c1) <= Pos(c2) <= Pos(c3) ==> NeverBack(c, [x, y, z])
  {
    hide Do, Pos;
    DoCons(c, [x, y, z]);
    DoCons(c1, [y, z]);
    DoCons(c2, [z]);
    assert [x, y, z][1..] == [y, z] && [y, z][1..] == [z] && [z][1..] == [];
    assert c3.o >= 0 ==> NeverNegative(c3, []);
    assert c2.o >= 0 && c3.o >= 0 ==> NeverNegative(c2, [z]);
    assert c1.o >= 0 && c2.o >= 0 && c3.o >= 0 ==> NeverNegative(c1, [y, z]);
    assert Pos(c2) <= Pos(c3) ==> NeverBack(c2, [z]);
    assert Pos(c1) <= Pos(c2) <= Pos(c3) ==> NeverBack(c1, [y, z]);
  }

  lemma {:induction false} NeverNegativeAppend(c: CurState, s: seq<Item>, t: seq<Item>)
    requires NeverNegative(c, s) && DoAll(c, s).Some? && NeverNegative(DoAll(c, s).value, t)
    ensures NeverNegative(c, s + t)
    decreases |s|
  {
    hide Do;
    if s == [] {
      assert s + t == t;
    } else {
      DoCons(c, s);
      assert (s + t)[1..] == s[1..] + t && (s + t)[0] == s[0];
      NeverNegativeAppend(Do(c, s[0]).value, s[1..], t);
    }
  }

  lemma {:induction false} NeverBackAppend(c: CurState, s: seq<Item>, t: seq<Item>)
    requires NeverBack(c, s) && DoAll(c, s).Some? && NeverBack(DoAll(c, s).value, t)
    ensures NeverBack(c, s + t)
    decreases |s|
  {
    hide Do, Pos;
    if s == [] {
      assert s + t == t;
    } else {
      DoCons(c, s);
      assert (s + t)[1..] == s[1..] + t && (s + t)[0] == s[0];
      NeverBackAppend(Do(c, s[0]).value, s[1..], t);
    }
  }

  lemma {:induction false} MovesBackAt(c: CurState, s: seq<Item>, t: seq<Item>)
    requires DoAll(c, s).Some? && t != [] && !PullsNotBack(DoAll(c, s).value, t[0])
    ensures !NoneMovesBack(c, s + t)
    decreases |s|
  {
    hide Do, PullsNotBack;
    if s == [] {
      assert s + t == t;
    } else {
      DoCons(c, s);
      assert (s + t)[1..] == s[1..] + t && (s + t)[0] == s[0];
      MovesBackAt(Do(c, s[0]).value, s[1..], t);
    }
  }

  /** A run that ends here, and whether it stayed at or behind the start and never moved back. */
  ghost predicate Reaches(c: CurState, items: seq<Item>, d: CurState, positive: bool, forward: bool) {
    && DoAll(c, items) == Some(d) && d.b == c.b
    && (positive ==> NeverNegative(c, items)) && (forward ==> NeverBack(c, items))
  }

  lemma ReachesOn(c: CurState, s: seq<Item>, d: CurState, t: seq<Item>, e: CurState, positive: bool, forward: bool)
    requires Reaches(c, s, d, positive, forward) && Reaches(d, t, e, positive, forward)
    ensures Reaches(c, s + t, e, positive, forward)
  {
    hide Do, NeverNegative, NeverBack;
    DoAppend(c, s, t);
    if positive { NeverNegativeAppend(c, s, t); }
    if forward { NeverBackAppend(c, s, t); }
  }

  lemma OverZeros(c: CurState, items: seq<Item>, positive: bool, forward: bool) returns (d: CurState)
    requires ZeroIn(c.b, c.o, c.o + ZeroWidths(items))
    ensures Reaches(c, items, d, positive, forward) && d.o == c.o + ZeroWidths(items)
  {
    hide Do, NeverNegative, NeverBack, ZeroWidths, ZeroIn;
    ZeroRun(c, items);
    d := DoAll(c, items).value;
  }

  // ----- the layout of a legacy summary in parts -----

  /** From the custom versions to the folder name. */
  const FROM_ARRAY: seq<Item> := [Array(20, CustomVersions), I32(TotalHeaderSize), FString]

  const FLAGS: seq<Item> := [Raw(4)]

  /** What follows the folder name's flags, up to the generations. */
  function UpToGenerations(): seq<Item> { OFFSETS + [Raw(16)] }

  /** What follows the first engine version, up to the count of additional packages. */
  function FromSecondEngine(): seq<Item> { ENGINE + COMPRESSION }

  const GENERATIONS: seq<Item> := [Array(8, Generations), Raw(10), FString]

  const VERSION_WORDS: seq<Item> := [I32(FileVerUE4), I32(FileVerLicensee)]

  lemma BeforeInParts()
    ensures Before(-4)
      == HEAD + VERSION_WORDS + FROM_ARRAY + FLAGS + UpToGenerations() + GENERATIONS + FromSecondEngine()
  {
    assert VERSIONS == VERSION_WORDS + FROM_ARRAY + FLAGS;
    assert GENERATIONS == [Array(8, Generations)] + ENGINE;
  }

  lemma WordsWidth()
    ensures ZeroWidths(VERSION_WORDS) == 8
  {
    hide ZeroWidths;
    FourEach(VERSION_WORDS);
  }

  lemma FromArrayWidth()
    ensures ZeroWidths(FROM_ARRAY) == 12
  {
    hide ZeroWidths;
    FourEach(FROM_ARRAY);
  }

  lemma OneWidth(it: Item)
    ensures ZeroWidths([it]) == ZeroWidth(it)
  {
    assert [it][1..] == [];
  }

  lemma UpToGenerationsWidth()
    ensures ZeroWidths(UpToGenerations()) == 68
  {
    hide ZeroWidths;
    FourEach(OFFSETS);
    OneWidth(Raw(16));
    WidthsAppend(OFFSETS, [Raw(16)]);
  }

  lemma GenerationsWidth()
    ensures ZeroWidths(GENERATIONS) == 18
  {
    hide ZeroWidths;
    ThreeWidths(Array(8, Generations), Raw(10), FString);
  }

  lemma FromSecondEngineWidth()
    ensures ZeroWidths(FromSecondEngine()) == 26
  {
    hide ZeroWidths;
    TwoWidths(Raw(10), FString);
    ThreeWidths(Raw(4), Array(0, CompressedChunks), Raw(4));
    WidthsAppend(ENGINE, COMPRESSION);
  }

  lemma AfterWidth()
    ensures ZeroWidths(After(0)) == 32
  {
    hide ZeroWidths;
    ThreeWidths(COUNT, TAIL[0], TAIL[1]);
    FourEach(TAIL[2..]);
    WidthsAppend([COUNT, TAIL[0], TAIL[1]], TAIL[2..]);
    assert After(0) == [COUNT, TAIL[0], TAIL[1]] + TAIL[2..];
  }

  /** This word of the file is this number. */
  ghost predicate HasWord(b: Data, at: nat, v: int) { at + 4 <= |b| && DecI32(b[at..at + 4]) == v }

  lemma LegacyHead(b: Data) returns (c: CurState)
    requires HasWord(b, 4, -4)
    ensures Reaches(CurState(b, 0, []), HEAD, c, true, true) && c.o == 8
    ensures |c.tok| == 2 && c.tok[1].value == Some(-4)
  {
    hide Do, DecI32;
    var c0 := CurState(b, 0, []);
    var c1 := DoesRaw(c0, 4);
    c := DoesI32(c1, Legacy);
    DoCons(c0, HEAD);
    DoCons(c1, HEAD[1..]);
    assert HEAD[1..][1..] == [];
    assert NeverNegative(c1, HEAD[1..]) && NeverBack(c1, HEAD[1..]);
  }

  /** With no additional packages after the middle, the run over the layout is the whole parse. */
  lemma ParsesOn(b: Data, h: CurState, m: CurState, c: CurState, positive: bool, forward: bool)
    requires var c0 := CurState(b, 0, []);
      DoAll(c0, HEAD) == Some(h) && Reaches(c0, Before(-4), m, positive, forward)
    requires |h.tok| == 2 && h.tok[1].value == Some(-4) && ZeroIn(b, m.o, m.o + 4)
    requires Reaches(m, After(0), c, positive, forward)
    ensures SummaryCursor(b) == Some(c) && LegacyAt(b) == -4 && CountAt(b) == 0
    ensures Reaches(CurState(b, 0, []), Layout(-4, 0), c, positive, forward)
  {
    hide Do, Before, After, DecI32, Unpack, NeverNegative, NeverBack;
    ReachesOn(CurState(b, 0, []), Before(-4), m, After(0), c, positive, forward);
    ZeroWord(b, m.o);
    DoAppend(CurState(b, 0, []), Before(-4), After(0));
  }

  /** With nothing but zeros behind the middle, the run over the layout is the whole parse. */
  lemma ParsesWhole(b: Data, h: CurState, m: CurState, positive: bool, forward: bool) returns (c: CurState)
    requires var c0 := CurState(b, 0, []);
      DoAll(c0, HEAD) == Some(h) && Reaches(c0, Before(-4), m, positive, forward)
    requires |h.tok| == 2 && h.tok[1].value == Some(-4) && ZeroIn(b, m.o, m.o + 32)
    ensures SummaryCursor(b) == Some(c) && c.o == m.o + 32 && LegacyAt(b) == -4 && CountAt(b) == 0
    ensures Reaches(CurState(b, 0, []), Layout(-4, 0), c, positive, forward)
  {
    hide Do, Before, After, DecI32, Unpack, NeverNegative, NeverBack, ZeroWidths;
    AfterWidth();
    c := OverZeros(m, After(0), positive, forward);
    assert ZeroIn(b, m.o, m.o + 4);
    ParsesOn(b, h, m, c, positive, forward);
  }

  // ----- a summary whose tokens do not tile -----

  /** A file of zeros but for a legacy version of -4 and a count of -1 custom versions. */
  ghost predicate Backwards(b: Data) {
    && |b| == 164 && HasWord(b, 4, -4) && HasWord(b, 16, -1)
    && ZeroIn(b, 0, 4) && ZeroIn(b, 8, 16) && ZeroIn(b, 20, 164)
  }

  /** The array of -1 custom versions ends where the file starts, and the folder name before the array again. */
  lemma BackwardsArray(c: CurState) returns (d: CurState)
    requires Backwards(c.b) && c.o == 16
    ensures Reaches(c, FROM_ARRAY, d, true, false) && d.o == 16 && !PullsNotBack(c, FROM_ARRAY[0])
  {
    hide Do, DecI32, ZeroIn, PullsNotBack, Pos;
    var c1 := DoesArray(c, 20, CustomVersions, -1);
    var c2 := DoesI32(c1, TotalHeaderSize);
    d := DoesString(c2, -4);
    ThreeReach(c, FROM_ARRAY[0], FROM_ARRAY[1], FROM_ARRAY[2], c1, c2, d);
  }

  lemma OneRaw(c: CurState) returns (d: CurState)
    requires 0 <= c.o && c.o + 4 <= |c.b|
    ensures Reaches(c, FLAGS, d, true, true) && d.o == c.o + 4
  {
    hide Do;
    d := DoesRaw(c, 4);
    DoCons(c, FLAGS);
    assert FLAGS[1..] == [];
    assert NeverNegative(d, []) && NeverBack(d, []);
  }

  lemma BackwardsFront(b: Data) returns (h: CurState, x: CurState, z: CurState)
    requires Backwards(b)
    ensures var c0 := CurState(b, 0, []);
      && DoAll(c0, HEAD) == Some(h) && |h.tok| == 2 && h.tok[1].value == Some(-4)
      && DoAll(c0, HEAD + VERSION_WORDS) == Some(x) && !PullsNotBack(x, FROM_ARRAY[0])
      && Reaches(c0, HEAD + VERSION_WORDS + FROM_ARRAY + FLAGS, z, true, false) && z.o == 20
  {
    hide Do, ZeroWidths, PullsNotBack, NeverNegative, NeverBack, HasWord;
    var c0 := CurState(b, 0, []);
    h := LegacyHead(b);
    WordsWidth();
    x := OverZeros(h, VERSION_WORDS, true, false);
    ReachesOn(c0, HEAD, h, VERSION_WORDS, x, true, false);
    var y := BackwardsArray(x);
    ReachesOn(c0, HEAD + VERSION_WORDS, x, FROM_ARRAY, y, true, false);
    z := OneRaw(y);
    ReachesOn(c0, HEAD + VERSION_WORDS + FROM_ARRAY, y, FLAGS, z, true, false);
  }

  lemma ZeroPart(b: Data, i: int, j: int, k: int, l: int)
    requires ZeroIn(b, i, j) && i <= k <= l <= j
    ensures ZeroIn(b, k, l)
  {
  }

  /** From the offsets to the count of additional packages over zeros. */
  lemma ZeroRest(c: CurState) returns (d: CurState)
    requires ZeroIn(c.b, c.o, c.o + 112)
    ensures Reaches(c, UpToGenerations() + GENERATIONS + FromSecondEngine(), d, true, true) && d.o == c.o + 112
  {
    hide ZeroWidths, ZeroIn, Reaches, UpToGenerations, FromSecondEngine;
    UpToGenerationsWidth();
    GenerationsWidth();
    FromSecondEngineWidth();
    WidthsAppend(UpToGenerations(), GENERATIONS);
    WidthsAppend(UpToGenerations() + GENERATIONS, FromSecondEngine());
    d := OverZeros(c, UpToGenerations() + GENERATIONS + FromSecondEngine(), true, true);
  }

  lemma BackwardsMiddle(b: Data) returns (h: CurState, x: CurState, m: CurState)
    requires Backwards(b)
    ensures var c0 := CurState(b, 0, []);
      && DoAll(c0, HEAD) == Some(h) && |h.tok| == 2 && h.tok[1].value == Some(-4)
      && DoAll(c0, HEAD + VERSION_WORDS) == Some(x) && !PullsNotBack(x, FROM_ARRAY[0])
      && Reaches(c0, Before(-4), m, true, false) && m.o == 132
  {
    hide Do, PullsNotBack, NeverNegative, NeverBack, HasWord, Before, UpToGenerations, FromSecondEngine;
    var z: CurState;
    h, x, z := BackwardsFront(b);
    ZeroPart(b, 20, 164, 20, 132);
    m := ZeroRest(z);
    var front, rest := HEAD + VERSION_WORDS + FROM_ARRAY + FLAGS, UpToGenerations() + GENERATIONS + FromSecondEngine();
    ReachesOn(CurState(b, 0, []), front, z, rest, m, true, false);
    BeforeInParts();
    assert front + rest == front + UpToGenerations() + GENERATIONS + FromSecondEngine();
  }

  /**
   * The tiling does fail: this file parses to its very end with the cursor never before its start,
   * and its tokens put together are not the bytes consumed.
   */
  lemma BackwardsDoesNotTile(b: Data)
    requires Backwards(b)
    ensures SummaryCursor(b).Some? && SummaryCursor(b).value.o == |b| && CursorNotNegative(b)
    ensures Join(SummaryCursor(b).value.tok) != b
  {
    hide Do, PullsNotBack, NoneMovesBack, NeverNegative, NeverBack, Before, After, SummaryCursor, Join, HasWord,
      UpToGenerations, FromSecondEngine;
    var h, x, m := BackwardsMiddle(b);
    ZeroPart(b, 20, 164, 132, 164);
    var c := ParsesWhole(b, h, m, true, false);
    BeforeInParts();
    var tail := FROM_ARRAY + FLAGS + UpToGenerations() + GENERATIONS + FromSecondEngine() + After(0);
    assert Layout(-4, 0) == HEAD + VERSION_WORDS + tail;
    assert tail[0] == FROM_ARRAY[0];
    MovesBackAt(CurState(b, 0, []), HEAD + VERSION_WORDS, tail);
    ForwardTilesIff(b);
    assert b[..164] == b;
  }

  function Zeros(n: nat): (b: Data)
    ensures |b| == n && ZeroIn(b, 0, n)
  {
    seq(n, i => 0)
  }

  lemma WordIn(a: Data, v: int, rest: Data)
    requires InI32(v)
    ensures HasWord(a + EncI32(v) + rest, |a|, v)
  {
    hide EncI32, DecI32;
    var b := a + EncI32(v) + rest;
    assert b[|a|..|a| + 4] == EncI32(v) + [];
    I32RoundTrip(v, []);
  }

  lemma ZerosAt(a: Data, n: nat, rest: Data)
    ensures ZeroIn(a + Zeros(n) + rest, |a|, |a| + n)
  {
    var b := a + Zeros(n) + rest;
    forall k | |a| <= k < |a| + n ensures b[k] == 0 { assert b[k] == Zeros(n)[k - |a|]; }
  }

  lemma BackwardsExists() returns (b: Data)
    ensures Backwards(b)
  {
    hide EncI32, DecI32, ZeroIn, HasWord, Zeros;
    var one, two, end := Zeros(4) + EncI32(-4), Zeros(8) + EncI32(-1), Zeros(144);
    b := one + two + end;
    ZerosAt([], 4, EncI32(-4) + two + end);
    assert b == [] + Zeros(4) + (EncI32(-4) + two + end);
    WordIn(Zeros(4), -4, two + end);
    assert b == Zeros(4) + EncI32(-4) + (two + end);
    ZerosAt(one, 8, EncI32(-1) + end);
    assert b == one + Zeros(8) + (EncI32(-1) + end);
    WordIn(one + Zeros(8), -1, end);
    assert b == one + Zeros(8) + EncI32(-1) + end;
    ZerosAt(one + two, 144, []);
    assert b == one + two + Zeros(144) + [];
  }

  // ----- a summary whose tokens tile though an array moves before the start -----

  /**
   * A file of zeros but for a legacy version of -4, a count of -22 generations, and the number 200
   * where the cursor then looks for the engine version's branch, counting from the end of the file.
   */
  ghost predicate Wraps(b: Data) {
    && |b| == 200 && HasWord(b, 4, -4) && HasWord(b, 100, -22) && HasWord(b, 138, 200)
    && ZeroIn(b, 0, 4) && ZeroIn(b, 8, 100) && ZeroIn(b, 104, 138) && ZeroIn(b, 142, 200)
  }

  /** The array ends at -72, and the string that follows the ten bytes there ends at 142. */
  lemma WrapsArray(c: CurState) returns (d: CurState)
    requires Wraps(c.b) && c.o == 100
    ensures Reaches(c, GENERATIONS, d, false, true) && d.o == 142 && !PullsNotBack(c, GENERATIONS[0])
  {
    hide Do, DecI32, ZeroIn, PullsNotBack;
    var c1 := DoesArray(c, 8, Generations, -22);
    var c2 := DoesRaw(c1, 10);
    d := DoesString(c2, 200);
    ThreeReach(c, GENERATIONS[0], GENERATIONS[1], GENERATIONS[2], c1, c2, d);
  }

  /** From the versions to the generations over zeros. */
  function FrontZeros(): seq<Item> { VERSION_WORDS + FROM_ARRAY + FLAGS + UpToGenerations() }

  lemma FrontZerosWidth()
    ensures ZeroWidths(FrontZeros()) == 92
  {
    hide ZeroWidths, UpToGenerations;
    WordsWidth();
    FromArrayWidth();
    OneWidth(Raw(4));
    UpToGenerationsWidth();
    WidthsAppend(VERSION_WORDS, FROM_ARRAY);
    WidthsAppend(VERSION_WORDS + FROM_ARRAY, FLAGS);
    WidthsAppend(VERSION_WORDS + FROM_ARRAY + FLAGS, UpToGenerations());
  }

  lemma WrapsMiddle(b: Data) returns (h: CurState, x: CurState, m: CurState)
    requires Wraps(b)
    ensures var c0 := CurState(b, 0, []);
      && DoAll(c0, HEAD) == Some(h) && |h.tok| == 2 && h.tok[1].value == Some(-4)
      && DoAll(c0, HEAD + FrontZeros()) == Some(x) && !PullsNotBack(x, GENERATIONS[0])
      && Reaches(c0, Before(-4), m, false, true) && m.o == 168
  {
    hide Do, ZeroWidths, PullsNotBack, NeverNegative, NeverBack, HasWord, Before, UpToGenerations, FromSecondEngine,
      FrontZeros;
    var c0 := CurState(b, 0, []);
    h := LegacyHead(b);
    FrontZerosWidth();
    x := OverZeros(h, FrontZeros(), false, true);
    ReachesOn(c0, HEAD, h, FrontZeros(), x, false, true);
    var y := WrapsArray(x);
    ReachesOn(c0, HEAD + FrontZeros(), x, GENERATIONS, y, false, true);
    FromSecondEngineWidth();
    ZeroPart(b, 142, 200, 142, 168);
    m := OverZeros(y, FromSecondEngine(), false, true);
    ReachesOn(c0, HEAD + FrontZeros() + GENERATIONS, y, FromSecondEngine(), m, false, true);
    WrapsBefore();
  }

  lemma WrapsBefore()
    ensures Before(-4) == HEAD + FrontZeros() + GENERATIONS + FromSecondEngine()
  {
    hide UpToGenerations, FromSecondEngine, Before;
    BeforeInParts();
    assert HEAD + FrontZeros() == HEAD + VERSION_WORDS + FROM_ARRAY + FLAGS + UpToGenerations();
  }

  /**
   * Arrays that move the cursor back do not always spoil the tiling: this file parses to its very
   * end and its tokens put together are its bytes, though one array moved the cursor to -72.
   */
  lemma WrapsTiles(b: Data)
    requires Wraps(b)
    ensures SummaryCursor(b).Some? && SummaryCursor(b).value.o == |b| && Join(SummaryCursor(b).value.tok) == b
    ensures !ArraysNotBackwards(b) && !CursorNotNegative(b)
  {
    hide Do, PullsNotBack, NoneMovesBack, NeverNegative, NeverBack, Before, After, SummaryCursor, Join, HasWord,
      FrontZeros, FromSecondEngine;
    var h, x, m := WrapsMiddle(b);
    ZeroPart(b, 142, 200, 168, 200);
    var c := ParsesWhole(b, h, m, false, true);
    TokensTile(b);
    assert b[..200] == b;
    WrapsBefore();
    var tail := GENERATIONS + FromSecondEngine() + After(0);
    assert Layout(-4, 0) == HEAD + FrontZeros() + tail;
    assert tail[0] == GENERATIONS[0];
    MovesBackAt(CurState(b, 0, []), HEAD + FrontZeros(), tail);
    ForwardTilesIff(b);
  }

  lemma WrapsExists() returns (b: Data)
    ensures Wraps(b)
  {
    hide EncI32, DecI32, ZeroIn, HasWord, Zeros;
    var one, two, three := Zeros(4) + EncI32(-4), Zeros(92) + EncI32(-22), Zeros(34) + EncI32(200);
    var end := Zeros(58);
    b := one + two + three + end;
    ZerosAt([], 4, EncI32(-4) + two + three + end);
    assert b == [] + Zeros(4) + (EncI32(-4) + two + three + end);
    WordIn(Zeros(4), -4, two + three + end);
    assert b == Zeros(4) + EncI32(-4) + (two + three + end);
    ZerosAt(one, 92, EncI32(-22) + three + end);
    assert b == one + Zeros(92) + (EncI32(-22) + three + end);
    WordIn(one + Zeros(92), -22, three + end);
    assert b == one + Zeros(92) + EncI32(-22) + (three + end);
    ZerosAt(one + two, 34, EncI32(200) + end);
    assert b == one + two + Zeros(34) + (EncI32(200) + end);
    WordIn(one + two + Zeros(34), 200, end);
    assert b == one + two + Zeros(34) + EncI32(200) + end;
    ZerosAt(one + two + three, 58, []);
    assert b == one + two + three + Zeros(58) + [];
  }

  // ----- a summary that tiles, and whose last count is also another number -----

  /** A file of zeros but for a legacy version of -4 and a count of -1 chunk ids. */
  ghost predicate Shared(b: Data) {
    && |b| == 172 && HasWord(b, 4, -4) && HasWord(b, 164, -1)
    && ZeroIn(b, 0, 4) && ZeroIn(b, 8, 164) && ZeroIn(b, 168, 172)
  }

  /** From the versions to the count of additional packages over zeros. */
  lemma SharedMiddle(b: Data) returns (h: CurState, m: CurState)
    requires Shared(b)
    ensures var c0 := CurState(b, 0, []);
      && DoAll(c0, HEAD) == Some(h) && |h.tok| == 2 && h.tok[1].value == Some(-4)
      && Reaches(c0, Before(-4), m, true, true) && m.o == 144
  {
    hide Do, ZeroWidths, ZeroIn, NeverNegative, NeverBack, HasWord, Before, UpToGenerations, FromSecondEngine,
      FrontZeros, Reaches;
    h := LegacyHead(b);
    FrontZerosWidth();
    GenerationsWidth();
    FromSecondEngineWidth();
    WidthsAppend(FrontZeros(), GENERATIONS);
    WidthsAppend(FrontZeros() + GENERATIONS, FromSecondEngine());
    ZeroPart(b, 8, 164, 8, 144);
    LegacyReach(b, h);
    m := OverZeros(h, FrontZeros() + GENERATIONS + FromSecondEngine(), true, true);
    ReachesOn(CurState(b, 0, []), HEAD, h, FrontZeros() + GENERATIONS + FromSecondEngine(), m, true, true);
    WrapsBefore();
    assert HEAD + (FrontZeros() + GENERATIONS + FromSecondEngine()) == Before(-4);
  }

  lemma LegacyReach(b: Data, h: CurState)
    requires Reaches(CurState(b, 0, []), HEAD, h, true, true)
    ensures h.b == b && DoAll(CurState(b, 0, []), HEAD) == Some(h)
  {
  }

  /** Up to the chunk ids. */
  const TO_CHUNKS: seq<Item> := [COUNT, I32(AssetRegistryDataOffset), I64(BulkDataStartOffset)]
    + [I32(WorldTileInfoDataOffset)]

  lemma ToChunksWidth()
    ensures ZeroWidths(TO_CHUNKS) == 20 && After(0) == TO_CHUNKS + LAST
  {
    hide ZeroWidths;
    ThreeWidths(COUNT, I32(AssetRegistryDataOffset), I64(BulkDataStartOffset));
    OneWidth(I32(WorldTileInfoDataOffset));
    WidthsAppend([COUNT, I32(AssetRegistryDataOffset), I64(BulkDataStartOffset)], [I32(WorldTileInfoDataOffset)]);
  }

  /** The array ends where it starts, so the number after it is read from the same bytes. */
  lemma SharedEnd(c: CurState) returns (e: CurState, toks: seq<Token>)
    requires Shared(c.b) && c.o == 164
    ensures Reaches(c, LAST, e, true, true) && e.o == 172 && e.tok == c.tok + toks
    ensures |toks| == 3 && toks[0].raw == []
    ensures toks[1].kind == Int32 && toks[1].key == Some(PreloadDependencyCount)
  {
    hide DecI32, ZeroIn, DoAll, NeverNegative, NeverBack;
    var d := DoesArray(c, 4, ChunkIDs, -1);
    var f := DoesI32(d, PreloadDependencyCount);
    e := DoesI32(f, PreloadDependencyOffset);
    ThreeReach(c, LAST[0], LAST[1], LAST[2], d, f, e);
    TokensGrow(c, LAST);
    toks := e.tok[|c.tok|..];
    ThreeTokens(c, toks, e, d, f);
  }

  lemma SharedParses(b: Data) returns (c: CurState, e: CurState, toks: seq<Token>)
    requires Shared(b)
    ensures SummaryCursor(b) == Some(e) && e.o == 172 && e.b == b && CursorNotNegative(b) && NothingMovedBack(b)
    ensures e.tok == c.tok + toks && |c.tok| >= 2
    ensures |toks| == 3 && toks[0].raw == []
    ensures toks[1].kind == Int32 && toks[1].key == Some(PreloadDependencyCount)
  {
    hide Do, DecI32, NeverNegative, NeverBack, ZeroWidths, HasWord, Before, After, SummaryCursor;
    var h, m := SharedMiddle(b);
    ToChunksWidth();
    ZeroPart(b, 8, 164, 144, 164);
    c := OverZeros(m, TO_CHUNKS, true, true);
    TokensCount(m, TO_CHUNKS);
    e, toks := SharedEnd(c);
    ReachesOn(m, TO_CHUNKS, c, LAST, e, true, true);
    ZeroPart(b, 8, 164, 144, 148);
    ParsesOn(b, h, m, e, true, true);
  }

  /**
   * Editing a number does not always commute with parsing: this file parses to its very end and its
   * tokens are its bytes, and with its preload dependency count edited to anything else it no longer
   * parses to the edited tokens.
   */
  lemma SharedCountSteers(b: Data, v: int)
    requires Shared(b) && InI32(v) && v != -1
    ensures SummaryCursor(b).Some? && SummaryCursor(b).value.o == |b| && Join(SummaryCursor(b).value.tok) == b
    ensures var toks := SummaryCursor(b).value.tok;
      && |toks| >= 3 && toks[|toks| - 2].key == Some(PreloadDependencyCount)
      && var us := toks[|toks| - 2 := I32Token(PreloadDependencyCount, EncI32(v))];
      && EditedAll(toks, us) && SameSteering(toks, us)
      && SummaryCursor(Join(us)) != Some(CurState(Join(us), |b|, us))
  {
    hide Do, DecI32, EncI32, CursorNotNegative, NothingMovedBack, SummaryCursor, Join, ArraysNotBackwards;
    var c, e, more := SharedParses(b);
    TokensTile(b);
    assert b[..172] == b;
    ForwardTilesIff(b);
    var toks := e.tok;
    assert toks[|toks| - 2] == more[1] && toks[|toks| - 3] == more[0];
    var us := toks[|toks| - 2 := I32Token(PreloadDependencyCount, EncI32(v))];
    assert EncI32(v) + [] == EncI32(v);
    I32RoundTrip(v, []);
    assert us[|us| - 2].value == Some(v);
    assert Join(us) + [] == Join(us);
    ForwardEditParsesIff(b, us, []);
  }

  lemma SharedExists() returns (b: Data)
    ensures Shared(b)
  {
    hide EncI32, DecI32, ZeroIn, HasWord, Zeros;
    var one, two, end := Zeros(4) + EncI32(-4), Zeros(156) + EncI32(-1), Zeros(4);
    b := one + two + end;
    ZerosAt([], 4, EncI32(-4) + two + end);
    assert b == [] + Zeros(4) + (EncI32(-4) + two + end);
    WordIn(Zeros(4), -4, two + end);
    assert b == Zeros(4) + EncI32(-4) + (two + end);
    ZerosAt(one, 156, EncI32(-1) + end);
    assert b == one + Zeros(156) + (EncI32(-1) + end);
    WordIn(one + Zeros(156), -1, end);
    assert b == one + Zeros(156) + EncI32(-1) + end;
    ZerosAt(one + two, 4, []);
    assert b == one + two + Zeros(4) + [];
  }
}
