/**
 * Re-emitting a parsed summary (`reserialize` of tools/client_model/ue_pkg.py): exactly when the
 * tokens put together are the slice of bytes up to the cursor.
 */
module UePkgTiling {
  import opened Results
  import opened Bytes
  import opened UePkg
  import opened UePkgProofs

  // ----- exactly when the tokens tile -----

  /** Where a slice up to the cursor ends: an offset before the start counts from the end of the bytes. */
  function Pos(c: CurState): nat { Norm(c.o, |c.b|) }

  /** No operation of a run ends, as slices count, before it began. */
  predicate NeverBack(c: CurState, items: seq<Item>)
    decreases |items|
  {
    items == [] ||
    var d := Do(c, items[0]);
    d.None? || (Pos(c) <= Pos(d.value) && NeverBack(d.value, items[1..]))
  }

  /** How much longer the tokens are than the slice up to the cursor. */
  function Surplus(c: CurState): int { |Join(c.tok)| - Pos(c) }

  /** The tokens are the slice up to the cursor. */
  ghost predicate Reemits(c: CurState) { Join(c.tok) == Slice(c.b, 0, c.o) }

  lemma JoinSnoc(toks: seq<Token>, t: Token)
    ensures Join(toks + [t]) == Join(toks) + t.raw
  {
    JoinAppend(toks, [t]);
    JoinCons(t, []);
    assert [t] + [] == [t];
  }

  /** Every token is the slice between two cursor positions. */
  lemma TokenIsSlice(c: CurState, it: Item)
    requires Do(c, it).Some?
    ensures var d := Do(c, it).value; d.b == c.b && Join(d.tok) == Join(c.tok) + Slice(c.b, c.o, d.o)
  {
    hide DecI32, Unpack, ArrayBytes, Slice, Join;
    var d := Do(c, it).value;
    JoinSnoc(c.tok, d.tok[|d.tok| - 1]);
  }

  lemma SlicesJoin(b: Data, i: int, j: int)
    ensures |Slice(b, i, j)| == if Norm(i, |b|) < Norm(j, |b|) then Norm(j, |b|) - Norm(i, |b|) else 0
    ensures Norm(i, |b|) <= Norm(j, |b|) ==> Slice(b, 0, i) + Slice(b, i, j) == Slice(b, 0, j)
  {
  }

  /** One operation adds to the surplus exactly what it moves back. */
  lemma StepSurplus(c: CurState, it: Item)
    requires Do(c, it).Some?
    ensures var d := Do(c, it).value;
      && Surplus(d) == Surplus(c) + (if Pos(c) <= Pos(d) then 0 else Pos(c) - Pos(d))
      && (Reemits(c) && Pos(c) <= Pos(d) ==> Reemits(d))
  {
    hide Do, Slice, Join, Norm;
    TokenIsSlice(c, it);
    SlicesJoin(c.b, c.o, Do(c, it).value.o);
  }

  /** Over a run the surplus only grows, and it stays what it was exactly when nothing moved back. */
  lemma {:induction false} SurplusGrows(c: CurState, items: seq<Item>)
    requires DoAll(c, items).Some?
    ensures Surplus(DoAll(c, items).value) >= Surplus(c)
    ensures Surplus(DoAll(c, items).value) == Surplus(c) <==> NeverBack(c, items)
    ensures Reemits(c) && NeverBack(c, items) ==> Reemits(DoAll(c, items).value)
    decreases |items|
  {
    hide Do, Reemits, Pos, Surplus;
    if items != [] {
      DoCons(c, items);
      StepSurplus(c, items[0]);
      SurplusGrows(Do(c, items[0]).value, items[1..]);
    }
  }

  lemma ReemitsHasNoSurplus(c: CurState)
    requires Reemits(c)
    ensures Surplus(c) == 0
  {
  }

  /** The cursor of `parse_summary` never moved back, as slices count. */
  predicate NothingMovedBack(b: Data) { NeverBack(CurState(b, 0, []), Layout(LegacyAt(b), CountAt(b))) }

  /**
   * Exactly when the tokens tile the input: for every summary that parses, the tokens put together
   * are the slice of bytes up to the cursor if and only if no operation moved the cursor back.
   */
  lemma TokensTile(b: Data)
    requires SummaryCursor(b).Some?
    ensures var c := SummaryCursor(b).value; Join(c.tok) == Slice(b, 0, c.o) <==> NothingMovedBack(b)
  {
    hide Surplus, LegacyAt, CountAt, Layout, Join, Slice;
    var c0, items := CurState(b, 0, []), Layout(LegacyAt(b), CountAt(b));
    var c := SummaryCursor(b).value;
    SummaryIsLayout(b);
    SameBytes(c0, items);
    assert Reemits(c0) by { NothingReemits(b); }
    ReemitsHasNoSurplus(c0);
    SurplusGrows(c0, items);
    if Reemits(c) { ReemitsHasNoSurplus(c); }
  }

  lemma NothingReemits(b: Data)
    ensures Reemits(CurState(b, 0, []))
  {
  }

  // ----- while the cursor stays at or behind the start -----

  /** If this is an array, its count does not pull the cursor behind where it stands. */
  predicate PullsNotBack(c: CurState, it: Item) {
    it.Array? ==> var w := Unpack(c.b, c.o, 4); w.None? || 4 + ArrayBytes(DecI32(w.value), it.elem) >= 0
  }

  predicate NoneMovesBack(c: CurState, items: seq<Item>)
    decreases |items|
  {
    items == [] ||
    (PullsNotBack(c, items[0]) &&
     var d := Do(c, items[0]); d.None? || NoneMovesBack(d.value, items[1..]))
  }

  predicate NeverNegative(c: CurState, items: seq<Item>)
    decreases |items|
  {
    c.o >= 0 && (items == [] || var d := Do(c, items[0]); d.None? || NeverNegative(d.value, items[1..]))
  }

  /** Past the end every read fails, so a run that ends with a read cannot be past it. */
  lemma {:induction false} OverrunFails(c: CurState, items: seq<Item>)
    requires c.o > |c.b| && items != [] && items[|items| - 1].I32?
    ensures DoAll(c, items).None?
    decreases |items|
  {
    hide DecI32, ArrayBytes, Slice;
    DoCons(c, items);
    if |items| > 1 && items[0].Raw? { OverrunFails(Do(c, items[0]).value, items[1..]); }
  }

  lemma StaysInside(c: CurState, items: seq<Item>)
    requires 0 <= c.o && items != [] && items[|items| - 1].I32? && DoAll(c, items).Some?
    ensures Do(c, items[0]).Some? && DoAll(Do(c, items[0]).value, items[1..]) == DoAll(c, items)
    ensures c.o <= |c.b| && Do(c, items[0]).value.b == c.b && Do(c, items[0]).value.o <= |c.b|
  {
    hide DecI32, ArrayBytes, Slice;
    DoCons(c, items);
    if c.o > |c.b| { OverrunFails(c, items); }
    var d := Do(c, items[0]).value;
    if |items| > 1 && d.o > |c.b| { OverrunFails(d, items[1..]); }
  }

  lemma {:induction false} ForwardIsPositive(c: CurState, items: seq<Item>)
    requires 0 <= c.o && NoneMovesBack(c, items)
    ensures NeverNegative(c, items)
    decreases |items|
  {
    if items != [] && Do(c, items[0]).Some? { ForwardIsPositive(Do(c, items[0]).value, items[1..]); }
  }

  /** The cursor of `parse_summary` never stood before the start of the bytes. */
  predicate CursorNotNegative(b: Data) { NeverNegative(CurState(b, 0, []), Layout(LegacyAt(b), CountAt(b))) }

  /** No array that `parse_summary` met moved the cursor back. */
  predicate ArraysNotBackwards(b: Data) { NoneMovesBack(CurState(b, 0, []), Layout(LegacyAt(b), CountAt(b))) }

  lemma PullsBackMoves(c: CurState, it: Item)
    requires 0 <= c.o <= |c.b| && Do(c, it).Some? && 0 <= Do(c, it).value.o <= |c.b|
    ensures PullsNotBack(c, it) <==> Pos(c) <= Pos(Do(c, it).value)
  {
    hide DecI32, Unpack, ArrayBytes, Slice;
  }

  /** Then moving back is an array's doing. */
  lemma {:induction false} BackIsArrays(c: CurState, items: seq<Item>)
    requires DoAll(c, items).Some? && NeverNegative(c, items) && c.o <= |c.b|
    requires items == [] || items[|items| - 1].I32?
    ensures NeverBack(c, items) <==> NoneMovesBack(c, items)
    ensures 0 <= DoAll(c, items).value.o <= |c.b|
    decreases |items|
  {
    hide Do, PullsNotBack, Pos;
    if items != [] {
      StaysInside(c, items);
      PullsBackMoves(c, items[0]);
      BackIsArrays(Do(c, items[0]).value, items[1..]);
    }
  }

  /**
   * So of the summaries whose cursor never stands before the start of the bytes, exactly those tile
   * in which no array's size word and elements together have a negative size.
   */
  lemma ForwardTilesIff(b: Data)
    requires SummaryCursor(b).Some?
    ensures Tiled(SummaryCursor(b).value) && CursorNotNegative(b) <==> ArraysNotBackwards(b)
  {
    hide LegacyAt, CountAt, Join, Layout;
    var c0, items := CurState(b, 0, []), Layout(LegacyAt(b), CountAt(b));
    SummaryIsLayout(b);
    SameBytes(c0, items);
    LayoutEndsWithI32(LegacyAt(b), CountAt(b));
    if ArraysNotBackwards(b) { ForwardIsPositive(c0, items); }
    if CursorNotNegative(b) {
      BackIsArrays(c0, items);
      TokensTile(b);
    }
  }

  // ----- negative counts show in the tokens -----

  /** An array token that starts with a count that is not negative, or a token of another kind. */
  predicate CountShown(t: Token) {
    t.kind == Bytes && t.key.Some? && t.key != Some(CompressedChunks) ==> |t.raw| >= 4 && DecI32(t.raw) >= 0
  }

  predicate CountsShown(toks: seq<Token>) { forall i :: 0 <= i < |toks| ==> CountShown(toks[i]) }

  /** Only the compressed chunks are kept as a bare count. */
  predicate SizedArray(it: Item) { it.Array? ==> (it.elem == 0 <==> it.key == CompressedChunks) }

  lemma LayoutIsSized(legacy: int, count: int, it: Item)
    requires it in Layout(legacy, count)
    ensures SizedArray(it)
  {
    if it in Strings(count) { JustStrings(count, it); }
  }

  lemma {:induction false} JustStrings(n: int, it: Item)
    requires it in Strings(n)
    ensures it == FString
    decreases if n < 0 then 0 else n
  {
    if n > 0 && it in Strings(n - 1) { JustStrings(n - 1, it); }
  }

  lemma {:induction false} ArrayBytesSign(n: int, elem: nat)
    requires elem > 0
    ensures ArrayBytes(n, elem) >= 0 <==> n >= 0
  {
    if elem > 1 { ArrayBytesSign(n, elem - 1); }
  }

  /** A slice of at least four bytes starts with the number that is read where it begins. */
  lemma SliceShows(b: Data, o: int, e: int)
    requires 0 <= o && e <= |b| && Unpack(b, o, 4).Some?
    ensures var raw := Slice(b, o, e);
      && (e >= o + 4 ==> |raw| >= 4)
      && (|raw| >= 4 ==> DecI32(raw) == DecI32(Unpack(b, o, 4).value))
  {
    hide DecI32;
    var raw, hi := Slice(b, o, e), Norm(e, |b|);
    if |raw| >= 4 {
      assert raw == b[o..hi] && o + 4 <= hi <= |b|;
      assert b[o..hi][..4] == b[o..o + 4];
      CountSlice(raw);
    }
  }

  lemma ArrayShows(c: CurState, elem: nat, key: Key)
    requires 0 <= c.o && Do(c, Array(elem, key)).Some? && Do(c, Array(elem, key)).value.o <= |c.b|
    requires elem > 0 && key != CompressedChunks
    ensures var it := Array(elem, key);
      CountNotNegative(c, it) <==> CountShown(ArrayToken(key, Slice(c.b, c.o, Do(c, it).value.o)))
  {
    hide DecI32, Slice, Unpack;
    SliceShows(c.b, c.o, Do(c, Array(elem, key)).value.o);
    ArrayBytesSign(DecI32(Unpack(c.b, c.o, 4).value), elem);
  }

  lemma StepShows(c: CurState, it: Item)
    requires 0 <= c.o && SizedArray(it) && Do(c, it).Some? && Do(c, it).value.o <= |c.b|
    ensures var d := Do(c, it).value;
      && |d.tok| == |c.tok| + 1 && (CountNotNegative(c, it) <==> CountShown(d.tok[|c.tok|]))
      && (CountNotNegative(c, it) ==> 0 <= d.o)
  {
    if it.Array? && it.elem > 0 { ArrayShows(c, it.elem, it.key); }
    hide DecI32, Unpack, Slice;
  }

  lemma {:induction false} RunShows(c: CurState, items: seq<Item>)
    requires DoAll(c, items).Some? && 0 <= c.o && forall i :: 0 <= i < |items| ==> SizedArray(items[i])
    requires items == [] || items[|items| - 1].I32?
    ensures var toks := DoAll(c, items).value.tok;
      |c.tok| <= |toks| && (Forward(c, items) <==> forall i :: |c.tok| <= i < |toks| ==> CountShown(toks[i]))
    decreases |items|
  {
    hide Do, CountShown, CountNotNegative, SizedArray;
    if items != [] {
      StaysInside(c, items);
      StepShows(c, items[0]);
      var d := Do(c, items[0]).value;
      TokensGrow(d, items[1..]);
      assert DoAll(c, items).value.tok[|c.tok|] == d.tok[|c.tok|];
      if CountNotNegative(c, items[0]) {
        RunShows(d, items[1..]);
      }
    }
  }

  /** Whether a parse met a negative count shows in its tokens. */
  lemma TokensShowCounts(b: Data)
    requires SummaryCursor(b).Some?
    ensures CountsNotNegative(b) <==> CountsShown(SummaryCursor(b).value.tok)
  {
    hide LegacyAt, CountAt, CountShown, SizedArray;
    var items := Layout(LegacyAt(b), CountAt(b));
    SummaryIsLayout(b);
    LayoutEndsWithI32(LegacyAt(b), CountAt(b));
    forall i | 0 <= i < |items| ensures SizedArray(items[i]) {
      assert items[i] in items;
      LayoutIsSized(LegacyAt(b), CountAt(b), items[i]);
    }
    RunShows(CurState(b, 0, []), items);
  }

  /** Exactly when an array keeps the tiling: when its count does not pull the cursor back. */
  lemma ArrayTilesIff(c: CurState, elem: nat, key: Key)
    requires Tiled(c) && Do(c, Array(elem, key)).Some? && Do(c, Array(elem, key)).value.o <= |c.b|
    ensures Tiled(Do(c, Array(elem, key)).value) <==> 4 + ArrayBytes(DecI32(Unpack(c.b, c.o, 4).value), elem) >= 0
  {
    var d := Do(c, Array(elem, key)).value;
    var t := ArrayToken(key, Slice(c.b, c.o, d.o));
    JoinAppend(c.tok, [t]);
    JoinCons(t, []);
    assert [t] + [] == [t];
    assert Join(d.tok) == c.b[..c.o] + t.raw;
    if d.o >= c.o { assert c.b[..d.o] == c.b[..c.o] + c.b[c.o..d.o]; }
  }
}
