/**
 * Rewriting a summary's structured fields and parsing it again (`parse_summary` and `reserialize` of
 * tools/client_model/ue_pkg.py), for every summary whose tokens tile, negative counts included.
 */
module UePkgEdits {
  import opened Results
  import opened Bytes
  import opened UePkg
  import opened UePkgProofs
  import opened UePkgTiling

  // ----- one operation on edited bytes -----

  /** Strings and arrays: the operations that are as long as a stored number says. */
  predicate Counted(it: Item) { it.FString? || it.Array? }

  function Jump(it: Item, n: int): int {
    if it.FString? then StringBytes(n) else if it.Array? then ArrayBytes(n, it.elem) else 0
  }

  /** Where this string or array has its length word, the other bytes have one that sizes it the same. */
  predicate SizedAlike(c: CurState, it: Item, b2: Data) {
    Counted(it) ==>
      var w, w2 := Unpack(c.b, c.o, 4), Unpack(b2, c.o, 4);
      w.Some? ==> w2.Some? && Jump(it, DecI32(w2.value)) == Jump(it, DecI32(w.value))
  }

  predicate SameSizes(c: CurState, items: seq<Item>, b2: Data)
    decreases |items|
  {
    items == [] ||
    (SizedAlike(c, items[0], b2) &&
     var d := Do(c, items[0]); d.None? || SameSizes(d.value, items[1..], b2))
  }

  /** The offset is the same place in both. */
  predicate SamePlace(o: int, b: Data, b2: Data) { |b2| == |b| || (0 <= o <= |b| && o <= |b2|) }

  /** Some bytes where a number was unpacked are the number unpacked there. */
  lemma WordKept(b: Data, b2: Data, o: int, n: nat, x: Data)
    requires Unpack(b, o, n).Some? && 0 < n <= 8 < |b| && Norm(o, |b|) <= Norm(o + n, |b|)
    requires SamePlace(o, b, b2) && |x| == n && x <= b2[Norm(o, |b|)..]
    ensures Unpack(b2, o, n) == Some(x)
  {
    var p := Norm(o, |b|);
    assert p + n <= |b2| && b2[p..p + n] == b2[p..][..n] == x;
    assert p == if o < 0 then o + |b| else o;
  }

  /** Where the cursor does not move back, a number's token holds just its bytes. */
  lemma WordIsToken(b: Data, o: int, n: nat)
    requires Unpack(b, o, n).Some? && 0 < n <= 8 < |b| && Norm(o, |b|) <= Norm(o + n, |b|)
    ensures Unpack(b, o, n) == Some(Slice(b, o, o + n)) && Norm(o + n, |b|) == Norm(o, |b|) + n
  {
  }

  /** The other bytes from one cursor position to the next. */
  lemma SliceKept(b: Data, b2: Data, i: int, j: int, x: Data, tail: Data)
    requires SamePlace(i, b, b2) && (|b2| == |b| || 0 <= j <= |b|) && Norm(i, |b|) <= Norm(j, |b|)
    requires |x| == |Slice(b, i, j)| && b2[Norm(i, |b|)..] == x + tail
    ensures SamePlace(j, b, b2) && Slice(b2, i, j) == x && b2[Norm(j, |b|)..] == tail
  {
    var p, q := Norm(i, |b|), Norm(j, |b|);
    assert |b2[p..]| == |x| + |tail|;
    assert b2[p..q] == b2[p..][..q - p];
    assert b2[q..] == b2[p..][q - p..];
  }

  lemma EditedWidth(c: CurState, it: Item, d: CurState, u: Token)
    requires Do(c, it) == Some(d) && |c.b| > 8 && Pos(c) <= Pos(d) && Edited(d.tok[|c.tok|], u)
    ensures |u.raw| == |Slice(c.b, c.o, d.o)|
    ensures it.I32? ==> u == I32Token(it.key, u.raw)
    ensures it.I64? ==> u == I64Token(it.key, u.raw)
    ensures !it.I32? && !it.I64? ==> u == d.tok[|c.tok|]
  {
    hide DecI32, DecI64, Slice, Norm, ArrayBytes, StringBytes, EncI32, EncI64, Unpack;
    if it.I32? { WordIsToken(c.b, c.o, 4); }
    if it.I64? { WordIsToken(c.b, c.o, 8); }
  }

  /** An operation does on the edited bytes what it did before, but for the edited value. */
  lemma StepSame(c: CurState, it: Item, d: CurState, b2: Data, done: seq<Token>, u: Token, tail: Data)
    requires Do(c, it) == Some(d) && |c.b| > 8 && Pos(c) <= Pos(d) && Edited(d.tok[|c.tok|], u)
    requires SamePlace(c.o, c.b, b2) && (|b2| == |c.b| || 0 <= d.o <= |c.b|) && SizedAlike(c, it, b2)
    requires b2[Pos(c)..] == u.raw + tail
    ensures SamePlace(d.o, c.b, b2) && b2[Pos(d)..] == tail
    ensures Do(CurState(b2, c.o, done), it) == Some(CurState(b2, d.o, done + [u]))
  {
    hide DecI32, DecI64, Slice, Norm, ArrayBytes, StringBytes, EncI32, EncI64, Unpack, SamePlace, Edited;
    EditedWidth(c, it, d, u);
    SliceKept(c.b, b2, c.o, d.o, u.raw, tail);
    if it.I32? {
      WordIsToken(c.b, c.o, 4);
      WordKept(c.b, b2, c.o, 4, u.raw);
    }
    if it.I64? {
      WordIsToken(c.b, c.o, 8);
      WordKept(c.b, b2, c.o, 8, u.raw);
    }
  }

  // ----- a run of operations on edited bytes -----

  /** The cursor stands inside the bytes throughout. */
  predicate Inside(c: CurState, items: seq<Item>)
    decreases |items|
  {
    0 <= c.o <= |c.b| && (items == [] || var d := Do(c, items[0]); d.None? || Inside(d.value, items[1..]))
  }

  /** Offsets mean the same in bytes of the same length, and in others while the cursor stays inside. */
  predicate KeepsPlaces(c: CurState, items: seq<Item>, b2: Data) { |b2| == |c.b| || Inside(c, items) }

  /** A run that ends with `e` appends these tokens. */
  ghost predicate Appends(c: CurState, items: seq<Item>, toks: seq<Token>, e: CurState) {
    DoAll(c, items) == Some(e) && e.tok == c.tok + toks
  }

  /** The edited bytes from the cursor on: the edited tokens, then the rest. */
  ghost predicate Holds(c: CurState, b2: Data, us: seq<Token>, rest: Data) {
    |c.b| > 8 && SamePlace(c.o, c.b, b2) && b2[Pos(c)..] == Join(us) + rest
  }

  lemma DoAppendsOne(c: CurState, it: Item)
    requires Do(c, it).Some?
    ensures var d := Do(c, it).value; d.b == c.b && |d.tok| == |c.tok| + 1 && d.tok == c.tok + [d.tok[|c.tok|]]
  {
    hide DecI32, DecI64, Slice, Unpack, ArrayBytes, StringBytes;
  }

  lemma FirstToken(c: CurState, items: seq<Item>, toks: seq<Token>, e: CurState) returns (d: CurState)
    requires items != [] && Appends(c, items, toks, e)
    ensures Do(c, items[0]) == Some(d) && d.b == c.b && toks != [] && d.tok == c.tok + [toks[0]]
    ensures Appends(d, items[1..], toks[1..], e)
  {
    hide Do;
    DoCons(c, items);
    d := Do(c, items[0]).value;
    DoAppendsOne(c, items[0]);
    TokensGrow(d, items[1..]);
    assert e.tok[|c.tok|] == toks[0];
  }

  lemma EditedFirst(toks: seq<Token>, us: seq<Token>)
    requires EditedAll(toks, us) && toks != []
    ensures us != [] && Edited(toks[0], us[0]) && EditedAll(toks[1..], us[1..])
    ensures Join(us) == us[0].raw + Join(us[1..])
  {
    hide Edited;
  }

  /** The next operation of a run on the edited bytes. */
  lemma NextSame(c: CurState, items: seq<Item>, toks: seq<Token>, e: CurState, b2: Data, done: seq<Token>,
                 us: seq<Token>, rest: Data) returns (d: CurState)
    requires items != [] && Appends(c, items, toks, e) && NeverBack(c, items) && KeepsPlaces(c, items, b2)
    requires EditedAll(toks, us) && us != [] && Holds(c, b2, us, rest) && SizedAlike(c, items[0], b2)
    ensures Do(c, items[0]) == Some(d) && d.b == c.b && toks != [] && Appends(d, items[1..], toks[1..], e)
    ensures NeverBack(d, items[1..]) && KeepsPlaces(d, items[1..], b2)
    ensures EditedAll(toks[1..], us[1..]) && Holds(d, b2, us[1..], rest)
    ensures Do(CurState(b2, c.o, done), items[0]) == Some(CurState(b2, d.o, done + [us[0]]))
  {
    hide Do, SamePlace, SizedAlike, Edited, EditedAll, Norm, Appends;
    d := FirstToken(c, items, toks, e);
    EditedFirst(toks, us);
    Assoc(us[0].raw, Join(us[1..]), rest);
    assert Inside(c, items) ==> Inside(d, items[1..]);
    assert |b2| == |c.b| || 0 <= d.o <= |c.b|;
    StepSame(c, items[0], d, b2, done, us[0], Join(us[1..]) + rest);
  }

  lemma Followed(c: CurState, items: seq<Item>, d: CurState, e: CurState)
    requires items != [] && Do(c, items[0]) == Some(d) && DoAll(d, items[1..]) == Some(e)
    ensures DoAll(c, items) == Some(e)
  {
    DoCons(c, items);
  }

  /** A run that never moved back goes the same way on the edited bytes, if every length is the same there. */
  lemma {:induction false} RunSame(c: CurState, items: seq<Item>, toks: seq<Token>, e: CurState, b2: Data,
                                   done: seq<Token>, us: seq<Token>, rest: Data)
    requires Appends(c, items, toks, e) && NeverBack(c, items) && KeepsPlaces(c, items, b2)
    requires EditedAll(toks, us) && Holds(c, b2, us, rest) && SameSizes(c, items, b2)
    ensures DoAll(CurState(b2, c.o, done), items) == Some(CurState(b2, e.o, done + us))
    decreases |items|
  {
    hide Do, EditedAll, Holds, KeepsPlaces, NeverBack, SizedAlike, Appends;
    if items == [] {
      NothingAppended(c, toks, us, e);
      assert done + us == done;
    } else {
      var f := FirstToken(c, items, toks, e);
      EditedFirst(toks, us);
      var d := NextSame(c, items, toks, e, b2, done, us, rest);
      RunSame(d, items[1..], toks[1..], e, b2, done + [us[0]], us[1..], rest);
      assert done + [us[0]] + us[1..] == done + us;
      Followed(CurState(b2, c.o, done), items, CurState(b2, d.o, done + [us[0]]), CurState(b2, e.o, done + us));
    }
  }

  lemma NothingAppended(c: CurState, toks: seq<Token>, us: seq<Token>, e: CurState)
    requires Appends(c, [], toks, e) && EditedAll(toks, us)
    ensures us == [] && e == c
  {
  }

  // ----- the parser's two decisions -----

  /** The tokens say which layout was parsed. */
  ghost predicate ShowsLayout(toks: seq<Token>, legacy: int, count: int) {
    && (legacy == -4 <==> LegacyOf(toks) == -4)
    && |Before(legacy)| < |toks| && |toks[|Before(legacy)|].raw| == 4
    && DecI32(toks[|Before(legacy)|].raw) == count
  }

  lemma {:induction false} TokensCount(c: CurState, items: seq<Item>)
    requires DoAll(c, items).Some?
    ensures |DoAll(c, items).value.tok| == |c.tok| + |items|
  {
    hide Do;
    if items != [] {
      var d := DoAll(c, items[..|items| - 1]).value;
      TokensCount(c, items[..|items| - 1]);
      DoAppendsOne(d, items[|items| - 1]);
    }
  }

  lemma LegacyShown(b: Data, legacy: int, count: int, e: CurState)
    requires DoAll(CurState(b, 0, []), Layout(legacy, count)) == Some(e)
    ensures LegacyAt(b) == LegacyOf(e.tok)
  {
    hide Middle, After, Do;
    var c0, more := CurState(b, 0, []), Middle(legacy) + After(count);
    assert Layout(legacy, count) == HEAD + more;
    DoAppend(c0, HEAD, more);
    HeadTokens(c0);
    TokensGrow(DoAll(c0, HEAD).value, more);
  }

  /** The tokens of a run, the count's raw four bytes, and further tokens. */
  lemma CountStands(c: CurState, s: seq<Item>, t: seq<Item>, e: CurState) returns (mid: CurState)
    requires DoAll(c, s + ([COUNT] + t)) == Some(e)
    ensures DoAll(c, s) == Some(mid) && mid.b == c.b
    ensures var n := |c.tok| + |s|; n < |e.tok| && e.tok[n] == RawToken(Slice(c.b, mid.o, mid.o + 4))
    ensures var n := |c.tok| + |s|; Do(mid, COUNT) == Some(CurState(c.b, mid.o + 4, mid.tok + [e.tok[n]]))
  {
    hide Slice, DoAll;
    DoAppend(c, s, [COUNT] + t);
    mid := DoAll(c, s).value;
    TokensCount(c, s);
    SameBytes(c, s);
    DoCons(mid, [COUNT] + t);
    assert ([COUNT] + t)[1..] == t;
    TokensGrow(Do(mid, COUNT).value, t);
  }

  /** What the tokens of a whole run say about the two decisions. */
  lemma LayoutTokens(b: Data, legacy: int, count: int, e: CurState) returns (mid: CurState)
    requires DoAll(CurState(b, 0, []), Layout(legacy, count)) == Some(e)
    ensures LegacyAt(b) == LegacyOf(e.tok) && DoAll(CurState(b, 0, []), Before(legacy)) == Some(mid)
    ensures var n := |Before(legacy)|; n < |e.tok| && e.tok[n] == RawToken(Slice(b, mid.o, mid.o + 4))
    ensures mid.b == b && Do(mid, COUNT) == Some(CurState(b, mid.o + 4, mid.tok + [e.tok[|Before(legacy)|]]))
  {
    hide Before, Slice, Do, DoAll;
    LegacyShown(b, legacy, count, e);
    assert Layout(legacy, count) == Before(legacy) + ([COUNT] + (Strings(count) + TAIL));
    mid := CountStands(CurState(b, 0, []), Before(legacy), Strings(count) + TAIL, e);
  }

  lemma SliceIsWord(b: Data, o: int)
    requires |Slice(b, o, o + 4)| == 4
    ensures Unpack(b, o, 4) == Some(Slice(b, o, o + 4))
  {
  }

  /** A run over the layout that its tokens show is the staged parse. */
  lemma RunIsParse(b: Data, legacy: int, count: int, e: CurState)
    requires DoAll(CurState(b, 0, []), Layout(legacy, count)) == Some(e) && ShowsLayout(e.tok, legacy, count)
    ensures SummaryCursor(b) == Some(e)
  {
    hide Do, Middle, Slice, DecI32, Strings, Unpack, SummaryCursor, After;
    var mid := LayoutTokens(b, legacy, count, e);
    MiddleOnlyAsks(legacy, LegacyAt(b));
    SliceIsWord(b, mid.o);
    LayoutIsCursor(b);
  }

  /** The layout a parse settled on, from its tokens. */
  lemma ParseShows(b: Data)
    requires SummaryCursor(b).Some?
    ensures var toks, n := SummaryCursor(b).value.tok, |Before(LegacyAt(b))|;
      && LegacyAt(b) == LegacyOf(toks) && n < |toks| && toks[n].kind == Bytes
      && (|toks[n].raw| == 4 ==> ShowsLayout(toks, LegacyAt(b), CountAt(b)))
  {
    hide Do, Middle, Slice, DecI32, Strings, Unpack, SummaryCursor, After, Before;
    SummaryIsLayout(b);
    var mid := LayoutTokens(b, LegacyAt(b), CountAt(b), SummaryCursor(b).value);
    if |Slice(b, mid.o, mid.o + 4)| == 4 { SliceIsWord(b, mid.o); }
  }

  lemma {:induction false} NeverBackAt(c: CurState, s: seq<Item>, t: seq<Item>)
    requires NeverBack(c, s + t) && DoAll(c, s).Some?
    ensures NeverBack(DoAll(c, s).value, t)
    decreases |s|
  {
    hide Do, Pos;
    if s == [] {
      assert s + t == t;
    } else {
      DoCons(c, s);
      assert (s + t)[1..] == s[1..] + t;
      NeverBackAt(Do(c, s[0]).value, s[1..], t);
    }
  }

  /** A summary that parses has more than eight bytes. */
  lemma WideEnough(b: Data)
    requires SummaryCursor(b).Some?
    ensures |b| > 8
  {
    hide Layout, Slice, DecI32;
    SummaryIsLayout(b);
    var it, tail := LayoutThird(LegacyAt(b), CountAt(b));
    var c0 := CurState(b, 0, []);
    DoAppend(c0, HEAD, [it] + tail);
    HeadMoves(c0);
    DoCons(DoAll(c0, HEAD).value, [it] + tail);
  }

  lemma HeadMoves(c: CurState)
    requires DoAll(c, HEAD).Some?
    ensures DoAll(c, HEAD).value.o == c.o + 8 && DoAll(c, HEAD).value.b == c.b
  {
    hide Slice, DecI32;
    DoCons(c, HEAD);
    DoCons(Do(c, HEAD[0]).value, HEAD[1..]);
    assert HEAD[1..][1..] == [];
  }

  /** Where the cursor never moved back, the token of the count of additional packages holds its four bytes. */
  lemma CountShows(b: Data)
    requires SummaryCursor(b).Some? && NothingMovedBack(b)
    ensures ShowsLayout(SummaryCursor(b).value.tok, LegacyAt(b), CountAt(b))
  {
    hide Middle, Slice, DecI32, Strings, Unpack, Before;
    ParseShows(b);
    WideEnough(b);
    SummaryIsLayout(b);
    var c0 := CurState(b, 0, []);
    var mid := LayoutTokens(b, LegacyAt(b), CountAt(b), SummaryCursor(b).value);
    NeverBackAt(c0, Before(LegacyAt(b)), After(CountAt(b)));
    CountUnpacks(b);
    WordIsToken(b, mid.o, 4);
  }

  lemma CountUnpacks(b: Data)
    requires SummaryCursor(b).Some?
    ensures CountIsThere(b)
  {
    hide Do, Middle, Slice, DecI32, Strings, Unpack;
    HeadTokens(CurState(b, 0, []));
  }

  lemma EditedShows(toks: seq<Token>, us: seq<Token>, legacy: int, count: int)
    requires ShowsLayout(toks, legacy, count) && EditedAll(toks, us) && SameSteering(toks, us)
    requires toks[|Before(legacy)|].kind == Bytes
    ensures us[|Before(legacy)|] == toks[|Before(legacy)|] && ShowsLayout(us, legacy, count)
  {
    hide Before, DecI32;
    assert Edited(toks[|Before(legacy)|], us[|Before(legacy)|]);
  }

  // ----- edits of a summary that tiles -----

  /** Every string and array has, where its length word stood, one that sizes it the same. */
  predicate SizesKept(b: Data, b2: Data) {
    SameSizes(CurState(b, 0, []), Layout(LegacyAt(b), CountAt(b)), b2)
  }

  lemma {:induction false} PositiveIsInside(c: CurState, items: seq<Item>)
    requires NeverNegative(c, items) && DoAll(c, items).Some? && c.o <= |c.b|
    requires items == [] || items[|items| - 1].I32?
    ensures Inside(c, items)
    decreases |items|
  {
    hide Do;
    if items != [] {
      StaysInside(c, items);
      PositiveIsInside(Do(c, items[0]).value, items[1..]);
    }
  }

  lemma PlacesKept(b: Data, b2: Data)
    requires SummaryCursor(b).Some? && (|b2| == |b| || CursorNotNegative(b))
    ensures KeepsPlaces(CurState(b, 0, []), Layout(LegacyAt(b), CountAt(b)), b2)
  {
    hide Layout, LegacyAt, CountAt, SummaryCursor;
    SummaryIsLayout(b);
    LayoutEndsWithI32(LegacyAt(b), CountAt(b));
    if CursorNotNegative(b) { PositiveIsInside(CurState(b, 0, []), Layout(LegacyAt(b), CountAt(b))); }
  }

  lemma NoneAppended(c: CurState, items: seq<Item>, e: CurState)
    requires DoAll(c, items) == Some(e) && c.tok == []
    ensures Appends(c, items, e.tok, e)
  {
    hide DoAll;
    assert c.tok + e.tok == e.tok;
  }

  lemma SteersAlike(b: Data, b2: Data, us: seq<Token>)
    requires SummaryCursor(b).Some? && EditedAll(SummaryCursor(b).value.tok, us)
    requires SummaryCursor(b2).Some? && SummaryCursor(b2).value.tok == us
    ensures SameSteering(SummaryCursor(b).value.tok, us)
  {
    hide SummaryCursor, EditedAll, LegacyOf;
    ThirdKey(b);
    ThirdKey(b2);
    EditedKeepsKey(SummaryCursor(b).value.tok, us, 2);
  }

  /** Edited bytes that parse to the edited tokens have the layout of the bytes before. */
  lemma SameLayout(b: Data, b2: Data, us: seq<Token>)
    requires SummaryCursor(b).Some? && NothingMovedBack(b) && EditedAll(SummaryCursor(b).value.tok, us)
    requires SummaryCursor(b2).Some? && SummaryCursor(b2).value.tok == us
    requires SameSteering(SummaryCursor(b).value.tok, us)
    ensures Layout(LegacyAt(b2), CountAt(b2)) == Layout(LegacyAt(b), CountAt(b))
  {
    hide SummaryCursor, EditedAll, LegacyAt, CountAt, LegacyOf, Before, After, DecI32, NothingMovedBack;
    ParseShows(b);
    CountShows(b);
    EditedShows(SummaryCursor(b).value.tok, us, LegacyAt(b), CountAt(b));
    ParseShows(b2);
    MiddleOnlyAsks(LegacyAt(b), LegacyAt(b2));
  }

  /** An edit that steers nothing and keeps every length parses back. */
  lemma KeptParses(b: Data, us: seq<Token>, rest: Data)
    requires SummaryCursor(b).Some? && NothingMovedBack(b) && EditedAll(SummaryCursor(b).value.tok, us)
    requires |Join(us) + rest| == |b| || CursorNotNegative(b)
    requires SameSteering(SummaryCursor(b).value.tok, us) && SizesKept(b, Join(us) + rest)
    ensures var b2, e := Join(us) + rest, CurState(Join(us) + rest, SummaryCursor(b).value.o, us);
      SummaryCursor(b2) == Some(e) && DoAll(CurState(b2, 0, []), Layout(LegacyAt(b), CountAt(b))) == Some(e)
  {
    hide SummaryCursor, EditedAll, Join, Layout, LegacyAt, CountAt, ShowsLayout, Appends, SameSizes, NeverBack,
      KeepsPlaces, LegacyOf, CursorNotNegative;
    var b2, e := Join(us) + rest, SummaryCursor(b).value;
    var c0, items := CurState(b, 0, []), Layout(LegacyAt(b), CountAt(b));
    SummaryIsLayout(b);
    WideEnough(b);
    PlacesKept(b, b2);
    NoneAppended(c0, items, e);
    assert b2[0..] == b2;
    RunSame(c0, items, e.tok, e, b2, [], us, rest);
    assert [] + us == us;
    ParseShows(b);
    CountShows(b);
    EditedShows(e.tok, us, LegacyAt(b), CountAt(b));
    RunIsParse(b2, LegacyAt(b), CountAt(b), CurState(b2, e.o, us));
  }

  /** Two cursors stand at the same offset after every operation. */
  predicate SameOffsets(c: CurState, c2: CurState, items: seq<Item>)
    decreases |items|
  {
    c.o == c2.o &&
    (items == [] ||
     var d, d2 := Do(c, items[0]), Do(c2, items[0]);
     d.Some? && d2.Some? && SameOffsets(d.value, d2.value, items[1..]))
  }

  lemma OffsetIff(c: CurState, c2: CurState, it: Item)
    requires c.o == c2.o && Do(c, it).Some? && Do(c2, it).Some?
    ensures Do(c, it).value.b == c.b && Do(c2, it).value.b == c2.b
    ensures Do(c, it).value.o == Do(c2, it).value.o <==> SizedAlike(c, it, c2.b)
  {
    hide DecI32, DecI64, Slice, Unpack, ArrayBytes, StringBytes;
  }

  lemma {:induction false} OffsetsIff(c: CurState, c2: CurState, items: seq<Item>)
    requires c.o == c2.o && DoAll(c, items).Some? && DoAll(c2, items).Some?
    ensures SameOffsets(c, c2, items) <==> SameSizes(c, items, c2.b)
    decreases |items|
  {
    hide Do, SizedAlike;
    if items != [] {
      DoCons(c, items);
      DoCons(c2, items);
      OffsetIff(c, c2, items[0]);
      if SizedAlike(c, items[0], c2.b) { OffsetsIff(Do(c, items[0]).value, Do(c2, items[0]).value, items[1..]); }
    }
  }

  /** `parse_summary` goes through the other bytes as it went through these. */
  predicate SameWay(b: Data, b2: Data) {
    SameOffsets(CurState(b, 0, []), CurState(b2, 0, []), Layout(LegacyAt(b), CountAt(b)))
  }

  /**
   * Whatever summary tiles, with negative counts or not: the edited bytes parse back to the edited
   * tokens, operation by operation at the offsets of before, exactly when the edit steers nothing and
   * leaves a length of the same effect wherever one was read. A cursor before the start counts from the
   * end, so then the edited bytes must be as long as before.
   */
  lemma EditParsesIff(b: Data, us: seq<Token>, rest: Data)
    requires SummaryCursor(b).Some? && NothingMovedBack(b) && EditedAll(SummaryCursor(b).value.tok, us)
    requires |Join(us) + rest| == |b| || CursorNotNegative(b)
    ensures var b2, e := Join(us) + rest, SummaryCursor(b).value;
      SummaryCursor(b2) == Some(CurState(b2, e.o, us)) && SameWay(b, b2)
      <==> SameSteering(e.tok, us) && SizesKept(b, b2)
  {
    hide SummaryCursor, EditedAll, Join, Layout, LegacyAt, CountAt, SameSizes, NothingMovedBack, LegacyOf,
      CursorNotNegative, SameOffsets;
    var b2, e := Join(us) + rest, SummaryCursor(b).value;
    SummaryIsLayout(b);
    if SameSteering(e.tok, us) && SizesKept(b, b2) {
      KeptParses(b, us, rest);
      OffsetsIff(CurState(b, 0, []), CurState(b2, 0, []), Layout(LegacyAt(b), CountAt(b)));
    }
    if SummaryCursor(b2) == Some(CurState(b2, e.o, us)) && SameWay(b, b2) {
      SteersAlike(b, b2, us);
      SameLayout(b, b2, us);
      SummaryIsLayout(b2);
      OffsetsIff(CurState(b, 0, []), CurState(b2, 0, []), Layout(LegacyAt(b), CountAt(b)));
    }
  }

  // ----- when the lengths are kept -----

  /** The token of this string or array, if it is one, holds the whole length word. */
  predicate WordInside(c: CurState, it: Item) {
    Counted(it) ==> var d := Do(c, it); d.None? || Pos(c) + 4 <= Pos(d.value)
  }

  predicate WordsInside(c: CurState, items: seq<Item>)
    decreases |items|
  {
    items == [] ||
    (WordInside(c, items[0]) && var d := Do(c, items[0]); d.None? || WordsInside(d.value, items[1..]))
  }

  lemma FirstWord(b: Data, b2: Data, o: int, e: int, tail: Data)
    requires Unpack(b, o, 4).Some? && Norm(o, |b|) + 4 <= Norm(e, |b|) && SamePlace(o, b, b2)
    requires b2[Norm(o, |b|)..] == Slice(b, o, e) + tail
    ensures Unpack(b2, o, 4) == Unpack(b, o, 4)
  {
    var p, q := Norm(o, |b|), Norm(e, |b|);
    assert Slice(b, o, e) == b[p..q];
    assert (b[p..q] + tail)[..4] == b[p..q][..4] == b[p..p + 4];
    assert b2[p..p + 4] == b2[p..][..4];
  }

  /** A length word inside its own token is not edited. */
  lemma InsideIsKept(c: CurState, it: Item, d: CurState, b2: Data, u: Token, tail: Data)
    requires Do(c, it) == Some(d) && WordInside(c, it) && Edited(d.tok[|c.tok|], u)
    requires SamePlace(c.o, c.b, b2) && b2[Pos(c)..] == u.raw + tail
    ensures SizedAlike(c, it, b2)
  {
    hide DecI32, Slice, Norm, ArrayBytes, StringBytes, EncI32, EncI64, Unpack, SamePlace;
    if Counted(it) { FirstWord(c.b, b2, c.o, d.o, tail); }
  }

  lemma {:induction false} InsideRun(c: CurState, items: seq<Item>, toks: seq<Token>, e: CurState, b2: Data,
                                     us: seq<Token>, rest: Data)
    requires Appends(c, items, toks, e) && NeverBack(c, items) && KeepsPlaces(c, items, b2)
    requires EditedAll(toks, us) && Holds(c, b2, us, rest) && WordsInside(c, items)
    ensures SameSizes(c, items, b2)
    decreases |items|
  {
    hide Do, EditedAll, KeepsPlaces, NeverBack, SizedAlike, Appends, WordInside, SamePlace, Edited, Norm;
    if items != [] {
      var f := FirstToken(c, items, toks, e);
      EditedFirst(toks, us);
      Assoc(us[0].raw, Join(us[1..]), rest);
      InsideIsKept(c, items[0], f, b2, us[0], Join(us[1..]) + rest);
      var d := NextSame(c, items, toks, e, b2, [], us, rest);
      InsideRun(d, items[1..], toks[1..], e, b2, us[1..], rest);
    }
  }

  /** Every string and array that `parse_summary` met has its whole length word in its own token. */
  predicate LengthsInTokens(b: Data) { WordsInside(CurState(b, 0, []), Layout(LegacyAt(b), CountAt(b))) }

  /** Then no edit changes a length, and the edit parses back exactly when it steers nothing. */
  lemma OwnLengthsEditIff(b: Data, us: seq<Token>, rest: Data)
    requires SummaryCursor(b).Some? && NothingMovedBack(b) && EditedAll(SummaryCursor(b).value.tok, us)
    requires |Join(us) + rest| == |b| || CursorNotNegative(b)
    requires LengthsInTokens(b)
    ensures SummaryCursor(Join(us) + rest) == Some(CurState(Join(us) + rest, SummaryCursor(b).value.o, us))
      <==> SameSteering(SummaryCursor(b).value.tok, us)
  {
    hide SummaryCursor, EditedAll, Join, Layout, LegacyAt, CountAt, Appends, SameSizes, NeverBack, KeepsPlaces,
      LegacyOf, CursorNotNegative, WordsInside;
    var b2, e := Join(us) + rest, SummaryCursor(b).value;
    var c0, items := CurState(b, 0, []), Layout(LegacyAt(b), CountAt(b));
    SummaryIsLayout(b);
    WideEnough(b);
    PlacesKept(b, b2);
    NoneAppended(c0, items, e);
    assert b2[0..] == b2;
    InsideRun(c0, items, e.tok, e, b2, us, rest);
    if SameSteering(e.tok, us) { KeptParses(b, us, rest); }
    if SummaryCursor(b2) == Some(CurState(b2, e.o, us)) { SteersAlike(b, b2, us); }
  }

  // ----- summaries whose cursor never stands before the start -----

  /** The chunk ids and the two numbers that end the layout. */
  const LAST: seq<Item> := [Array(4, ChunkIDs), I32(PreloadDependencyCount), I32(PreloadDependencyOffset)]

  /** Not an array whose elements are as long as its length word or shorter. */
  predicate Wide(it: Item) { it.Array? ==> it.elem == 0 || it.elem > 4 }

  predicate AllWide(items: seq<Item>) { forall i :: 0 <= i < |items| ==> Wide(items[i]) }

  /** If the chunk ids have no bytes, the number after them stays the -1 that is also their count. */
  predicate ChunkCountKept(toks: seq<Token>, us: seq<Token>) {
    |us| == |toks| >= 3 && (toks[|toks| - 3].raw == [] ==> us[|us| - 2].value == Some(-1))
  }

  lemma WideSize(n: int, elem: nat)
    requires (elem == 0 || elem > 4) && 4 + ArrayBytes(n, elem) >= 0
    ensures ArrayBytes(n, elem) >= 0
  {
    ArrayBytesIsProduct(n, elem);
  }

  lemma WideIsInside(c: CurState, it: Item, d: CurState)
    requires Do(c, it) == Some(d) && 0 <= c.o <= |c.b| && 0 <= d.o <= |c.b| && Wide(it) && PullsNotBack(c, it)
    ensures WordInside(c, it)
  {
    hide DecI32, Slice, ArrayBytes, Unpack;
    if it.Array? { WideSize(DecI32(Unpack(c.b, c.o, 4).value), it.elem); }
  }

  lemma ThreeSteps(c: CurState, x: Item, y: Item, z: Item) returns (d: CurState, f: CurState)
    requires DoAll(c, [x, y, z]).Some?
    ensures Do(c, x) == Some(d) && Do(d, y) == Some(f) && Do(f, z) == DoAll(c, [x, y, z])
  {
    hide Do;
    assert [x, y, z][1..] == [y, z] && [y, z][1..] == [z] && [z][1..] == [];
    DoCons(c, [x, y, z]);
    d := Do(c, x).value;
    DoCons(d, [y, z]);
    f := Do(d, y).value;
    DoCons(f, [z]);
  }

  /** What the last three operations do. */
  lemma LastThree(c: CurState) returns (d: CurState, f: CurState)
    requires DoAll(c, LAST).Some?
    ensures Do(c, LAST[0]) == Some(d) && Do(d, LAST[1]) == Some(f) && Do(f, LAST[2]) == DoAll(c, LAST)
    ensures Unpack(c.b, c.o, 4).Some? && d.o == c.o + 4 + ArrayBytes(DecI32(Unpack(c.b, c.o, 4).value), 4)
    ensures DoAll(c, LAST).value.o == d.o + 8
  {
    hide DecI32, Slice, ArrayBytes, Unpack, DoAll;
    d, f := ThreeSteps(c, LAST[0], LAST[1], LAST[2]);
  }

  lemma NotCounted(d: CurState, b2: Data)
    ensures SizedAlike(d, LAST[1], b2) && SizedAlike(d, LAST[2], b2)
  {
  }

  lemma LastSizes(c: CurState, b2: Data)
    ensures SameSizes(c, LAST, b2) <==> SizedAlike(c, LAST[0], b2)
  {
    hide Do, SizedAlike;
    assert LAST[1..][0] == LAST[1] && LAST[1..][1..][0] == LAST[2] && LAST[1..][1..][1..] == [];
    assert forall d :: SizedAlike(d, LAST[1], b2) && SizedAlike(d, LAST[2], b2) by {
      forall d ensures SizedAlike(d, LAST[1], b2) && SizedAlike(d, LAST[2], b2) { NotCounted(d, b2); }
    }
  }

  lemma ThreeTokens(c: CurState, toks: seq<Token>, e: CurState, d: CurState, f: CurState)
    requires Appends(c, LAST, toks, e)
    requires Do(c, LAST[0]) == Some(d) && Do(d, LAST[1]) == Some(f) && Do(f, LAST[2]) == Some(e)
    ensures |toks| == 3 && d.b == c.b && d.tok == c.tok + [toks[0]] && f.tok == d.tok + [toks[1]]
  {
    hide Do, DoAll;
    DoAppendsOne(c, LAST[0]);
    DoAppendsOne(d, LAST[1]);
    DoAppendsOne(f, LAST[2]);
    assert e.tok == c.tok + [d.tok[|c.tok|], f.tok[|d.tok|], e.tok[|f.tok|]];
    assert toks == e.tok[|c.tok|..];
  }

  lemma BytesKept(t: Token, u: Token)
    requires t.kind == Bytes && Edited(t, u)
    ensures u == t
  {
  }

  /** An edited number's token starts the bytes that were held for it. */
  lemma NumberAt(c: CurState, f: CurState, key: Key, b2: Data, u: Token, more: Data)
    requires Do(c, I32(key)) == Some(f) && Edited(f.tok[|c.tok|], u) && |c.b| > 8 && 0 <= c.o
    requires SamePlace(c.o, c.b, b2) && b2[Pos(c)..] == u.raw + more
    ensures u.value.Some? && Unpack(b2, c.o, 4).Some? && DecI32(Unpack(b2, c.o, 4).value) == u.value.value
  {
    hide DecI32, DecI64, Slice, EncI32, EncI64, Edited;
    EditedWidth(c, I32(key), f, u);
    WordIsToken(c.b, c.o, 4);
    WordKept(c.b, b2, c.o, 4, u.raw);
  }

  /** When the chunk ids have no bytes, their count is also the next number. */
  lemma SharedWord(c: CurState, toks: seq<Token>, e: CurState, d: CurState, f: CurState,
                   b2: Data, us: seq<Token>, rest: Data)
    requires Appends(c, LAST, toks, e) && EditedAll(toks, us) && Holds(c, b2, us, rest) && 0 <= c.o
    requires Do(c, LAST[0]) == Some(d) && Do(d, LAST[1]) == Some(f) && Do(f, LAST[2]) == Some(e)
    requires d.o == c.o
    ensures |toks| == |us| == 3 && toks[0].raw == []
    ensures us[1].value.Some? && Unpack(b2, c.o, 4).Some? && DecI32(Unpack(b2, c.o, 4).value) == us[1].value.value
  {
    hide DecI32, ArrayBytes, Unpack, Edited, Norm, SamePlace, DoAll, Appends;
    ThreeTokens(c, toks, e, d, f);
    assert toks[0] == d.tok[|c.tok|] == ArrayToken(ChunkIDs, Slice(c.b, c.o, d.o));
    BytesKept(toks[0], us[0]);
    EditedFirst(toks, us);
    EditedFirst(toks[1..], us[1..]);
    Assoc(us[1].raw, Join(us[1..][1..]), rest);
    assert Join(us) == Join(us[1..]);
    NumberAt(d, f, PreloadDependencyCount, b2, us[1], Join(us[1..][1..]) + rest);
  }

  /** At the last array: whether it is sized alike shows in the edit, and in where the edited run ends. */
  lemma LastDecides(c: CurState, toks: seq<Token>, e: CurState, b2: Data, done: seq<Token>, us: seq<Token>, rest: Data)
    requires Appends(c, LAST, toks, e) && Inside(c, LAST) && PullsNotBack(c, LAST[0])
    requires EditedAll(toks, us) && Holds(c, b2, us, rest)
    ensures |toks| == 3 && (SizedAlike(c, LAST[0], b2) <==> ChunkCountKept(toks, us))
    ensures var r := DoAll(CurState(b2, c.o, done), LAST);
      r.Some? && r.value.o == e.o ==> SizedAlike(c, LAST[0], b2)
  {
    hide DecI32, Slice, ArrayBytes, Unpack, Edited, Norm, DoAll;
    var d, f := LastThree(c);
    ThreeTokens(c, toks, e, d, f);
    var n := DecI32(Unpack(c.b, c.o, 4).value);
    ArrayBytesIsProduct(n, 4);
    if n >= 0 {
      assert Edited(toks[0], us[0]);
      EditedFirst(toks, us);
      Assoc(us[0].raw, Join(us[1..]), rest);
      InsideIsKept(c, LAST[0], d, b2, us[0], Join(us[1..]) + rest);
      SlicesJoin(c.b, c.o, d.o);
    } else {
      SharedWord(c, toks, e, d, f, b2, us, rest);
      ArrayBytesIsProduct(us[1].value.value, 4);
    }
    if DoAll(CurState(b2, c.o, done), LAST).Some? { var d2, f2 := LastThree(CurState(b2, c.o, done)); }
  }

  /** One step of a forward run on the edited bytes. */
  lemma ForwardNext(c: CurState, items: seq<Item>, toks: seq<Token>, e: CurState, b2: Data, done: seq<Token>,
                    us: seq<Token>, rest: Data) returns (d: CurState)
    requires items != [] && Appends(c, items, toks, e) && Inside(c, items) && NeverBack(c, items)
    requires Wide(items[0]) && PullsNotBack(c, items[0]) && EditedAll(toks, us) && Holds(c, b2, us, rest)
    ensures Do(c, items[0]) == Some(d) && toks != [] && us != [] && Appends(d, items[1..], toks[1..], e)
    ensures NeverBack(d, items[1..]) && EditedAll(toks[1..], us[1..]) && Holds(d, b2, us[1..], rest)
    ensures SizedAlike(c, items[0], b2)
    ensures Do(CurState(b2, c.o, done), items[0]) == Some(CurState(b2, d.o, done + [us[0]]))
  {
    hide Do, EditedAll, SizedAlike, Appends, WordInside, SamePlace, Edited, Norm, PullsNotBack, Wide;
    var f := FirstToken(c, items, toks, e);
    WideIsInside(c, items[0], f);
    EditedFirst(toks, us);
    Assoc(us[0].raw, Join(us[1..]), rest);
    InsideIsKept(c, items[0], f, b2, us[0], Join(us[1..]) + rest);
    d := NextSame(c, items, toks, e, b2, done, us, rest);
  }

  /** Of a forward run that ends so, whether its lengths are kept. */
  lemma {:induction false} EndDecides(c: CurState, p: seq<Item>, toks: seq<Token>, e: CurState, b2: Data,
                                      done: seq<Token>, us: seq<Token>, rest: Data)
    requires Appends(c, p + LAST, toks, e) && Inside(c, p + LAST) && NoneMovesBack(c, p + LAST)
    requires NeverBack(c, p + LAST) && AllWide(p) && EditedAll(toks, us) && Holds(c, b2, us, rest)
    ensures |toks| == |p| + 3 && (SameSizes(c, p + LAST, b2) <==> ChunkCountKept(toks, us))
    ensures var r := DoAll(CurState(b2, c.o, done), p + LAST);
      r.Some? && r.value.o == e.o ==> SameSizes(c, p + LAST, b2)
    decreases |p|
  {
    hide Do, Holds, NeverBack, SizedAlike, Appends, WordInside, Edited, Norm, DoAll, PullsNotBack;
    if p == [] {
      assert p + LAST == LAST;
      LastDecides(c, toks, e, b2, done, us, rest);
      LastSizes(c, b2);
    } else {
      var items := p + LAST;
      assert items[0] == p[0] && items[1..] == p[1..] + LAST;
      var d := ForwardNext(c, items, toks, e, b2, done, us, rest);
      EndDecides(d, p[1..], toks[1..], e, b2, done + [us[0]], us[1..], rest);
      DoCons(CurState(b2, c.o, done), items);
    }
  }

  lemma FrontIsWide(legacy: int, count: int, i: nat)
    requires i < |Layout(legacy, count)| - 3
    ensures Wide(Layout(legacy, count)[i])
  {
    var it := Layout(legacy, count)[i];
    assert Layout(legacy, count) == Before(legacy) + [COUNT] + Strings(count) + TAIL[..3] + LAST;
    if it in Strings(count) { JustStrings(count, it); }
  }

  /** The layout up to the chunk ids. */
  lemma LayoutEnds(legacy: int, count: int) returns (p: seq<Item>)
    ensures Layout(legacy, count) == p + LAST && AllWide(p)
  {
    var all := Layout(legacy, count);
    p := all[..|all| - 3];
    assert all[|all| - 3..] == LAST;
    forall i | 0 <= i < |p| ensures Wide(p[i]) { FrontIsWide(legacy, count, i); }
  }

  /** A summary with a forward cursor that tiles never moved back. */
  lemma ForwardTiles(b: Data)
    requires SummaryCursor(b).Some? && ArraysNotBackwards(b)
    ensures CursorNotNegative(b) && NothingMovedBack(b)
  {
    hide SummaryCursor, Join, Layout, LegacyAt, CountAt, NeverBack, NoneMovesBack, NeverNegative;
    ForwardTilesIff(b);
    TokensTile(b);
    SummaryIsLayout(b);
    SameBytes(CurState(b, 0, []), Layout(LegacyAt(b), CountAt(b)));
  }

  /**
   * Exactly when an edited summary parses back, for every summary whose cursor never stands before the
   * start and whose tokens tile: when the edit does not steer and, if the chunk ids have the count -1,
   * leaves alone the number that shares its bytes with that count.
   */
  lemma ForwardEditParsesIff(b: Data, us: seq<Token>, rest: Data)
    requires SummaryCursor(b).Some? && ArraysNotBackwards(b) && EditedAll(SummaryCursor(b).value.tok, us)
    ensures var b2, e := Join(us) + rest, SummaryCursor(b).value;
      SummaryCursor(b2) == Some(CurState(b2, e.o, us)) <==> SameSteering(e.tok, us) && ChunkCountKept(e.tok, us)
  {
    hide SummaryCursor, EditedAll, Join, Layout, LegacyAt, CountAt, ShowsLayout, Appends, SameSizes, NeverBack,
      KeepsPlaces, LegacyOf, NoneMovesBack, Inside, NeverNegative;
    var b2, e := Join(us) + rest, SummaryCursor(b).value;
    var c0, items := CurState(b, 0, []), Layout(LegacyAt(b), CountAt(b));
    SummaryIsLayout(b);
    WideEnough(b);
    LayoutEndsWithI32(LegacyAt(b), CountAt(b));
    ForwardTilesIff(b);
    ForwardTiles(b);
    PositiveIsInside(c0, items);
    NoneAppended(c0, items, e);
    var p := LayoutEnds(LegacyAt(b), CountAt(b));
    assert b2[0..] == b2;
    EndDecides(c0, p, e.tok, e, b2, [], us, rest);
    if SameSteering(e.tok, us) && ChunkCountKept(e.tok, us) { KeptParses(b, us, rest); }
    if SummaryCursor(b2) == Some(CurState(b2, e.o, us)) {
      SteersAlike(b, b2, us);
      SameLayout(b, b2, us);
      SummaryIsLayout(b2);
    }
  }
}
