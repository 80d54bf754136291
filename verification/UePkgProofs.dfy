/**
 * What the summary parser and re-emitter promise: the cursor and a plain prefix parser read the same
 * summaries, and editing the values of the structured fields commutes with parsing.
 */
module UePkgProofs {
  import opened Results
  import opened Bytes
  import opened UePkg

  // ----- the cursor against the prefix parser -----

  /** The array count at the cursor, if this is an array, does not move the cursor backwards. */
  predicate CountNotNegative(c: CurState, it: Item) {
    it.Array? ==> var w := Unpack(c.b, c.o, 4); w.None? || ArrayBytes(DecI32(w.value), it.elem) >= 0
  }

  /** No array met on the way has a negative count. */
  predicate Forward(c: CurState, items: seq<Item>)
    decreases |items|
  {
    items == [] ||
    (CountNotNegative(c, items[0]) &&
     var d := Do(c, items[0]); d.None? || Forward(d.value, items[1..]))
  }

  lemma ReadIsDo(c: CurState, it: Item)
    requires 0 <= c.o <= |c.b| && Read(it, c.b[c.o..]).Some?
    ensures var t := Read(it, c.b[c.o..]).value;
      Do(c, it) == Some(CurState(c.b, c.o + |t.raw|, c.tok + [t])) && c.o + |t.raw| <= |c.b|
  {
    var s := c.b[c.o..];
    var t := Read(it, s).value;
    assert s[..|t.raw|] == c.b[c.o..c.o + |t.raw|];
    if !it.Raw? {
      assert s[..4] == c.b[c.o..c.o + 4];
      I32Prefix(s[..4], s[4..]);
      assert s == s[..4] + s[4..];
    }
  }

  lemma DoIsRead(c: CurState, it: Item)
    requires 0 <= c.o && Do(c, it).Some? && Do(c, it).value.o <= |c.b| && CountNotNegative(c, it)
    ensures c.o <= Do(c, it).value.o
    ensures Read(it, c.b[c.o..]).Some?
  {
    var s := c.b[c.o..];
    if !it.Raw? {
      assert s[..4] == c.b[c.o..c.o + 4];
      I32Prefix(s[..4], s[4..]);
      assert s == s[..4] + s[4..];
    }
  }

  lemma DoCons(c: CurState, items: seq<Item>)
    requires items != []
    ensures DoAll(c, items) == if Do(c, items[0]).None? then None else DoAll(Do(c, items[0]).value, items[1..])
  {
    assert [items[0]] + items[1..] == items;
    DoAppend(c, [items[0]], items[1..]);
    assert [items[0]][..0] == [];
    assert DoAll(c, [items[0]]) == Do(c, items[0]);
  }

  lemma ReadCons(items: seq<Item>, s: Data)
    requires items != []
    ensures ReadAll(items, s) ==
      var t := Read(items[0], s);
      if t.None? then None
      else
        var rest := ReadAll(items[1..], s[|t.value.raw|..]);
        if rest.None? then None else Some([t.value] + rest.value)
  {
  }

  lemma JoinCons(t: Token, toks: seq<Token>)
    ensures Join([t] + toks) == t.raw + Join(toks)
  {
    assert ([t] + toks)[1..] == toks;
  }

  /** The first token of a successful read, and the rest. */
  lemma ReadSplit(items: seq<Item>, s: Data) returns (t: Token, rest: seq<Token>)
    requires items != [] && ReadAll(items, s).Some?
    ensures Read(items[0], s) == Some(t) && t.raw <= s
    ensures ReadAll(items[1..], s[|t.raw|..]) == Some(rest)
    ensures ReadAll(items, s).value == [t] + rest
    ensures Join([t] + rest) == t.raw + Join(rest)
  {
    ReadCons(items, s);
    t := Read(items[0], s).value;
    rest := ReadAll(items[1..], s[|t.raw|..]).value;
    JoinCons(t, rest);
  }

  /** One operation, then the rest. */
  lemma DoThen(c: CurState, items: seq<Item>, d: CurState)
    requires items != [] && Do(c, items[0]) == Some(d)
    ensures DoAll(c, items) == DoAll(d, items[1..])
  {
    DoCons(c, items);
  }

  lemma DoToken(c: CurState, it: Item, t: Token)
    requires 0 <= c.o <= |c.b| && Read(it, c.b[c.o..]) == Some(t)
    ensures Do(c, it) == Some(CurState(c.b, c.o + |t.raw|, c.tok + [t])) && c.o + |t.raw| <= |c.b|
    ensures c.b[c.o..][|t.raw|..] == c.b[c.o + |t.raw|..]
  {
    ReadIsDo(c, it);
  }

  lemma OneTokenOn(c: CurState, d: CurState, t: Token, rest: seq<Token>, toks: seq<Token>)
    requires d == CurState(c.b, c.o + |t.raw|, c.tok + [t]) && toks == [t] + rest
    requires Join(toks) == t.raw + Join(rest)
    ensures CurState(d.b, d.o + |Join(rest)|, d.tok + rest) == CurState(c.b, c.o + |Join(toks)|, c.tok + toks)
  {
    assert c.tok + [t] + rest == c.tok + ([t] + rest);
  }

  lemma DoneCons(c: CurState, items: seq<Item>, d: CurState, t: Token, rest: seq<Token>, toks: seq<Token>)
    requires toks == [t] + rest
    requires items != [] && Do(c, items[0]) == Some(d) && d == CurState(c.b, c.o + |t.raw|, c.tok + [t])
    requires DoAll(d, items[1..]) == Some(CurState(d.b, d.o + |Join(rest)|, d.tok + rest))
    ensures DoAll(c, items) == Some(CurState(c.b, c.o + |Join(toks)|, c.tok + toks))
  {
    DoThen(c, items, d);
    JoinCons(t, rest);
    OneTokenOn(c, d, t, rest, toks);
  }

  /** Whatever the prefix parser reads, the cursor reads too. */
  lemma {:induction false} ReadAllIsDoAll(c: CurState, items: seq<Item>, toks: seq<Token>)
    requires 0 <= c.o <= |c.b| && ReadAll(items, c.b[c.o..]) == Some(toks)
    ensures DoAll(c, items) == Some(CurState(c.b, c.o + |Join(toks)|, c.tok + toks))
    decreases |items|
  {
    hide Do, Read;
    if items == [] {
      assert c.tok + [] == c.tok;
    } else {
      var t, rest := ReadSplit(items, c.b[c.o..]);
      DoToken(c, items[0], t);
      var d := CurState(c.b, c.o + |t.raw|, c.tok + [t]);
      ReadAllIsDoAll(d, items[1..], rest);
      DoneCons(c, items, d, t, rest, toks);
    }
  }

  lemma DoMoves(c: CurState, it: Item)
    requires 0 <= c.o && Do(c, it).Some? && CountNotNegative(c, it)
    ensures c.o <= Do(c, it).value.o && Do(c, it).value.b == c.b
  {
  }

  lemma {:induction false} ForwardMoves(c: CurState, items: seq<Item>)
    requires 0 <= c.o && Forward(c, items) && DoAll(c, items).Some?
    ensures c.o <= DoAll(c, items).value.o
    decreases |items|
  {
    if items != [] {
      DoCons(c, items);
      ForwardMoves(Do(c, items[0]).value, items[1..]);
    }
  }

  /** A cursor that met no negative count and stayed inside the bytes did what the prefix parser does. */
  lemma {:induction false} DoAllIsReadAll(c: CurState, items: seq<Item>)
    requires 0 <= c.o && Forward(c, items) && DoAll(c, items).Some? && DoAll(c, items).value.o <= |c.b|
    ensures c.o <= |c.b| && ReadAll(items, c.b[c.o..]).Some?
    decreases |items|
  {
    hide Read, Do;
    if items == [] {
    } else {
      DoCons(c, items);
      var d := Do(c, items[0]).value;
      DoMoves(c, items[0]);
      ForwardMoves(d, items[1..]);
      DoIsRead(c, items[0]);
      ReadIsDo(c, items[0]);
      var t := Read(items[0], c.b[c.o..]).value;
      DoAllIsReadAll(d, items[1..]);
      assert c.b[c.o..][|t.raw|..] == c.b[d.o..];
      ReadCons(items, c.b[c.o..]);
    }
  }

  // ----- the whole summary -----

  function LegacyOf(toks: seq<Token>): int {
    if |toks| > 1 && toks[1].value.Some? then toks[1].value.value else 0
  }

  /** The layout two data-dependent facts select. */
  function Layout(legacy: int, count: int): seq<Item> { Before(legacy) + After(count) }

  /** The count of additional packages that follows a token list. */
  function CountAfter(b: Data, toks: seq<Token>): Option<int> {
    if |Join(toks)| + 4 <= |b| then Some(DecI32(b[|Join(toks)|..])) else None
  }

  /** The summary as the prefix parser reads it. */
  function Summary(b: Data): Option<seq<Token>> {
    var head := ReadAll(HEAD, b);
    if head.None? then None
    else
      var legacy := LegacyOf(head.value);
      var mid := ReadAll(Before(legacy), b);
      if mid.None? then None
      else
        var count := CountAfter(b, mid.value);
        if count.None? then None else ReadAll(Layout(legacy, count.value), b)
  }

  /** `first` is what the items read, and `rest` what the further items read from there. */
  ghost predicate SplitsInto(s: seq<Item>, t: seq<Item>, b: Data, first: seq<Token>, rest: seq<Token>) {
    && ReadAll(s, b) == Some(first) && Join(first) <= b
    && ReadAll(t, b[|Join(first)|..]) == Some(rest)
  }

  lemma SplitsAtStart(t: seq<Item>, b: Data, toks: seq<Token>)
    requires ReadAll(t, b) == Some(toks)
    ensures SplitsInto([], t, b, [], toks)
  {
    hide Read;
    assert b[0..] == b;
  }

  lemma SplitsCons(s: seq<Item>, t: seq<Item>, b: Data, x: Token, first: seq<Token>, rest: seq<Token>)
    requires s != [] && Read(s[0], b) == Some(x) && SplitsInto(s[1..], t, b[|x.raw|..], first, rest)
    ensures SplitsInto(s, t, b, [x] + first, rest)
  {
    hide Read, Join;
    JoinCons(x, first);
    ReadBoth(s, b, x, first);
    JoinIsPrefix(x, first, b);
    DropDrop(b, |x.raw|, |Join(first)|);
  }

  lemma {:induction false} ReadSplits(s: seq<Item>, t: seq<Item>, b: Data, toks: seq<Token>)
      returns (first: seq<Token>, rest: seq<Token>)
    requires ReadAll(s + t, b) == Some(toks)
    ensures toks == first + rest && |first| == |s| && |rest| == |t|
    ensures SplitsInto(s, t, b, first, rest)
    decreases |s|
  {
    hide Read, SplitsInto;
    if s == [] {
      assert s + t == t;
      first, rest := [], toks;
      SplitsAtStart(t, b, toks);
    } else {
      var x, more := ReadSplit(s + t, b);
      assert (s + t)[1..] == s[1..] + t;
      first, rest := ReadSplits(s[1..], t, b[|x.raw|..], more);
      SplitsCons(s, t, b, x, first, rest);
      first := [x] + first;
    }
  }

  /** Reading two runs of items reads the first, then the second from where it stopped. */
  lemma ReadAppend(s: seq<Item>, t: seq<Item>, b: Data, toks: seq<Token>)
    requires ReadAll(s + t, b) == Some(toks)
    ensures |toks| == |s| + |t| && SplitsInto(s, t, b, toks[..|s|], toks[|s|..])
  {
    var first, rest := ReadSplits(s, t, b, toks);
    assert toks[..|s|] == first && toks[|s|..] == rest;
  }

  // ----- what the re-emitter promises -----

  /** The layout and count that `parse_summary` settles on. */
  function LegacyAt(b: Data): int {
    var head := DoAll(CurState(b, 0, []), HEAD);
    if head.None? then 0 else LegacyOf(head.value.tok)
  }

  function CountAt(b: Data): int {
    var mid := DoAll(CurState(b, 0, []), Before(LegacyAt(b)));
    if mid.None? then 0
    else var w := Unpack(b, mid.value.o, 4); if w.None? then 0 else DecI32(w.value)
  }

  /** No counted array met while parsing is negative. */
  predicate CountsNotNegative(b: Data) {
    Forward(CurState(b, 0, []), Layout(LegacyAt(b), CountAt(b)))
  }

  lemma SummaryIsLayout(b: Data)
    requires SummaryCursor(b).Some?
    ensures SummaryCursor(b) == DoAll(CurState(b, 0, []), Layout(LegacyAt(b), CountAt(b)))
  {
    var head := DoAll(CurState(b, 0, []), HEAD).value;
    HeadTokens(CurState(b, 0, []));
    assert LegacyOf(head.tok) == head.tok[|head.tok| - 1].value.value;
  }

  lemma HeadTokens(c: CurState)
    requires c.tok == [] && DoAll(c, HEAD).Some?
    ensures var t := DoAll(c, HEAD).value.tok; |t| == 2 && t[1].value.Some?
  {
    assert HEAD[..1] == [HEAD[0]];
    DoCons(c, HEAD);
    DoCons(Do(c, HEAD[0]).value, HEAD[1..]);
    assert HEAD[1..][1..] == [];
  }

  /** The parse always ends with a plain 32-bit read, so it ends inside the bytes. */
  lemma EndsInside(c: CurState, items: seq<Item>)
    requires items != [] && items[|items| - 1].I32? && DoAll(c, items).Some?
    requires DoAll(c, items[..|items| - 1]).value.o >= 0
    ensures DoAll(c, items).value.o <= |c.b| && DoAll(c, items).value.b == c.b
  {
    SameBytes(c, items);
    SameBytes(c, items[..|items| - 1]);
  }

  lemma {:induction false} SameBytes(c: CurState, items: seq<Item>)
    requires DoAll(c, items).Some?
    ensures DoAll(c, items).value.b == c.b
  {
    if items != [] { SameBytes(c, items[..|items| - 1]); }
  }

  lemma {:induction false} ForwardPrefix(c: CurState, items: seq<Item>, n: nat)
    requires n <= |items| && Forward(c, items) && DoAll(c, items).Some?
    ensures Forward(c, items[..n]) && DoAll(c, items[..n]).Some?
    decreases n
  {
    if n > 0 {
      DoCons(c, items);
      DoCons(c, items[..n]);
      assert items[..n][1..] == items[1..][..n - 1];
      ForwardPrefix(Do(c, items[0]).value, items[1..], n - 1);
    }
  }

  lemma LayoutEndsWithI32(legacy: int, count: int)
    ensures var l := Layout(legacy, count); l != [] && l[|l| - 1] == I32(PreloadDependencyOffset)
  {
  }

  /** The tokens so far are exactly the bytes so far. */
  ghost predicate Tiled(c: CurState) {
    0 <= c.o <= |c.b| && Join(c.tok) == c.b[..c.o]
  }

  lemma ReadsWhole(b: Data, items: seq<Item>)
    requires items != [] && items[|items| - 1].I32?
    requires DoAll(CurState(b, 0, []), items).Some? && Forward(CurState(b, 0, []), items)
    ensures ReadAll(items, b).Some?
  {
    var c0 := CurState(b, 0, []);
    ForwardPrefix(c0, items, |items| - 1);
    ForwardMoves(c0, items[..|items| - 1]);
    EndsInside(c0, items);
    DoAllIsReadAll(c0, items);
    assert b[0..] == b;
  }

  lemma ReadsWholeLayout(b: Data)
    requires SummaryCursor(b).Some? && CountsNotNegative(b)
    ensures ReadAll(Layout(LegacyAt(b), CountAt(b)), b).Some?
  {
    SummaryIsLayout(b);
    LayoutEndsWithI32(LegacyAt(b), CountAt(b));
    ReadsWhole(b, Layout(LegacyAt(b), CountAt(b)));
  }

  /** With no negative count the cursor's tokens are the ones the prefix parser reads. */
  lemma CursorTokens(b: Data)
    requires SummaryCursor(b).Some? && CountsNotNegative(b)
    ensures Tiled(SummaryCursor(b).value)
    ensures ReadAll(Layout(LegacyAt(b), CountAt(b)), b) == Some(SummaryCursor(b).value.tok)
  {
    var c0, items := CurState(b, 0, []), Layout(LegacyAt(b), CountAt(b));
    ReadsWholeLayout(b);
    var toks := ReadAll(items, b).value;
    assert b[0..] == b;
    ReadAllIsDoAll(c0, items, toks);
    SummaryIsLayout(b);
    assert c0.tok + toks == toks;
  }

  // ----- editing commutes with parsing -----

  /** A token left alone, or a structured one given another value. */
  ghost predicate Edited(t: Token, u: Token) {
    || u == t
    || (t.kind == Int32 && t.key.Some? && u.value.Some? && InI32(u.value.value)
        && u == I32Token(t.key.value, EncI32(u.value.value)))
    || (t.kind == Int64 && t.key.Some? && u.value.Some? && InI64(u.value.value)
        && u == I64Token(t.key.value, EncI64(u.value.value)))
  }

  ghost predicate EditedAll(toks: seq<Token>, us: seq<Token>) {
    |us| == |toks| && forall i :: 0 <= i < |toks| ==> Edited(toks[i], us[i])
  }

  lemma TakeAppend(a: Data, rest: Data)
    ensures (a + rest)[..|a|] == a && (a + rest)[|a|..] == rest
  {
  }

  lemma ReadEdited(it: Item, s: Data, t: Token, u: Token, rest: Data)
    requires Read(it, s) == Some(t) && Edited(t, u)
    ensures Read(it, u.raw + rest) == Some(u)
  {
    TakeAppend(u.raw, rest);
    if u == t {
      if it.FString? || it.Array? {
        assert s == t.raw + s[|t.raw|..];
        I32Prefix(t.raw, rest);
        I32Prefix(t.raw, s[|t.raw|..]);
      }
    }
  }

  lemma EditedCons(t: Token, more: seq<Token>, us: seq<Token>)
    requires EditedAll([t] + more, us)
    ensures Edited(t, us[0]) && EditedAll(more, us[1..]) && us == [us[0]] + us[1..]
    ensures Join(us) == us[0].raw + Join(us[1..])
  {
    assert ([t] + more)[0] == t;
    forall i | 0 <= i < |more| ensures Edited(more[i], us[1..][i]) { assert ([t] + more)[i + 1] == more[i]; }
    JoinCons(us[0], us[1..]);
  }

  /** A first token read, then the rest: the whole read. */
  lemma ReadBoth(items: seq<Item>, s: Data, u: Token, vs: seq<Token>)
    requires items != [] && Read(items[0], s) == Some(u) && ReadAll(items[1..], s[|u.raw|..]) == Some(vs)
    ensures ReadAll(items, s) == Some([u] + vs)
  {
    ReadCons(items, s);
  }

  lemma Assoc(a: Data, b: Data, c: Data)
    ensures a + b + c == a + (b + c)
  {
  }

  lemma {:induction false} ReadAllEdited(items: seq<Item>, s: Data, toks: seq<Token>, us: seq<Token>, rest: Data)
    requires ReadAll(items, s) == Some(toks) && EditedAll(toks, us)
    ensures ReadAll(items, Join(us) + rest) == Some(us)
    decreases |items|
  {
    if items != [] {
      var t, more := ReadSplit(items, s);
      EditedCons(t, more, us);
      var u, vs := us[0], us[1..];
      var tail := Join(vs) + rest;
      Assoc(u.raw, Join(vs), rest);
      ReadEdited(items[0], s, t, u, tail);
      TakeAppend(u.raw, tail);
      ReadAllEdited(items[1..], s[|t.raw|..], more, vs, rest);
      ReadBoth(items, u.raw + tail, u, vs);
    }
  }

  // the summary's own two decisions

  /** The edit does not steer: it leaves the legacy version on the same side of -4. */
  predicate SameSteering(toks: seq<Token>, us: seq<Token>) {
    LegacyOf(toks) == -4 <==> LegacyOf(us) == -4
  }

  /** `Summary` reads these tokens off the front of the bytes. */
  ghost predicate Parses(b: Data, toks: seq<Token>, legacy: int, count: int) {
    && ReadAll(Layout(legacy, count), b) == Some(toks)
    && (legacy == -4 <==> LegacyOf(toks) == -4)
    && |Before(legacy)| < |toks| && |toks[|Before(legacy)|].raw| == 4
    && DecI32(toks[|Before(legacy)|].raw) == count
  }

  lemma MiddleOnlyAsks(a: int, b: int)
    requires a == -4 <==> b == -4
    ensures Before(a) == Before(b)
  {
  }

  lemma CountToken(b: Data, items: seq<Item>, toks: seq<Token>, count: int)
    requires ReadAll(items + After(count), b) == Some(toks)
    ensures |items| < |toks| && |Join(toks[..|items|])| + 4 <= |b|
    ensures toks[|items|].raw == b[|Join(toks[..|items|])|..][..4]
    ensures toks[|items|].kind == Bytes && toks[|items|].key == None
  {
    ReadAppend(items, After(count), b, toks);
    var rest := b[|Join(toks[..|items|])|..];
    assert After(count)[0] == COUNT;
    var t, more := ReadSplit(After(count), rest);
    assert toks[|items|..] == [t] + more;
    assert toks[|items|] == toks[|items|..][0];
  }

  lemma HeadOfLayout(b: Data, legacy: int, count: int, toks: seq<Token>)
    requires ReadAll(Layout(legacy, count), b) == Some(toks)
    ensures |toks| >= 2 && ReadAll(HEAD, b) == Some(toks[..2]) && LegacyOf(toks[..2]) == LegacyOf(toks)
  {
    assert Layout(legacy, count) == HEAD + (Middle(legacy) + After(count));
    ReadAppend(HEAD, Middle(legacy) + After(count), b, toks);
  }

  lemma CountSlice(s: Data)
    requires |s| >= 4
    ensures DecI32(s[..4]) == DecI32(s)
  {
    I32Prefix(s[..4], s[4..]);
    assert s == s[..4] + s[4..];
  }

  /** The staged parser settles on whatever layout is consistent with what it reads. */
  lemma ParsesIsSummary(b: Data, toks: seq<Token>, legacy: int, count: int)
    requires Parses(b, toks, legacy, count)
    ensures Summary(b) == Some(toks)
  {
    HeadOfLayout(b, legacy, count, toks);
    MiddleOnlyAsks(legacy, LegacyOf(toks));
    var items := Before(legacy);
    ReadAppend(items, After(count), b, toks);
    CountToken(b, items, toks, count);
    var at := |Join(toks[..|items|])|;
    CountSlice(b[at..]);
  }

  lemma LayoutParses(b: Data, toks: seq<Token>, legacy: int, mid: seq<Token>, count: int)
    requires ReadAll(Before(legacy), b) == Some(mid) && CountAfter(b, mid) == Some(count)
    requires ReadAll(Layout(legacy, count), b) == Some(toks) && LegacyOf(toks) == legacy
    ensures Parses(b, toks, legacy, count)
  {
    var items := Before(legacy);
    ReadAppend(items, After(count), b, toks);
    CountToken(b, items, toks, count);
    CountSlice(b[|Join(mid)|..]);
  }

  lemma SummaryParses(b: Data, toks: seq<Token>)
    requires Summary(b) == Some(toks)
    ensures exists count :: Parses(b, toks, LegacyOf(toks), count)
  {
    var legacy := LegacyOf(ReadAll(HEAD, b).value);
    var mid := ReadAll(Before(legacy), b).value;
    var count := CountAfter(b, mid).value;
    HeadOfLayout(b, legacy, count, toks);
    LayoutParses(b, toks, legacy, mid, count);
  }

  /** Reading from the start of the bytes is what a fresh cursor does. */
  lemma FreshCursor(b: Data, items: seq<Item>, toks: seq<Token>)
    requires ReadAll(items, b) == Some(toks)
    ensures DoAll(CurState(b, 0, []), items) == Some(CurState(b, |Join(toks)|, toks))
  {
    hide Do, Read;
    var c0 := CurState(b, 0, []);
    assert b[0..] == b && c0.tok + toks == toks;
    ReadAllIsDoAll(c0, items, toks);
  }

  /** The version and count the cursor settles on are the ones its tokens show. */
  lemma CursorLegacy(b: Data, legacy: int, count: int, toks: seq<Token>)
    requires ReadAll(Layout(legacy, count), b) == Some(toks)
    ensures LegacyAt(b) == LegacyOf(toks)
  {
    HeadOfLayout(b, legacy, count, toks);
    FreshCursor(b, HEAD, toks[..2]);
  }

  /** The four bytes of the count of additional packages lie inside the file. */
  predicate CountIsThere(b: Data) {
    var mid := DoAll(CurState(b, 0, []), Before(LegacyAt(b)));
    mid.Some? && Unpack(b, mid.value.o, 4).Some?
  }

  lemma CursorCount(b: Data, count: int, toks: seq<Token>)
    requires ReadAll(Layout(LegacyAt(b), count), b) == Some(toks)
    ensures var n := |Before(LegacyAt(b))|;
      n < |toks| && |toks[n].raw| == 4 && DecI32(toks[n].raw) == CountAt(b)
    ensures CountIsThere(b)
  {
    var items := Before(LegacyAt(b));
    ReadAppend(items, After(count), b, toks);
    FreshCursor(b, items, toks[..|items|]);
    CountToken(b, items, toks, count);
    SliceIsUnpack(b, |Join(toks[..|items|])|);
  }

  lemma SliceIsUnpack(b: Data, at: nat)
    requires at + 4 <= |b|
    ensures Unpack(b, at, 4) == Some(b[at..][..4])
  {
    assert b[at..][..4] == b[at..at + 4];
  }

  /** What the prefix parser reads, the cursor reads, and it never met a negative count. */
  lemma {:induction false} ReadAllIsForward(c: CurState, items: seq<Item>)
    requires 0 <= c.o <= |c.b| && ReadAll(items, c.b[c.o..]).Some?
    ensures Forward(c, items)
    decreases |items|
  {
    hide Do, Read, CountNotNegative;
    if items != [] {
      var t, rest := ReadSplit(items, c.b[c.o..]);
      DoToken(c, items[0], t);
      ReadIsForward(c, items[0]);
      ReadAllIsForward(Do(c, items[0]).value, items[1..]);
    }
  }

  lemma ReadIsForward(c: CurState, it: Item)
    requires 0 <= c.o <= |c.b| && Read(it, c.b[c.o..]).Some?
    ensures CountNotNegative(c, it)
  {
    hide DecI32;
    if it.Array? {
      var s := c.b[c.o..];
      assert s[..4] == c.b[c.o..c.o + 4];
      CountSlice(s);
    }
  }

  /** `parse_summary` ends with these tokens and the cursor behind them, no array count being negative. */
  ghost predicate Parsed(b: Data, toks: seq<Token>) {
    SummaryCursor(b) == Some(CurState(b, |Join(toks)|, toks)) && CountsNotNegative(b)
  }

  lemma SummaryIsParsed(b: Data, toks: seq<Token>)
    requires Summary(b) == Some(toks)
    ensures Parsed(b, toks)
  {
    hide Summary, Layout, Do, Read, DecI32;
    SummaryParses(b, toks);
    var legacy := LegacyOf(toks);
    var count :| Parses(b, toks, legacy, count);
    CursorLegacy(b, legacy, count, toks);
    CursorCount(b, count, toks);
    FreshCursor(b, Layout(legacy, count), toks);
    assert b[0..] == b;
    ReadAllIsForward(CurState(b, 0, []), Layout(legacy, count));
    LayoutIsCursor(b);
  }

  /** When the whole layout can be carried out, the staged parse does carry it out. */
  lemma LayoutIsCursor(b: Data)
    requires DoAll(CurState(b, 0, []), Layout(LegacyAt(b), CountAt(b))).Some? && CountIsThere(b)
    ensures SummaryCursor(b) == DoAll(CurState(b, 0, []), Layout(LegacyAt(b), CountAt(b)))
  {
    hide Do, Middle;
    var c0 := CurState(b, 0, []);
    DoAppend(c0, Before(LegacyAt(b)), After(CountAt(b)));
    DoAppend(c0, HEAD, Middle(LegacyAt(b)));
    HeadTokens(c0);
  }

  /** What the cursor reads without meeting a negative count, the prefix parser reads. */
  lemma CursorReadsSummary(b: Data)
    requires SummaryCursor(b).Some? && CountsNotNegative(b)
    ensures Summary(b) == Some(SummaryCursor(b).value.tok)
  {
    CursorTokens(b);
    var toks := SummaryCursor(b).value.tok;
    CursorLegacy(b, LegacyAt(b), CountAt(b), toks);
    CursorCount(b, CountAt(b), toks);
    assert Parses(b, toks, LegacyAt(b), CountAt(b));
    ParsesIsSummary(b, toks, LegacyAt(b), CountAt(b));
  }

  /** The cursor parser and the prefix parser read the same summaries with the same tokens. */
  lemma ParsersAgree(b: Data, toks: seq<Token>)
    ensures Summary(b) == Some(toks) <==> Parsed(b, toks)
  {
    hide Summary, CountsNotNegative, SummaryCursor;
    if Summary(b) == Some(toks) { SummaryIsParsed(b, toks); }
    if Parsed(b, toks) { CursorReadsSummary(b); }
  }

  lemma EditKeepsSummary(b: Data, toks: seq<Token>, us: seq<Token>, rest: Data)
    requires Summary(b) == Some(toks) && EditedAll(toks, us) && SameSteering(toks, us)
    ensures Summary(Join(us) + rest) == Some(us)
  {
    SummaryParses(b, toks);
    var legacy := LegacyOf(toks);
    var count :| Parses(b, toks, legacy, count);
    ReadAllEdited(Layout(legacy, count), b, toks, us, rest);
    CountToken(b, Before(legacy), toks, count);
    var n := |Before(legacy)|;
    assert Edited(toks[n], us[n]);
    assert us[n] == toks[n];
    ParsesIsSummary(Join(us) + rest, us, legacy, count);
  }

  /**
   * Rewriting the values of structured fields and parsing again gives the same token list with
   * just those values changed, whatever follows the summary.
   */
  lemma EditCommutesWithParse(b: Data, toks: seq<Token>, us: seq<Token>, rest: Data)
    requires Parsed(b, toks) && EditedAll(toks, us) && SameSteering(toks, us)
    ensures Parsed(Join(us) + rest, us)
  {
    hide Summary, EditedAll, SameSteering, Parsed;
    ParsersAgree(b, toks);
    EditKeepsSummary(b, toks, us, rest);
    ParsersAgree(Join(us) + rest, us);
  }

  lemma {:induction false} TokensGrow(c: CurState, items: seq<Item>)
    requires DoAll(c, items).Some?
    ensures c.tok <= DoAll(c, items).value.tok
  {
    if items != [] { TokensGrow(c, items[..|items| - 1]); }
  }

  lemma LayoutThird(legacy: int, count: int) returns (it: Item, tail: seq<Item>)
    ensures Layout(legacy, count) == HEAD + ([it] + tail)
    ensures it == if legacy != -4 then I32(LegacyUE3) else I32(FileVerUE4)
  {
    it, tail := Layout(legacy, count)[2], Layout(legacy, count)[3..];
  }

  /** The third token names the field that the legacy version calls for. */
  lemma ThirdKey(b: Data)
    requires SummaryCursor(b).Some?
    ensures var toks := SummaryCursor(b).value.tok;
      |toks| > 2 && toks[2].key == Some(if LegacyOf(toks) != -4 then LegacyUE3 else FileVerUE4)
  {
    hide Layout, Slice, Unpack, DecI32;
    SummaryIsLayout(b);
    var it, tail := LayoutThird(LegacyAt(b), CountAt(b));
    var c0 := CurState(b, 0, []);
    DoAppend(c0, HEAD, [it] + tail);
    HeadTokens(c0);
    var h := DoAll(c0, HEAD).value;
    DoCons(h, [it] + tail);
    assert ([it] + tail)[1..] == tail;
    var d := Do(h, it).value;
    TokensGrow(d, tail);
    assert d.tok[1] == h.tok[1] && d.tok[2].key == Some(it.key);
  }

  lemma EditedKeepsKey(toks: seq<Token>, us: seq<Token>, i: nat)
    requires EditedAll(toks, us) && i < |toks|
    ensures us[i].key == toks[i].key
  {
    assert Edited(toks[i], us[i]);
  }
}
