/**
 * Where the fields of a package summary lie (tools/client_model/ue_pkg.py): every number that the parser
 * names, at its offset in the file.
 */
module UePkgLaws {
  import opened Results
  import opened Bytes
  import opened UePkg
  import opened UePkgProofs

  /** The offset of token `i` in the bytes that the tokens were read from. */
  function OffsetOf(toks: seq<Token>, i: nat): nat
    requires i <= |toks|
  {
    |Join(toks[..i])|
  }

  lemma OffsetNext(toks: seq<Token>, i: nat)
    requires i < |toks|
    ensures OffsetOf(toks, i + 1) == OffsetOf(toks, i) + |toks[i].raw|
  {
    assert toks[..i + 1] == toks[..i] + [toks[i]];
    JoinAppend(toks[..i], [toks[i]]);
    JoinCons(toks[i], []);
    assert [toks[i]] + [] == [toks[i]];
  }

  /** Each token is what its operation reads at the token's offset. */
  lemma {:induction false} TokenAt(items: seq<Item>, s: Data, toks: seq<Token>, i: nat)
    requires ReadAll(items, s) == Some(toks) && i < |items|
    ensures i < |toks| && OffsetOf(toks, i) <= |s|
    ensures Read(items[i], s[OffsetOf(toks, i)..]) == Some(toks[i])
    decreases |items|
  {
    hide Read;
    var t, rest := ReadSplit(items, s);
    if i == 0 {
      assert s[0..] == s;
    } else {
      TokenAt(items[1..], s[|t.raw|..], rest, i - 1);
      assert toks[..i] == [t] + rest[..i - 1];
      JoinCons(t, rest[..i - 1]);
      DropDrop(s, |t.raw|, OffsetOf(rest, i - 1));
    }
  }

  /** Token `i` is the number of this name, and the number stands at this offset. */
  predicate Field(b: Data, toks: seq<Token>, i: nat, at: int, key: Key) {
    && i < |toks| && 0 <= at && at + 4 <= |b|
    && toks[i].key == Some(key) && toks[i].value == Some(DecI32(b[at..]))
  }

  /** A 32-bit operation of the layout names the number at its offset, and the next token is four bytes on. */
  lemma NumberAt(items: seq<Item>, b: Data, toks: seq<Token>, i: nat, key: Key, at: nat)
    requires ReadAll(items, b) == Some(toks) && i < |items| == |toks| && items[i] == I32(key) && at == OffsetOf(toks, i)
    ensures Field(b, toks, i, at, key) && OffsetOf(toks, i + 1) == at + 4
  {
    TokenAt(items, b, toks, i);
    OffsetNext(toks, i);
    CountSlice(b[at..]);
    hide DecI32, OffsetOf;
  }

  /** Raw bytes, a string and an array move on by their own lengths. */
  lemma RawAt(items: seq<Item>, b: Data, toks: seq<Token>, i: nat, n: nat)
    requires ReadAll(items, b) == Some(toks) && i < |items| == |toks| && items[i] == Item.Raw(n)
    ensures OffsetOf(toks, i + 1) == OffsetOf(toks, i) + n <= |b|
  {
    TokenAt(items, b, toks, i);
    OffsetNext(toks, i);
    hide OffsetOf;
  }

  lemma StringAt(items: seq<Item>, b: Data, toks: seq<Token>, i: nat)
    requires ReadAll(items, b) == Some(toks) && i < |items| == |toks| && items[i] == FString
    ensures OffsetOf(toks, i) + 4 <= |b|
    ensures OffsetOf(toks, i + 1) == OffsetOf(toks, i) + 4 + StringBytes(DecI32(b[OffsetOf(toks, i)..])) <= |b|
  {
    TokenAt(items, b, toks, i);
    OffsetNext(toks, i);
    hide OffsetOf, DecI32;
  }

  lemma ArrayAt(items: seq<Item>, b: Data, toks: seq<Token>, i: nat, elem: nat, key: Key)
    requires ReadAll(items, b) == Some(toks) && i < |items| == |toks| && items[i] == Array(elem, key)
    ensures OffsetOf(toks, i) + 4 <= |b|
    ensures OffsetOf(toks, i + 1) == OffsetOf(toks, i) + 4 + DecI32(b[OffsetOf(toks, i)..]) * elem <= |b|
  {
    TokenAt(items, b, toks, i);
    OffsetNext(toks, i);
    hide OffsetOf, DecI32;
    ArrayBytesIsProduct(DecI32(b[OffsetOf(toks, i)..]), elem);
  }

  // ----- the layout by position -----

  /** How many tokens stand before the engine version: two, and a third unless the version is -4. */
  function Lead(legacy: int): nat { if legacy != -4 then 3 else 2 }

  /** The thirteen counts and offsets, in order. */
  function NamedField(j: nat): Key
    requires j < 13
  {
    if j == 0 then NameCount else if j == 1 then NameOffset else if j == 2 then GatherableCount
    else if j == 3 then GatherableOffset else if j == 4 then ExportCount else if j == 5 then ExportOffset
    else if j == 6 then ImportCount else if j == 7 then ImportOffset else if j == 8 then DependsOffset
    else if j == 9 then SoftRefCount else if j == 10 then SoftRefOffset else if j == 11 then SearchableNamesOffset
    else ThumbnailTableOffset
  }

  lemma LayoutFront(legacy: int, count: int)
    ensures var l, k := Layout(legacy, count), Lead(legacy);
      && |l| >= k + 34
      && l[0] == Item.Raw(4) && l[1] == I32(Legacy) && (legacy != -4 ==> l[2] == I32(LegacyUE3))
      && l[k] == I32(FileVerUE4) && l[k + 1] == I32(FileVerLicensee) && l[k + 2] == Array(20, CustomVersions)
      && l[k + 3] == I32(TotalHeaderSize) && l[k + 4] == FString && l[k + 5] == Item.Raw(4)
  {
  }

  lemma LayoutNamed(legacy: int, count: int, j: nat)
    requires j < 13
    ensures var l, k := Layout(legacy, count), Lead(legacy); |l| >= k + 34 && l[k + 6 + j] == I32(NamedField(j))
  {
    var l, k := Layout(legacy, count), Lead(legacy);
    assert l[k + 6 + j] == OFFSETS[j];
  }

  lemma LayoutMiddle(legacy: int, count: int)
    ensures var l, k := Layout(legacy, count), Lead(legacy) + 19;
      && |l| >= k + 15
      && l[k] == Item.Raw(16) && l[k + 1] == Array(8, Generations)
      && l[k + 2] == Item.Raw(10) && l[k + 3] == FString && l[k + 4] == Item.Raw(10) && l[k + 5] == FString
      && l[k + 6] == Item.Raw(4) && l[k + 7] == Array(0, CompressedChunks) && l[k + 8] == Item.Raw(4)
      && l[k + 9] == Item.Raw(4) && |Before(legacy)| == k + 9
  {
  }

  lemma LayoutStrings(legacy: int, count: int, i: nat)
    requires i < count
    ensures var l, n := Layout(legacy, count), |Before(legacy)| + 1;
      |Strings(count)| == count && n + i < |l| && l[n + i] == FString
  {
    StringsAre(count);
  }

  lemma {:induction false} StringsAre(n: nat)
    ensures |Strings(n)| == n && forall i :: 0 <= i < n ==> Strings(n)[i] == FString
  {
    if n > 0 { StringsAre(n - 1); }
  }

  lemma LayoutEnd(legacy: int, count: int)
    ensures var l := Layout(legacy, count); var e := |l| - 6;
      && e >= 0 && l[e] == I32(AssetRegistryDataOffset) && l[e + 1] == I64(BulkDataStartOffset)
      && l[e + 2] == I32(WorldTileInfoDataOffset) && l[e + 3] == Array(4, ChunkIDs)
      && l[e + 4] == I32(PreloadDependencyCount) && l[e + 5] == I32(PreloadDependencyOffset)
  {
  }

  /** The layout of a summary that parses, and the tokens read by it. */
  lemma LayoutOf(b: Data, toks: seq<Token>) returns (count: int)
    requires Parsed(b, toks)
    ensures ReadAll(Layout(LegacyOf(toks), count), b) == Some(toks) && |toks| == |Layout(LegacyOf(toks), count)|
    ensures var n := |Before(LegacyOf(toks))|;
      n < |toks| && |toks[n].raw| == 4 && DecI32(toks[n].raw) == count
  {
    hide Summary, Layout, Parsed, DecI32;
    ParsersAgree(b, toks);
    SummaryParses(b, toks);
    count :| Parses(b, toks, LegacyOf(toks), count);
  }

  lemma LegacyIs(b: Data, toks: seq<Token>, items: seq<Item>)
    requires ReadAll(items, b) == Some(toks) && |items| == |toks| >= 2
    requires items[0] == Item.Raw(4) && items[1] == I32(Legacy)
    ensures OffsetOf(toks, 2) == 8 && Field(b, toks, 1, 4, Legacy) && LegacyOf(toks) == DecI32(b[4..])
  {
    hide DecI32;
    RawAt(items, b, toks, 0, 4);
    assert toks[..0] == [];
    NumberAt(items, b, toks, 1, Legacy, 4);
  }

  /** How many bytes a string with this stored length has: as many, or twice as many if it is negative. */
  function TextBytes(n: int): int { if n > 0 then n else -2 * n }

  lemma {:induction false} NamedFrom(items: seq<Item>, b: Data, toks: seq<Token>, k: nat, p: nat, j: nat)
    requires ReadAll(items, b) == Some(toks) && k + 19 <= |items| == |toks| && OffsetOf(toks, k + 6) == p && j <= 13
    requires forall i :: 0 <= i < 13 ==> items[k + 6 + i] == I32(NamedField(i))
    ensures OffsetOf(toks, k + 6 + j) == p + 4 * j
    ensures forall i :: 0 <= i < j ==> Field(b, toks, k + 6 + i, p + 4 * i, NamedField(i))
  {
    hide *;
    if j > 0 {
      NamedFrom(items, b, toks, k, p, j - 1);
      NumberAt(items, b, toks, k + 6 + (j - 1), NamedField(j - 1), p + 4 * (j - 1));
      forall i | 0 <= i < j ensures Field(b, toks, k + 6 + i, p + 4 * i, NamedField(i)) {
        if i < j - 1 { assert Field(b, toks, k + 6 + i, p + 4 * i, NamedField(i)); }
      }
    }
  }

  /**
   * The front of every summary: the legacy version at 4, the engine versions behind it, then the custom
   * versions of 20 bytes, the header size, the folder name, four bytes, and the thirteen counts and offsets.
   */
  lemma FrontFields(b: Data, toks: seq<Token>) returns (k: nat, e: nat, p: nat)
    requires Parsed(b, toks)
    ensures |b| >= 8 && k == (if DecI32(b[4..]) != -4 then 3 else 2) && |b| >= 4 * k + 12
    ensures e == 4 * k + 12 + 20 * DecI32(b[4 * k + 8..]) && e + 8 <= |b|
    ensures p == e + 12 + TextBytes(DecI32(b[e + 4..])) && OffsetOf(toks, 0) == 0
    ensures Field(b, toks, 1, 4, Legacy) && (k == 3 ==> Field(b, toks, 2, 8, LegacyUE3))
    ensures Field(b, toks, k, 4 * k, FileVerUE4) && Field(b, toks, k + 1, 4 * k + 4, FileVerLicensee)
    ensures Field(b, toks, k + 3, e, TotalHeaderSize)
    ensures forall j :: 0 <= j < 13 ==> Field(b, toks, k + 6 + j, p + 4 * j, NamedField(j))
    ensures k + 19 <= |toks| && OffsetOf(toks, k + 19) == p + 52
  {
    hide Layout, DecI32, OffsetOf, NamedField, Field, ReadAll;
    var count := LayoutOf(b, toks);
    var legacy := LegacyOf(toks);
    var items := Layout(legacy, count);
    k := Lead(legacy);
    LayoutFront(legacy, count);
    LegacyIs(b, toks, items);
    if legacy != -4 { NumberAt(items, b, toks, 2, LegacyUE3, 8); }
    NumberAt(items, b, toks, k, FileVerUE4, 4 * k);
    NumberAt(items, b, toks, k + 1, FileVerLicensee, 4 * k + 4);
    ArrayAt(items, b, toks, k + 2, 20, CustomVersions);
    e := OffsetOf(toks, k + 3);
    NumberAt(items, b, toks, k + 3, TotalHeaderSize, e);
    StringAt(items, b, toks, k + 4);
    RawAt(items, b, toks, k + 5, 4);
    p := OffsetOf(toks, k + 6);
    forall j | 0 <= j < 13 ensures items[k + 6 + j] == I32(NamedField(j)) { LayoutNamed(legacy, count, j); }
    NamedFrom(items, b, toks, k, p, 13);
    assert OffsetOf(toks, 0) == 0 by { NothingBefore(toks); }
  }

  lemma NothingBefore(toks: seq<Token>)
    ensures OffsetOf(toks, 0) == 0
  {
    assert toks[..0] == [];
  }

  /** The cursor's offset when it counts the additional packages, and how many strings follow. */
  lemma MiddleFields(b: Data, toks: seq<Token>, k: nat, e: nat, p: nat) returns (e1: nat, e2: nat, c: nat)
    requires Parsed(b, toks) && k == Lead(LegacyOf(toks)) && k + 19 <= |toks| && OffsetOf(toks, k + 19) == p + 52
    ensures p + 72 <= |b| && e1 == p + 72 + 8 * DecI32(b[p + 68..]) && e1 + 14 <= |b|
    ensures e2 == e1 + 14 + TextBytes(DecI32(b[e1 + 10..])) && e2 + 14 <= |b|
    ensures c == e2 + 14 + TextBytes(DecI32(b[e2 + 10..])) + 12 && c + 4 <= |b|
    ensures var n := DecI32(b[c..]); |toks| == k + 35 + if n > 0 then n else 0
    ensures OffsetOf(toks, k + 28) == c && OffsetOf(toks, k + 29) == c + 4
  {
    hide Layout, DecI32, OffsetOf;
    var count := LayoutOf(b, toks);
    var legacy := LegacyOf(toks);
    var items := Layout(legacy, count);
    LayoutMiddle(legacy, count);
    LayoutLength(legacy, count);
    e1, e2, c := MiddleOf(items, b, toks, k + 19, p + 52, count);
  }

  lemma MiddleOf(items: seq<Item>, b: Data, toks: seq<Token>, i: nat, q: nat, count: int)
    returns (e1: nat, e2: nat, c: nat)
    requires ReadAll(items, b) == Some(toks) && i + 10 <= |items| == |toks| && OffsetOf(toks, i) == q
    requires items[i] == Item.Raw(16) && items[i + 1] == Array(8, Generations)
    requires items[i + 2] == Item.Raw(10) && items[i + 3] == FString
    requires items[i + 4] == Item.Raw(10) && items[i + 5] == FString
    requires items[i + 6] == Item.Raw(4) && items[i + 7] == Array(0, CompressedChunks)
    requires items[i + 8] == Item.Raw(4) && items[i + 9] == Item.Raw(4)
    requires |toks[i + 9].raw| == 4 && DecI32(toks[i + 9].raw) == count
    ensures q + 20 <= |b| && e1 == q + 20 + 8 * DecI32(b[q + 16..]) && e1 + 14 <= |b|
    ensures e2 == e1 + 14 + TextBytes(DecI32(b[e1 + 10..])) && e2 + 14 <= |b|
    ensures c == e2 + 14 + TextBytes(DecI32(b[e2 + 10..])) + 12 && c + 4 <= |b|
    ensures OffsetOf(toks, i + 9) == c && OffsetOf(toks, i + 10) == c + 4 && DecI32(b[c..]) == count
  {
    hide *;
    StringsTake();
    RawAt(items, b, toks, i, 16);
    ArrayAt(items, b, toks, i + 1, 8, Generations);
    e1 := OffsetOf(toks, i + 2);
    RawAt(items, b, toks, i + 2, 10);
    StringAt(items, b, toks, i + 3);
    e2 := OffsetOf(toks, i + 4);
    RawAt(items, b, toks, i + 4, 10);
    StringAt(items, b, toks, i + 5);
    RawAt(items, b, toks, i + 6, 4);
    ArrayAt(items, b, toks, i + 7, 0, CompressedChunks);
    RawAt(items, b, toks, i + 8, 4);
    c := OffsetOf(toks, i + 9);
    CountIs(items, b, toks, i + 9, count);
  }

  lemma StringsTake()
    ensures forall n: int :: StringBytes(n) == TextBytes(n)
  {
  }

  lemma CountIs(items: seq<Item>, b: Data, toks: seq<Token>, i: nat, count: int)
    requires ReadAll(items, b) == Some(toks) && i < |items| == |toks| && items[i] == Item.Raw(4)
    requires |toks[i].raw| == 4 && DecI32(toks[i].raw) == count
    ensures OffsetOf(toks, i) + 4 <= |b| && OffsetOf(toks, i + 1) == OffsetOf(toks, i) + 4
    ensures DecI32(b[OffsetOf(toks, i)..]) == count
  {
    TokenAt(items, b, toks, i);
    OffsetNext(toks, i);
    hide OffsetOf;
    CountSlice(b[OffsetOf(toks, i)..]);
    hide DecI32;
  }

  lemma LayoutLength(legacy: int, count: int)
    ensures |Layout(legacy, count)| == Lead(legacy) + 35 + if count > 0 then count else 0
  {
    if count > 0 { StringsAre(count); }
    LayoutMiddle(legacy, count);
    assert count <= 0 ==> Strings(count) == [];
  }

  /**
   * The end of every summary: the registry offset, the 64-bit start of the bulk data, the tile offset, the
   * chunk ids of four bytes, and the two preload numbers, which end it.
   */
  lemma EndFields(b: Data, toks: seq<Token>) returns (t: nat, m: int)
    requires Parsed(b, toks)
    ensures |toks| >= 6 && t == OffsetOf(toks, |toks| - 6) && t + 20 <= |b| && m == DecI32(b[t + 16..])
    ensures var i := |toks| - 6;
      && Field(b, toks, i, t, AssetRegistryDataOffset)
      && toks[i + 1].key == Some(BulkDataStartOffset) && toks[i + 1].value == Some(DecI64(b[t + 4..]))
      && Field(b, toks, i + 2, t + 12, WorldTileInfoDataOffset)
      && Field(b, toks, i + 4, t + 20 + 4 * m, PreloadDependencyCount)
      && Field(b, toks, i + 5, t + 24 + 4 * m, PreloadDependencyOffset)
    ensures |Join(toks)| == t + 28 + 4 * m
  {
    hide *;
    var count := LayoutOf(b, toks);
    var items := Layout(LegacyOf(toks), count);
    LayoutEnd(LegacyOf(toks), count);
    t, m := EndOf(items, b, toks);
  }

  lemma EndOf(items: seq<Item>, b: Data, toks: seq<Token>) returns (t: nat, m: int)
    requires ReadAll(items, b) == Some(toks) && |items| == |toks| >= 6
    requires var e := |items| - 6;
      && items[e] == I32(AssetRegistryDataOffset) && items[e + 1] == I64(BulkDataStartOffset)
      && items[e + 2] == I32(WorldTileInfoDataOffset) && items[e + 3] == Array(4, ChunkIDs)
      && items[e + 4] == I32(PreloadDependencyCount) && items[e + 5] == I32(PreloadDependencyOffset)
    ensures t == OffsetOf(toks, |toks| - 6) && t + 20 <= |b| && m == DecI32(b[t + 16..])
    ensures var i := |toks| - 6;
      && Field(b, toks, i, t, AssetRegistryDataOffset)
      && toks[i + 1].key == Some(BulkDataStartOffset) && toks[i + 1].value == Some(DecI64(b[t + 4..]))
      && Field(b, toks, i + 2, t + 12, WorldTileInfoDataOffset)
      && Field(b, toks, i + 4, t + 20 + 4 * m, PreloadDependencyCount)
      && Field(b, toks, i + 5, t + 24 + 4 * m, PreloadDependencyOffset)
    ensures |Join(toks)| == t + 28 + 4 * m
  {
    hide *;
    var i := |toks| - 6;
    t := OffsetOf(toks, i);
    NumberAt(items, b, toks, i, AssetRegistryDataOffset, t);
    LongAt(items, b, toks, i + 1, BulkDataStartOffset);
    NumberAt(items, b, toks, i + 2, WorldTileInfoDataOffset, t + 12);
    ArrayAt(items, b, toks, i + 3, 4, ChunkIDs);
    m := DecI32(b[t + 16..]);
    NumberAt(items, b, toks, i + 4, PreloadDependencyCount, t + 20 + 4 * m);
    NumberAt(items, b, toks, i + 5, PreloadDependencyOffset, t + 24 + 4 * m);
    WholeOffset(toks);
  }

  lemma WholeOffset(toks: seq<Token>)
    ensures OffsetOf(toks, |toks|) == |Join(toks)|
  {
    assert toks[..|toks|] == toks;
  }

  lemma LongAt(items: seq<Item>, b: Data, toks: seq<Token>, i: nat, key: Key)
    requires ReadAll(items, b) == Some(toks) && i < |items| == |toks| && items[i] == I64(key)
    ensures OffsetOf(toks, i) + 8 <= |b| && OffsetOf(toks, i + 1) == OffsetOf(toks, i) + 8
    ensures toks[i].key == Some(key) && toks[i].value == Some(DecI64(b[OffsetOf(toks, i)..]))
  {
    TokenAt(items, b, toks, i);
    OffsetNext(toks, i);
    hide OffsetOf;
    LongSlice(b[OffsetOf(toks, i)..]);
    hide DecI64;
  }

  lemma LongSlice(s: Data)
    requires |s| >= 8
    ensures DecI64(s[..8]) == DecI64(s)
  {
    assert s[..8][4..] == s[4..8] && s[4..][..4] == s[4..8];
    CountSlice(s[4..]);
    assert s[..8][..4] == s[..4];
  }
}
