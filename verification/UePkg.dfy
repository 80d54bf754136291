/**
 * tools/client_model/ue_pkg.py: the package summary as a tokenising parser with a byte-exact
 * re-emitter. The cursor follows the Python slicing and unpacking rules for any offset, negative
 * ones included; beside it stands a plain prefix parser that the cursor is proved to agree with.
 */
module UePkg {
  import opened Results
  import opened Bytes

  /** The names of the summary's structured fields and counted arrays. */
  datatype Key =
    | Legacy | LegacyUE3 | FileVerUE4 | FileVerLicensee | CustomVersions | TotalHeaderSize
    | NameCount | NameOffset | GatherableCount | GatherableOffset | ExportCount | ExportOffset
    | ImportCount | ImportOffset | DependsOffset | SoftRefCount | SoftRefOffset
    | SearchableNamesOffset | ThumbnailTableOffset | Generations | CompressedChunks
    | AssetRegistryDataOffset | BulkDataStartOffset | WorldTileInfoDataOffset | ChunkIDs
    | PreloadDependencyCount | PreloadDependencyOffset

  /** Bytes kept as they are, or a structured number. */
  datatype Kind = Bytes | Int32 | Int64

  datatype Token = Token(kind: Kind, key: Option<Key>, raw: Data, value: Option<int>)

  /** One cursor operation of the parser. */
  datatype Item =
    | Raw(n: nat)
    | I32(key: Key)
    | I64(key: Key)
    | FString
    | Array(elem: nat, key: Key)

  function Join(toks: seq<Token>): Data {
    if toks == [] then [] else toks[0].raw + Join(toks[1..])
  }

  lemma {:induction false} JoinAppend(s: seq<Token>, t: seq<Token>)
    ensures Join(s + t) == Join(s) + Join(t)
  {
    if s == [] {
      assert s + t == t;
    } else {
      assert (s + t)[1..] == s[1..] + t;
      JoinAppend(s[1..], t);
    }
  }

  // ----- the cursor -----

  datatype CurState = CurState(b: Data, o: int, tok: seq<Token>)

  function RawToken(raw: Data): Token { Token(Bytes, None, raw, None) }
  function I32Token(key: Key, raw: Data): Token requires |raw| >= 4 { Token(Int32, Some(key), raw, Some(DecI32(raw))) }
  function I64Token(key: Key, raw: Data): Token requires |raw| >= 8 { Token(Int64, Some(key), raw, Some(DecI64(raw))) }
  function ArrayToken(key: Key, raw: Data): Token { Token(Bytes, Some(key), raw, None) }

  /** How far an engine string with stored length `ln` reaches past its length word. */
  function StringBytes(ln: int): nat { if ln > 0 then ln else -ln * 2 }

  /** One cursor operation, `None` when unpacking fails. */
  function Do(c: CurState, it: Item): Option<CurState> {
    match it
    case Raw(n) =>
      Some(CurState(c.b, c.o + n, c.tok + [RawToken(Slice(c.b, c.o, c.o + n))]))
    case I32(key) =>
      var w := Unpack(c.b, c.o, 4);
      if w.None? then None
      else Some(CurState(c.b, c.o + 4,
                      c.tok + [Token(Int32, Some(key), Slice(c.b, c.o, c.o + 4), Some(DecI32(w.value)))]))
    case I64(key) =>
      var w := Unpack(c.b, c.o, 8);
      if w.None? then None
      else Some(CurState(c.b, c.o + 8,
                      c.tok + [Token(Int64, Some(key), Slice(c.b, c.o, c.o + 8), Some(DecI64(w.value)))]))
    case FString =>
      var w := Unpack(c.b, c.o, 4);
      if w.None? then None
      else
        var o := c.o + 4 + StringBytes(DecI32(w.value));
        Some(CurState(c.b, o, c.tok + [RawToken(Slice(c.b, c.o, o))]))
    case Array(elem, key) =>
      var w := Unpack(c.b, c.o, 4);
      if w.None? then None
      else
        var o := c.o + 4 + ArrayBytes(DecI32(w.value), elem);
        Some(CurState(c.b, o, c.tok + [ArrayToken(key, Slice(c.b, c.o, o))]))
  }

  function DoAll(c: CurState, items: seq<Item>): Option<CurState> {
    if items == [] then Some(c)
    else
      var d := DoAll(c, items[..|items| - 1]);
      if d.None? then None else Do(d.value, items[|items| - 1])
  }

  /** `Cur`: the file bytes, the offset, and the ordered tokens. */
  class Cur {
    const b: Data
    var o: int
    var tok: seq<Token>
    /** The operations carried out so far. */
    ghost var done: seq<Item>

    ghost predicate Valid()
      reads this
    {
      DoAll(CurState(b, 0, []), done) == Some(CurState(b, o, tok))
    }

    constructor (b: Data)
      ensures Valid() && this.b == b && o == 0 && tok == [] && done == []
    {
      this.b, o, tok, done := b, 0, [], [];
    }

    method Raw(n: nat)
      requires Valid()
      modifies this
      ensures Valid() && done == old(done) + [Item.Raw(n)]
    {
      hide Slice, DecI32, Unpack;
      var v := Slice(b, o, o + n);
      o := o + n;
      tok := tok + [RawToken(v)];
      done := done + [Item.Raw(n)];
      DoSnoc(CurState(b, 0, []), old(done), Item.Raw(n));
    }

    method I32(key: Key) returns (r: Option<int>)
      requires Valid()
      modifies this
      ensures DoAll(CurState(b, 0, []), old(done) + [Item.I32(key)]).None? <==> r.None?
      ensures r.Some? ==> Valid() && done == old(done) + [Item.I32(key)]
      ensures r.Some? ==> |tok| > 0 && tok[|tok| - 1].value == r
    {
      hide DecI32, Slice, Unpack;
      DoSnoc(CurState(b, 0, []), done, Item.I32(key));
      var raw := Slice(b, o, o + 4);
      var w := Unpack(b, o, 4);
      if w.None? { return None; }
      var v := DecI32(w.value);
      o := o + 4;
      tok := tok + [Token(Int32, Some(key), raw, Some(v))];
      done := done + [Item.I32(key)];
      return Some(v);
    }

    method I64(key: Key) returns (r: Option<int>)
      requires Valid()
      modifies this
      ensures DoAll(CurState(b, 0, []), old(done) + [Item.I64(key)]).None? <==> r.None?
      ensures r.Some? ==> Valid() && done == old(done) + [Item.I64(key)]
    {
      hide DecI64, Slice, Unpack;
      DoSnoc(CurState(b, 0, []), done, Item.I64(key));
      var raw := Slice(b, o, o + 8);
      var w := Unpack(b, o, 8);
      if w.None? { return None; }
      var v := DecI64(w.value);
      o := o + 8;
      tok := tok + [Token(Int64, Some(key), raw, Some(v))];
      done := done + [Item.I64(key)];
      return Some(v);
    }

    method FString() returns (ok: bool)
      requires Valid()
      modifies this
      ensures DoAll(CurState(b, 0, []), old(done) + [Item.FString]).None? <==> !ok
      ensures ok ==> Valid() && done == old(done) + [Item.FString]
    {
      hide DecI32, Slice, Unpack, Do, DoAll;
      DoSnoc(CurState(b, 0, []), done, Item.FString);
      DoString(CurState(b, o, tok));
      var start := o;
      var w := Unpack(b, o, 4);
      if w.None? { return false; }
      var ln := DecI32(w.value);
      o := o + 4;
      if ln > 0 { o := o + ln; } else if ln < 0 { o := o + (-ln) * 2; }
      tok := tok + [RawToken(Slice(b, start, o))];
      done := done + [Item.FString];
      return true;
    }

    method ArrayRaw(elem: nat, key: Key) returns (ok: bool)
      requires Valid()
      modifies this
      ensures DoAll(CurState(b, 0, []), old(done) + [Item.Array(elem, key)]).None? <==> !ok
      ensures ok ==> Valid() && done == old(done) + [Item.Array(elem, key)]
    {
      DoSnoc(CurState(b, 0, []), done, Item.Array(elem, key));
      var start := o;
      var w := Unpack(b, o, 4);
      if w.None? { return false; }
      ArrayBytesIsProduct(DecI32(w.value), elem);
      o := o + 4 + DecI32(w.value) * elem;
      tok := tok + [ArrayToken(key, Slice(b, start, o))];
      done := done + [Item.Array(elem, key)];
      return true;
    }

    method Perform(it: Item) returns (ok: bool)
      requires Valid()
      modifies this
      ensures ok <==> DoAll(CurState(b, 0, []), old(done) + [it]).Some?
      ensures ok ==> Valid() && done == old(done) + [it]
    {
      ok := true;
      match it {
        case Raw(n) => Raw(n);
        case I32(key) => var r := I32(key); ok := r.Some?;
        case I64(key) => var r := I64(key); ok := r.Some?;
        case FString => ok := FString();
        case Array(elem, key) => ok := ArrayRaw(elem, key);
      }
    }

    /** Any run of operations, stopping at the first that fails. */
    method Take(items: seq<Item>) returns (ok: bool)
      requires Valid()
      modifies this
      ensures ok <==> DoAll(CurState(b, 0, []), old(done) + items).Some?
      ensures ok ==> Valid() && done == old(done) + items
    {
      ghost var before := done;
      var i := 0;
      while i < |items|
        invariant 0 <= i <= |items|
        invariant Valid() && done == before + items[..i]
      {
        Advance(before, items, i);
        ok := Perform(items[i]);
        if !ok {
          FailsForGood(CurState(b, 0, []), before + items[..i + 1], items[i + 1..]);
          return;
        }
        i := i + 1;
      }
      assert items[..|items|] == items;
      return true;
    }
  }

  /** What a string read does, from the stored length on. */
  lemma DoString(c: CurState)
    ensures var w := Unpack(c.b, c.o, 4);
      if w.None? then Do(c, Item.FString).None?
      else
        var o := c.o + 4 + StringBytes(DecI32(w.value));
        Do(c, Item.FString) == Some(CurState(c.b, o, c.tok + [RawToken(Slice(c.b, c.o, o))]))
  {
    hide DecI32, Slice, Unpack, StringBytes;
  }

  lemma Advance(before: seq<Item>, items: seq<Item>, i: nat)
    requires i < |items|
    ensures before + items[..i] + [items[i]] == before + items[..i + 1]
    ensures before + items[..i + 1] + items[i + 1..] == before + items
  {
  }

  lemma DoSnoc(c: CurState, items: seq<Item>, it: Item)
    ensures DoAll(c, items + [it]) == if DoAll(c, items).None? then None else Do(DoAll(c, items).value, it)
  {
    assert (items + [it])[..|items|] == items;
  }

  lemma {:induction false} DoAppend(c: CurState, s: seq<Item>, t: seq<Item>)
    ensures DoAll(c, s + t) == if DoAll(c, s).None? then None else DoAll(DoAll(c, s).value, t)
  {
    if t == [] {
      assert s + t == s;
    } else {
      var u, x := t[..|t| - 1], t[|t| - 1];
      assert s + t == s + u + [x] && t == u + [x];
      DoAppend(c, s, u);
      DoSnoc(c, s + u, x);
      if DoAll(c, s).Some? { DoSnoc(DoAll(c, s).value, u, x); }
    }
  }

  lemma FailsForGood(c: CurState, s: seq<Item>, t: seq<Item>)
    requires DoAll(c, s).None?
    ensures DoAll(c, s + t).None?
  {
    DoAppend(c, s, t);
  }

  // ----- the summary layout -----

  const HEAD: seq<Item> := [Raw(4), I32(Legacy)]

  const VERSIONS: seq<Item> := [I32(FileVerUE4), I32(FileVerLicensee), Array(20, CustomVersions),
                                I32(TotalHeaderSize), FString, Raw(4)]

  const OFFSETS: seq<Item> := [I32(NameCount), I32(NameOffset), I32(GatherableCount), I32(GatherableOffset),
                               I32(ExportCount), I32(ExportOffset), I32(ImportCount), I32(ImportOffset),
                               I32(DependsOffset), I32(SoftRefCount), I32(SoftRefOffset),
                               I32(SearchableNamesOffset), I32(ThumbnailTableOffset)]

  /** `engine_version`. */
  const ENGINE: seq<Item> := [Raw(10), FString]

  const COMPRESSION: seq<Item> := [Raw(4), Array(0, CompressedChunks), Raw(4)]

  const COUNT: Item := Raw(4)

  const TAIL: seq<Item> := [I32(AssetRegistryDataOffset), I64(BulkDataStartOffset),
                            I32(WorldTileInfoDataOffset), Array(4, ChunkIDs),
                            I32(PreloadDependencyCount), I32(PreloadDependencyOffset)]

  /** Everything between the legacy version and the count of additional packages. */
  function Middle(legacy: int): seq<Item> {
    (if legacy != -4 then [I32(LegacyUE3)] else []) + VERSIONS + OFFSETS
      + [Raw(16), Array(8, Generations)] + ENGINE + ENGINE + COMPRESSION
  }

  function Strings(n: int): seq<Item> { if n <= 0 then [] else Strings(n - 1) + [FString] }

  /** The operations before the count of additional packages is read. */
  function Before(legacy: int): seq<Item> { HEAD + Middle(legacy) }

  function After(count: int): seq<Item> { [COUNT] + Strings(count) + TAIL }

  /** What `parse_summary` does to a fresh cursor; `None` when some unpacking fails. */
  function SummaryCursor(b: Data): Option<CurState> {
    var c0 := CurState(b, 0, []);
    var head := DoAll(c0, HEAD);
    if head.None? then None
    else
      var legacy := head.value.tok[|head.value.tok| - 1].value.value;
      var mid := DoAll(c0, Before(legacy));
      if mid.None? then None
      else
        var w := Unpack(b, mid.value.o, 4);
        if w.None? then None else DoAll(c0, Before(legacy) + After(DecI32(w.value)))
  }

  /** `parse_summary`: the calls in order, the layout's two data-dependent spots decided as it goes. */
  method ParseSummary(b: Data) returns (r: Option<Cur>)
    ensures r.Some? <==> SummaryCursor(b).Some?
    ensures r.Some? ==>
      && fresh(r.value) && r.value.b == b
      && SummaryCursor(b) == Some(CurState(b, r.value.o, r.value.tok))
  {
    var c := new Cur(b);
    ghost var c0 := CurState(b, 0, []);
    assert [] + HEAD == HEAD;
    var ok := c.Take(HEAD);
    if !ok { return None; }
    var legacy := c.tok[|c.tok| - 1].value.value;
    ok := c.Take(Middle(legacy));
    if !ok { return None; }
    var apc := Unpack(b, c.o, 4);
    if apc.None? { return None; }
    ok := c.Take(After(DecI32(apc.value)));
    if !ok { return None; }
    return Some(c);
  }

  // ----- the prefix parser -----

  /** Reads one item off the front of some bytes; counted arrays must not have a negative size. */
  function Read(it: Item, s: Data): (t: Option<Token>)
    ensures t.Some? ==> t.value.raw <= s
  {
    match it
    case Raw(n) => if n <= |s| then Some(RawToken(s[..n])) else None
    case I32(key) => if 4 <= |s| then Some(I32Token(key, s[..4])) else None
    case I64(key) => if 8 <= |s| then Some(I64Token(key, s[..8])) else None
    case FString =>
      if |s| < 4 then None
      else
        var n := 4 + StringBytes(DecI32(s));
        if n <= |s| then Some(RawToken(s[..n])) else None
    case Array(elem, key) =>
      if |s| < 4 then None
      else
        var n := 4 + ArrayBytes(DecI32(s), elem);
        if 4 <= n <= |s| then Some(ArrayToken(key, s[..n])) else None
  }

  function ReadAll(items: seq<Item>, s: Data): (toks: Option<seq<Token>>)
    ensures toks.Some? ==> |toks.value| == |items| && Join(toks.value) <= s
  {
    if items == [] then Some([])
    else
      var t := Read(items[0], s);
      if t.None? then None
      else
        var rest := ReadAll(items[1..], s[|t.value.raw|..]);
        if rest.None? then None
        else
          JoinIsPrefix(t.value, rest.value, s);
          Some([t.value] + rest.value)
  }

  lemma JoinIsPrefix(t: Token, rest: seq<Token>, s: Data)
    requires t.raw <= s && Join(rest) <= s[|t.raw|..]
    ensures Join([t] + rest) <= s
  {
    assert ([t] + rest)[1..] == rest;
    assert s == t.raw + s[|t.raw|..];
  }
}
