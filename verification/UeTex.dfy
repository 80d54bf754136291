/**
 * `load_template` and `cook` of tools/client_model/ue_tex.py: a new name map is spliced into a
 * package header, every absolute offset behind it is shifted, and the texture export is rebuilt
 * with back-patched absolute offsets.
 */
module UeTex {
  import opened Results
  import opened Bytes
  import opened FoundBytes
  import opened UePkg
  import opened UePkgProofs
  import opened UePkgTiling
  import opened Crc

  // ----- name map entries -----

  /** `ord(c.upper()) & 0xFF` for a Latin-1 character; the sharp s has no single upper case. */
  function UpperByte(c: char): nat
    requires c as int < 256
  {
    var n := c as int;
    if 'a' <= c <= 'z' || (0xE0 <= n <= 0xFE && n != 0xF7) then n - 32
    else if n == 0xFF then 0x78 else if n == 0xB5 then 0x9C else n
  }

  predicate Encodable(s: string) {
    forall i :: 0 <= i < |s| ==> (s[i] as int) < 256 && (s[i] as int) != 0xDF
  }

  const MSB_POLY: Word := BitsOf(0x04C11DB7, 32)

  function MsbSteps(c: Word, n: nat): Word {
    if n == 0 then c
    else
      var p := MsbSteps(c, n - 1);
      var shifted: Word := [false] + p[..31];
      if p[31] then Xor(shifted, MSB_POLY) else shifted
  }

  /** `noncase_hash16` before the final mask. */
  function NonCaseRegister(s: string): Word
    requires Encodable(s)
  {
    if s == [] then Zeros(32)
    else
      var h := NonCaseRegister(s[..|s| - 1]);
      var idx := Xor(h[..8], BitsOf(UpperByte(s[|s| - 1]), 8));
      Xor(Shr(h, 8), MsbSteps(Zeros(24) + idx, 8))
  }

  function Le16(h: Word): (b: Data)
    ensures |b| == 2
  {
    ValueFits(h[..8]);
    ValueFits(h[8..16]);
    assert Pow2(8) == 256;
    [Value(h[..8]), Value(h[8..16])]
  }

  /** The four hash bytes of a name. */
  function HashBytes(s: string): (b: Data)
    requires Encodable(s)
    ensures |b| == 4
  {
    Le16(NonCaseRegister(s)) + Le16(Crc32(Crc.StringBytes(s)))
  }

  function Latin1(s: string): (b: Data)
    requires Encodable(s)
    ensures |b| == |s|
  {
    seq(|s|, i requires 0 <= i < |s| => s[i] as int)
  }

  function FromLatin1(b: Data): (s: string)
    ensures |s| == |b|
  {
    seq(|b|, i requires 0 <= i < |b| => (b[i] as int) as char)
  }

  lemma Latin1RoundTrip(s: string)
    requires Encodable(s)
    ensures FromLatin1(Latin1(s)) == s
  {
  }

  /** Small enough for its length word. */
  predicate Storable(s: string) { Encodable(s) && InI32(|s| + 1) }

  /** `name_entry`. */
  function NameEntry(s: string): (b: Data)
    requires Storable(s)
    ensures |b| == |s| + 9
  {
    EncI32(|s| + 1) + Latin1(s) + [0] + HashBytes(s)
  }

  function NameBlob(names: seq<string>): Data
    requires forall i :: 0 <= i < |names| ==> Storable(names[i])
  {
    if names == [] then [] else NameEntry(names[0]) + NameBlob(names[1..])
  }

  datatype Name = Name(text: string, hashes: Data)

  /** Reads one stored name off the front: text, hashes, and how many bytes it took. */
  function ReadName(s: Data): Option<(Name, nat)> {
    if |s| < 4 then None
    else
      var ln := DecI32(s);
      if ln < 1 || 4 + ln + 4 > |s| then None
      else Some((Name(FromLatin1(s[4..4 + ln - 1]), s[4 + ln..4 + ln + 4]), 4 + ln + 4))
  }

  /** The name map loop: `n` names from the front, and the bytes they took. */
  function ReadNames(s: Data, n: nat): (r: Option<(seq<Name>, nat)>)
    ensures r.Some? ==> |r.value.0| == n && r.value.1 <= |s|
  {
    if n == 0 then Some(([], 0))
    else
      var x := ReadName(s);
      if x.None? then None
      else
        var more := ReadNames(s[x.value.1..], n - 1);
        if more.None? then None else Some(([x.value.0] + more.value.0, x.value.1 + more.value.1))
  }

  function Hashed(s: string): Name
    requires Encodable(s)
  {
    Name(s, HashBytes(s))
  }

  lemma ReadNameOf(w: Data, text: Data, hashes: Data, rest: Data)
    requires |w| == 4 && |hashes| == 4 && DecI32(w + (text + [0] + hashes + rest)) == |text| + 1
    ensures ReadName(w + (text + [0] + hashes + rest)) == Some((Name(FromLatin1(text), hashes), |text| + 9))
  {
    var b := w + (text + [0] + hashes + rest);
    assert b[4..4 + |text|] == text;
    assert b[4 + |text| + 1..4 + |text| + 5] == hashes;
  }

  lemma ReadNameEntry(s: string, rest: Data)
    requires Storable(s)
    ensures ReadName(NameEntry(s) + rest) == Some((Hashed(s), |s| + 9))
  {
    hide EncI32, DecI32, HashBytes, Latin1, FromLatin1;
    var w, text, hashes := EncI32(|s| + 1), Latin1(s), HashBytes(s);
    I32RoundTrip(|s| + 1, text + [0] + hashes + rest);
    ReadNameOf(w, text, hashes, rest);
    Latin1RoundTrip(s);
    assert NameEntry(s) + rest == w + (text + [0] + hashes + rest);
  }

  /** A written name map reads back as the same names with their own hashes. */
  lemma {:induction false} NameMapRoundTrip(names: seq<string>, rest: Data)
    requires forall i :: 0 <= i < |names| ==> Storable(names[i])
    ensures var r := ReadNames(NameBlob(names) + rest, |names|);
      && r.Some? && r.value.1 == |NameBlob(names)|
      && |r.value.0| == |names| && forall i :: 0 <= i < |names| ==> r.value.0[i] == Hashed(names[i])
  {
    hide NameEntry, ReadName, Hashed;
    if names != [] {
      var e, blob := NameEntry(names[0]), NameBlob(names[1..]);
      assert NameBlob(names) + rest == e + (blob + rest);
      ReadNameEntry(names[0], blob + rest);
      assert (e + (blob + rest))[|e|..] == blob + rest;
      NameMapRoundTrip(names[1..], rest);
    }
  }

  // ----- shifting the offsets -----

  /** The offsets that move with the header's tail. */
  predicate Moves(key: Key) {
    match key
    case TotalHeaderSize => true
    case ExportOffset => true
    case ImportOffset => true
    case DependsOffset => true
    case AssetRegistryDataOffset => true
    case PreloadDependencyOffset => true
    case GatherableOffset => true
    case SoftRefOffset => true
    case SearchableNamesOffset => true
    case ThumbnailTableOffset => true
    case WorldTileInfoDataOffset => true
    case _ => false
  }

  const BULK: Key := BulkDataStartOffset

  predicate IsShifted(t: Token) {
    t.key.Some? && Moves(t.key.value) && t.value.Some? && t.value.value > 0
  }

  predicate IsBulk(t: Token) { t.key == Some(BULK) }

  /** One pass of the loop over the tokens; `None` when the new number does not fit its field. */
  function Shift(t: Token, delta: int, bulk: int): Option<Token> {
    if IsShifted(t) then
      var v := t.value.value + delta;
      if InI32(v) then Some(t.(raw := EncI32(v), value := Some(v))) else None
    else if IsBulk(t) then
      if InI64(bulk) then Some(t.(raw := EncI64(bulk), value := Some(bulk))) else None
    else Some(t)
  }

  function ShiftAll(toks: seq<Token>, delta: int, bulk: int): (r: Option<seq<Token>>)
    ensures r.Some? ==>
      && |r.value| == |toks|
      && forall i :: 0 <= i < |toks| ==> Shift(toks[i], delta, bulk) == Some(r.value[i])
  {
    if toks == [] then Some([])
    else
      var rest := ShiftAll(toks[..|toks| - 1], delta, bulk);
      var t := Shift(toks[|toks| - 1], delta, bulk);
      if rest.None? || t.None? then None else Some(rest.value + [t.value])
  }

  /** The in-place rewrite of the token list. */
  method RewriteTokens(toks: seq<Token>, delta: int, bulk: int) returns (r: Option<seq<Token>>)
    ensures r == ShiftAll(toks, delta, bulk)
  {
    var us: seq<Token> := [];
    var i := 0;
    while i < |toks|
      invariant 0 <= i <= |toks| && ShiftAll(toks[..i], delta, bulk) == Some(us)
    {
      var t := Shift(toks[i], delta, bulk);
      assert toks[..i + 1][..i] == toks[..i];
      if t.None? {
        ShiftFails(toks, i + 1, delta, bulk);
        return None;
      }
      us := us + [t.value];
      i := i + 1;
    }
    assert toks[..|toks|] == toks;
    return Some(us);
  }

  lemma {:induction false} ShiftFails(toks: seq<Token>, n: nat, delta: int, bulk: int)
    requires n <= |toks| && ShiftAll(toks[..n], delta, bulk).None?
    ensures ShiftAll(toks, delta, bulk).None?
    decreases |toks|
  {
    if n == |toks| {
      assert toks[..n] == toks;
    } else {
      assert toks[..|toks| - 1][..n] == toks[..n];
      ShiftFails(toks[..|toks| - 1], n, delta, bulk);
    }
  }

  // ----- shifting is an edit -----

  /** Only 32-bit fields and the one 64-bit field carry values. */
  predicate Structured(t: Token) {
    && (t.value.Some? ==> t.key.Some? && (t.kind == Int32 || t.kind == Int64))
    && (t.value.Some? ==> (t.kind == Int64 <==> t.key == Some(BULK)))
    && (t.key == Some(BULK) ==> t.value.Some?)
  }

  predicate PlainItem(it: Item) {
    match it
    case I32(key) => key != BULK
    case I64(key) => key == BULK
    case Array(_, key) => key != BULK
    case _ => true
  }

  lemma PlainLayout(legacy: int, count: int, it: Item)
    requires it in Layout(legacy, count)
    ensures PlainItem(it)
  {
    if it in Strings(count) {
      JustStrings(count, it);
    } else {
      assert it in HEAD || it in Middle(legacy) || it in [COUNT] || it in TAIL;
    }
  }

  lemma ReadIsStructured(it: Item, s: Data)
    requires PlainItem(it) && Read(it, s).Some?
    ensures Structured(Read(it, s).value)
  {
  }

  lemma {:induction false} ReadAllIsStructured(items: seq<Item>, s: Data, toks: seq<Token>, i: nat)
    requires ReadAll(items, s) == Some(toks) && i < |toks|
    requires forall it :: it in items ==> PlainItem(it)
    ensures Structured(toks[i])
    decreases |items|
  {
    var t, rest := ReadSplit(items, s);
    assert items[0] in items;
    ReadIsStructured(items[0], s);
    if i > 0 {
      forall it | it in items[1..] ensures PlainItem(it) { assert it in items; }
      ReadAllIsStructured(items[1..], s[|t.raw|..], rest, i - 1);
    }
  }

  lemma SummaryIsStructured(b: Data, toks: seq<Token>, i: nat)
    requires Summary(b) == Some(toks) && i < |toks|
    ensures Structured(toks[i])
  {
    SummaryParses(b, toks);
    var count :| Parses(b, toks, LegacyOf(toks), count);
    forall it | it in Layout(LegacyOf(toks), count) ensures PlainItem(it) {
      PlainLayout(LegacyOf(toks), count, it);
    }
    ReadAllIsStructured(Layout(LegacyOf(toks), count), b, toks, i);
  }

  lemma ShiftIsEdit(t: Token, delta: int, bulk: int)
    requires Structured(t) && Shift(t, delta, bulk).Some?
    ensures Edited(t, Shift(t, delta, bulk).value)
    ensures |Shift(t, delta, bulk).value.raw| == if IsShifted(t) then 4 else if IsBulk(t) then 8 else |t.raw|
  {
    if IsShifted(t) {
      var v := t.value.value + delta;
      I32RoundTrip(v, []);
      assert EncI32(v) + [] == EncI32(v);
    } else if IsBulk(t) {
      I64RoundTrip(bulk, []);
      assert EncI64(bulk) + [] == EncI64(bulk);
    }
  }

  /** Relocating the tokens and parsing the new header gives exactly the relocated tokens. */
  lemma ShiftedHeaderParses(b: Data, toks: seq<Token>, us: seq<Token>, delta: int, bulk: int, rest: Data)
    requires Parsed(b, toks) && ShiftAll(toks, delta, bulk) == Some(us)
    ensures Parsed(Join(us) + rest, us)
  {
    hide Summary, Parsed, Moves, ShiftAll;
    ParsersAgree(b, toks);
    forall i | 0 <= i < |toks| ensures Edited(toks[i], us[i]) {
      SummaryIsStructured(b, toks, i);
      ShiftIsEdit(toks[i], delta, bulk);
    }
    SecondIsLegacy(b, toks);
    EditCommutesWithParse(b, toks, us, rest);
  }

  lemma SecondIsLegacy(b: Data, toks: seq<Token>)
    requires Summary(b) == Some(toks)
    ensures |toks| > 1 && toks[1].key == Some(Legacy) && !IsShifted(toks[1]) && !IsBulk(toks[1])
  {
    SummaryParses(b, toks);
    var count :| Parses(b, toks, LegacyOf(toks), count);
    HeadOfLayout(b, LegacyOf(toks), count, toks);
    var x, rest := ReadSplit(HEAD, b);
    var y, none := ReadSplit(HEAD[1..], b[|x.raw|..]);
    assert toks[..2] == [x] + rest && rest == [y] + none;
    assert toks[1] == toks[..2][1] == y;
  }

  /** The bytes of an i32 token are four and of an i64 token eight, so relocation keeps lengths. */
  predicate RawSized(t: Token) {
    (t.kind == Int32 && t.value.Some? ==> |t.raw| == 4) && (t.kind == Int64 && t.value.Some? ==> |t.raw| == 8)
  }

  lemma {:induction false} ReadAllIsSized(items: seq<Item>, s: Data, toks: seq<Token>, i: nat)
    requires ReadAll(items, s) == Some(toks) && i < |toks|
    ensures RawSized(toks[i])
    decreases |items|
  {
    var t, rest := ReadSplit(items, s);
    if i > 0 { ReadAllIsSized(items[1..], s[|t.raw|..], rest, i - 1); }
  }

  lemma {:induction false} SameSizes(toks: seq<Token>, us: seq<Token>)
    requires |us| == |toks| && forall i :: 0 <= i < |toks| ==> |us[i].raw| == |toks[i].raw|
    ensures |Join(us)| == |Join(toks)|
  {
    if toks != [] {
      forall i | 0 <= i < |toks| - 1 ensures |us[1..][i].raw| == |toks[1..][i].raw| {
        assert |us[i + 1].raw| == |toks[i + 1].raw|;
      }
      SameSizes(toks[1..], us[1..]);
    }
  }

  lemma ShiftKeepsLength(b: Data, toks: seq<Token>, us: seq<Token>, delta: int, bulk: int)
    requires Summary(b) == Some(toks) && ShiftAll(toks, delta, bulk) == Some(us)
    ensures |Join(us)| == |Join(toks)|
  {
    SummaryParses(b, toks);
    var count :| Parses(b, toks, LegacyOf(toks), count);
    forall i | 0 <= i < |toks| ensures |us[i].raw| == |toks[i].raw| {
      SummaryIsStructured(b, toks, i);
      ReadAllIsSized(Layout(LegacyOf(toks), count), b, toks, i);
      ShiftIsEdit(toks[i], delta, bulk);
    }
    SameSizes(toks, us);
  }

  // ----- looking fields up by name -----

  /** `kv[key]`: the last token of that name that has a value. */
  function Lookup(toks: seq<Token>, key: Key): Option<int> {
    if toks == [] then None
    else
      var t := toks[|toks| - 1];
      if t.key == Some(key) && t.value.Some? then t.value else Lookup(toks[..|toks| - 1], key)
  }

  /** What one pass does to the value a token gives its name. */
  function ValueFor(t: Token, key: Key): Option<int> {
    if t.key == Some(key) then t.value else None
  }

  function Moved(v: Option<int>, key: Key, delta: int): Option<int> {
    if Moves(key) && v.Some? && v.value > 0 then Some(v.value + delta) else v
  }

  lemma ShiftedValue(t: Token, u: Token, delta: int, bulk: int, key: Key)
    requires Shift(t, delta, bulk) == Some(u) && key != BULK
    ensures ValueFor(u, key) == Moved(ValueFor(t, key), key, delta)
  {
    hide Moves, EncI32, EncI64;
  }

  lemma LookupStep(toks: seq<Token>, key: Key)
    requires toks != []
    ensures var v := ValueFor(toks[|toks| - 1], key);
      Lookup(toks, key) == if v.Some? then v else Lookup(toks[..|toks| - 1], key)
  {
  }

  lemma {:induction false} LookupShifted(toks: seq<Token>, us: seq<Token>, delta: int, bulk: int, key: Key)
    requires ShiftAll(toks, delta, bulk) == Some(us) && key != BULK
    ensures Lookup(us, key) == Moved(Lookup(toks, key), key, delta)
  {
    hide Shift, ValueFor, Moves;
    if toks != [] {
      LookupShifted(toks[..|toks| - 1], us[..|us| - 1], delta, bulk, key);
      ShiftedValue(toks[|toks| - 1], us[|us| - 1], delta, bulk, key);
      LookupStep(toks, key);
      LookupStep(us, key);
    }
  }

  /** The bulk data start is recomputed, never shifted. */
  lemma {:induction false} BulkRecomputed(toks: seq<Token>, us: seq<Token>, delta: int, bulk: int)
    requires ShiftAll(toks, delta, bulk) == Some(us)
    ensures Lookup(us, BULK).Some? ==> Lookup(us, BULK) == Some(bulk)
    ensures (exists t :: t in toks && IsBulk(t)) ==> Lookup(us, BULK).Some?
  {
    if toks != [] {
      var t := toks[|toks| - 1];
      ShiftSetsBulk(t, delta, bulk);
      hide Shift;
      BulkRecomputed(toks[..|toks| - 1], us[..|us| - 1], delta, bulk);
    }
  }

  lemma ShiftSetsBulk(t: Token, delta: int, bulk: int)
    requires Shift(t, delta, bulk).Some?
    ensures var u := Shift(t, delta, bulk).value;
      u.key == t.key && (IsBulk(t) ==> u.value == Some(bulk))
  {
  }

  lemma {:induction false} ReadAllKey(items: seq<Item>, s: Data, toks: seq<Token>, i: nat)
    requires ReadAll(items, s) == Some(toks) && i < |items| && items[i].I64?
    ensures i < |toks| && toks[i].key == Some(items[i].key)
    decreases |items|
  {
    var t, rest := ReadSplit(items, s);
    if i > 0 { ReadAllKey(items[1..], s[|t.raw|..], rest, i - 1); }
  }

  lemma BulkInLayout(legacy: int, count: int)
    ensures var items := Layout(legacy, count); |items| >= 5 && items[|items| - 5] == I64(BULK)
  {
    var items := Layout(legacy, count);
    assert items[|items| - 5] == TAIL[1];
  }

  /** Every summary has a bulk data start. */
  lemma SummaryHasBulk(b: Data, toks: seq<Token>)
    requires Summary(b) == Some(toks)
    ensures exists t :: t in toks && IsBulk(t)
  {
    hide Summary, LegacyOf, Layout, ReadAll;
    SummaryParses(b, toks);
    var count :| Parses(b, toks, LegacyOf(toks), count);
    var items := Layout(LegacyOf(toks), count);
    BulkInLayout(LegacyOf(toks), count);
    ReadAllKey(items, b, toks, |items| - 5);
    assert toks[|items| - 5] in toks && IsBulk(toks[|items| - 5]);
  }

  // ----- the new header -----

  /** What `cook` knows about the template header. */
  datatype Plan = Plan(toks: seq<Token>, nameOffset: nat, nameCount: nat, nmEnd: nat, ths: nat, exportOffset: nat)

  /**
   * The template header is laid out in order: the summary, the name map, then the export table
   * (with at least one whole entry) before the header's end.
   */
  predicate InOrder(ua: Data, p: Plan) {
    |Join(p.toks)| <= p.nameOffset <= p.nmEnd <= p.exportOffset && p.exportOffset + 44 <= p.ths <= |ua|
  }

  /** The plan is what loading the template finds. */
  ghost predicate Loaded(ua: Data, p: Plan) {
    && Parsed(ua, p.toks)
    && Lookup(p.toks, NameOffset) == Some(p.nameOffset) && Lookup(p.toks, NameCount) == Some(p.nameCount)
    && Lookup(p.toks, TotalHeaderSize) == Some(p.ths) && Lookup(p.toks, ExportOffset) == Some(p.exportOffset)
    && p.nameOffset <= |ua|
    && var r := ReadNames(ua[p.nameOffset..], p.nameCount);
       r.Some? && p.nameOffset + r.value.1 == p.nmEnd
  }

  /** The part behind the name map with the export's size and offset overwritten. */
  function NewRest(rest: Data, at: nat, size: int, offset: int): (r: Data)
    requires at + 44 <= |rest| && InI64(size) && InI64(offset)
    ensures |r| == |rest|
    ensures forall i :: 0 <= i < |r| && !(at + 28 <= i < at + 44) ==> r[i] == rest[i]
    ensures r[at + 28..at + 36] == EncI64(size) && r[at + 36..at + 44] == EncI64(offset)
  {
    var one := Patch(rest, at + 28, EncI64(size));
    var two := Patch(one, at + 36, EncI64(offset));
    assert two[at + 28..at + 36] == one[at + 28..at + 36];
    two
  }

  function NewHeader(ua: Data, p: Plan, us: seq<Token>, blob: Data, size: int, newThs: int): Data
    requires InOrder(ua, p) && InI64(size) && InI64(newThs)
  {
    Join(us) + ua[|Join(p.toks)|..p.nameOffset] + blob
      + NewRest(ua[p.nmEnd..p.ths], p.exportOffset - p.nmEnd, size, newThs)
  }

  /** How much longer the new name map is. */
  function Delta(p: Plan, blob: Data): int { |blob| - (p.nmEnd - p.nameOffset) }

  /** A header put together from relocated tokens of the same total length. */
  ghost predicate Rebuilt(ua: Data, p: Plan, us: seq<Token>, blob: Data, size: int, h: Data) {
    && InOrder(ua, p) && InI64(size) && InI64(p.ths + Delta(p, blob))
    && |Join(us)| == |Join(p.toks)|
    && h == NewHeader(ua, p, us, blob, size, p.ths + Delta(p, blob))
  }

  /** The header in three parts: the summary up to the name map, the new map, the moved rest. */
  lemma Parts(ua: Data, p: Plan, us: seq<Token>, blob: Data, size: int, h: Data) returns (head: Data, tail: Data)
    requires Rebuilt(ua, p, us, blob, size, h)
    ensures h == head + blob + tail && |head| == p.nameOffset && |tail| == p.ths - p.nmEnd
    ensures tail == NewRest(ua[p.nmEnd..p.ths], p.exportOffset - p.nmEnd, size, p.ths + Delta(p, blob))
    ensures head == Join(us) + ua[|Join(p.toks)|..p.nameOffset]
  {
    head := Join(us) + ua[|Join(p.toks)|..p.nameOffset];
    tail := NewRest(ua[p.nmEnd..p.ths], p.exportOffset - p.nmEnd, size, p.ths + Delta(p, blob));
  }

  /** The new header is exactly as long as its own total size field says. */
  lemma HeaderLength(ua: Data, p: Plan, us: seq<Token>, blob: Data, size: int, bulk: int, h: Data)
    requires Rebuilt(ua, p, us, blob, size, h) && ShiftAll(p.toks, Delta(p, blob), bulk) == Some(us)
    requires Lookup(p.toks, TotalHeaderSize) == Some(p.ths)
    ensures |h| == p.ths + Delta(p, blob)
    ensures Lookup(us, TotalHeaderSize) == Some(|h|)
  {
    hide ShiftAll, Lookup, NewRest;
    var head, tail := Parts(ua, p, us, blob, size, h);
    LookupShifted(p.toks, us, Delta(p, blob), bulk, TotalHeaderSize);
  }

  lemma ThirdPart(a: Data, b: Data, c: Data, k: nat)
    requires k < |c|
    ensures (a + b + c)[|a| + |b| + k] == c[k]
  {
  }

  lemma RestKept(ua: Data, p: Plan, size: int, newThs: int, i: nat)
    requires p.nmEnd <= p.exportOffset && p.exportOffset + 44 <= p.ths <= |ua| && InI64(size) && InI64(newThs)
    requires p.nmEnd <= i < p.ths && !(p.exportOffset + 28 <= i < p.exportOffset + 44)
    ensures NewRest(ua[p.nmEnd..p.ths], p.exportOffset - p.nmEnd, size, newThs)[i - p.nmEnd] == ua[i]
  {
  }

  lemma MoveInParts(ua: Data, p: Plan, head: Data, blob: Data, tail: Data, size: int, newThs: int, i: nat)
    requires p.nmEnd <= p.exportOffset && p.exportOffset + 44 <= p.ths <= |ua| && InI64(size) && InI64(newThs)
    requires |head| == p.nameOffset && tail == NewRest(ua[p.nmEnd..p.ths], p.exportOffset - p.nmEnd, size, newThs)
    requires p.nmEnd <= i < p.ths && !(p.exportOffset + 28 <= i < p.exportOffset + 44)
    ensures 0 <= i + Delta(p, blob) < |head + blob + tail|
    ensures (head + blob + tail)[i + Delta(p, blob)] == ua[i]
  {
    hide NewRest;
    ThirdPart(head, blob, tail, i - p.nmEnd);
    RestKept(ua, p, size, newThs, i);
  }

  /** Every byte behind the name map has moved by the same distance, but for the patched sixteen. */
  lemma BytesMoveByDelta(ua: Data, p: Plan, us: seq<Token>, blob: Data, size: int, h: Data, i: nat)
    requires Rebuilt(ua, p, us, blob, size, h)
    requires p.nmEnd <= i < p.ths && !(p.exportOffset + 28 <= i < p.exportOffset + 44)
    ensures 0 <= i + Delta(p, blob) < |h| && h[i + Delta(p, blob)] == ua[i]
  {
    var head, tail := Parts(ua, p, us, blob, size, h);
    MoveInParts(ua, p, head, blob, tail, size, p.ths + Delta(p, blob), i);
  }

  lemma Assoc4(a: Data, b: Data, c: Data, d: Data)
    ensures a + b + c + d == a + (b + c + d)
  {
  }

  /** The new header parses to the relocated tokens. */
  lemma NewHeaderParses(ua: Data, p: Plan, us: seq<Token>, blob: Data, size: int, bulk: int, h: Data)
    requires Rebuilt(ua, p, us, blob, size, h) && ShiftAll(p.toks, Delta(p, blob), bulk) == Some(us)
    requires Parsed(ua, p.toks)
    ensures Parsed(h, us)
  {
    var head, tail := Parts(ua, p, us, blob, size, h);
    var mid := ua[|Join(p.toks)|..p.nameOffset];
    Assoc4(Join(us), mid, blob, tail);
    ShiftedHeaderParses(ua, p.toks, us, Delta(p, blob), bulk, mid + blob + tail);
  }

  lemma OffsetMoves(p: Plan, us: seq<Token>, blob: Data, bulk: int, key: Key, v: nat)
    requires ShiftAll(p.toks, Delta(p, blob), bulk) == Some(us)
    requires Moves(key) && Lookup(p.toks, key) == Some(v) && 0 < v
    ensures Lookup(us, key) == Some(v + Delta(p, blob))
  {
    LookupShifted(p.toks, us, Delta(p, blob), bulk, key);
  }

  /**
   * Relocation: a shifted offset that pointed past the old name map now reads `delta` more and
   * addresses the same bytes as before, up to the sixteen patched ones.
   */
  lemma OffsetsStillAddress(ua: Data, p: Plan, us: seq<Token>, blob: Data, size: int, bulk: int, h: Data,
                            key: Key, v: nat, i: nat)
    requires Rebuilt(ua, p, us, blob, size, h) && ShiftAll(p.toks, Delta(p, blob), bulk) == Some(us)
    requires Moves(key) && Lookup(p.toks, key) == Some(v) && 0 < v && p.nmEnd <= v
    requires v + i < p.ths && !(p.exportOffset + 28 <= v + i < p.exportOffset + 44)
    ensures var w := Lookup(us, key); w.Some? && 0 <= w.value && w.value + i < |h| && h[w.value + i] == ua[v + i]
  {
    hide ShiftAll, Lookup, Rebuilt;
    OffsetMoves(p, us, blob, bulk, key, v);
    var w := Lookup(us, key).value;
    assert w + i == v + i + Delta(p, blob) && 0 <= w;
    BytesMoveByDelta(ua, p, us, blob, size, h, v + i);
  }

  /** Where a byte of the old header outside its name map is found in the new one. */
  function NewPlace(p: Plan, blob: Data, i: int): int { if i < p.nmEnd then i else i + Delta(p, blob) }

  /** Bytes before the name map stay, bytes behind it move, but for the sixteen patched ones. */
  lemma BytesAtNewPlace(ua: Data, p: Plan, us: seq<Token>, blob: Data, size: int, h: Data, i: nat)
    requires Rebuilt(ua, p, us, blob, size, h)
    requires |Join(p.toks)| <= i < p.nameOffset || p.nmEnd <= i < p.ths
    requires !(p.exportOffset + 28 <= i < p.exportOffset + 44)
    ensures 0 <= NewPlace(p, blob, i) < |h| && h[NewPlace(p, blob, i)] == ua[i]
  {
    if p.nmEnd <= i {
      BytesMoveByDelta(ua, p, us, blob, size, h, i);
    } else {
      hide NewRest, Join;
      var head, tail := Parts(ua, p, us, blob, size, h);
      assert h[i] == head[i];
    }
  }

  /**
   * Exactly when a shifted offset is right: one that led to a byte outside the old name map leads to
   * where that byte now is if and only if it pointed behind the map or the map kept its length.
   */
  lemma OffsetRightIff(p: Plan, us: seq<Token>, blob: Data, bulk: int, key: Key, v: nat)
    requires ShiftAll(p.toks, Delta(p, blob), bulk) == Some(us)
    requires Moves(key) && Lookup(p.toks, key) == Some(v) && 0 < v
    ensures Lookup(us, key) == Some(NewPlace(p, blob, v)) <==> p.nmEnd <= v || Delta(p, blob) == 0
  {
    hide ShiftAll, Lookup, Moves;
    OffsetMoves(p, us, blob, bulk, key, v);
  }

  /** An offset that was absent (zero) stays so, and fields that are not offsets keep their values. */
  lemma OtherFieldsKept(p: Plan, us: seq<Token>, blob: Data, bulk: int, key: Key)
    requires ShiftAll(p.toks, Delta(p, blob), bulk) == Some(us) && key != BULK
    requires Moves(key) ==> Lookup(p.toks, key).None? || Lookup(p.toks, key).value <= 0
    ensures Lookup(us, key) == Lookup(p.toks, key)
  {
    LookupShifted(p.toks, us, Delta(p, blob), bulk, key);
  }

  lemma DropHead(head: Data, blob: Data, tail: Data)
    ensures (head + blob + tail)[|head|..] == blob + tail
  {
  }

  /** At the (unshifted) name offset the new map reads back as the new names with their own hashes. */
  lemma NewNamesReadBack(ua: Data, p: Plan, us: seq<Token>, names: seq<string>, size: int, h: Data)
    requires forall i :: 0 <= i < |names| ==> Storable(names[i])
    requires Rebuilt(ua, p, us, NameBlob(names), size, h)
    ensures p.nameOffset <= |h|
    ensures var r := ReadNames(h[p.nameOffset..], |names|);
      && r.Some? && r.value.1 == |NameBlob(names)|
      && forall i :: 0 <= i < |names| ==> r.value.0[i] == Hashed(names[i])
  {
    var head, tail := Parts(ua, p, us, NameBlob(names), size, h);
    DropHead(head, NameBlob(names), tail);
    NameMapRoundTrip(names, tail);
  }

  /** At its new place the export entry holds the new size and the new header's end. */
  lemma ExportEntryPatched(ua: Data, p: Plan, us: seq<Token>, blob: Data, size: int, h: Data)
    requires Rebuilt(ua, p, us, blob, size, h)
    ensures var at := p.exportOffset + Delta(p, blob);
      && 0 <= at && at + 44 <= |h| == p.ths + Delta(p, blob)
      && h[at + 28..at + 36] == EncI64(size) && h[at + 36..at + 44] == EncI64(|h|)
  {
    hide EncI64, Patch;
    var head, tail := Parts(ua, p, us, blob, size, h);
    var e, f := p.exportOffset - p.nmEnd, |head + blob|;
    assert h[f + e + 28..f + e + 36] == tail[e + 28..e + 36];
    assert h[f + e + 36..f + e + 44] == tail[e + 36..e + 44];
  }

  lemma I64At(b: Data, at: nat, v: int)
    requires InI64(v) && at + 8 <= |b| && b[at..at + 8] == EncI64(v)
    ensures DecI64(b[at..]) == v
  {
    assert b[at..] == EncI64(v) + b[at + 8..];
    I64RoundTrip(v, b[at + 8..]);
  }

  /** The relocated export offset finds the export entry with its new size and offset. */
  lemma ExportEntryReads(ua: Data, p: Plan, us: seq<Token>, blob: Data, size: int, bulk: int, h: Data)
    requires Rebuilt(ua, p, us, blob, size, h) && ShiftAll(p.toks, Delta(p, blob), bulk) == Some(us)
    requires Lookup(p.toks, ExportOffset) == Some(p.exportOffset) && 0 < p.exportOffset
    ensures var exp := Lookup(us, ExportOffset);
      && exp.Some? && 0 <= exp.value && exp.value + 44 <= |h|
      && DecI64(h[exp.value + 28..]) == size && DecI64(h[exp.value + 36..]) == |h|
  {
    hide ShiftAll, Lookup, EncI64, DecI64, NewHeader;
    ExportEntryPatched(ua, p, us, blob, size, h);
    OffsetMoves(p, us, blob, bulk, ExportOffset, p.exportOffset);
    var at := p.exportOffset + Delta(p, blob);
    I64At(h, at + 28, size);
    I64At(h, at + 36, |h|);
  }

  // ----- the new export -----

  const NEW_PF := "PF_B8G8R8A8"

  lemma NewPfEncodes()
    ensures Encodable(NEW_PF) && |Latin1(NEW_PF)| == 11
  {
  }

  /** The pixel format's string as stored: bytes and a terminator. */
  function PfBytes(): (b: Data)
    ensures |b| == 12
  {
    NewPfEncodes();
    Latin1(NEW_PF) + [0]
  }

  /** The native tail before the skip offset: guid flag, strip flags, cooked flag, format name. */
  function BeforeSkip(): (b: Data)
    ensures |b| == 20
  {
    EncI32(0) + [1, 0, 1, 0] + EncI32(1) + EncI32(13) + EncI32(0)
  }

  /** From the skip offset to the mip's file offset. */
  function BeforeOffset(w: int, h: int, n: int): (b: Data)
    requires InI32(w) && InI32(h) && InI32(n)
    ensures |b| == 52
  {
    EncI32(w) + EncI32(h) + EncU32(1) + EncI32(12) + PfBytes() + EncI32(0) + EncI32(1)
      + EncU32(1) + EncU32(0x48) + EncI32(n) + EncI32(n)
  }

  /** From the pixels to the terminator. */
  function AfterPixels(w: int, h: int): (b: Data)
    requires InI32(w) && InI32(h)
    ensures |b| == 16
  {
    EncI32(w) + EncI32(h) + EncI32(1) + EncI32(0)
  }

  const PROPS: nat := 171
  const PAYLOAD: nat := 171 + 20 + 8 + 52 + 8

  /** The terminating 'None' name: index 11, number 0. */
  function NoneName(): (b: Data)
    ensures |b| == 8
  {
    EncI32(11) + EncI32(0)
  }

  function NewProps(uexp: Data, w: int, h: int): (b: Data)
    requires |uexp| >= PROPS && InI32(w) && InI32(h)
    ensures |b| == PROPS
  {
    Patch(uexp[..PROPS], 49, EncI32(w) + EncI32(h))
  }

  /** The rebuilt export as `cook` means it, with absolute offsets for a header of `ths` bytes. */
  function NewUexp(uexp: Data, w: int, h: int, pixels: Data, ths: int): Data
    requires |uexp| >= PROPS && InI32(w) && InI32(h) && InI32(|pixels|)
    requires InI64(ths + PAYLOAD) && InI64(ths + PAYLOAD + |pixels| + 16)
  {
    NewProps(uexp, w, h) + BeforeSkip() + EncI64(ths + PAYLOAD + |pixels| + 16)
      + BeforeOffset(w, h, |pixels|) + EncI64(ths + PAYLOAD)
      + pixels + AfterPixels(w, h) + NoneName() + uexp[|uexp| - 4..]
  }

  lemma PatchMiddle(a: Data, x: Data, b: Data, y: Data)
    requires |x| == |y|
    ensures |a| + |y| <= |a + x + b|
    ensures Patch(a + x + b, |a|, y) == a + y + b
  {
    var p := Patch(a + x + b, |a|, y);
    assert (a + x + b)[..|a|] == a && (a + x + b)[|a| + |y|..] == b;
  }

  lemma Regroup(props: Data, front: Data, z: Data, mid: Data, pixels: Data, end: Data, none: Data, tag: Data)
    ensures props + (front + z + mid + z + pixels + end + none + tag)
         == (props + front) + z + (mid + z + (pixels + end + none + tag))
  {
  }

  lemma Ungroup(head: Data, pixels: Data, end: Data, none: Data, tag: Data)
    ensures head + (pixels + end + none + tag) == head + pixels + end + none + tag
  {
  }

  lemma Middle3(a: Data, x: Data, mid: Data, z: Data, rest: Data)
    ensures a + x + (mid + z + rest) == (a + x + mid) + z + rest
  {
  }

  lemma FirstPatched(r: Data, head: Data, z: Data, mid: Data, rest: Data, x: Data)
    requires r == head + z + (mid + z + rest) && |x| == |z|
    ensures |head| + |x| <= |r| && Patch(r, |head|, x) == (head + x + mid) + z + rest
  {
    hide Patch;
    PatchMiddle(head, z, mid + z + rest, x);
    Middle3(head, x, mid, z, rest);
  }

  /** Filling two placeholders of a chain in place is the chain with the values in their stead. */
  lemma BackPatched(props: Data, front: Data, z: Data, mid: Data, pixels: Data, end: Data, none: Data, tag: Data,
                    x: Data, y: Data, r: Data)
    requires |x| == |z| == |y| && r == props + (front + z + mid + z + pixels + end + none + tag)
    ensures Patch(Patch(r, |props| + |front|, x), |props| + |front| + |z| + |mid|, y)
      == props + front + x + mid + y + pixels + end + none + tag
  {
    hide Patch;
    var rest := pixels + end + none + tag;
    var upTo := props + front + x + mid;
    Regroup(props, front, z, mid, pixels, end, none, tag);
    FirstPatched(r, props + front, z, mid, rest, x);
    PatchMiddle(upTo, z, rest, y);
    Ungroup(upTo + y, pixels, end, none, tag);
  }

  /** Building the export with placeholders and patching the two absolute offsets in afterwards. */
  method BuildUexp(uexp: Data, w: int, h: int, pixels: Data, ths: int) returns (r: Data)
    requires |uexp| >= PROPS && InI32(w) && InI32(h) && InI32(|pixels|)
    requires InI64(ths + PAYLOAD) && InI64(ths + PAYLOAD + |pixels| + 16)
    ensures r == NewUexp(uexp, w, h, pixels, ths)
  {
    hide BeforeSkip, BeforeOffset, AfterPixels, NoneName, EncI64, Patch;
    var props := NewProps(uexp, w, h);
    var tail := BeforeSkip();
    var skipPos := |props| + |tail|;
    tail := tail + EncI64(0);
    tail := tail + BeforeOffset(w, h, |pixels|);
    var offPos := |props| + |tail|;
    tail := tail + EncI64(0);
    var payloadPos := |props| + |tail|;
    tail := tail + pixels;
    tail := tail + AfterPixels(w, h);
    var nonePos := |props| + |tail|;
    tail := tail + NoneName();
    tail := tail + uexp[|uexp| - 4..];
    r := props + tail;
    BackPatched(props, BeforeSkip(), EncI64(0), BeforeOffset(w, h, |pixels|), pixels, AfterPixels(w, h), NoneName(),
                uexp[|uexp| - 4..], EncI64(ths + nonePos), EncI64(ths + payloadPos), r);
    r := Patch(r, skipPos, EncI64(ths + nonePos));
    r := Patch(r, offPos, EncI64(ths + payloadPos));
  }

  lemma Within(a: Data, x: Data, b: Data)
    ensures (a + x + b)[|a|..|a| + |x|] == x
  {
  }

  lemma BehindHeader(header: Data, body: Data, at: nat, n: nat)
    requires at + n <= |body|
    ensures (header + body)[|header| + at..|header| + at + n] == body[at..at + n]
  {
  }

  lemma From(a: Data, x: Data, b: Data)
    ensures (a + x + b)[|a|..] == x + b
  {
  }

  /** `NewUexp` around the skip offset. */
  lemma AroundSkip(uexp: Data, w: int, h: int, pixels: Data, ths: int) returns (front: Data, rest: Data)
    requires |uexp| >= PROPS && InI32(w) && InI32(h) && InI32(|pixels|)
    requires InI64(ths + PAYLOAD) && InI64(ths + PAYLOAD + |pixels| + 16)
    ensures |front| == 191
    ensures NewUexp(uexp, w, h, pixels, ths) == front + EncI64(ths + PAYLOAD + |pixels| + 16) + rest
  {
    front := NewProps(uexp, w, h) + BeforeSkip();
    rest := BeforeOffset(w, h, |pixels|) + EncI64(ths + PAYLOAD)
      + pixels + AfterPixels(w, h) + NoneName() + uexp[|uexp| - 4..];
    assert NewUexp(uexp, w, h, pixels, ths) == front + EncI64(ths + PAYLOAD + |pixels| + 16) + rest;
  }

  /** `NewUexp` around the payload offset, the pixels and the terminator. */
  lemma AroundOffset(uexp: Data, w: int, h: int, pixels: Data, ths: int)
    returns (front: Data, end: Data, tag: Data)
    requires |uexp| >= PROPS && InI32(w) && InI32(h) && InI32(|pixels|)
    requires InI64(ths + PAYLOAD) && InI64(ths + PAYLOAD + |pixels| + 16)
    ensures |front| == 251 && |end| == 16 && tag == uexp[|uexp| - 4..]
    ensures NewUexp(uexp, w, h, pixels, ths) == front + EncI64(ths + PAYLOAD) + pixels + end + NoneName() + tag
  {
    front := NewProps(uexp, w, h) + BeforeSkip() + EncI64(ths + PAYLOAD + |pixels| + 16)
      + BeforeOffset(w, h, |pixels|);
    end := AfterPixels(w, h);
    tag := uexp[|uexp| - 4..];
  }

  /** A chain of six parts, seen from its second, third, fifth and last part. */
  lemma SixParts(a: Data, b: Data, c: Data, d: Data, e: Data, f: Data)
    ensures a + b + c + d + e + f == a + b + (c + d + e + f)
    ensures a + b + c + d + e + f == (a + b) + c + (d + e + f)
    ensures a + b + c + d + e + f == (a + b + c + d) + e + f
  {
  }

  lemma SkipReadsBack(uexp: Data, w: int, h: int, pixels: Data, ths: int)
    requires |uexp| >= PROPS && InI32(w) && InI32(h) && InI32(|pixels|)
    requires InI64(ths + PAYLOAD) && InI64(ths + PAYLOAD + |pixels| + 16)
    ensures var body := NewUexp(uexp, w, h, pixels, ths);
      |body| >= 199 && DecI64(body[191..]) == ths + PAYLOAD + |pixels| + 16
  {
    var front, rest := AroundSkip(uexp, w, h, pixels, ths);
    var n := ths + PAYLOAD + |pixels| + 16;
    From(front, EncI64(n), rest);
    I64RoundTrip(n, rest);
  }

  lemma InBody(front: Data, off: Data, pixels: Data, end: Data, none: Data, tag: Data, body: Data)
    requires body == front + off + pixels + end + none + tag
    requires |front| == 251 && |off| == 8 && |end| == 16 && |none| == 8 && |tag| == 4
    ensures |body| == PAYLOAD + |pixels| + 28
    ensures body[251..] == off + (pixels + end + none + tag)
    ensures body[PAYLOAD..PAYLOAD + |pixels|] == pixels
    ensures body[PAYLOAD + |pixels| + 16..PAYLOAD + |pixels| + 24] == none
    ensures body[|body| - 4..] == tag
  {
    SixParts(front, off, pixels, end, none, tag);
    From(front, off, pixels + end + none + tag);
    Within(front + off, pixels, end + none + tag);
    Within(front + off + pixels + end, none, tag);
  }

  /** Where things are in the rebuilt export, and what its payload offset reads as. */
  lemma PayloadReadsBack(uexp: Data, w: int, h: int, pixels: Data, ths: int)
    requires |uexp| >= PROPS && InI32(w) && InI32(h) && InI32(|pixels|)
    requires InI64(ths + PAYLOAD) && InI64(ths + PAYLOAD + |pixels| + 16)
    ensures var body := NewUexp(uexp, w, h, pixels, ths);
      && |body| == PAYLOAD + |pixels| + 28
      && DecI64(body[251..]) == ths + PAYLOAD
      && body[PAYLOAD..PAYLOAD + |pixels|] == pixels
      && body[PAYLOAD + |pixels| + 16..PAYLOAD + |pixels| + 24] == NoneName()
      && body[|body| - 4..] == uexp[|uexp| - 4..]
  {
    var front, end, tag := AroundOffset(uexp, w, h, pixels, ths);
    InBody(front, EncI64(ths + PAYLOAD), pixels, end, NoneName(), tag, NewUexp(uexp, w, h, pixels, ths));
    I64RoundTrip(ths + PAYLOAD, pixels + end + NoneName() + tag);
  }

  lemma UexpLength(uexp: Data, w: int, h: int, pixels: Data, ths: int)
    requires |uexp| >= PROPS && InI32(w) && InI32(h) && InI32(|pixels|)
    requires InI64(ths + PAYLOAD) && InI64(ths + PAYLOAD + |pixels| + 16)
    ensures |NewUexp(uexp, w, h, pixels, ths)| == PAYLOAD + |pixels| + 28
  {
  }

  /**
   * Absolute offsets of the rebuilt export: with header and export end to end, SkipOffset reads
   * as the place of the terminating 'None' name, OffsetInFile as the place of the pixels, and the
   * header's bulk data start as the place of the package tag.
   */
  lemma StoredOffsetsAddress(header: Data, uexp: Data, w: int, h: int, pixels: Data, ths: int, body: Data)
    requires |uexp| >= PROPS && InI32(w) && InI32(h) && InI32(|pixels|)
    requires InI64(ths + PAYLOAD) && InI64(ths + PAYLOAD + |pixels| + 16)
    requires |header| == ths && body == NewUexp(uexp, w, h, pixels, ths)
    ensures |body| >= 259 && Finds(header + body, DecI64(body[191..]), NoneName())
    ensures Finds(header + body, DecI64(body[251..]), pixels)
    ensures Finds(header + body, |header| + |body| - 4, uexp[|uexp| - 4..])
  {
    SkipReadsBack(uexp, w, h, pixels, ths);
    PayloadReadsBack(uexp, w, h, pixels, ths);
    BehindHeader(header, body, PAYLOAD, |pixels|);
    BehindHeader(header, body, PAYLOAD + |pixels| + 16, 8);
    BehindHeader(header, body, |body| - 4, 4);
  }

  // ----- the tool's own check of what it wrote -----

  /** The name that an index stored at this offset selects. */
  predicate ReadsName(b: Data, at: int, names: seq<string>, name: string) {
    && 0 <= at && at + 8 <= |b|
    && var i := DecI32(b[at..]);
       0 <= i < |names| && names[i] == name
  }

  /** The walk over the written export with its three assertions. */
  predicate ReparsePasses(b: Data, names: seq<string>, w: int, h: int, n: nat) {
    && ReadsName(b, PROPS + 12, names, NEW_PF)
    && ReadsI32(b, PROPS + 28, w) && ReadsI32(b, PROPS + 32, h)
    && PROPS + 44 <= |b|
    && ReadsName(b, PROPS + 44 + DecI32(b[PROPS + 40..]) + 32 + n + 16, names, "None")
  }

  lemma I32Found(a: Data, v: int, rest: Data)
    requires InI32(v)
    ensures ReadsI32(a + EncI32(v) + rest, |a|, v)
  {
    hide EncI32, DecI32;
    From(a, EncI32(v), rest);
    I32RoundTrip(v, rest);
  }

  /** A chain of six parts regrouped around its second, third, fourth and fifth. */
  lemma AroundEach(a: Data, b: Data, c: Data, d: Data, e: Data, rest: Data)
    ensures a + (b + c + d + e + rest) == a + b + (c + d + e + rest)
    ensures a + (b + c + d + e + rest) == (a + b) + c + (d + e + rest)
    ensures a + (b + c + d + e + rest) == (a + b + c) + d + (e + rest)
    ensures a + (b + c + d + e + rest) == (a + b + c + d) + e + rest
  {
  }

  /** The stored width, height and the length of the format name. */
  lemma DimsRead(front: Data, w: int, h: int, rest: Data, body: Data)
    requires InI32(w) && InI32(h)
    requires body == front + (EncI32(w) + EncI32(h) + EncU32(1) + EncI32(12) + rest)
    ensures ReadsI32(body, |front|, w) && ReadsI32(body, |front| + 4, h) && ReadsI32(body, |front| + 12, 12)
  {
    hide EncI32, ReadsI32;
    AroundEach(front, EncI32(w), EncI32(h), EncU32(1), EncI32(12), rest);
    I32Found(front, w, EncI32(h) + EncU32(1) + EncI32(12) + rest);
    I32Found(front + EncI32(w), h, EncU32(1) + EncI32(12) + rest);
    I32Found(front + EncI32(w) + EncI32(h) + EncU32(1), 12, rest);
  }

  lemma FormatRead(props: Data, rest: Data)
    ensures ReadsI32(props + BeforeSkip() + rest, |props| + 12, 13)
  {
    hide EncI32, ReadsI32;
    var a := props + (EncI32(0) + [1, 0, 1, 0] + EncI32(1));
    assert props + BeforeSkip() + rest == a + EncI32(13) + (EncI32(0) + rest);
    I32Found(a, 13, EncI32(0) + rest);
  }

  lemma TerminatorRead(front: Data, rest: Data)
    ensures ReadsI32(front + NoneName() + rest, |front|, 11)
  {
    hide EncI32, ReadsI32;
    assert front + NoneName() + rest == front + EncI32(11) + (EncI32(0) + rest);
    I32Found(front, 11, EncI32(0) + rest);
  }

  /** `BeforeOffset` seen from its first four numbers. */
  lemma OffsetParts(w: int, h: int, n: int) returns (more: Data)
    requires InI32(w) && InI32(h) && InI32(n)
    ensures BeforeOffset(w, h, n) == EncI32(w) + EncI32(h) + EncU32(1) + EncI32(12) + more
  {
    hide EncI32;
    more := PfBytes() + EncI32(0) + EncI32(1) + EncU32(1) + EncU32(0x48) + EncI32(n) + EncI32(n);
  }

  /** The check after writing never fires: format, dimensions and terminator are read back. */
  lemma ReparseNeverFails(uexp: Data, names: seq<string>, w: int, h: int, pixels: Data, ths: int)
    requires |uexp| >= PROPS && InI32(w) && InI32(h) && InI32(|pixels|)
    requires InI64(ths + PAYLOAD) && InI64(ths + PAYLOAD + |pixels| + 16)
    requires |names| > 13 && names[13] == NEW_PF && names[11] == "None"
    ensures ReparsePasses(NewUexp(uexp, w, h, pixels, ths), names, w, h, |pixels|)
  {
    hide EncI32, EncI64, DecI32, BeforeSkip, BeforeOffset, AfterPixels, NoneName, NewProps;
    var body := NewUexp(uexp, w, h, pixels, ths);
    var n := |pixels|;
    UexpLength(uexp, w, h, pixels, ths);
    var props, skip, off := NewProps(uexp, w, h), EncI64(ths + PAYLOAD + n + 16), EncI64(ths + PAYLOAD);
    var tag := uexp[|uexp| - 4..];
    var more := OffsetParts(w, h, n);
    var front := props + BeforeSkip() + skip;
    var behind := off + pixels + AfterPixels(w, h) + NoneName() + tag;
    assert body == props + BeforeSkip() + (skip + BeforeOffset(w, h, n) + behind);
    FormatRead(props, skip + BeforeOffset(w, h, n) + behind);
    var dims := EncI32(w) + EncI32(h) + EncU32(1) + EncI32(12);
    assert body == front + (dims + (more + behind)) by {
      assert body == front + BeforeOffset(w, h, n) + behind;
      assert dims + more + behind == dims + (more + behind);
    }
    DimsRead(front, w, h, more + behind, body);
    TerminatorRead(front + BeforeOffset(w, h, n) + off + pixels + AfterPixels(w, h), tag);
  }

  // ----- loading the template and cooking -----

  function Before(x: (Name, nat), more: Option<(seq<Name>, nat)>): Option<(seq<Name>, nat)> {
    if more.None? then None else Some(([x.0] + more.value.0, x.1 + more.value.1))
  }

  lemma ReadNamesStep(s: Data, n: nat)
    requires 0 < n
    ensures var x := ReadName(s);
      ReadNames(s, n) == if x.None? then None else Before(x.value, ReadNames(s[x.value.1..], n - 1))
  {
  }

  function Then(names: seq<Name>, used: nat, x: Option<(Name, nat)>): Option<(seq<Name>, nat)> {
    if x.None? then None else Some((names + [x.value.0], used + x.value.1))
  }

  lemma BeforeThen(x: (Name, nat), names: seq<Name>, used: nat, y: Option<(Name, nat)>)
    ensures Before(x, Then(names, used, y)) == Then([x.0] + names, x.1 + used, y)
  {
    if y.Some? { assert [x.0] + (names + [y.value.0]) == [x.0] + names + [y.value.0]; }
  }

  lemma {:induction false} ReadNamesSnoc(s: Data, n: nat, names: seq<Name>, used: nat)
    requires ReadNames(s, n) == Some((names, used)) && used <= |s|
    ensures ReadNames(s, n + 1) == Then(names, used, ReadName(s[used..]))
  {
    hide ReadName, Then;
    ReadNamesStep(s, n + 1);
    if n == 0 {
      assert s[0..] == s;
      FirstName(s);
    } else {
      ReadNamesStep(s, n);
      var x, more := ReadName(s).value, ReadNames(s[ReadName(s).value.1..], n - 1).value;
      ReadNamesSnoc(s[x.1..], n - 1, more.0, more.1);
      DropDrop(s, x.1, more.1);
      BeforeThen(x, more.0, more.1, ReadName(s[used..]));
    }
  }

  lemma FirstName(s: Data)
    ensures ReadNames(s, 1) == Then([], 0, ReadName(s))
  {
    ReadNamesStep(s, 1);
    if ReadName(s).Some? {
      var x := ReadName(s).value;
      assert ReadNames(s[x.1..], 0) == Some(([], 0)) && [x.0] + [] == [] + [x.0];
    }
  }

  lemma {:induction false} ReadNamesStops(s: Data, n: nat, k: nat)
    requires k <= n && ReadNames(s, k).None?
    ensures ReadNames(s, n).None?
  {
    if k < n {
      ReadNamesStops(s, n - 1, k);
      ReadNamesNeedAll(s, n - 1);
    }
  }

  lemma {:induction false} ReadNamesNeedAll(s: Data, n: nat)
    requires ReadNames(s, n).None?
    ensures ReadNames(s, n + 1).None?
  {
    if n > 0 && ReadName(s).Some? { ReadNamesNeedAll(s[ReadName(s).value.1..], n - 1); }
  }

  /** After `k` turns of the loop: these names were read and the offset stands at `o`. */
  ghost predicate LoadedUpTo(ua: Data, at: nat, k: nat, names: seq<Name>, o: int) {
    at <= o <= |ua| && ReadNames(ua[at..], k) == Some((names, o - at))
  }

  lemma LoadStep(ua: Data, at: nat, k: nat, names: seq<Name>, o: int)
    requires LoadedUpTo(ua, at, k, names, o)
    ensures var x := ReadName(ua[o..]);
      if x.Some? then LoadedUpTo(ua, at, k + 1, names + [x.value.0], o + x.value.1)
      else ReadNames(ua[at..], k + 1).None?
  {
    ReadNamesSnoc(ua[at..], k, names, o - at);
    DropDrop(ua, at, o - at);
  }

  /** The loop of `load_template` over the name map. */
  method LoadNames(ua: Data, at: nat, n: nat) returns (r: Option<(seq<Name>, nat)>)
    requires at <= |ua|
    ensures r == ReadNames(ua[at..], n)
  {
    var names: seq<Name> := [];
    var o := at;
    var k := 0;
    while k < n
      invariant 0 <= k <= n && LoadedUpTo(ua, at, k, names, o)
    {
      LoadStep(ua, at, k, names, o);
      var x := ReadName(ua[o..]);
      if x.None? {
        ReadNamesStops(ua[at..], n, k + 1);
        return None;
      }
      names, o := names + [x.value.0], o + x.value.1;
      k := k + 1;
    }
    return Some((names, o - at));
  }

  /** The template's tokens and layout, when its offsets point forward. */
  function PlanOf(ua: Data, toks: seq<Token>): Option<Plan> {
    var at, n := Lookup(toks, NameOffset), Lookup(toks, NameCount);
    var ths, exp := Lookup(toks, TotalHeaderSize), Lookup(toks, ExportOffset);
    if at.None? || n.None? || ths.None? || exp.None? then None
    else if !(0 <= at.value <= |ua|) || n.value < 0 || ths.value < 0 || exp.value < 0 then None
    else
      var r := ReadNames(ua[at.value..], n.value);
      if r.None? then None
      else Some(Plan(toks, at.value, n.value, at.value + r.value.1, ths.value, exp.value))
  }

  function NamesOf(ua: Data, p: Plan): (names: seq<Name>)
    requires p.nameOffset <= |ua| && ReadNames(ua[p.nameOffset..], p.nameCount).Some?
  {
    ReadNames(ua[p.nameOffset..], p.nameCount).value.0
  }

  /** Every stored hash agrees with the recipe. */
  predicate HashesAgree(names: seq<Name>) {
    forall i :: 0 <= i < |names| ==> Encodable(names[i].text) && HashBytes(names[i].text) == names[i].hashes
  }

  /** The layout anchors. */
  predicate Anchored(names: seq<Name>, uexp: Data) {
    && |names| > 15 && names[13].text == "PF_DXT1" && names[11].text == "None" && names[15].text == "tex_kel3_skin"
    && |uexp| >= 179 && DecI32(uexp[49..]) == 512 && uexp[171..179] == [0, 0, 0, 0, 1, 0, 1, 0]
  }

  /** `selftest`. */
  predicate Trusted(names: seq<Name>, uexp: Data) { HashesAgree(names) && Anchored(names, uexp) }

  function Texts(names: seq<Name>): (r: seq<string>)
    ensures |r| == |names|
  {
    seq(|names|, i requires 0 <= i < |names| => names[i].text)
  }

  /** The three in-place renames: package path, asset name, pixel format. */
  function Renamed(names: seq<string>, path: string, asset: string): seq<string>
    requires |names| > 15
  {
    names[0 := path][15 := asset][13 := NEW_PF]
  }

  /** Everything `cook` needs of its inputs once the template is loaded. */
  predicate Fits(ua: Data, uexp: Data, p: Plan, names: seq<string>, w: int, h: int, pixels: Data) {
    && InOrder(ua, p) && |uexp| >= PROPS && InI32(w) && InI32(h) && InI32(|pixels|)
    && (forall i :: 0 <= i < |names| ==> Storable(names[i]))
    && Relocatable(p, NameBlob(names), |pixels|)
  }

  /** `bulkDataStartOffset`: the end of header and export without the closing tag. */
  function BulkStart(p: Plan, blob: Data, n: nat): int { p.ths + Delta(p, blob) + PAYLOAD + n + 24 }

  /** Every shifted number still fits its field. */
  predicate Relocatable(p: Plan, blob: Data, n: nat) {
    && InI64(p.ths + Delta(p, blob)) && InI64(p.ths + Delta(p, blob) + PAYLOAD)
    && InI64(p.ths + Delta(p, blob) + PAYLOAD + n + 16)
    && ShiftAll(p.toks, Delta(p, blob), BulkStart(p, blob, n)).Some?
  }

  datatype Package = Package(uasset: Data, uexp: Data)

  /** One new name for each old one, with the format and the terminator where the export looks for them. */
  predicate NamesInPlace(p: Plan, names: seq<string>) {
    |names| == p.nameCount && |names| > 15 && names[13] == NEW_PF && names[11] == "None"
  }

  /** The package that was built: the relocated header over the new names, and the rebuilt export. */
  ghost predicate CookedFrom(ua: Data, uexp: Data, w: int, h: int, pixels: Data, names: seq<string>,
                             p: Plan, us: seq<Token>, out: Package) {
    && Loaded(ua, p) && NamesInPlace(p, names) && Fits(ua, uexp, p, names, w, h, pixels)
    && Built(ua, uexp, w, h, pixels, NameBlob(names), p, us, out)
  }

  ghost predicate Built(ua: Data, uexp: Data, w: int, h: int, pixels: Data, blob: Data,
                        p: Plan, us: seq<Token>, out: Package)
    requires |uexp| >= PROPS && InI32(w) && InI32(h) && InI32(|pixels|) && Relocatable(p, blob, |pixels|)
  {
    && out.uexp == NewUexp(uexp, w, h, pixels, p.ths + Delta(p, blob))
    && ShiftAll(p.toks, Delta(p, blob), BulkStart(p, blob, |pixels|)) == Some(us)
    && Rebuilt(ua, p, us, blob, |out.uexp| - 4, out.uasset)
  }

  /** The part of `cook` that builds: export, tokens, header. */
  method BuildPackage(ua: Data, uexp: Data, w: int, h: int, pixels: Data, blob: Data, p: Plan)
    returns (out: Package, ghost us: seq<Token>)
    requires Parsed(ua, p.toks) && InOrder(ua, p)
    requires |uexp| >= PROPS && InI32(w) && InI32(h) && InI32(|pixels|) && Relocatable(p, blob, |pixels|)
    ensures Built(ua, uexp, w, h, pixels, blob, p, us, out)
  {
    hide Rebuilt, ShiftAll, NewUexp, InOrder, Parsed, Join;
    var newThs := p.ths + Delta(p, blob);
    var newUexp := BuildUexp(uexp, w, h, pixels, newThs);
    UexpLength(uexp, w, h, pixels, newThs);
    assert newThs + |newUexp| - 4 == BulkStart(p, blob, |pixels|);
    var moved := RewriteTokens(p.toks, Delta(p, blob), newThs + |newUexp| - 4);
    us := moved.value;
    var newUa := BuildHeader(ua, p, moved.value, blob, |newUexp| - 4, newThs + |newUexp| - 4);
    out := Package(newUa, newUexp);
  }

  /** Assembling the header. By `HeaderLength` the length check that follows never fires. */
  method BuildHeader(ua: Data, p: Plan, us: seq<Token>, blob: Data, size: int, bulk: int) returns (h: Data)
    requires Parsed(ua, p.toks) && InOrder(ua, p) && InI64(size) && InI64(p.ths + Delta(p, blob))
    requires ShiftAll(p.toks, Delta(p, blob), bulk) == Some(us)
    ensures Rebuilt(ua, p, us, blob, size, h)
  {
    hide ShiftAll, Summary, Parsed, NewRest, Join;
    ParsersAgree(ua, p.toks);
    ShiftKeepsLength(ua, p.toks, us, Delta(p, blob), bulk);
    var head := Join(us);
    var mid := ua[|Join(p.toks)|..p.nameOffset];
    var rest := NewRest(ua[p.nmEnd..p.ths], p.exportOffset - p.nmEnd, size, p.ths + Delta(p, blob));
    h := head + mid + blob + rest;
  }

  /** The template loads: its summary parses and its offsets and name map lie inside the file. */
  predicate Loadable(ua: Data) {
    SummaryCursor(ua).Some? && CountsNotNegative(ua) && PlanOf(ua, SummaryCursor(ua).value.tok).Some?
  }

  function Template(ua: Data): Plan
    requires Loadable(ua)
  {
    PlanOf(ua, SummaryCursor(ua).value.tok).value
  }

  lemma TemplateIsLoaded(ua: Data)
    requires Loadable(ua)
    ensures Loaded(ua, Template(ua))
  {
    var toks := SummaryCursor(ua).value.tok;
    CursorReadsSummary(ua);
    ParsersAgree(ua, toks);
  }

  /** `load_template`. */
  method LoadTemplate(ua: Data) returns (r: Option<(Plan, seq<Name>)>)
    ensures r.Some? <==> Loadable(ua)
    ensures r.Some? ==>
      r.value.0 == Template(ua) && Loaded(ua, r.value.0) && r.value.1 == NamesOf(ua, r.value.0)
  {
    var c := ParseSummary(ua);
    if c.None? { return None; }
    TokensShowCounts(ua);
    if !CountsShown(c.value.tok) { return None; }
    var plan := PlanOf(ua, c.value.tok);
    if plan.None? { return None; }
    TemplateIsLoaded(ua);
    var loaded := LoadNames(ua, plan.value.nameOffset, plan.value.nameCount);
    return Some((plan.value, loaded.value.0));
  }

  /** The template can be cooked with these names and pixels. */
  predicate Cookable(ua: Data, uexp: Data, w: int, h: int, pixels: Data, path: string, asset: string) {
    && Loadable(ua)
    && var p := Template(ua);
       && Trusted(NamesOf(ua, p), uexp)
       && Fits(ua, uexp, p, Renamed(Texts(NamesOf(ua, p)), path, asset), w, h, pixels)
  }

  lemma RenamedInPlace(p: Plan, names: seq<Name>, uexp: Data, path: string, asset: string)
    requires |names| == p.nameCount && Trusted(names, uexp)
    ensures NamesInPlace(p, Renamed(Texts(names), path, asset))
  {
  }

  /**
   * Loading, checking and cooking; `None` when some step fails or the template's header is not
   * laid out in order.
   */
  method Cook(ua: Data, uexp: Data, w: int, h: int, pixels: Data, path: string, asset: string)
    returns (r: Option<Package>)
    ensures r.Some? <==> Cookable(ua, uexp, w, h, pixels, path, asset)
    ensures r.Some? ==>
      var names := Renamed(Texts(NamesOf(ua, Template(ua))), path, asset);
      exists us :: CookedFrom(ua, uexp, w, h, pixels, names, Template(ua), us, r.value)
  {
    hide NameBlob, Renamed, NamesInPlace, ReadNames, Built, Loaded;
    var loaded := LoadTemplate(ua);
    if loaded.None? { return None; }
    var p, names := loaded.value.0, loaded.value.1;
    if !Trusted(names, uexp) { return None; }
    var newNames := Renamed(Texts(names), path, asset);
    if !Fits(ua, uexp, p, newNames, w, h, pixels) { return None; }
    var out, us := BuildPackage(ua, uexp, w, h, pixels, NameBlob(newNames), p);
    assert NamesInPlace(p, newNames) by { RenamedInPlace(p, names, uexp, path, asset); }
    assert CookedFrom(ua, uexp, w, h, pixels, newNames, p, us, out);
    return Some(out);
  }

  /** What the relocated header's own fields say about it. */
  lemma HeaderOf(ua: Data, p: Plan, us: seq<Token>, blob: Data, size: int, bulk: int, h: Data)
    requires Rebuilt(ua, p, us, blob, size, h) && ShiftAll(p.toks, Delta(p, blob), bulk) == Some(us)
    requires Loaded(ua, p)
    ensures |h| == p.ths + Delta(p, blob)
    ensures Parsed(h, us) && Lookup(us, TotalHeaderSize) == Some(|h|)
    ensures Lookup(us, NameOffset) == Some(p.nameOffset) && 0 < p.exportOffset
    ensures var exp := Lookup(us, ExportOffset);
      && exp.Some? && 0 <= exp.value && exp.value + 44 <= |h|
      && DecI64(h[exp.value + 28..]) == size && DecI64(h[exp.value + 36..]) == |h|
  {
    HeaderLength(ua, p, us, blob, size, bulk, h);
    NewHeaderParses(ua, p, us, blob, size, bulk, h);
    OtherFieldsKept(p, us, blob, bulk, NameOffset);
    assert |Join(p.toks)| > 0 by {
      ParsersAgree(ua, p.toks);
      SummaryNotEmpty(ua, p.toks);
    }
    ExportEntryReads(ua, p, us, blob, size, bulk, h);
  }

  lemma SummaryNotEmpty(ua: Data, toks: seq<Token>)
    requires Summary(ua) == Some(toks)
    ensures |Join(toks)| > 0
  {
    SummaryParses(ua, toks);
    var count :| Parses(ua, toks, LegacyOf(toks), count);
    HeadOfLayout(ua, LegacyOf(toks), count, toks);
    var x, rest := ReadSplit(HEAD, ua);
    assert toks[0] == toks[..2][0] == x;
  }

  /** In the built package every absolute offset addresses what it should. */
  lemma BuiltOffsets(ua: Data, uexp: Data, w: int, h: int, pixels: Data, blob: Data,
                     p: Plan, us: seq<Token>, out: Package)
    requires |uexp| >= PROPS && InI32(w) && InI32(h) && InI32(|pixels|) && Relocatable(p, blob, |pixels|)
    requires Built(ua, uexp, w, h, pixels, blob, p, us, out) && |out.uasset| == p.ths + Delta(p, blob)
    requires Parsed(ua, p.toks)
    ensures |out.uexp| >= 259 && Finds(out.uasset + out.uexp, DecI64(out.uexp[191..]), NoneName())
    ensures Finds(out.uasset + out.uexp, DecI64(out.uexp[251..]), pixels)
    ensures Lookup(us, BULK).Some? && Finds(out.uasset + out.uexp, Lookup(us, BULK).value, uexp[|uexp| - 4..])
  {
    hide ShiftAll, Lookup, NewUexp, Summary, Parsed, DecI64, Rebuilt, Finds, IsBulk;
    ParsersAgree(ua, p.toks);
    var ths := p.ths + Delta(p, blob);
    StoredOffsetsAddress(out.uasset, uexp, w, h, pixels, ths, out.uexp);
    UexpLength(uexp, w, h, pixels, ths);
    SummaryHasBulk(ua, p.toks);
    BulkRecomputed(p.toks, us, Delta(p, blob), BulkStart(p, blob, |pixels|));
  }

  /** Loading finds this plan. */
  predicate LoadsAs(ua: Data, p: Plan) { Loadable(ua) && Template(ua) == p }

  /** At this offset lies a name map with these names, each with its own hashes. */
  ghost predicate HoldsNames(ua: Data, at: nat, names: seq<string>) {
    && at <= |ua| && (forall i :: 0 <= i < |names| ==> Storable(names[i]))
    && var r := ReadNames(ua[at..], |names|);
       r.Some? && forall i :: 0 <= i < |names| ==> r.value.0[i] == Hashed(names[i])
  }

  /** The plan of the cooked header: the name map's end and the export table have moved. */
  function NewPlan(p: Plan, us: seq<Token>, blob: Data, ths: nat): Plan
    requires p.nameOffset <= p.nmEnd <= p.exportOffset
  {
    Plan(us, p.nameOffset, p.nameCount, p.nameOffset + |blob|, ths, p.exportOffset + Delta(p, blob))
  }

  lemma PlanFound(h: Data, us: seq<Token>, at: nat, n: nat, ths: nat, exp: int)
    requires Parsed(h, us) && at <= |h| && 0 <= exp && ReadNames(h[at..], n).Some?
    requires Lookup(us, NameOffset) == Some(at) && Lookup(us, NameCount) == Some(n)
    requires Lookup(us, TotalHeaderSize) == Some(ths) && Lookup(us, ExportOffset) == Some(exp)
    ensures LoadsAs(h, Plan(us, at, n, at + ReadNames(h[at..], n).value.1, ths, exp))
  {
    hide Lookup, ReadNames, CountsNotNegative, SummaryCursor, Join;
  }

  /** The cooked header is a template again: loading it finds the relocated tokens and the new names. */
  lemma HeaderLoads(ua: Data, p: Plan, us: seq<Token>, names: seq<string>, size: int, bulk: int, h: Data)
    requires forall i :: 0 <= i < |names| ==> Storable(names[i])
    requires |names| == p.nameCount && Loaded(ua, p)
    requires var blob := NameBlob(names);
      Rebuilt(ua, p, us, blob, size, h) && ShiftAll(p.toks, Delta(p, blob), bulk) == Some(us)
    ensures LoadsAs(h, NewPlan(p, us, NameBlob(names), |h|)) && HoldsNames(h, p.nameOffset, names)
  {
    hide ShiftAll, Lookup, Rebuilt, NameBlob, NewHeader, Summary, CountsNotNegative, Join, Hashed, Storable,
      SummaryCursor, ReadNames, Parsed, DecI64;
    var blob := NameBlob(names);
    HeaderOf(ua, p, us, blob, size, bulk, h);
    OtherFieldsKept(p, us, blob, bulk, NameCount);
    NewNamesReadBack(ua, p, us, names, size, h);
    OffsetMoves(p, us, blob, bulk, ExportOffset, p.exportOffset);
    PlanFound(h, us, p.nameOffset, p.nameCount, |h|, p.exportOffset + Delta(p, blob));
  }

  /** Behind this offset the new header holds what was behind it in the old one. */
  ghost predicate SameTarget(ua: Data, p: Plan, us: seq<Token>, h: Data, key: Key) {
    var v, w := Lookup(p.toks, key), Lookup(us, key);
    && v.Some? && w.Some? && 0 <= v.value && 0 <= w.value
    && forall j :: v.value <= j < p.ths && Unpatched(p, j) ==> SameByte(ua, h, j, j - v.value + w.value)
  }

  predicate Unpatched(p: Plan, j: int) { !(p.exportOffset + 28 <= j < p.exportOffset + 44) }

  predicate SameByte(a: Data, b: Data, i: int, j: int) { 0 <= i < |a| && 0 <= j < |b| && b[j] == a[i] }

  /** A shifted offset that is in use and leads past the old name map. */
  predicate PointsBehind(p: Plan, key: Key) {
    Moves(key) && var v := Lookup(p.toks, key); v.Some? && 0 < v.value && p.nmEnd <= v.value
  }

  lemma TargetByte(ua: Data, p: Plan, us: seq<Token>, blob: Data, size: int, h: Data, j: int)
    requires Rebuilt(ua, p, us, blob, size, h) && p.nmEnd <= j < p.ths && Unpatched(p, j)
    ensures SameByte(ua, h, j, j + Delta(p, blob)) && 0 <= p.nmEnd + Delta(p, blob)
  {
    hide NewHeader, Join;
    BytesMoveByDelta(ua, p, us, blob, size, h, j);
  }

  lemma TargetKept(ua: Data, p: Plan, us: seq<Token>, blob: Data, size: int, bulk: int, h: Data, key: Key)
    requires Rebuilt(ua, p, us, blob, size, h) && ShiftAll(p.toks, Delta(p, blob), bulk) == Some(us)
    requires PointsBehind(p, key)
    ensures SameTarget(ua, p, us, h, key)
  {
    hide ShiftAll, Lookup, NewHeader, Moves, Join, SameByte, NewRest;
    var v := Lookup(p.toks, key).value;
    OffsetMoves(p, us, blob, bulk, key, v);
    forall j | v <= j < p.ths && Unpatched(p, j)
      ensures SameByte(ua, h, j, j - v + (v + Delta(p, blob)))
    {
      TargetByte(ua, p, us, blob, size, h, j);
    }
  }

  /** Loading finds the plan of the cooked header, and the new names at the name offset. */
  ghost predicate LoadsNew(h: Data, p: Plan, us: seq<Token>, names: seq<string>) {
    && (forall i :: 0 <= i < |names| ==> Storable(names[i])) && p.nameOffset <= p.nmEnd <= p.exportOffset
    && LoadsAs(h, NewPlan(p, us, NameBlob(names), |h|)) && HoldsNames(h, p.nameOffset, names)
  }

  /** The export offset finds an export entry with this size and offset. */
  predicate EntryHolds(h: Data, us: seq<Token>, size: int, offset: int) {
    var exp := Lookup(us, ExportOffset);
    && exp.Some? && 0 <= exp.value && exp.value + 44 <= |h|
    && DecI64(h[exp.value + 28..]) == size && DecI64(h[exp.value + 36..]) == offset
  }

  /**
   * With header and export end to end, the skip offset addresses the terminating name, the payload
   * offset the pixels, and the bulk data start the template's package tag.
   */
  ghost predicate OffsetsAddress(out: Package, us: seq<Token>, pixels: Data, uexp: Data) {
    var file := out.uasset + out.uexp;
    && |out.uexp| >= 259 && |uexp| >= 4 && Lookup(us, BULK).Some?
    && Finds(file, DecI64(out.uexp[191..]), NoneName())
    && Finds(file, DecI64(out.uexp[251..]), pixels)
    && Finds(file, Lookup(us, BULK).value, uexp[|uexp| - 4..])
  }

  /**
   * What the cooked package means: the header re-parses to the relocated tokens with its own size in
   * the size field and loads as a template with the new names; the moved offsets, the export entry,
   * the skip offset, the payload offset and the bulk data start all address what they should; and the
   * check after writing passes.
   */
  lemma CookedPackage(ua: Data, uexp: Data, w: int, h: int, pixels: Data, names: seq<string>, p: Plan,
                      us: seq<Token>, out: Package)
    requires CookedFrom(ua, uexp, w, h, pixels, names, p, us, out)
    ensures Parsed(out.uasset, us) && Lookup(us, TotalHeaderSize) == Some(|out.uasset|)
    ensures LoadsNew(out.uasset, p, us, names)
    ensures forall key :: PointsBehind(p, key) ==> SameTarget(ua, p, us, out.uasset, key)
    ensures EntryHolds(out.uasset, us, |out.uexp| - 4, |out.uasset|)
    ensures OffsetsAddress(out, us, pixels, uexp)
    ensures ReparsePasses(out.uexp, names, w, h, |pixels|)
  {
    hide ShiftAll, Lookup, Rebuilt, NameBlob, NewUexp, Summary, Parsed, DecI64, Finds, Loadable, Template, Hashed,
      LoadsAs, HoldsNames, SameTarget, PointsBehind, ReparsePasses, Moves, Join;
    var blob := NameBlob(names);
    var size, bulk := |out.uexp| - 4, BulkStart(p, blob, |pixels|);
    HeaderOf(ua, p, us, blob, size, bulk, out.uasset);
    HeaderLoads(ua, p, us, names, size, bulk, out.uasset);
    forall key | PointsBehind(p, key)
      ensures SameTarget(ua, p, us, out.uasset, key)
    {
      TargetKept(ua, p, us, blob, size, bulk, out.uasset, key);
    }
    BuiltOffsets(ua, uexp, w, h, pixels, blob, p, us, out);
    ReparseNeverFails(uexp, names, w, h, pixels, p.ths + Delta(p, blob));
  }
}
