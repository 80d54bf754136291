/**
 * tools/client_model/ue_skelmesh.py: where the parts of a cooked skeletal mesh lie. Every part's
 * extent is decided by its own bytes, except that the reference skeleton is found by a search.
 */
module SkelMesh {
  import opened Results
  import opened Bytes

  // ----- counted parts -----

  /** One step of a reader: some bytes, a 32-bit one, a counted array, a bulk array. */
  datatype Item = Fixed(n: nat) | One | Arr(elem: nat) | Bulk

  function BulkBytes(es: int, n: int): int {
    if es >= 0 then ArrayBytes(n, es) else ArrayBytes(-n, -es)
  }

  lemma BulkBytesIsProduct(es: int, n: int)
    ensures BulkBytes(es, n) == es * n
  {
    if es >= 0 { ArrayBytesIsProduct(n, es); } else { ArrayBytesIsProduct(-n, -es); }
  }

  /** How many bytes an item takes off the front; `None` when they are not there or would go backwards. */
  function Extent(it: Item, s: Data): (r: Option<nat>)
    ensures r.Some? ==> r.value <= |s|
  {
    match it
    case Fixed(n) => if n <= |s| then Some(n) else None
    case One => if |s| >= 4 && DecI32(s) == 1 then Some(4) else None
    case Arr(elem) =>
      if |s| < 4 then None
      else
        var n := 4 + ArrayBytes(DecI32(s), elem);
        if 4 <= n <= |s| then Some(n) else None
    case Bulk =>
      if |s| < 8 then None
      else
        var n := 8 + BulkBytes(DecI32(s), DecI32(s[4..]));
        if 8 <= n <= |s| then Some(n) else None
  }

  function ExtentAll(items: seq<Item>, s: Data): (r: Option<nat>)
    ensures r.Some? ==> r.value <= |s|
  {
    if items == [] then Some(0)
    else
      var n := Extent(items[0], s);
      if n.None? then None
      else
        var more := ExtentAll(items[1..], s[n.value..]);
        if more.None? then None else Some(n.value + more.value)
  }

  /** One section: header, cloth map, bone map, vertex counts and clothing, duplicates, disabled flag. */
  const SECTION: seq<Item> := [Fixed(25), Arr(1), Arr(2), Fixed(30), Arr(4), Arr(8), Fixed(4)]

  function Repeat(count: int, unit: seq<Item>, s: Data): (r: Option<nat>)
    ensures r.Some? ==> r.value <= |s|
    decreases if count < 0 then 0 else count
  {
    if count <= 0 then Some(0)
    else
      var n := ExtentAll(unit, s);
      if n.None? then None
      else
        var more := Repeat(count - 1, unit, s[n.value..]);
        if more.None? then None else Some(n.value + more.value)
  }

  /** A part is a fixed list of items, or a counted list of units. */
  datatype Body = Items(items: seq<Item>) | Counted(unit: seq<Item>)

  function BodyExtent(body: Body, s: Data): (r: Option<nat>)
    ensures r.Some? ==> r.value <= |s|
  {
    match body
    case Items(items) => ExtentAll(items, s)
    case Counted(unit) =>
      if |s| < 4 then None
      else
        var n := Repeat(DecI32(s), unit, s[4..]);
        if n.None? then None else Some(4 + n.value)
  }

  // ----- extents depend on the part's own bytes only -----

  ghost predicate Agree(s: Data, t: Data, n: nat) { n <= |s| && n <= |t| && s[..n] == t[..n] }

  lemma AgreeAt(s: Data, t: Data, n: nat, i: nat)
    requires Agree(s, t, n) && i < n
    ensures s[i] == t[i]
  {
    assert s[i] == s[..n][i] == t[..n][i];
  }

  lemma AgreeDrop(s: Data, t: Data, n: nat, k: nat)
    requires Agree(s, t, n) && k <= n
    ensures Agree(s, t, k) && Agree(s[k..], t[k..], n - k)
  {
    assert s[..k] == s[..n][..k] && t[..k] == t[..n][..k];
    assert s[k..][..n - k] == s[..n][k..] && t[k..][..n - k] == t[..n][k..];
  }

  lemma AgreeI32(s: Data, t: Data, n: nat)
    requires Agree(s, t, n) && 4 <= n
    ensures DecI32(s) == DecI32(t)
  {
    forall i: nat | i < 4 ensures s[i] == t[i] { AgreeAt(s, t, n, i); }
  }

  lemma ExtentIsLocal(it: Item, s: Data, t: Data, n: nat)
    requires Extent(it, s) == Some(n) && Agree(s, t, n)
    ensures Extent(it, t) == Some(n)
  {
    if !it.Fixed? { AgreeI32(s, t, n); }
    if it.Bulk? {
      AgreeDrop(s, t, n, 4);
      AgreeI32(s[4..], t[4..], n - 4);
    }
  }

  lemma {:induction false} ExtentAllIsLocal(items: seq<Item>, s: Data, t: Data, n: nat)
    requires ExtentAll(items, s) == Some(n) && Agree(s, t, n)
    ensures ExtentAll(items, t) == Some(n)
    decreases |items|
  {
    if items != [] {
      var k := Extent(items[0], s).value;
      AgreeDrop(s, t, n, k);
      ExtentIsLocal(items[0], s, t, k);
      ExtentAllIsLocal(items[1..], s[k..], t[k..], n - k);
    }
  }

  lemma RepeatOnce(count: int, unit: seq<Item>, s: Data)
    ensures count <= 0 ==> Repeat(count, unit, s) == Some(0)
    ensures count > 0 ==>
      var n := ExtentAll(unit, s);
      Repeat(count, unit, s) ==
        if n.None? then None
        else
          var more := Repeat(count - 1, unit, s[n.value..]);
          if more.None? then None else Some(n.value + more.value)
  {
    hide ExtentAll;
  }

  lemma {:induction false} RepeatIsLocal(count: int, unit: seq<Item>, s: Data, t: Data, n: nat)
    requires Repeat(count, unit, s) == Some(n) && Agree(s, t, n)
    ensures Repeat(count, unit, t) == Some(n)
    decreases if count < 0 then 0 else count
  {
    hide ExtentAll, Agree, Repeat;
    RepeatOnce(count, unit, s);
    RepeatOnce(count, unit, t);
    if count > 0 {
      var k := ExtentAll(unit, s).value;
      AgreeDrop(s, t, n, k);
      ExtentAllIsLocal(unit, s, t, k);
      RepeatIsLocal(count - 1, unit, s[k..], t[k..], n - k);
    }
  }

  /** A part's extent is decided by the bytes of the part itself. */
  lemma ExtentIsOwn(body: Body, s: Data, t: Data, n: nat)
    requires BodyExtent(body, s) == Some(n) && Agree(s, t, n)
    ensures BodyExtent(body, t) == Some(n)
  {
    match body
    case Items(items) => ExtentAllIsLocal(items, s, t, n);
    case Counted(unit) =>
      AgreeI32(s, t, n);
      AgreeDrop(s, t, n, 4);
      RepeatIsLocal(DecI32(s), unit, s[4..], t[4..], n - 4);
  }

  // ----- the property block -----

  /** The names the walk looks for, and all others. */
  datatype Tag =
    | NoneTag | StructProperty | BoolProperty | ByteProperty | EnumProperty | ArrayProperty
    | HasVertexColors | Other(text: string)

  function TagAt(names: seq<Tag>, i: int): Tag {
    if 0 <= i < |names| then names[i] else Other("?")
  }

  /** Bytes between a property's header and its has-guid flag. */
  function TypeBytes(ty: Tag): nat {
    match ty
    case StructProperty => 24
    case BoolProperty => 1
    case ByteProperty => 8
    case EnumProperty => 8
    case ArrayProperty => 8
    case _ => 0
  }

  datatype Prop = End | Prop(length: nat, flag: Option<bool>)

  /** One tagged property off the front; `None` when it is cut short or has a negative size. */
  function ReadProp(s: Data, names: seq<Tag>): (p: Option<Prop>)
    ensures p.Some? && p.value.Prop? ==> 25 <= p.value.length <= |s|
    ensures p.Some? && p.value.End? ==> 8 <= |s|
  {
    if |s| < 8 then None
    else
      var name := TagAt(names, DecI32(s));
      if name == NoneTag then Some(End)
      else if |s| < 25 then None
      else
        var ty := TagAt(names, DecI32(s[8..]));
        var n := 24 + TypeBytes(ty) + 1 + DecI32(s[16..]);
        if DecI32(s[16..]) < 0 || n > |s| then None
        else Some(Prop(n, if ty == BoolProperty && name == HasVertexColors then Some(s[24] != 0) else None))
  }

  /** The offset past the terminator within the first `turns` properties, and the last colour flag seen. */
  function PropEnd(s: Data, names: seq<Tag>, turns: nat, flag: bool): (r: Option<(nat, bool)>)
    ensures r.Some? ==> 8 <= r.value.0 <= |s|
  {
    if turns == 0 then None
    else
      var p := ReadProp(s, names);
      if p.None? then None
      else if p.value.End? then Some((8, flag))
      else Past(p.value.length, PropEnd(s[p.value.length..], names, turns - 1, Latest(p.value, flag)))
  }

  function Past(n: nat, r: Option<(nat, bool)>): Option<(nat, bool)> {
    if r.None? then None else Some((n + r.value.0, r.value.1))
  }

  function Latest(p: Prop, flag: bool): bool
    requires p.Prop?
  {
    if p.flag.Some? then p.flag.value else flag
  }

  lemma PropEndStep(s: Data, names: seq<Tag>, turns: nat, flag: bool, p: Prop)
    requires 0 < turns && ReadProp(s, names) == Some(p)
    ensures PropEnd(s, names, turns, flag) ==
      if p.End? then Some((8, flag))
      else Past(p.length, PropEnd(s[p.length..], names, turns - 1, Latest(p, flag)))
  {
  }

  lemma ReadPropIsLocal(s: Data, t: Data, names: seq<Tag>, n: nat)
    requires ReadProp(s, names).Some? && Agree(s, t, n)
    requires match ReadProp(s, names).value case End => 8 <= n case Prop(k, f) => k <= n
    ensures ReadProp(t, names) == ReadProp(s, names)
  {
    AgreeI32(s, t, n);
    if ReadProp(s, names).value.Prop? {
      AgreeDrop(s, t, n, 8);
      AgreeI32(s[8..], t[8..], n - 8);
      AgreeDrop(s, t, n, 16);
      AgreeI32(s[16..], t[16..], n - 16);
      AgreeAt(s, t, n, 24);
    }
  }

  lemma {:induction false} PropEndIsLocal(s: Data, t: Data, names: seq<Tag>, turns: nat, flag: bool, n: nat)
    requires PropEnd(s, names, turns, flag).Some? && PropEnd(s, names, turns, flag).value.0 == n && Agree(s, t, n)
    ensures PropEnd(t, names, turns, flag) == PropEnd(s, names, turns, flag)
  {
    hide ReadProp, Agree;
    var p := ReadProp(s, names).value;
    ReadPropIsLocal(s, t, names, n);
    PropEndStep(s, names, turns, flag, p);
    PropEndStep(t, names, turns, flag, p);
    if p.Prop? {
      AgreeDrop(s, t, n, p.length);
      PropEndIsLocal(s[p.length..], t[p.length..], names, turns - 1, Latest(p, flag), n - p.length);
    }
  }

  /** A tagged property as it is written. */
  datatype Property = Property(name: int, nameNo: int, ty: int, tyNo: int,
                               index: int, extra: Data, guid: Byte, body: Data)

  /** What a type puts before the flag: a struct's name and guid, a truth value, an inner or enum name. */
  predicate ExtraOf(ty: Tag, extra: Data) {
    if ty == StructProperty then |extra| == 8 + 16
    else if ty == BoolProperty then |extra| == 1
    else if ty in [ByteProperty, EnumProperty, ArrayProperty] then |extra| == 8
    else extra == []
  }

  predicate Writable(names: seq<Tag>, p: Property) {
    && InI32(p.name) && InI32(p.nameNo) && InI32(p.ty) && InI32(p.tyNo) && InI32(p.index) && InI32(|p.body|)
    && TagAt(names, p.name) != NoneTag && ExtraOf(TagAt(names, p.ty), p.extra)
  }

  function WriteProp(names: seq<Tag>, p: Property): (b: Data)
    requires Writable(names, p)
    ensures |b| == 25 + |p.extra| + |p.body|
  {
    EncI32(p.name) + EncI32(p.nameNo) + EncI32(p.ty) + EncI32(p.tyNo) + EncI32(|p.body|) + EncI32(p.index)
      + p.extra + [p.guid] + p.body
  }

  function WriteProps(names: seq<Tag>, ps: seq<Property>): Data
    requires forall i :: 0 <= i < |ps| ==> Writable(names, ps[i])
  {
    if ps == [] then [] else WriteProp(names, ps[0]) + WriteProps(names, ps[1..])
  }

  /** The colour flag that a property sets, if it is the one. */
  function FlagOf(names: seq<Tag>, p: Property): Option<bool>
    requires Writable(names, p)
  {
    if TagAt(names, p.ty) == BoolProperty && TagAt(names, p.name) == HasVertexColors
    then Some(p.extra[0] != 0) else None
  }

  function FlagAfter(names: seq<Tag>, ps: seq<Property>, flag: bool): bool
    requires forall i :: 0 <= i < |ps| ==> Writable(names, ps[i])
  {
    if ps == [] then flag
    else FlagAfter(names, ps[1..], if FlagOf(names, ps[0]).Some? then FlagOf(names, ps[0]).value else flag)
  }

  lemma WordIn(a: Data, v: int, b: Data, s: Data, at: nat)
    requires InI32(v) && s == a + EncI32(v) + b && at == |a|
    ensures |s| >= at + 4 && DecI32(s[at..]) == v
  {
    hide EncI32, DecI32;
    assert s[at..] == EncI32(v) + b;
    I32RoundTrip(v, b);
  }

  /** The header words of a written property, and its first extra byte. */
  lemma HeaderReads(names: seq<Tag>, p: Property, rest: Data, s: Data)
    requires Writable(names, p) && s == WriteProp(names, p) + rest
    ensures |s| >= 25 + |p.extra| + |p.body|
    ensures DecI32(s) == p.name && DecI32(s[8..]) == p.ty && DecI32(s[16..]) == |p.body|
    ensures p.extra != [] ==> s[24] == p.extra[0]
  {
    hide EncI32, DecI32, TagAt, TypeBytes;
    var a, b, c, d := EncI32(p.name), EncI32(p.nameNo), EncI32(p.ty), EncI32(p.tyNo);
    var e, f, tail := EncI32(|p.body|), EncI32(p.index), p.extra + [p.guid] + p.body + rest;
    assert s[0..] == s;
    assert s == (a + b + c + d + e + f) + tail;
    assert s == [] + a + (b + c + d + e + f + tail);
    WordIn([], p.name, b + c + d + e + f + tail, s, 0);
    assert s == (a + b) + c + (d + e + f + tail);
    WordIn(a + b, p.ty, d + e + f + tail, s, 8);
    assert s == (a + b + c + d) + e + (f + tail);
    WordIn(a + b + c + d, |p.body|, f + tail, s, 16);
  }

  lemma PropertyReads(names: seq<Tag>, p: Property, rest: Data)
    requires Writable(names, p)
    ensures ReadProp(WriteProp(names, p) + rest, names) == Some(Prop(|WriteProp(names, p)|, FlagOf(names, p)))
  {
    HeaderReads(names, p, rest, WriteProp(names, p) + rest);
    hide WriteProp, DecI32, TagAt;
  }

  lemma PropEndOver(s: Data, names: seq<Tag>, turns: nat, flag: bool, p: Prop, n: nat, f: bool)
    requires 0 < turns && p.Prop? && ReadProp(s, names) == Some(p)
    requires PropEnd(s[p.length..], names, turns - 1, Latest(p, flag)) == Some((n, f))
    ensures PropEnd(s, names, turns, flag) == Some((p.length + n, f))
  {
    hide ReadProp;
    PropEndStep(s, names, turns, flag, p);
  }

  lemma Split3(a: Data, b: Data, c: Data)
    ensures a + b + c == a + (b + c) && (a + b + c)[|a|..] == b + c
  {
    assert a + b + c == a + (b + c);
  }

  /** A block: the properties, the terminating name, and whatever follows. */
  function Block(names: seq<Tag>, ps: seq<Property>, end: Data): Data
    requires forall i :: 0 <= i < |ps| ==> Writable(names, ps[i])
  {
    WriteProps(names, ps) + end
  }

  lemma BlockSplits(names: seq<Tag>, ps: seq<Property>, end: Data)
    requires ps != [] && forall i :: 0 <= i < |ps| ==> Writable(names, ps[i])
    ensures var w := WriteProp(names, ps[0]);
      && Block(names, ps, end) == w + Block(names, ps[1..], end)
      && Block(names, ps, end)[|w|..] == Block(names, ps[1..], end)
      && |WriteProps(names, ps)| == |w| + |WriteProps(names, ps[1..])|
  {
    hide WriteProp;
    Split3(WriteProp(names, ps[0]), WriteProps(names, ps[1..]), end);
  }

  /** The walk inverts the writer: it ends past the terminator with the last colour flag written. */
  lemma {:induction false} PropertyBlockReads(names: seq<Tag>, ps: seq<Property>, none: int, no: int, rest: Data,
                                              turns: nat, flag: bool)
    requires forall i :: 0 <= i < |ps| ==> Writable(names, ps[i])
    requires |ps| < turns && InI32(none) && InI32(no) && TagAt(names, none) == NoneTag
    ensures PropEnd(Block(names, ps, EncI32(none) + EncI32(no) + rest), names, turns, flag)
         == Some((|WriteProps(names, ps)| + 8, FlagAfter(names, ps, flag)))
  {
    hide ReadProp, WriteProp, FlagOf, EncI32, Writable, TagAt;
    var end := EncI32(none) + EncI32(no) + rest;
    var s := Block(names, ps, end);
    if ps == [] {
      assert s == end;
      TerminatorReads(names, none, no, rest);
      PropEndStep(s, names, turns, flag, End);
    } else {
      BlockSplits(names, ps, end);
      PropertyReads(names, ps[0], Block(names, ps[1..], end));
      var p := Prop(|WriteProp(names, ps[0])|, FlagOf(names, ps[0]));
      PropertyBlockReads(names, ps[1..], none, no, rest, turns - 1, Latest(p, flag));
      PropEndOver(s, names, turns, flag, p, |WriteProps(names, ps[1..])| + 8,
                  FlagAfter(names, ps[1..], Latest(p, flag)));
    }
  }

  lemma TerminatorReads(names: seq<Tag>, none: int, no: int, rest: Data)
    requires InI32(none) && InI32(no) && TagAt(names, none) == NoneTag
    ensures ReadProp(EncI32(none) + EncI32(no) + rest, names) == Some(End)
  {
    hide EncI32, DecI32;
    assert EncI32(none) + EncI32(no) + rest == EncI32(none) + (EncI32(no) + rest);
    I32RoundTrip(none, EncI32(no) + rest);
  }

  const TURNS: nat := 500

  /** `property_block_end`. */
  method PropertyBlockEnd(payload: Data, names: seq<Tag>) returns (r: Option<(nat, bool)>)
    ensures r == PropEnd(payload, names, TURNS, false)
  {
    hide ReadProp;
    var o := 0;
    var hasColors := false;
    var turn := 0;
    assert payload[0..] == payload;
    while turn < TURNS
      invariant 0 <= turn <= TURNS && 0 <= o <= |payload|
      invariant PropEnd(payload, names, TURNS, false) ==
                Past(o, PropEnd(payload[o..], names, TURNS - turn, hasColors))
    {
      var p := ReadProp(payload[o..], names);
      if p.None? { return None; }
      if p.value.End? { return Some((o + 8, hasColors)); }
      PropEndStep(payload[o..], names, TURNS - turn, hasColors, p.value);
      DropDrop(payload, o, p.value.length);
      o := o + p.value.length;
      if p.value.flag.Some? { hasColors := p.value.flag.value; }
      turn := turn + 1;
    }
    return None;
  }

  // ----- the search for the reference skeleton -----

  datatype Verdict = Rejected | Accepted | Crashed

  /** One bone entry: a name index and a parent index in range. */
  predicate BoneOk(b: Data, nameCount: nat, at: nat, n: int)
    requires at + 12 <= |b|
  {
    0 <= DecI32(b[at..]) < nameCount && -1 <= DecI32(b[at + 8..]) < n
  }

  /** The loop over a candidate's bones, from bone `i` on; reading past the end is a crash. */
  function Bones(b: Data, nameCount: nat, at: nat, n: nat, i: nat): Verdict
    requires i <= n
    decreases n - i
  {
    if i == n then Accepted
    else if at + 4 + 12 * i + 12 > |b| then Crashed
    else if !BoneOk(b, nameCount, at + 4 + 12 * i, n) then Rejected
    else Bones(b, nameCount, at, n, i + 1)
  }

  predicate Plausible(b: Data, at: nat)
    requires at + 16 <= |b|
  {
    2 <= DecI32(b[at..]) <= 400 && DecI32(b[at + 12..]) == -1
  }

  function Judge(b: Data, nameCount: nat, at: nat): Verdict
    requires at + 16 <= |b|
  {
    if Plausible(b, at) then Bones(b, nameCount, at, DecI32(b[at..]), 0) else Rejected
  }

  /** The first offset in a range that is not rejected; `None` when there is none or it crashes. */
  function Search(b: Data, nameCount: nat, lo: nat, hi: nat): (r: Option<nat>)
    requires hi + 16 <= |b|
    ensures r.Some? ==> lo <= r.value < hi && Judge(b, nameCount, r.value) == Accepted
    ensures r.Some? ==> forall o :: lo <= o < r.value ==> Judge(b, nameCount, o) == Rejected
    decreases hi - lo
  {
    if lo >= hi then None
    else
      match Judge(b, nameCount, lo)
      case Accepted => Some(lo)
      case Crashed => None
      case Rejected => Search(b, nameCount, lo + 1, hi)
  }

  /** `min(start + 40000, len(payload) - 16)`. */
  function SearchEnd(b: Data, start: nat): (hi: nat)
    ensures |b| >= 16 ==> hi + 16 <= |b|
  {
    if |b| < 16 then 0 else if start + 40000 < |b| - 16 then start + 40000 else |b| - 16
  }

  /** `find_refskel`. */
  function FindRefskel(b: Data, nameCount: nat, start: nat): (r: Option<nat>)
    ensures r.Some? ==> start <= r.value && r.value + 16 <= |b|
  {
    if |b| < 16 then None else Search(b, nameCount, start, SearchEnd(b, start))
  }

  /** One candidate: the two header words, then the loop over its bones. */
  method JudgeAt(b: Data, nameCount: nat, o: nat) returns (v: Verdict)
    requires o + 16 <= |b|
    ensures v == Judge(b, nameCount, o)
  {
    hide BoneOk;
    var n := DecI32(b[o..]);
    if !(2 <= n <= 400) { return Rejected; }
    if DecI32(b[o + 12..]) != -1 { return Rejected; }
    var i := 0;
    while i < n
      invariant 0 <= i <= n && Judge(b, nameCount, o) == Bones(b, nameCount, o, n, i)
    {
      var at := o + 4 + i * 12;
      if at + 12 > |b| { return Crashed; }
      if !BoneOk(b, nameCount, at, n) { return Rejected; }
      i := i + 1;
    }
    return Accepted;
  }

  /** The search loop. */
  method LocateRefskel(b: Data, nameCount: nat, start: nat) returns (r: Option<nat>)
    ensures r == FindRefskel(b, nameCount, start)
  {
    hide Judge;
    if |b| < 16 { return None; }
    var hi := SearchEnd(b, start);
    var o := start;
    while o < hi
      invariant start <= o
      invariant Search(b, nameCount, o, hi) == Search(b, nameCount, start, hi)
    {
      var v := JudgeAt(b, nameCount, o);
      match v {
        case Accepted => return Some(o);
        case Crashed => return None;
        case Rejected => o := o + 1;
      }
    }
    return None;
  }

  lemma WordAgrees(b: Data, c: Data, k: nat, at: nat)
    requires Agree(b, c, k) && at + 4 <= k
    ensures DecI32(b[at..]) == DecI32(c[at..])
  {
    AgreeDrop(b, c, k, at);
    AgreeI32(b[at..], c[at..], k - at);
  }

  lemma BoneAgrees(b: Data, c: Data, k: nat, nameCount: nat, at: nat, n: nat)
    requires Agree(b, c, k) && at + 12 <= k
    ensures at + 12 <= |b| && at + 12 <= |c| && BoneOk(b, nameCount, at, n) == BoneOk(c, nameCount, at, n)
  {
    hide Agree, DecI32;
    WordAgrees(b, c, k, at);
    WordAgrees(b, c, k, at + 8);
    assert k <= |b| && k <= |c| by { AgreeSizes(b, c, k); }
  }

  lemma AgreeSizes(b: Data, c: Data, k: nat)
    requires Agree(b, c, k)
    ensures k <= |b| && k <= |c|
  {
  }

  lemma {:induction false} BonesAgree(b: Data, c: Data, k: nat, nameCount: nat, at: nat, n: nat, i: nat)
    requires Agree(b, c, k) && i <= n && at + 4 + 12 * n <= k
    ensures Bones(b, nameCount, at, n, i) == Bones(c, nameCount, at, n, i)
    decreases n - i
  {
    hide BoneOk, Agree;
    if i < n {
      BoneAgrees(b, c, k, nameCount, at + 4 + 12 * i, n);
      BonesAgree(b, c, k, nameCount, at, n, i + 1);
    }
  }

  /** A candidate is judged by at most 4 + 12 * 400 bytes. */
  lemma JudgeAgrees(b: Data, c: Data, k: nat, nameCount: nat, at: nat)
    requires Agree(b, c, k) && at + 16 <= k
    requires Plausible(b, at) ==> at + 4 + 12 * DecI32(b[at..]) <= k
    ensures Judge(c, nameCount, at) == Judge(b, nameCount, at)
  {
    WordAgrees(b, c, k, at);
    WordAgrees(b, c, k, at + 12);
    if Plausible(b, at) { BonesAgree(b, c, k, nameCount, at, DecI32(b[at..]), 0); }
  }

  lemma {:induction false} SearchSkips(b: Data, nameCount: nat, lo: nat, hi: nat, r: nat)
    requires hi + 16 <= |b| && lo <= r < hi && Judge(b, nameCount, r) == Accepted
    requires forall o :: lo <= o < r ==> Judge(b, nameCount, o) == Rejected
    ensures Search(b, nameCount, lo, hi) == Some(r)
    decreases r - lo
  {
    if lo < r { SearchSkips(b, nameCount, lo + 1, hi, r); }
  }

  /** How far past the skeleton's start a rejected earlier candidate may have read. */
  const REACH: nat := 3 + 12 * 400

  /**
   * The search is stable: bytes that agree up to `REACH` past the skeleton's start, and over the
   * skeleton's own bones, have their skeleton found at the same offset.
   */
  lemma SearchIsStable(b: Data, c: Data, nameCount: nat, start: nat, rs: nat, k: nat)
    requires FindRefskel(b, nameCount, start) == Some(rs)
    requires Agree(b, c, k) && rs + REACH <= k && rs + 4 + 12 * DecI32(b[rs..]) <= k
    ensures FindRefskel(c, nameCount, start) == Some(rs)
  {
    forall o | start <= o <= rs ensures Judge(c, nameCount, o) == Judge(b, nameCount, o) {
      JudgeAgrees(b, c, k, nameCount, o);
    }
    SearchSkips(c, nameCount, start, SearchEnd(c, start), rs);
  }

  /** Every candidate from `lo` up to `hi` is rejected. */
  ghost predicate NoneBefore(b: Data, nameCount: nat, lo: nat, hi: nat) {
    forall o :: lo <= o < hi ==> RejectedAt(b, nameCount, o)
  }

  ghost predicate RejectedAt(b: Data, nameCount: nat, o: nat) {
    o + 16 <= |b| && Judge(b, nameCount, o) == Rejected
  }

  lemma NoneBeforeAt(b: Data, nameCount: nat, lo: nat, hi: nat, o: nat)
    requires NoneBefore(b, nameCount, lo, hi) && lo <= o < hi
    ensures o + 16 <= |b| && Judge(b, nameCount, o) == Rejected
  {
    hide Judge;
    assert RejectedAt(b, nameCount, o);
  }

  /** The search ends at a good candidate in its range exactly when every earlier one is rejected. */
  lemma FoundIff(b: Data, nameCount: nat, start: nat, rs: nat)
    requires start <= rs < SearchEnd(b, start) && rs + 16 <= |b| && Judge(b, nameCount, rs) == Accepted
    ensures FindRefskel(b, nameCount, start) == Some(rs) <==> NoneBefore(b, nameCount, start, rs)
  {
    hide Judge;
    if NoneBefore(b, nameCount, start, rs) {
      forall o | start <= o < rs ensures Judge(b, nameCount, o) == Rejected {
        NoneBeforeAt(b, nameCount, start, rs, o);
      }
      SearchSkips(b, nameCount, start, SearchEnd(b, start), rs);
    } else {
      var o: nat :| start <= o < rs && !RejectedAt(b, nameCount, o);
    }
  }

  lemma {:induction false} BonesRejectedStays(b: Data, c: Data, nameCount: nat, at: nat, n: nat, i: nat)
    requires Agree(b, c, |b|) && i <= n && Bones(b, nameCount, at, n, i) == Rejected
    ensures Bones(c, nameCount, at, n, i) == Rejected
    decreases n - i
  {
    hide BoneOk, Agree;
    BoneAgrees(b, c, |b|, nameCount, at + 4 + 12 * i, n);
    if BoneOk(b, nameCount, at + 4 + 12 * i, n) { BonesRejectedStays(b, c, nameCount, at, n, i + 1); }
  }

  /** A candidate that some bytes reject is rejected whatever follows them. */
  lemma RejectedStays(b: Data, c: Data, nameCount: nat, o: nat)
    requires Agree(b, c, |b|) && o + 16 <= |b| && Judge(b, nameCount, o) == Rejected
    ensures o + 16 <= |c| && Judge(c, nameCount, o) == Rejected
  {
    hide Bones, DecI32;
    WordAgrees(b, c, |b|, o);
    WordAgrees(b, c, |b|, o + 12);
    if Plausible(b, o) { BonesRejectedStays(b, c, nameCount, o, DecI32(b[o..]), 0); }
  }

  lemma NoneBeforeStays(b: Data, c: Data, nameCount: nat, lo: nat, hi: nat)
    requires Agree(b, c, |b|) && NoneBefore(b, nameCount, lo, hi)
    ensures NoneBefore(c, nameCount, lo, hi)
  {
    hide Agree, Judge;
    forall o | lo <= o < hi ensures RejectedAt(c, nameCount, o) {
      NoneBeforeAt(b, nameCount, lo, hi, o);
      RejectedStays(b, c, nameCount, o);
    }
  }

  // ----- why the search needs that much -----

  /**
   * A candidate of 400 bones at the start, another of two bones at 24, and zeros, but for one byte
   * near the end of the first candidate's last bone.
   */
  function DecoyByte(last: Byte, i: nat): Byte {
    if i == 0 then 0x90 else if i == 1 then 1 else if i == 24 then 2
    else if 12 <= i < 16 || 36 <= i < 40 then 0xFF else if i == 4803 then last else 0
  }

  function Decoys(last: Byte): (b: Data)
    ensures |b| == 4820
  {
    seq(4820, i requires 0 <= i < 4820 => DecoyByte(last, i))
  }

  lemma DecoyWord(last: Byte, at: nat)
    requires at + 4 <= 4820
    ensures var b := Decoys(last);
      forall k :: 0 <= k < 4 ==> b[at..][k] == DecoyByte(last, at + k)
  {
  }

  /** All bones of the first candidate but its last are good. */
  lemma DecoyBone(last: Byte, nameCount: nat, i: nat)
    requires nameCount > 0 && i < 399
    ensures BoneOk(Decoys(last), nameCount, 4 + 12 * i, 400)
  {
    hide Decoys;
    DecoyWord(last, 4 + 12 * i);
    DecoyWord(last, 12 + 12 * i);
  }

  /** And its last one is when the byte is zero. */
  lemma DecoyLastBone(last: Byte, nameCount: nat)
    requires nameCount > 0 && (last == 0 || last == 0x80)
    ensures BoneOk(Decoys(last), nameCount, 4792, 400) <==> last == 0
  {
    hide Decoys;
    DecoyWord(last, 4792);
    DecoyWord(last, 4800);
  }

  lemma {:induction false} DecoyBones(last: Byte, nameCount: nat, i: nat)
    requires nameCount > 0 && (last == 0 || last == 0x80) && i <= 399
    ensures Bones(Decoys(last), nameCount, 0, 400, i) == if last == 0 then Accepted else Rejected
    decreases 400 - i
  {
    hide BoneOk, Decoys;
    if i < 399 {
      DecoyBone(last, nameCount, i);
      DecoyBones(last, nameCount, i + 1);
    } else {
      DecoyLastBone(last, nameCount);
      assert Bones(Decoys(last), nameCount, 0, 400, 400) == Accepted;
    }
  }

  lemma DecoyHeads(last: Byte, nameCount: nat, o: nat)
    requires nameCount > 0 && o <= 24
    ensures var b := Decoys(last);
      && (0 < o < 24 ==> !Plausible(b, o))
      && (o == 0 ==> Plausible(b, o) && DecI32(b[o..]) == 400)
      && (o == 24 ==> Plausible(b, o) && DecI32(b[o..]) == 2)
  {
    hide Decoys;
    DecoyWord(last, o);
    DecoyWord(last, o + 12);
  }

  lemma SecondDecoy(last: Byte, nameCount: nat)
    requires nameCount > 0
    ensures Judge(Decoys(last), nameCount, 24) == Accepted
  {
    hide Decoys, BoneOk;
    var b := Decoys(last);
    DecoyHeads(last, nameCount, 24);
    assert BoneOk(b, nameCount, 28, 2) && BoneOk(b, nameCount, 40, 2) by { SecondDecoyBones(last, nameCount); }
    assert Bones(b, nameCount, 24, 2, 2) == Accepted;
    assert Bones(b, nameCount, 24, 2, 1) == Accepted;
  }

  lemma SecondDecoyBones(last: Byte, nameCount: nat)
    requires nameCount > 0
    ensures BoneOk(Decoys(last), nameCount, 28, 2) && BoneOk(Decoys(last), nameCount, 40, 2)
  {
    hide Decoys;
    DecoyWord(last, 28);
    DecoyWord(last, 36);
    DecoyWord(last, 40);
    DecoyWord(last, 48);
  }

  /**
   * Agreement over the skeleton itself is not enough: these two files agree on their first 4803
   * bytes, far beyond the two bones of the skeleton that the search finds in the one at 24, and in the
   * other it finds a skeleton at 0.
   */
  lemma SearchNeedsReach(nameCount: nat)
    requires nameCount > 0
    ensures var b, c := Decoys(0x80), Decoys(0);
      && Agree(b, c, 4803)
      && FindRefskel(b, nameCount, 0) == Some(24) && DecI32(b[24..]) == 2
      && FindRefskel(c, nameCount, 0) == Some(0)
  {
    var b, c := Decoys(0x80), Decoys(0);
    assert Agree(b, c, 4803);
    hide Decoys, Agree, Bones, Plausible;
    DecoyHeads(0, nameCount, 0);
    DecoyBones(0, nameCount, 0);
    SearchSkips(c, nameCount, 0, SearchEnd(c, 0), 0);
    forall o | 0 <= o < 24 ensures Judge(b, nameCount, o) == Rejected {
      DecoyHeads(0x80, nameCount, o);
      DecoyBones(0x80, nameCount, 0);
    }
    DecoyHeads(0x80, nameCount, 24);
    SecondDecoy(0x80, nameCount);
    SearchSkips(b, nameCount, 0, SearchEnd(b, 0), 24);
  }
}
