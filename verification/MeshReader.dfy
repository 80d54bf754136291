/**
 * The independent walk of tools/client_model/ue_skelmesh.py over a cooked skeletal mesh, and its
 * agreement with the splicer's parts table: both stop at the same tail.
 */
module MeshReader {
  import opened Results
  import opened Bytes
  import opened SkelMesh
  import opened MeshSplice
  import opened MeshCook

  /** Fixed-width fields read one after another. */
  function Fields(widths: seq<nat>): (items: seq<Item>)
    ensures |items| == |widths|
  {
    seq(|widths|, i requires 0 <= i < |widths| => Fixed(widths[i]))
  }

  function Sum(widths: seq<nat>): nat {
    if widths == [] then 0 else widths[0] + Sum(widths[1..])
  }

  /** A section, field by field. */
  function ReaderSection(): seq<Item> {
    Fields([2, 2, 4, 4, 4, 1, 4, 4]) + [Arr(1), Arr(2)] + Fields([4, 4, 2, 20]) + [Arr(4), Arr(8), Fixed(4)]
  }

  /** The skeleton and the cooked flag, up to the number of levels of detail. */
  const BEFORE_LODS: seq<Slot> := [
    Slot(RefSkel, Items([Arr(12), Arr(40), Arr(12)])),
    Slot(Cooked, Items([Fixed(4)]))]

  /** One level of detail, in the order of the reader's calls. */
  function Lod(colors: bool): seq<Slot> {
    [Slot(LodHeader, Items(Fields([2, 4, 4]))),
     Slot(RequiredBones, Items([Arr(2)])),
     Slot(Sections, Counted(ReaderSection())),
     Slot(ActiveBones, Items([Arr(2)])),
     Slot(BufferSize, Items([Fixed(4)])),
     Slot(DataStrip, Items([Fixed(2)])),
     Slot(Index, Items([Fixed(1), Bulk])),
     Slot(Position, Items(Fields([4, 4]) + [Bulk])),
     Slot(VertexBuffer, Items(Fields([2, 4, 4, 4, 4]) + [Bulk, Bulk])),
     Slot(SkinWeight, Items(Fields([2, 4, 4, 4, 4, 4]) + [Bulk] + (Fields([2, 4]) + [Bulk])))]
    + (if colors then [Slot(Color, Items(Fields([2, 4, 4]) + [Bulk]))] else [])
    + [Slot(Adjacency, Items([Fixed(1), Bulk]))]
  }

  /** How many bytes the slots take off the front. */
  function Through(slots: seq<Slot>, s: Data): (r: Option<nat>)
    ensures r.Some? ==> r.value <= |s|
  {
    if slots == [] then Some(0)
    else
      var n := BodyExtent(slots[0].body, s);
      if n.None? then None else Onto(n.value, Through(slots[1..], s[n.value..]))
  }

  /** The count at the front of the slot behind the first two, or none if it is not there. */
  function CountBehindTwo(slots: seq<Slot>, s: Data): int
    requires |slots| >= 2
  {
    var n := Through(slots[..2], s);
    if n.None? || n.value + 4 > |s| then 0 else DecI32(s[n.value..])
  }

  /** One level of detail; without a section the reader has no largest influence count to report. */
  function OneLod(slots: seq<Slot>, s: Data): (r: Option<nat>)
    requires |slots| >= 2
    ensures r.Some? ==> r.value <= |s|
  {
    if CountBehindTwo(slots, s) > 0 then Through(slots, s) else None
  }

  function Lods(count: int, slots: seq<Slot>, s: Data): (r: Option<nat>)
    requires |slots| >= 2
    ensures r.Some? ==> r.value <= |s|
    decreases if count < 0 then 0 else count
  {
    if count <= 0 then Some(0)
    else
      var n := OneLod(slots, s);
      if n.None? then None else Onto(n.value, Lods(count - 1, slots, s[n.value..]))
  }

  /** From the skeleton on: skeleton, flag, a count, and that many levels of detail. */
  function Region(colors: bool, s: Data): (r: Option<nat>)
    ensures r.Some? ==> r.value <= |s|
  {
    var n := Through(BEFORE_LODS, s);
    if n.None? || n.value + 4 > |s| then None
    else Onto(n.value + 4, Lods(DecI32(s[n.value..]), Lod(colors), s[n.value + 4..]))
  }

  /** Where the reader stops. */
  function ReaderEnd(payload: Data, names: seq<Tag>): Option<nat> {
    var props := PropEnd(payload, names, TURNS, false);
    if props.None? then None
    else
      var rs := FindRefskel(payload, |names|, props.value.0 + 30);
      if rs.None? then None else Onto(rs.value, Region(props.value.1, payload[rs.value..]))
  }

  // ----- the cursor object -----

  class Cur {
    const b: Data
    var o: nat

    constructor (b: Data, o: nat)
      ensures this.b == b && this.o == o
    {
      this.b, this.o := b, o;
    }

    /** One part; `o` is left where it was when the part is cut short. */
    method Part(body: Body) returns (ok: bool)
      requires o <= |b|
      modifies this
      ensures o <= |b|
      ensures var end := Onto(old(o), BodyExtent(body, b[old(o)..])); if ok then end == Some(o) else end.None?
    {
      var next := SkipBody(b, o, body);
      if next.None? { return false; }
      o := next.value;
      return true;
    }

    method Parts(slots: seq<Slot>) returns (ok: bool)
      requires o <= |b|
      modifies this
      ensures o <= |b|
      ensures var end := Onto(old(o), Through(slots, b[old(o)..])); if ok then end == Some(o) else end.None?
    {
      hide BodyExtent, Through;
      NoSlots(slots);
      var i := 0;
      while i < |slots|
        invariant 0 <= i <= |slots| && o <= |b|
        invariant Onto(old(o), Through(slots, b[old(o)..])) == Onto(o, Through(slots[i..], b[o..]))
      {
        ghost var at := o;
        ok := Part(slots[i].body);
        if !ok {
          ThroughFails(slots[i..], b[at..]);
          return;
        }
        ThroughStep(b, slots[i..], at, o);
        assert slots[i..][1..] == slots[i + 1..];
        i := i + 1;
      }
      return true;
    }

    /** One level of detail: its parts, and at the end the largest of its sections' influence counts. */
    method Level(slots: seq<Slot>) returns (ok: bool)
      requires o <= |b| && |slots| >= 2
      modifies this
      ensures o <= |b|
      ensures var end := Onto(old(o), OneLod(slots, b[old(o)..])); if ok then end == Some(o) else end.None?
    {
      hide Through, DecI32;
      ghost var start := o;
      assert slots[..2] + slots[2..] == slots;
      ThroughAppend(slots[..2], slots[2..], b[start..]);
      ok := Parts(slots[..2]);
      if !ok { return; }
      if o + 4 > |b| { return false; }
      DropDrop(b, start, o - start);
      OntoOnto(start, o - start, Through(slots[2..], b[o..]));
      var sections := DecI32(b[o..]);
      ok := Parts(slots[2..]);
      if !ok { return; }
      ok := sections > 0;
    }

    /** The loop over the levels of detail. */
    method AllLods(count: int, slots: seq<Slot>) returns (ok: bool)
      requires o <= |b| && |slots| >= 2
      modifies this
      ensures o <= |b|
      ensures var end := Onto(old(o), Lods(count, slots, b[old(o)..])); if ok then end == Some(o) else end.None?
    {
      hide Through, OneLod, Lods;
      var left := count;
      NoLods(slots);
      while left > 0
        invariant left <= count && o <= |b|
        invariant Onto(old(o), Lods(count, slots, b[old(o)..])) == Onto(o, Lods(left, slots, b[o..]))
      {
        ghost var at := o;
        ok := Level(slots);
        if !ok {
          LodFails(slots, left, b[at..]);
          return;
        }
        LodsStep(b, slots, left, at, o);
        left := left - 1;
      }
      return true;
    }

    /** From the skeleton to the end of the last level of detail. */
    method ReadRegion(colors: bool) returns (ok: bool)
      requires o <= |b|
      modifies this
      ensures var end := Onto(old(o), Region(colors, b[old(o)..])); if ok then end == Some(o) else end.None?
    {
      hide Through, Lods;
      ghost var start := o;
      ok := Parts(BEFORE_LODS);
      if !ok { return; }
      if o + 4 > |b| { return false; }
      DropDrop(b, start, o - start);
      DropDrop(b, start, o + 4 - start);
      var count := DecI32(b[o..]);
      o := o + 4;
      ok := AllLods(count, Lod(colors));
    }
  }

  lemma NoSlots(slots: seq<Slot>)
    ensures forall s: Data :: Through(slots[|slots|..], s) == Some(0)
    ensures slots[0..] == slots
  {
  }

  lemma ThroughFails(slots: seq<Slot>, s: Data)
    requires slots != [] && BodyExtent(slots[0].body, s).None?
    ensures Through(slots, s).None?
  {
  }

  lemma ThroughStep(b: Data, slots: seq<Slot>, o: nat, next: nat)
    requires o <= |b| && slots != [] && Onto(o, BodyExtent(slots[0].body, b[o..])) == Some(next)
    ensures o <= next <= |b|
    ensures Onto(o, Through(slots, b[o..])) == Onto(next, Through(slots[1..], b[next..]))
  {
    hide BodyExtent;
    DropDrop(b, o, next - o);
    OntoOnto(o, next - o, Through(slots[1..], b[next..]));
  }

  lemma NoLods(slots: seq<Slot>)
    requires |slots| >= 2
    ensures forall n: int, s: Data :: n <= 0 ==> Lods(n, slots, s) == Some(0)
  {
  }

  lemma LodFails(slots: seq<Slot>, left: int, s: Data)
    requires |slots| >= 2 && 0 < left && OneLod(slots, s).None?
    ensures Lods(left, slots, s).None?
  {
    hide OneLod;
  }

  lemma LodsStep(b: Data, slots: seq<Slot>, left: int, o: nat, next: nat)
    requires o <= |b| && |slots| >= 2 && 0 < left && Onto(o, OneLod(slots, b[o..])) == Some(next)
    ensures o <= next <= |b|
    ensures Onto(o, Lods(left, slots, b[o..])) == Onto(next, Lods(left - 1, slots, b[next..]))
  {
    hide OneLod;
    DropDrop(b, o, next - o);
    OntoOnto(o, next - o, Lods(left - 1, slots, b[next..]));
  }

  /** The reader's walk; `None` where it fails. */
  method ReadMesh(payload: Data, names: seq<Tag>) returns (end: Option<nat>)
    ensures end == ReaderEnd(payload, names)
  {
    hide PropEnd, FindRefskel, Region;
    var props := PropertyBlockEnd(payload, names);
    if props.None? { return None; }
    var rs := LocateRefskel(payload, |names|, props.value.0 + 30);
    if rs.None? { return None; }
    var c := new Cur(payload, rs.value);
    var ok := c.ReadRegion(props.value.1);
    return if ok then Some(c.o) else None;
  }

  // ----- the reader and the parts table take the same bytes -----

  lemma {:induction false} FieldsAreFixed(widths: seq<nat>, s: Data)
    ensures ExtentAll(Fields(widths), s) == Extent(Fixed(Sum(widths)), s)
  {
    if widths != [] {
      assert Fields(widths)[1..] == Fields(widths[1..]);
      if widths[0] <= |s| {
        ExtentAllStep(Fields(widths), s, widths[0]);
        FieldsAreFixed(widths[1..], s[widths[0]..]);
      }
    }
  }

  lemma {:induction false} ExtentAppend(a: seq<Item>, b: seq<Item>, s: Data)
    ensures var n := ExtentAll(a, s);
      ExtentAll(a + b, s) == if n.None? then None else Onto(n.value, ExtentAll(b, s[n.value..]))
    decreases |a|
  {
    hide Extent;
    if a == [] {
      assert a + b == b && s[0..] == s;
      if ExtentAll(b, s).Some? {}
    } else {
      assert (a + b)[1..] == a[1..] + b;
      var k := Extent(a[0], s);
      if k.Some? {
        ExtentAllStep(a, s, k.value);
        ExtentAllStep(a + b, s, k.value);
        ExtentAppend(a[1..], b, s[k.value..]);
        var n := ExtentAll(a[1..], s[k.value..]);
        if n.Some? {
          DropDrop(s, k.value, n.value);
          OntoOnto(k.value, n.value, ExtentAll(b, s[k.value + n.value..]));
        }
      }
    }
  }

  /** Two item lists that always take the same bytes. */
  ghost predicate SameItems(a: seq<Item>, b: seq<Item>) { forall s: Data :: ExtentAll(a, s) == ExtentAll(b, s) }

  lemma SameAppend(a: seq<Item>, b: seq<Item>, c: seq<Item>, d: seq<Item>)
    requires SameItems(a, b) && SameItems(c, d)
    ensures SameItems(a + c, b + d)
  {
    forall s: Data ensures ExtentAll(a + c, s) == ExtentAll(b + d, s) {
      ExtentAppend(a, c, s);
      ExtentAppend(b, d, s);
    }
  }

  lemma FieldsSame(widths: seq<nat>, n: nat)
    requires Sum(widths) == n
    ensures SameItems(Fields(widths), [Fixed(n)])
  {
    hide Extent;
    forall s: Data ensures ExtentAll(Fields(widths), s) == ExtentAll([Fixed(n)], s) {
      FieldsAreFixed(widths, s);
      OneItem(Fixed(n), s);
    }
  }

  lemma OneItem(it: Item, s: Data)
    ensures ExtentAll([it], s) == Extent(it, s)
  {
    hide Extent;
    if Extent(it, s).Some? { ExtentAllStep([it], s, Extent(it, s).value); }
  }

  /** Two part bodies that always take the same bytes. */
  ghost predicate SameBody(a: Body, b: Body) { forall s: Data :: BodyExtent(a, s) == BodyExtent(b, s) }

  lemma {:induction false} SameRepeat(count: int, a: seq<Item>, b: seq<Item>, s: Data)
    requires SameItems(a, b)
    ensures Repeat(count, a, s) == Repeat(count, b, s)
    decreases if count < 0 then 0 else count
  {
    hide ExtentAll;
    if count > 0 {
      assert ExtentAll(a, s) == ExtentAll(b, s);
      if ExtentAll(a, s).Some? { SameRepeat(count - 1, a, b, s[ExtentAll(a, s).value..]); }
    }
  }

  lemma SameCounted(a: seq<Item>, b: seq<Item>)
    requires SameItems(a, b)
    ensures SameBody(Counted(a), Counted(b))
  {
    forall s: Data ensures BodyExtent(Counted(a), s) == BodyExtent(Counted(b), s) {
      if |s| >= 4 { SameRepeat(DecI32(s), a, b, s[4..]); }
    }
  }

  lemma SectionSame()
    ensures SameBody(Counted(ReaderSection()), Counted(SECTION))
  {
    hide ExtentAll, Extent, BodyExtent;
    FieldsSame([2, 2, 4, 4, 4, 1, 4, 4], 25);
    FieldsSame([4, 4, 2, 20], 30);
    var a, b, c, d := Fields([2, 2, 4, 4, 4, 1, 4, 4]), [Arr(1), Arr(2)],
      Fields([4, 4, 2, 20]), [Arr(4), Arr(8), Fixed(4)];
    SameAppend(a, [Fixed(25)], b, b);
    SameAppend(a + b, [Fixed(25)] + b, c, [Fixed(30)]);
    SameAppend(a + b + c, [Fixed(25)] + b + [Fixed(30)], d, d);
    assert [Fixed(25)] + b + [Fixed(30)] + d == SECTION;
    SameCounted(ReaderSection(), SECTION);
  }

  lemma FieldsThen(widths: seq<nat>, n: nat, rest: seq<Item>)
    requires Sum(widths) == n
    ensures SameItems(Fields(widths) + rest, [Fixed(n)] + rest)
  {
    hide ExtentAll;
    FieldsSame(widths, n);
    SameAppend(Fields(widths), [Fixed(n)], rest, rest);
  }

  lemma SkinSame()
    ensures SameItems(Fields([2, 4, 4, 4, 4, 4]) + [Bulk] + (Fields([2, 4]) + [Bulk]),
                      [Fixed(22), Bulk, Fixed(6), Bulk])
  {
    hide ExtentAll;
    FieldsThen([2, 4, 4, 4, 4, 4], 22, [Bulk]);
    FieldsThen([2, 4], 6, [Bulk]);
    SameAppend(Fields([2, 4, 4, 4, 4, 4]) + [Bulk], [Fixed(22)] + [Bulk], Fields([2, 4]) + [Bulk], [Fixed(6)] + [Bulk]);
    assert [Fixed(22)] + [Bulk] + ([Fixed(6)] + [Bulk]) == [Fixed(22), Bulk, Fixed(6), Bulk];
  }

  /** The splicer's slots of one level of detail. */
  function Later(colors: bool): seq<Slot> { [SKELETON[3]] + LISTS + Buffers(colors) }

  ghost predicate SameSlots(a: seq<Slot>, b: seq<Slot>) {
    |a| == |b| && forall i :: 0 <= i < |a| ==> SameBody(a[i].body, b[i].body)
  }

  lemma LodSame(colors: bool)
    ensures SameSlots(Lod(colors), Later(colors))
  {
    hide ExtentAll, Extent, Repeat;
    SectionSame();
    FieldsThen([2, 4, 4], 10, []);
    assert Fields([2, 4, 4]) + [] == Fields([2, 4, 4]) && [Fixed(10)] + [] == [Fixed(10)];
    FieldsThen([4, 4], 8, [Bulk]);
    FieldsThen([2, 4, 4, 4, 4], 18, [Bulk, Bulk]);
    FieldsThen([2, 4, 4], 10, [Bulk]);
    SkinSame();
    var a, b := Lod(colors), Later(colors);
    assert [Fixed(8)] + [Bulk] == [Fixed(8), Bulk] && [Fixed(10)] + [Bulk] == [Fixed(10), Bulk];
    assert [Fixed(18)] + [Bulk, Bulk] == [Fixed(18), Bulk, Bulk];
    forall i | 0 <= i < |a| ensures SameBody(a[i].body, b[i].body) {}
  }

  lemma {:induction false} ThroughSame(a: seq<Slot>, b: seq<Slot>, s: Data)
    requires SameSlots(a, b)
    ensures Through(a, s) == Through(b, s)
    decreases |a|
  {
    hide BodyExtent;
    if a != [] {
      assert SameBody(a[0].body, b[0].body);
      assert BodyExtent(a[0].body, s) == BodyExtent(b[0].body, s);
      var n := BodyExtent(a[0].body, s);
      forall i | 0 <= i < |a[1..]| ensures SameBody(a[1..][i].body, b[1..][i].body) {
        assert SameBody(a[i + 1].body, b[i + 1].body);
      }
      if n.Some? { ThroughSame(a[1..], b[1..], s[n.value..]); }
    }
  }

  /** A cut goes through its slots and leaves the last piece. */
  lemma {:induction false} CutThrough(slots: seq<Slot>, s: Data, parts: seq<Data>)
    requires Cut(slots, s) == Some(parts)
    ensures Through(slots, s) == Some(|s| - |parts[|slots|]|)
    decreases |slots|
  {
    hide BodyExtent;
    if slots != [] {
      var n, more := CutSplit(slots, s);
      CutThrough(slots[1..], s[n..], more);
    }
  }

  lemma {:induction false} ThroughAppend(a: seq<Slot>, b: seq<Slot>, s: Data)
    ensures var n := Through(a, s);
      Through(a + b, s) == if n.None? then None else Onto(n.value, Through(b, s[n.value..]))
    decreases |a|
  {
    hide BodyExtent;
    if a == [] {
      assert a + b == b && s[0..] == s;
    } else {
      assert (a + b)[1..] == a[1..] + b;
      var k := BodyExtent(a[0].body, s);
      if k.Some? {
        ThroughAppend(a[1..], b, s[k.value..]);
        var n := Through(a[1..], s[k.value..]);
        if n.Some? {
          DropDrop(s, k.value, n.value);
          OntoOnto(k.value, n.value, Through(b, s[k.value + n.value..]));
        }
      }
    }
  }

  lemma PrefixSame(a: seq<Slot>, b: seq<Slot>, n: nat)
    requires SameSlots(a, b) && n <= |a|
    ensures SameSlots(a[..n], b[..n])
  {
  }

  /** The number of sections where the table has them. */
  function SectionsIn(colors: bool, s: Data): int {
    var n := Through(Layout(colors)[..5], s);
    if n.None? || n.value + 4 > |s| then 0 else DecI32(s[n.value..])
  }

  /** With one level of detail that has a section, the region is the table's slots one after another. */
  lemma RegionIsLayout(colors: bool, s: Data)
    requires Through(Layout(colors), s).Some?
    ensures Region(colors, s) == if SectionsIn(colors, s) > 0 then Through(Layout(colors), s) else None
  {
    hide BodyExtent, Through, Lod, Later, LISTS, Buffers, DecI32;
    var one := [SKELETON[2]];
    LayoutParts(colors);
    ThroughAppend(BEFORE_LODS, one + Later(colors), s);
    ThroughAppend(BEFORE_LODS, one + Later(colors)[..2], s);
    var k := Through(BEFORE_LODS, s).value;
    var t := s[k..];
    ThroughAppend(one, Later(colors), t);
    ThroughAppend(one, Later(colors)[..2], t);
    CountIsOne(t);
    DropDrop(s, k, 4);
    var u := s[k + 4..];
    LodSame(colors);
    ThroughSame(Lod(colors), Later(colors), u);
    PrefixSame(Lod(colors), Later(colors), 2);
    ThroughSame(Lod(colors)[..2], Later(colors)[..2], u);
    JustOne(Lod(colors), u);
    OntoOnto(k, 4, Through(Later(colors), u));
    var n := Through(Lod(colors)[..2], u);
    if n.Some? { DropDrop(s, k + 4, n.value); }
  }

  lemma LayoutParts(colors: bool)
    ensures Layout(colors) == BEFORE_LODS + ([SKELETON[2]] + Later(colors)) && |Later(colors)| >= 2
    ensures Layout(colors)[..5] == BEFORE_LODS + ([SKELETON[2]] + Later(colors)[..2])
  {
  }

  /** The slot of the level count takes four bytes and admits only one level. */
  lemma CountIsOne(t: Data)
    requires Through([SKELETON[2]], t).Some?
    ensures |t| >= 4 && DecI32(t) == 1 && Through([SKELETON[2]], t) == Some(4)
  {
    hide ExtentAll, Extent, DecI32;
    OneSlot(SKELETON[2], t);
    OneItem(One, t);
    OneExtent(t);
  }

  lemma OneSlot(slot: Slot, s: Data)
    ensures Through([slot], s) == BodyExtent(slot.body, s)
  {
    hide BodyExtent;
    assert [slot][1..] == [];
    var n := BodyExtent(slot.body, s);
    if n.Some? { assert Through([], s[n.value..]) == Some(0); }
  }

  lemma OneExtent(t: Data)
    ensures Extent(One, t).Some? ==> |t| >= 4 && DecI32(t) == 1 && Extent(One, t) == Some(4)
  {
    hide DecI32;
  }

  lemma JustOne(slots: seq<Slot>, s: Data)
    requires |slots| >= 2
    ensures Lods(1, slots, s) == OneLod(slots, s)
  {
    hide OneLod;
    var n := OneLod(slots, s);
    if n.Some? { assert Lods(0, slots, s[n.value..]) == Some(0); }
  }

  /** The `k`-th piece of a cut begins where the slots before it end. */
  lemma {:induction false} PieceAt(slots: seq<Slot>, s: Data, parts: seq<Data>, k: nat)
    requires Cut(slots, s) == Some(parts) && k < |slots|
    ensures var n := Through(slots[..k], s); n.Some? && parts[k] <= s[n.value..]
    decreases |slots|
  {
    hide BodyExtent;
    var n, more := CutSplit(slots, s);
    if k == 0 {
      assert s[0..] == s;
    } else {
      PieceAt(slots[1..], s[n..], more, k - 1);
      assert slots[..k][1..] == slots[1..][..k - 1];
      var at := Through(slots[..k][1..], s[n..]).value;
      DropDrop(s, n, at);
    }
  }

  /** The table's sections part starts with the number of sections. */
  lemma SectionsCounted(colors: bool, s: Data, parts: seq<Data>)
    requires Cut(Layout(colors), s) == Some(parts)
    ensures |parts[5]| >= 4 && SectionsIn(colors, s) == DecI32(parts[5])
  {
    hide Through, Cut, DecI32, Repeat;
    PieceAt(Layout(colors), s, parts, 5);
    CutFills(Layout(colors), s, parts);
    SectionsSlot(colors);
    assert Fills(Layout(colors)[5].body, parts[5]);
    var t := s[Through(Layout(colors)[..5], s).value..];
    assert t == parts[5] + t[|parts[5]|..];
    I32Prefix(parts[5], t[|parts[5]|..]);
  }

  lemma SectionsSlot(colors: bool)
    ensures Layout(colors)[5] == Slot(Sections, Counted(SECTION))
  {
  }

  /**
   * Where the splicer parses a payload, the reader stops exactly where the tail begins, unless there
   * is no section: then it fails.
   */
  lemma ReaderStopsAtTail(payload: Data, names: seq<Tag>, p: Parsed)
    requires Segments(payload, names) == Some(p)
    ensures |p.parts[9]| >= 4
    ensures ReaderEnd(payload, names)
      == if DecI32(p.parts[9]) > 0 then Some(|payload| - |p.parts[|p.parts| - 1]|) else None
  {
    hide PropEnd, FindRefskel, Cut, Through, Region, Segments, SectionsIn, DecI32;
    var r, rs := ParsedAs(payload, names, p);
    CutThrough(Layout(p.colors), payload[rs..], p.parts[4..]);
    RegionIsLayout(p.colors, payload[rs..]);
    SectionsCounted(p.colors, payload[rs..], p.parts[4..]);
    assert p.parts[4..][5] == p.parts[9];
  }

  /** After the splice there is a section, and the independent reader reaches the same kept tail. */
  lemma ReaderAcceptsSplice(payload: Data, names: seq<Tag>, p: Parsed, m: Mesh, bones: nat)
    requires Segments(payload, names) == Some(p) && EarlyRejected(p, |names|)
    requires MeshFits(p, m, bones) && AllPacked(m)
    ensures var n := Concat(NewParts(p, m, bones));
      ReaderEnd(n, names) == Some(|n| - |p.parts[|p.parts| - 1]|)
  {
    hide Segments, ReaderEnd, DecI32;
    SpliceRoundTrip(payload, names, p, m, bones);
    ReaderStopsAtTail(Concat(NewParts(p, m, bones)), names, Parsed(NewParts(p, m, bones), p.colors));
    SectionCounts(m, bones);
  }
}
