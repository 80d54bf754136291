/**
 * Why the splice of tools/client_model/ue_cook.py needs a long skeleton: a template of two bones whose
 * spliced payload has its skeleton found elsewhere, among the materials.
 */
module ShortSkeleton {
  import opened Results
  import opened Bytes
  import opened SkelMesh
  import opened MeshSplice
  import opened MeshCook

  const NAMES: seq<Tag> := [NoneTag, Other("root"), Other("pelvis")]

  /**
   * The property block's terminator, strip flags and bounds; from 38 on, materials that look like a
   * skeleton of ten bones; at 62 the skeleton of two bones with one pose; one level of detail; and at
   * 156 a required bone list of one bone. All else is zero.
   */
  function TemplateByte(i: nat): Byte {
    if i == 38 then 10 else if i == 62 then 2 else if i == 90 || i == 142 || i == 156 then 1
    else if 50 <= i < 54 || 74 <= i < 78 then 0xFF else if i == 161 then 0x80 else 0
  }

  function Template(): (b: Data)
    ensures |b| == 288 && forall i :: 0 <= i < 288 ==> b[i] == TemplateByte(i)
  {
    seq(288, i requires 0 <= i < 288 => TemplateByte(i))
  }

  lemma TemplateWord(at: nat)
    requires at + 4 <= 288
    ensures var b := Template(); |b[at..]| >= 4 && forall k :: 0 <= k < 4 ==> b[at..][k] == TemplateByte(at + k)
  {
    hide Template;
    var b := Template();
    forall k | 0 <= k < 4 ensures b[at..][k] == TemplateByte(at + k) { assert b[at..][k] == b[at + k]; }
  }

  // ----- where the search ends in the template -----

  /** The first nine of the ten bones that the materials seem to hold are good. */
  lemma NineBones(i: nat)
    requires i < 9
    ensures BoneOk(Template(), 3, 42 + 12 * i, 10)
  {
    hide Template;
    TemplateWord(42 + 12 * i);
    TemplateWord(50 + 12 * i);
  }

  lemma TenthBone()
    ensures !BoneOk(Template(), 3, 150, 10)
  {
    hide Template;
    TemplateWord(158);
  }

  lemma {:induction false} GoodSoFar(b: Data, at: nat, n: nat, i: nat, k: nat)
    requires i <= k <= n && at + 4 + 12 * n <= |b|
    requires forall j :: i <= j < k ==> BoneOk(b, 3, at + 4 + 12 * j, n)
    ensures Bones(b, 3, at, n, i) == Bones(b, 3, at, n, k)
    decreases k - i
  {
    hide BoneOk;
    if i < k { GoodSoFar(b, at, n, i + 1, k); }
  }

  lemma MaterialsRejected()
    ensures Judge(Template(), 3, 38) == Rejected
  {
    hide Template, BoneOk;
    var b := Template();
    HeadWords(38);
    forall j | 0 <= j < 9 ensures BoneOk(b, 3, 38 + 4 + 12 * j, 10) { NineBones(j); }
    GoodSoFar(b, 38, 10, 0, 9);
    TenthBone();
    assert Bones(b, 3, 38, 10, 9) == Rejected;
  }

  /** Between the two no offset looks like a skeleton. */
  lemma HeadWords(o: nat)
    requires 38 <= o <= 62
    ensures o == 38 ==> Plausible(Template(), o) && DecI32(Template()[o..]) == 10
    ensures o == 62 ==> Plausible(Template(), o) && DecI32(Template()[o..]) == 2
    ensures 38 < o < 62 ==> !Plausible(Template(), o)
  {
    hide Template;
    TemplateWord(o);
    TemplateWord(o + 12);
  }

  lemma SkeletonAccepted()
    ensures Judge(Template(), 3, 62) == Accepted
  {
    hide Template, BoneOk;
    var b := Template();
    HeadWords(62);
    forall j | 0 <= j < 2 ensures BoneOk(b, 3, 62 + 4 + 12 * j, 2) { SkeletonBones(j); }
    GoodSoFar(b, 62, 2, 0, 2);
    assert Bones(b, 3, 62, 2, 2) == Accepted;
  }

  lemma SkeletonBones(j: nat)
    requires j < 2
    ensures BoneOk(Template(), 3, 62 + 4 + 12 * j, 2)
  {
    hide Template;
    TemplateWord(66 + 12 * j);
    TemplateWord(74 + 12 * j);
  }

  lemma TemplateSearch()
    ensures FindRefskel(Template(), 3, 38) == Some(62)
  {
    hide Template, Bones;
    var b := Template();
    forall o | 38 <= o < 62 ensures Judge(b, 3, o) == Rejected {
      HeadWords(o);
      if o == 38 { MaterialsRejected(); }
    }
    SkeletonAccepted();
    SearchSkips(b, 3, 38, SearchEnd(b, 38), 62);
  }

  lemma TemplateProps(b: Data)
    requires |b| >= 8 && b[..8] == Template()[..8]
    ensures PropEnd(b, NAMES, TURNS, false) == Some((8, false))
  {
    hide Template;
    forall i | 0 <= i < 8 ensures b[i] == 0 { assert b[i] == b[..8][i] == Template()[..8][i] == Template()[i]; }
    assert DecI32(b) == 0;
    assert ReadProp(b, NAMES) == Some(End);
  }

  // ----- the template's parts -----

  ghost predicate AllZero(s: Data) { forall i :: 0 <= i < |s| ==> s[i] == 0 }

  function Width(it: Item): nat {
    match it
    case Fixed(n) => n
    case Bulk => 8
    case _ => 4
  }

  function Widths(items: seq<Item>): nat { if items == [] then 0 else Width(items[0]) + Widths(items[1..]) }

  function BodyWidth(body: Body): nat {
    match body
    case Items(items) => Widths(items)
    case Counted(_) => 4
  }

  function SlotWidths(slots: seq<Slot>): nat {
    if slots == [] then 0 else BodyWidth(slots[0].body) + SlotWidths(slots[1..])
  }

  predicate NoOne(body: Body) { body.Items? ==> forall i :: 0 <= i < |body.items| ==> body.items[i] != One }

  lemma ZeroWord(s: Data)
    requires AllZero(s) && |s| >= 4
    ensures DecI32(s) == 0
  {
  }

  lemma ZeroDrop(s: Data, n: nat)
    requires AllZero(s) && n <= |s|
    ensures AllZero(s[n..])
  {
  }

  lemma ZeroItem(it: Item, s: Data)
    requires AllZero(s) && Width(it) <= |s| && it != One
    ensures Extent(it, s) == Some(Width(it))
  {
    if it.Arr? {
      ZeroWord(s);
      ArrayBytesIsProduct(0, it.elem);
    } else if it.Bulk? {
      ZeroWord(s);
      ZeroDrop(s, 4);
      ZeroWord(s[4..]);
      BulkBytesIsProduct(0, 0);
    }
  }

  lemma {:induction false} ZeroItems(items: seq<Item>, s: Data)
    requires AllZero(s) && Widths(items) <= |s| && forall i :: 0 <= i < |items| ==> items[i] != One
    ensures ExtentAll(items, s) == Some(Widths(items))
    decreases |items|
  {
    hide Extent, Width, AllZero;
    if items != [] {
      ZeroItem(items[0], s);
      ZeroDrop(s, Width(items[0]));
      ZeroItems(items[1..], s[Width(items[0])..]);
    }
  }

  lemma ZeroBody(body: Body, s: Data)
    requires AllZero(s) && BodyWidth(body) <= |s| && NoOne(body)
    ensures BodyExtent(body, s) == Some(BodyWidth(body))
  {
    if body.Items? {
      ZeroItems(body.items, s);
    } else {
      ZeroWord(s);
      assert Repeat(0, body.unit, s[4..]) == Some(0);
    }
  }

  lemma {:induction false} ZeroCut(slots: seq<Slot>, s: Data) returns (parts: seq<Data>)
    requires AllZero(s) && SlotWidths(slots) <= |s|
    requires forall i :: 0 <= i < |slots| ==> NoOne(slots[i].body)
    ensures Cut(slots, s) == Some(parts)
    decreases |slots|
  {
    hide BodyExtent, BodyWidth, AllZero, NoOne;
    if slots == [] {
      parts := [s];
    } else {
      var n := BodyWidth(slots[0].body);
      ZeroBody(slots[0].body, s);
      ZeroDrop(s, n);
      var more := ZeroCut(slots[1..], s[n..]);
      CutStep(slots, s, n, more);
      parts := [s[..n]] + more;
    }
  }

  /** The slots behind the required bones. */
  function Behind(): seq<Slot> { LISTS[1..] + Buffers(false) }

  lemma {:induction false} SlotsAppend(a: seq<Slot>, b: seq<Slot>)
    ensures SlotWidths(a + b) == SlotWidths(a) + SlotWidths(b)
    decreases |a|
  {
    hide BodyWidth;
    if a == [] {
      assert a + b == b;
    } else {
      assert (a + b)[0] == a[0] && (a + b)[1..] == a[1..] + b;
      SlotsAppend(a[1..], b);
    }
  }

  lemma OneSlot(x: Slot)
    ensures SlotWidths([x]) == BodyWidth(x.body)
  {
    hide BodyWidth;
    assert [x][1..] == [];
  }

  lemma FourSlots(w: Slot, x: Slot, y: Slot, z: Slot)
    ensures SlotWidths([w, x, y, z]) == BodyWidth(w.body) + BodyWidth(x.body) + BodyWidth(y.body) + BodyWidth(z.body)
  {
    hide BodyWidth;
    OneSlot(w);
    OneSlot(x);
    OneSlot(y);
    OneSlot(z);
    SlotsAppend([w], [x]);
    SlotsAppend([w] + [x], [y]);
    SlotsAppend([w] + [x] + [y], [z]);
    assert [w, x, y, z] == [w] + [x] + [y] + [z];
  }

  lemma ListWidths()
    ensures SlotWidths(LISTS[1..]) == 14
  {
    assert LISTS[1..] == [LISTS[1], LISTS[2], LISTS[3], LISTS[4]];
    FourSlots(LISTS[1], LISTS[2], LISTS[3], LISTS[4]);
    assert Widths([Arr(2)]) == 4 && Widths([Fixed(4)]) == 4 && Widths([Fixed(2)]) == 2;
  }

  lemma BufferWidths()
    ensures SlotWidths(Buffers(false)) == 112
  {
    var b := Buffers(false);
    assert b == [b[0], b[1], b[2], b[3]] + [b[4]];
    FourSlots(b[0], b[1], b[2], b[3]);
    OneSlot(b[4]);
    SlotsAppend([b[0], b[1], b[2], b[3]], [b[4]]);
    assert Widths([Fixed(1), Bulk]) == 9 && Widths([Fixed(8), Bulk]) == 16;
    assert Widths([Fixed(18), Bulk, Bulk]) == 34 && Widths([Fixed(22), Bulk, Fixed(6), Bulk]) == 44;
  }

  lemma BehindIsPlain()
    ensures forall i :: 0 <= i < |Behind()| ==> NoOne(Behind()[i].body)
  {
  }

  /** The skeleton: two bones, one pose, an empty name map. */
  lemma SkeletonExtent()
    ensures BodyExtent(SKELETON[0].body, Template()[62..]) == Some(76)
  {
    hide Template, DecI32;
    var s := Template()[62..];
    assert SKELETON[0].body.items == [Arr(12), Arr(40), Arr(12)];
    TemplateCount(62, 2);
    TemplateCount(90, 1);
    TemplateCount(134, 0);
    ArrayBytesIsProduct(2, 12);
    ArrayBytesIsProduct(1, 40);
    ArrayBytesIsProduct(0, 12);
    DropDrop(Template(), 62, 28);
    DropDrop(Template(), 90, 44);
    assert Extent(Arr(12), s) == Some(28);
    assert Extent(Arr(40), s[28..]) == Some(44);
    assert Extent(Arr(12), s[28..][44..]) == Some(4);
    ThreeItems(Arr(12), Arr(40), Arr(12), s, 28, 44, 4);
  }

  lemma TemplateCount(at: nat, n: int)
    requires at + 4 <= 288 && 0 <= n < 256 && TemplateByte(at) as int == n
    requires TemplateByte(at + 1) == 0 && TemplateByte(at + 2) == 0 && TemplateByte(at + 3) == 0
    ensures |Template()[at..]| >= 4 && DecI32(Template()[at..]) == n
  {
    hide Template;
    TemplateWord(at);
  }

  lemma ThreeItems(x: Item, y: Item, z: Item, s: Data, i: nat, j: nat, k: nat)
    requires Extent(x, s) == Some(i) && Extent(y, s[i..]) == Some(j) && Extent(z, s[i..][j..]) == Some(k)
    ensures ExtentAll([x, y, z], s) == Some(i + j + k)
  {
    hide Extent;
    OneItem(z, s[i..][j..], k);
    ExtentAllStep([y, z], s[i..], j);
    ExtentAllStep([x, y, z], s, i);
    assert [x, y, z][1..] == [y, z] && [y, z][1..] == [z];
  }

  lemma OneItem(it: Item, s: Data, n: nat)
    requires Extent(it, s) == Some(n)
    ensures ExtentAll([it], s) == Some(n)
  {
    hide Extent;
    ExtentAllStep([it], s, n);
    assert [it][1..] == [];
  }

  /** The cooked flag, one level of detail, its header, one required bone. */
  lemma HeaderExtents()
    ensures BodyExtent(SKELETON[1].body, Template()[138..]) == Some(4)
    ensures BodyExtent(SKELETON[2].body, Template()[142..]) == Some(4)
    ensures BodyExtent(SKELETON[3].body, Template()[146..]) == Some(10)
    ensures BodyExtent(LISTS[0].body, Template()[156..]) == Some(6)
  {
    hide Template, DecI32;
    TemplateCount(142, 1);
    TemplateCount(156, 1);
    ArrayBytesIsProduct(1, 2);
    OneItem(Fixed(4), Template()[138..], 4);
    OneItem(One, Template()[142..], 4);
    OneItem(Fixed(10), Template()[146..], 10);
    OneItem(Arr(2), Template()[156..], 6);
  }

  lemma TemplateTail()
    ensures AllZero(Template()[162..]) && |Template()[162..]| == 126
  {
    hide Template;
    forall i | 0 <= i < 126 ensures Template()[162..][i] == 0 { assert Template()[162..][i] == Template()[i + 162]; }
  }

  /** One slot cut off, and the rest. */
  lemma CutAt(slots: seq<Slot>, b: Data, at: nat, n: nat, more: seq<Data>) returns (parts: seq<Data>)
    requires slots != [] && at + n <= |b| && BodyExtent(slots[0].body, b[at..]) == Some(n)
    requires Cut(slots[1..], b[at + n..]) == Some(more)
    ensures Cut(slots, b[at..]) == Some(parts) && parts == [b[at..at + n]] + more
  {
    hide BodyExtent, Cut;
    DropDrop(b, at, n);
    assert b[at..][..n] == b[at..at + n];
    CutStep(slots, b[at..], n, more);
    parts := [b[at..at + n]] + more;
  }

  lemma LayoutFromTheBack()
    ensures var l := Layout(false);
      && l[5..] == Behind() && l[4..][1..] == l[5..] && l[3..][1..] == l[4..] && l[2..][1..] == l[3..]
      && l[1..][1..] == l[2..] && l[0..] == l && l[4] == LISTS[0]
      && l[0] == SKELETON[0] && l[1] == SKELETON[1] && l[2] == SKELETON[2] && l[3] == SKELETON[3]
  {
  }

  lemma TemplateCut() returns (parts: seq<Data>)
    ensures Cut(Layout(false), Template()[62..]) == Some(parts)
    ensures parts[..4] == [Template()[62..138], Template()[138..142], Template()[142..146], Template()[146..156]]
  {
    hide Template, BodyExtent, Cut, Layout, Behind, AllZero, SlotWidths, TemplateByte, NoOne;
    var b, l := Template(), Layout(false);
    SkeletonExtent();
    HeaderExtents();
    TemplateTail();
    LayoutFromTheBack();
    ListWidths();
    BufferWidths();
    assert SlotWidths(Behind()) == 126 by { BehindWidth(); }
    BehindIsPlain();
    var p5 := ZeroCut(l[5..], b[162..]);
    var p4 := CutAt(l[4..], b, 156, 6, p5);
    var p3 := CutAt(l[3..], b, 146, 10, p4);
    var p2 := CutAt(l[2..], b, 142, 4, p3);
    var p1 := CutAt(l[1..], b, 138, 4, p2);
    parts := CutAt(l, b, 62, 76, p1);
  }

  lemma BehindWidth()
    ensures SlotWidths(Behind()) == 126
  {
    ListWidths();
    BufferWidths();
    hide BodyWidth;
    SlotsAppend(LISTS[1..], Buffers(false));
  }

  lemma StripOf(p: Parsed, s: Data)
    requires |p.parts| == |Labels(p.colors)| && Cut(Layout(p.colors), s) == Some(p.parts[4..])
    ensures |p.parts[12]| == 2
  {
    hide Cut, Layout, Fills;
    CutFills(Layout(p.colors), s, p.parts[4..]);
    KeptFill(p);
    StripIsTwo(p.parts[12]);
  }

  /** The template parses; its skeleton, flags and header take 94 bytes, its materials 24. */
  lemma TemplateParses() returns (p: Parsed)
    ensures Segments(Template(), NAMES) == Some(p) && !p.colors
    ensures |p.parts[0]| == 8 && |p.parts[3]| == 24 && |p.parts[12]| == 2 && !LongSkeleton(p)
    ensures Kept(p) == Template()[62..156]
  {
    hide Template, PropEnd, FindRefskel, Cut, Layout, Concat;
    var b := Template();
    TemplateProps(b);
    TemplateSearch();
    var rest := TemplateCut();
    var parts := Front(b, 8, 62) + rest;
    SegmentsOf(b, NAMES, 8, false, 62, rest, parts);
    p := Parsed(parts, false);
    assert p.parts[4..8] == rest[..4] && p.parts[4..] == rest;
    assert |p.parts[12]| == 2 by { StripOf(p, b[62..]); }
    ConcatFour(b[62..138], b[138..142], b[142..146], b[146..156]);
    assert b[62..138] + (b[138..142] + (b[142..146] + b[146..156])) == b[62..156];
  }

  // ----- the spliced payload -----

  /** The new bone list of two bones: the tenth bone in the materials becomes good. */
  lemma NewBoneList()
    ensures |EBones(2)| == 8 && EBones(2)[2..6] == [0, 0, 0, 0]
  {
    var ws := Words(Upto(2));
    assert ws == [EncU16(0), EncU16(1)];
    ConcatPair(EncU16(0), EncU16(1));
    assert EncI32(2) == [2, 0, 0, 0];
    assert EBones(2) == [2, 0, 0, 0, 0, 0, 1, 0];
  }

  lemma ConcatPair(x: Data, y: Data)
    ensures Concat([x, y]) == x + y
  {
    assert [x, y] == [x] + [y];
    ConcatCons(x, [y]);
    ConcatOne(y);
  }

  /** Behind the kept parts the spliced payload goes on with the new bone list. */
  lemma SplicedStart(p: Parsed, m: Mesh) returns (n: Data, more: Data)
    requires Segments(Template(), NAMES) == Some(p) && !p.colors && MeshFits(p, m, 2)
    requires |p.parts[0]| == 8 && |p.parts[3]| == 24 && Kept(p) == Template()[62..156]
    ensures n == Concat(NewParts(p, m, 2)) && n == Template()[..156] + (EBones(2) + more)
  {
    hide Template, Segments, Concat, EBones, ESections, Streamed, Encoded, PropEnd, FindRefskel, Cut;
    var b := Template();
    var r, rs := ParsedAs(b, NAMES, p);
    assert r == |p.parts[..4][0]| == 8;
    assert rs == r + 30 + |p.parts[..4][3]| == 62;
    n := Concat(NewParts(p, m, 2));
    var tail := [p.parts[|p.parts| - 1]];
    var lists := NewLists(p, m, 2);
    more := Concat(lists[1..] + Encoded(m, false) + tail);
    FrontTiles(b, 8, 62);
    ConcatAppend(p.parts[..4], NewRest(p, m, 2));
    var behind := lists + Encoded(m, false) + tail;
    assert NewRest(p, m, 2) == p.parts[4..8] + behind;
    ConcatAppend(p.parts[4..8], behind);
    assert behind == [EBones(2)] + (lists[1..] + Encoded(m, false) + tail);
    ConcatCons(EBones(2), lists[1..] + Encoded(m, false) + tail);
    assert n == b[..62] + (b[62..156] + (EBones(2) + more));
    assert b[..62] + b[62..156] == b[..156];
  }

  lemma SplicedAt(n: Data, more: Data)
    requires n == Template()[..156] + (EBones(2) + more)
    ensures |n| >= 164 && Agree(Template(), n, 156) && n[158..162] == [0, 0, 0, 0]
  {
    hide Template, EBones;
    NewBoneList();
    assert n[..156] == Template()[..156];
    assert n[158..162] == EBones(2)[2..6];
  }

  lemma TenthBoneGood(n: Data)
    requires |n| >= 164 && Agree(Template(), n, 156) && n[158..162] == [0, 0, 0, 0]
    ensures BoneOk(n, 3, 150, 10)
  {
    hide Template;
    TemplateWord(150);
    WordAgrees(Template(), n, 156, 150);
    forall k | 0 <= k < 4 ensures n[158..][k] == 0 { assert n[158..][k] == n[158..162][k]; }
  }

  /** In the spliced payload the search stops at the materials. */
  lemma SplicedSearch(n: Data)
    requires |n| >= 164 && Agree(Template(), n, 156) && n[158..162] == [0, 0, 0, 0]
    ensures FindRefskel(n, 3, 38) == Some(38)
  {
    hide Template, BoneOk, Agree, DecI32;
    var b := Template();
    HeadWords(38);
    WordAgrees(b, n, 156, 38);
    WordAgrees(b, n, 156, 50);
    forall j | 0 <= j < 10 ensures BoneOk(n, 3, 38 + 4 + 12 * j, 10) {
      if j < 9 {
        NineBones(j);
        BoneAgrees(b, n, 156, 3, 42 + 12 * j, 10);
      } else {
        TenthBoneGood(n);
      }
    }
    GoodSoFar(n, 38, 10, 0, 10);
    assert Bones(n, 3, 38, 10, 10) == Accepted;
    SearchSkips(n, 3, 38, SearchEnd(n, 38), 38);
  }

  /**
   * The hypothesis of the round trip is needed: this template parses, and whatever mesh is spliced into
   * it, the cooked payload is not parsed back into the parts it was put together from.
   */
  lemma ShortSkeletonBreaksSplice() returns (p: Parsed)
    ensures Segments(Template(), NAMES) == Some(p) && !LongSkeleton(p) && MeshFits(p, Mesh([], []), 2)
    ensures |p.parts| == |Labels(p.colors)| && !EarlyRejected(p, |NAMES|)
    ensures forall m :: MeshFits(p, m, 2) ==>
      Segments(Concat(NewParts(p, m, 2)), NAMES) != Some(Parsed(NewParts(p, m, 2), p.colors))
  {
    hide Template, Segments, Concat, NewParts, MeshFits, LongSkeleton, Kept, Agree, EarlyRejected;
    p := TemplateParses();
    EmptyMeshFits(p);
    forall m | MeshFits(p, m, 2)
      ensures Segments(Concat(NewParts(p, m, 2)), NAMES) != Some(Parsed(NewParts(p, m, 2), p.colors))
    {
      var n, more := SplicedStart(p, m);
      SplicedAt(n, more);
      SplicedSearch(n);
      FoundElsewhere(p, m, n);
    }
    if EarlyRejected(p, |NAMES|) { SpliceRoundTrip(Template(), NAMES, p, Mesh([], []), 2); }
  }

  lemma FoundElsewhere(p: Parsed, m: Mesh, n: Data)
    requires |p.parts| == |Labels(p.colors)| && MeshFits(p, m, 2) && |p.parts[0]| == 8 && |p.parts[3]| == 24
    requires FindRefskel(n, 3, 38) == Some(38)
    ensures Segments(n, NAMES) != Some(Parsed(NewParts(p, m, 2), p.colors))
  {
    hide Segments, MeshFits, PropEnd, FindRefskel, Cut, NewRest;
    var q := Parsed(NewParts(p, m, 2), p.colors);
    if Segments(n, NAMES) == Some(q) {
      var r, rs := ParsedAs(n, NAMES, q);
    }
  }

  /** A mesh that fits: none at all. */
  lemma EmptyMeshFits(p: Parsed)
    requires |p.parts| == |Labels(p.colors)| && !p.colors && |p.parts[12]| == 2
    ensures MeshFits(p, Mesh([], []), 2)
  {
    var m := Mesh([], []);
    var e := Encoded(m, false);
    ConcatFive(e[0], e[1], e[2], e[3], e[4]);
    ConcatCons(p.parts[12], e);
    assert e == [e[0], e[1], e[2], e[3], e[4]];
    NoParts();
    assert Words([]) == [] && Positions(m) == [] && Frames(m) == [] && Uvs(m) == [] && Weights(m) == [];
  }

  lemma ConcatFive(a: Data, b: Data, c: Data, d: Data, e: Data)
    ensures |Concat([a, b, c, d, e])| == |a| + |b| + |c| + |d| + |e|
  {
    assert [a, b, c, d, e] == [a, b, c, d] + [e];
    ConcatAppend([a, b, c, d], [e]);
    ConcatFour(a, b, c, d);
    ConcatOne(e);
  }
}
