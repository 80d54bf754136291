/**
 * The splice of tools/client_model/ue_cook.py: the encoded buffers of a new mesh in the layout the
 * parts table asks for, put between the parts of the template that are kept.
 */
module MeshCook {
  import opened Results
  import opened Bytes
  import opened SkelMesh
  import opened MeshSplice

  // ----- encoders -----

  /** Two bytes, little-endian; only the low sixteen bits are stored. */
  function EncU16(v: nat): (b: Data)
    ensures |b| == 2
  {
    [v % 0x100, v / 0x100 % 0x100]
  }

  function U16At(b: Data): nat
    requires |b| >= 2
  {
    b[0] as int + 0x100 * b[1] as int
  }

  lemma U16RoundTrip(v: nat)
    ensures U16At(EncU16(v)) == v % 0x1_0000
  {
    var q := v / 0x100;
    var low := 0x100 * (q % 0x100) + v % 0x100;
    assert v == 0x1_0000 * (q / 0x100) + low;
    ModIs(v, q / 0x100, low);
  }

  lemma ModIs(v: nat, q: nat, r: nat)
    requires v == 0x1_0000 * q + r && r < 0x1_0000
    ensures v % 0x1_0000 == r
  {
    assert v / 0x1_0000 == q;
  }

  function Words(xs: seq<nat>): seq<Data> { seq(|xs|, i requires 0 <= i < |xs| => EncU16(xs[i])) }

  /** A counted bulk array. */
  function BulkOf(es: int, count: int, data: Data): (b: Data)
    requires InI32(es) && InI32(count)
    ensures |b| == 8 + |data|
  {
    EncI32(es) + EncI32(count) + data
  }

  /** One vertex as its bytes: position, tangent frame, texture coordinates; and its bone. */
  datatype Vertex = Vertex(pos: Data, frame: Data, uv: Data, bone: nat)

  predicate Packed(v: Vertex) { |v.pos| == 12 && |v.frame| == 8 && |v.uv| == 4 }

  datatype Mesh = Mesh(verts: seq<Vertex>, idx: seq<nat>)

  ghost predicate AllPacked(m: Mesh) { forall i :: 0 <= i < |m.verts| ==> Packed(m.verts[i]) }

  /** Editor data present, no class data. */
  const STRIP: Data := [1, 0]

  function Positions(m: Mesh): seq<Data> { seq(|m.verts|, i requires 0 <= i < |m.verts| => m.verts[i].pos) }
  function Frames(m: Mesh): seq<Data> { seq(|m.verts|, i requires 0 <= i < |m.verts| => m.verts[i].frame) }
  function Uvs(m: Mesh): seq<Data> { seq(|m.verts|, i requires 0 <= i < |m.verts| => m.verts[i].uv) }

  /** One influence, full weight; the bone index keeps its low eight bits. */
  function Weight(bone: nat): (b: Data)
    ensures |b| == 8
  {
    [bone % 0x100, 0, 0, 0, 255, 0, 0, 0]
  }

  function Weights(m: Mesh): seq<Data> { seq(|m.verts|, i requires 0 <= i < |m.verts| => Weight(m.verts[i].bone)) }

  function Whites(n: nat): seq<Data> { seq(n, i => [255, 255, 255, 255]) }

  /** Small enough for the 32-bit counts that are stored. */
  predicate CountsFit(m: Mesh) { InI32(|m.idx|) && InI32(8 * |m.verts|) }

  function EIndex(m: Mesh): Data
    requires CountsFit(m)
  {
    [2] + BulkOf(2, |m.idx|, Concat(Words(m.idx)))
  }

  function EPosition(m: Mesh): Data
    requires CountsFit(m)
  {
    (EncI32(12) + EncI32(|m.verts|)) + BulkOf(12, |m.verts|, Concat(Positions(m)))
  }

  function EVertexBuffer(m: Mesh): Data
    requires CountsFit(m)
  {
    (STRIP + EncI32(1) + EncI32(|m.verts|) + EncI32(0) + EncI32(0))
      + (BulkOf(8, |m.verts|, Concat(Frames(m))) + BulkOf(4, |m.verts|, Concat(Uvs(m))))
  }

  function ESkinWeight(m: Mesh): Data
    requires CountsFit(m)
  {
    (STRIP + EncU32(0) + EncU32(4) + EncU32(4 * |m.verts|) + EncU32(|m.verts|) + EncU32(0))
      + (BulkOf(1, 8 * |m.verts|, Concat(Weights(m))) + ((STRIP + EncI32(0)) + BulkOf(4, 0, [])))
  }

  function EColor(m: Mesh): Data
    requires CountsFit(m)
  {
    (STRIP + EncI32(4) + EncI32(|m.verts|)) + BulkOf(4, |m.verts|, Concat(Whites(|m.verts|)))
  }

  function EAdjacency(): Data { [2] + BulkOf(2, 0, []) }

  function Upto(n: nat): seq<nat> { seq(n, i requires 0 <= i < n => i) }

  /** Every bone of the skeleton, in order. */
  function EBones(bones: nat): Data
    requires bones <= 400
  {
    EncI32(bones) + Concat(Words(Upto(bones)))
  }

  function SectionHead(tris: nat): (b: Data)
    requires InI32(tris)
    ensures |b| == 25
  {
    STRIP + [0, 0] + EncI32(0) + EncI32(tris) + EncI32(0) + [0] + EncI32(1) + EncU32(0)
  }

  function SectionTail(nv: nat): (b: Data)
    requires InI32(nv)
    ensures |b| == 30
  {
    EncI32(nv) + EncI32(1) + [255, 255] + seq(16, i => 0) + EncI32(-1)
  }

  /** One section over all triangles and vertices, mapped to every bone. */
  function ESection(m: Mesh, bones: nat): Data
    requires CountsFit(m) && bones <= 400
  {
    SectionHead(|m.idx| / 3) + (EncI32(0) + (EBones(bones) + (SectionTail(|m.verts|)
      + (EncI32(0) + (EncI32(0) + EncI32(0))))))
  }

  function ESections(m: Mesh, bones: nat): Data
    requires CountsFit(m) && bones <= 400
  {
    EncI32(1) + ESection(m, bones)
  }

  // ----- each encoding fills its slot -----

  lemma FillCons(it: Item, items: seq<Item>, a: Data, b: Data, all: seq<Item>)
    requires Extent(it, a) == Some(|a|) && ExtentAll(items, b) == Some(|b|) && all == [it] + items
    ensures ExtentAll(all, a + b) == Some(|a| + |b|)
  {
    hide Extent;
    assert a[..|a|] == a && (a + b)[..|a|] == a && (a + b)[|a|..] == b;
    ExtentIsLocal(it, a, a + b, |a|);
    ExtentAllStep(all, a + b, |a|);
    assert all[1..] == items;
  }

  lemma FillOne(it: Item, a: Data)
    requires Extent(it, a) == Some(|a|)
    ensures ExtentAll([it], a) == Some(|a|)
  {
    hide Extent;
    ExtentAllStep([it], a, |a|);
  }

  lemma FixedFills(n: nat, a: Data)
    requires |a| == n
    ensures Extent(Fixed(n), a) == Some(|a|)
  {
  }

  lemma {:induction false} ConcatLength(parts: seq<Data>, k: nat)
    requires forall i :: 0 <= i < |parts| ==> |parts[i]| == k
    ensures |Concat(parts)| == ArrayBytes(|parts|, k)
  {
    if parts == [] {
      ArrayBytesIsProduct(0, k);
    } else {
      ConcatLength(parts[1..], k);
      ArrayBytesNext(|parts| - 1, k);
    }
  }

  lemma {:induction false} ArrayBytesNext(n: int, k: nat)
    ensures ArrayBytes(n + 1, k) == ArrayBytes(n, k) + k
  {
    if k > 0 { ArrayBytesNext(n, k - 1); }
  }

  lemma BulkFills(es: nat, count: nat, data: Data)
    requires InI32(es) && InI32(count) && |data| == ArrayBytes(count, es)
    ensures Extent(Bulk, BulkOf(es, count, data)) == Some(|BulkOf(es, count, data)|)
  {
    hide EncI32, DecI32, ArrayBytes;
    var b := BulkOf(es, count, data);
    var more := EncI32(count) + data;
    assert b == EncI32(es) + more && b[4..] == more;
    I32RoundTrip(es, more);
    I32RoundTrip(count, data);
    assert DecI32(b) == es && DecI32(b[4..]) == count && |b| == 8 + ArrayBytes(count, es);
    assert ArrayBytes(count, es) >= 0;
  }

  lemma PartsFill(es: nat, parts: seq<Data>, count: nat)
    requires InI32(es) && InI32(count) && |parts| == count
    requires forall i :: 0 <= i < |parts| ==> |parts[i]| == es
    ensures Extent(Bulk, BulkOf(es, count, Concat(parts))) == Some(|BulkOf(es, count, Concat(parts))|)
  {
    ConcatLength(parts, es);
    BulkFills(es, count, Concat(parts));
  }

  lemma ArrFills(elem: nat, count: nat, data: Data)
    requires InI32(count) && |data| == ArrayBytes(count, elem)
    ensures Extent(Arr(elem), EncI32(count) + data) == Some(4 + |data|)
  {
    hide EncI32, DecI32, ArrayBytes;
    I32RoundTrip(count, data);
  }

  lemma EmptyFills(elem: nat)
    ensures Extent(Arr(elem), EncI32(0)) == Some(4)
  {
    ArrayBytesIsProduct(0, elem);
    ArrFills(elem, 0, []);
    assert EncI32(0) + [] == EncI32(0);
  }

  lemma IndexFills(m: Mesh)
    requires CountsFit(m)
    ensures Fills(Items([Fixed(1), Bulk]), EIndex(m))
  {
    hide Extent, BulkOf, ExtentAll, Words, Concat;
    var b := BulkOf(2, |m.idx|, Concat(Words(m.idx)));
    WordsAreTwo(m.idx);
    PartsFill(2, Words(m.idx), |m.idx|);
    FixedFills(1, [2]);
    FillOne(Bulk, b);
    FillCons(Fixed(1), [Bulk], [2], b, [Fixed(1), Bulk]);
  }

  lemma WordsAreTwo(xs: seq<nat>)
    ensures |Words(xs)| == |xs| && forall i :: 0 <= i < |xs| ==> |Words(xs)[i]| == 2
  {
  }

  lemma PositionFills(m: Mesh)
    requires CountsFit(m) && AllPacked(m)
    ensures Fills(Items([Fixed(8), Bulk]), EPosition(m))
  {
    hide Extent, BulkOf, ExtentAll, Concat;
    var b := BulkOf(12, |m.verts|, Concat(Positions(m)));
    PartsFill(12, Positions(m), |m.verts|);
    var head := EncI32(12) + EncI32(|m.verts|);
    FixedFills(8, head);
    FillOne(Bulk, b);
    FillCons(Fixed(8), [Bulk], head, b, [Fixed(8), Bulk]);
  }

  lemma VertexBufferFills(m: Mesh)
    requires CountsFit(m) && AllPacked(m)
    ensures Fills(Items([Fixed(18), Bulk, Bulk]), EVertexBuffer(m))
  {
    hide Extent, BulkOf, ExtentAll, Concat;
    var head := STRIP + EncI32(1) + EncI32(|m.verts|) + EncI32(0) + EncI32(0);
    var a, b := BulkOf(8, |m.verts|, Concat(Frames(m))), BulkOf(4, |m.verts|, Concat(Uvs(m)));
    PartsFill(8, Frames(m), |m.verts|);
    PartsFill(4, Uvs(m), |m.verts|);
    FixedFills(18, head);
    FillOne(Bulk, b);
    FillCons(Bulk, [Bulk], a, b, [Bulk, Bulk]);
    FillCons(Fixed(18), [Bulk, Bulk], head, a + b, [Fixed(18), Bulk, Bulk]);
  }

  lemma EmptyBulkFills(es: nat)
    requires InI32(es)
    ensures Extent(Bulk, BulkOf(es, 0, [])) == Some(8)
  {
    ArrayBytesIsProduct(0, es);
    BulkFills(es, 0, []);
  }

  lemma WeightsFill(m: Mesh)
    requires CountsFit(m)
    ensures var b := BulkOf(1, 8 * |m.verts|, Concat(Weights(m))); Extent(Bulk, b) == Some(|b|)
  {
    hide Extent, Concat;
    ConcatLength(Weights(m), 8);
    ArrayBytesIsProduct(|m.verts|, 8);
    ArrayBytesIsProduct(8 * |m.verts|, 1);
    BulkFills(1, 8 * |m.verts|, Concat(Weights(m)));
  }

  lemma SkinWeightFills(m: Mesh)
    requires CountsFit(m)
    ensures Fills(Items([Fixed(22), Bulk, Fixed(6), Bulk]), ESkinWeight(m))
  {
    hide Extent, BulkOf, ExtentAll, Concat, Weights;
    var head := STRIP + EncU32(0) + EncU32(4) + EncU32(4 * |m.verts|) + EncU32(|m.verts|) + EncU32(0);
    var a := BulkOf(1, 8 * |m.verts|, Concat(Weights(m)));
    var mid, b := STRIP + EncI32(0), BulkOf(4, 0, []);
    WeightsFill(m);
    EmptyBulkFills(4);
    FixedFills(22, head);
    FixedFills(6, mid);
    FillOne(Bulk, b);
    FillCons(Fixed(6), [Bulk], mid, b, [Fixed(6), Bulk]);
    FillCons(Bulk, [Fixed(6), Bulk], a, mid + b, [Bulk, Fixed(6), Bulk]);
    FillCons(Fixed(22), [Bulk, Fixed(6), Bulk], head, a + (mid + b), [Fixed(22), Bulk, Fixed(6), Bulk]);
  }

  lemma ColorFills(m: Mesh)
    requires CountsFit(m)
    ensures Fills(Items([Fixed(10), Bulk]), EColor(m))
  {
    hide Extent, BulkOf, ExtentAll, Concat;
    var head := STRIP + EncI32(4) + EncI32(|m.verts|);
    var b := BulkOf(4, |m.verts|, Concat(Whites(|m.verts|)));
    PartsFill(4, Whites(|m.verts|), |m.verts|);
    FixedFills(10, head);
    FillOne(Bulk, b);
    FillCons(Fixed(10), [Bulk], head, b, [Fixed(10), Bulk]);
  }

  lemma AdjacencyFills()
    ensures Fills(Items([Fixed(1), Bulk]), EAdjacency())
  {
    hide Extent, BulkOf, ExtentAll;
    var b := BulkOf(2, 0, []);
    EmptyBulkFills(2);
    FixedFills(1, [2]);
    FillOne(Bulk, b);
    FillCons(Fixed(1), [Bulk], [2], b, [Fixed(1), Bulk]);
  }

  lemma BonesExtent(bones: nat)
    requires bones <= 400
    ensures Extent(Arr(2), EBones(bones)) == Some(|EBones(bones)|)
  {
    hide Extent, EncI32, Concat, Words;
    WordsAreTwo(Upto(bones));
    ConcatLength(Words(Upto(bones)), 2);
    ArrFills(2, bones, Concat(Words(Upto(bones))));
  }

  lemma BonesFill(bones: nat)
    requires bones <= 400
    ensures Fills(Items([Arr(2)]), EBones(bones))
  {
    hide Extent, ExtentAll, EBones;
    BonesExtent(bones);
    FillOne(Arr(2), EBones(bones));
  }

  lemma SectionFills(m: Mesh, bones: nat)
    requires CountsFit(m) && bones <= 400
    ensures ExtentAll(SECTION, ESection(m, bones)) == Some(|ESection(m, bones)|)
  {
    hide Extent, ExtentAll, EBones, SectionHead, SectionTail, EncI32;
    var zero := EncI32(0);
    EmptyFills(4);
    EmptyFills(8);
    FixedFills(4, zero);
    FillOne(Fixed(4), zero);
    FillCons(Arr(8), [Fixed(4)], zero, zero, [Arr(8), Fixed(4)]);
    FillCons(Arr(4), [Arr(8), Fixed(4)], zero, zero + zero, [Arr(4), Arr(8), Fixed(4)]);
    SectionRest(m, bones, zero + (zero + zero));
  }

  lemma SectionRest(m: Mesh, bones: nat, last: Data)
    requires CountsFit(m) && bones <= 400 && last == EncI32(0) + (EncI32(0) + EncI32(0))
    requires ExtentAll([Arr(4), Arr(8), Fixed(4)], last) == Some(|last|)
    ensures ExtentAll(SECTION, ESection(m, bones)) == Some(|ESection(m, bones)|)
  {
    hide Extent, ExtentAll, EBones, SectionHead, SectionTail, EncI32;
    var zero, bb, head, tail := EncI32(0), EBones(bones), SectionHead(|m.idx| / 3), SectionTail(|m.verts|);
    var dup := [Arr(4), Arr(8), Fixed(4)];
    EmptyFills(1);
    BonesExtent(bones);
    FixedFills(25, head);
    FixedFills(30, tail);
    FillCons(Fixed(30), dup, tail, last, [Fixed(30)] + dup);
    FillCons(Arr(2), [Fixed(30)] + dup, bb, tail + last, [Arr(2), Fixed(30)] + dup);
    FillCons(Arr(1), [Arr(2), Fixed(30)] + dup, zero, bb + (tail + last), [Arr(1), Arr(2), Fixed(30)] + dup);
    FillCons(Fixed(25), [Arr(1), Arr(2), Fixed(30)] + dup, head, zero + (bb + (tail + last)), SECTION);
  }

  lemma SectionsFill(m: Mesh, bones: nat)
    requires CountsFit(m) && bones <= 400
    ensures Fills(Counted(SECTION), ESections(m, bones))
  {
    hide ExtentAll, ESection, EncI32, DecI32;
    var unit := ESection(m, bones);
    SectionFills(m, bones);
    I32RoundTrip(1, unit);
    assert (EncI32(1) + unit)[4..] == unit;
    RepeatStep(1, SECTION, unit, |unit|);
  }

  // ----- the splice -----

  /** The four streamed buffers, the colours when the template has them, and no adjacency. */
  function Encoded(m: Mesh, colors: bool): (parts: seq<Data>)
    requires CountsFit(m)
    ensures |parts| == |Buffers(colors)|
  {
    [EIndex(m), EPosition(m), EVertexBuffer(m), ESkinWeight(m)]
    + (if colors then [EColor(m)] else []) + [EAdjacency()]
  }

  /** Strip flags and buffers: what the stored buffer size counts. */
  function Streamed(p: Parsed, m: Mesh): Data
    requires |p.parts| == |Labels(p.colors)| && CountsFit(m)
  {
    Concat([p.parts[12]] + Encoded(m, p.colors))
  }

  predicate MeshFits(p: Parsed, m: Mesh, bones: nat)
    requires |p.parts| == |Labels(p.colors)|
  {
    CountsFit(m) && bones <= 400 && |Streamed(p, m)| < 0x1_0000_0000
  }

  function NewLists(p: Parsed, m: Mesh, bones: nat): seq<Data>
    requires |p.parts| == |Labels(p.colors)| && MeshFits(p, m, bones)
  {
    [EBones(bones), ESections(m, bones), EBones(bones), EncU32(|Streamed(p, m)|), p.parts[12]]
  }

  /** The parts from the skeleton on, after the splice. */
  function NewRest(p: Parsed, m: Mesh, bones: nat): seq<Data>
    requires |p.parts| == |Labels(p.colors)| && MeshFits(p, m, bones)
  {
    p.parts[4..8] + NewLists(p, m, bones) + Encoded(m, p.colors) + [p.parts[|p.parts| - 1]]
  }

  /** All parts after the splice: eight kept, the bone lists and buffers replaced, the tail kept. */
  function NewParts(p: Parsed, m: Mesh, bones: nat): (parts: seq<Data>)
    requires |p.parts| == |Labels(p.colors)| && MeshFits(p, m, bones)
    ensures |parts| == |Labels(p.colors)|
  {
    p.parts[..4] + NewRest(p, m, bones)
  }

  ghost predicate EachFills(slots: seq<Slot>, parts: seq<Data>) {
    |parts| == |slots| && forall i :: 0 <= i < |slots| ==> Fills(slots[i].body, parts[i])
  }

  lemma EachAppend(s: seq<Slot>, t: seq<Slot>, a: seq<Data>, b: seq<Data>)
    requires EachFills(s, a) && EachFills(t, b)
    ensures EachFills(s + t, a + b)
  {
    hide Fills;
  }

  lemma ListsFill(p: Parsed, m: Mesh, bones: nat)
    requires |p.parts| == |Labels(p.colors)| && MeshFits(p, m, bones) && |p.parts[12]| == 2
    ensures EachFills(LISTS, NewLists(p, m, bones))
  {
    hide BodyExtent, EBones, ESections, Streamed, Extent;
    BonesFill(bones);
    SectionsFill(m, bones);
    FixedBodyFills(4, EncU32(|Streamed(p, m)|));
    FixedBodyFills(2, p.parts[12]);
  }

  lemma FixedBodyFills(n: nat, a: Data)
    requires |a| == n
    ensures Fills(Items([Fixed(n)]), a)
  {
    FixedFills(n, a);
    FillOne(Fixed(n), a);
  }

  lemma BuffersFill(m: Mesh, colors: bool)
    requires CountsFit(m) && AllPacked(m)
    ensures EachFills(Buffers(colors), Encoded(m, colors))
  {
    hide BodyExtent, EIndex, EPosition, EVertexBuffer, ESkinWeight, EColor, EAdjacency;
    IndexFills(m);
    PositionFills(m);
    VertexBufferFills(m);
    SkinWeightFills(m);
    ColorFills(m);
    AdjacencyFills();
  }

  /** What parsing the template gave: the cut of everything behind the search, and its front. */
  lemma ParsedAs(payload: Data, names: seq<Tag>, p: Parsed) returns (r: nat, rs: nat)
    requires Segments(payload, names) == Some(p)
    ensures r + 30 <= rs <= |payload| && PropEnd(payload, names, TURNS, false) == Some((r, p.colors))
    ensures FindRefskel(payload, |names|, r + 30) == Some(rs)
    ensures Cut(Layout(p.colors), payload[rs..]) == Some(p.parts[4..])
    ensures p.parts[..4] == Front(payload, r, rs)
  {
    hide PropEnd, FindRefskel, Cut;
    r := PropEnd(payload, names, TURNS, false).value.0;
    rs := FindRefskel(payload, |names|, r + 30).value;
  }

  lemma SegmentsOf(payload: Data, names: seq<Tag>, r: nat, colors: bool, rs: nat, rest: seq<Data>, parts: seq<Data>)
    requires PropEnd(payload, names, TURNS, false) == Some((r, colors))
    requires FindRefskel(payload, |names|, r + 30) == Some(rs) && r + 30 <= rs <= |payload|
    requires Cut(Layout(colors), payload[rs..]) == Some(rest) && parts == Front(payload, r, rs) + rest
    ensures Segments(payload, names) == Some(Parsed(parts, colors))
  {
    hide PropEnd, FindRefskel, Cut, Front, Layout, Labels;
  }

  /** The kept bytes in front: everything up to the level-of-detail header. */
  function Kept(p: Parsed): Data
    requires |p.parts| == |Labels(p.colors)|
  {
    Concat(p.parts[4..8])
  }

  /** The template's kept skeleton, flags and header reach past what an earlier candidate may read. */
  predicate LongSkeleton(p: Parsed)
    requires |p.parts| == |Labels(p.colors)|
  {
    |Kept(p)| >= REACH
  }

  lemma ConcatSlices(payload: Data, names: seq<Tag>, p: Parsed, rs: nat)
    requires Segments(payload, names) == Some(p) && rs <= |payload| && payload[rs..] == Concat(p.parts[4..])
    ensures payload[rs..] == Kept(p) + Concat(p.parts[8..])
  {
    hide Segments;
    assert p.parts[4..] == p.parts[4..8] + p.parts[8..];
    ConcatAppend(p.parts[4..8], p.parts[8..]);
  }

  lemma NewBytes(payload: Data, p: Parsed, m: Mesh, bones: nat, rs: nat)
    requires |p.parts| == |Labels(p.colors)| && MeshFits(p, m, bones) && rs <= |payload|
    requires Concat(p.parts[..4]) == payload[..rs]
    ensures var n := Concat(NewParts(p, m, bones));
      rs <= |n| && n[..rs] == payload[..rs] && n[rs..] == Concat(NewRest(p, m, bones))
  {
    hide NewRest, Concat;
    ConcatAppend(p.parts[..4], NewRest(p, m, bones));
  }

  lemma NewRestStarts(p: Parsed, m: Mesh, bones: nat) returns (rest: Data)
    requires |p.parts| == |Labels(p.colors)| && MeshFits(p, m, bones)
    ensures Concat(NewRest(p, m, bones)) == Kept(p) + rest
  {
    hide Concat, NewLists, Encoded;
    var more := NewLists(p, m, bones) + Encoded(m, p.colors) + [p.parts[|p.parts| - 1]];
    assert NewRest(p, m, bones) == p.parts[4..8] + more;
    ConcatAppend(p.parts[4..8], more);
    rest := Concat(more);
  }

  lemma AgreeUpTo(a: Data, b: Data, rs: nat, kept: Data, x: Data, y: Data)
    requires rs <= |a| && rs <= |b| && a[..rs] == b[..rs] && a[rs..] == kept + x && b[rs..] == kept + y
    ensures Agree(a, b, rs + |kept|)
  {
    assert a == a[..rs] + (kept + x) && b == b[..rs] + (kept + y);
    assert a[..rs + |kept|] == a[..rs] + kept && b[..rs + |kept|] == b[..rs] + kept;
  }

  /** The template's bytes and the spliced bytes agree as far as parts are kept. */
  lemma SplicedAgrees(payload: Data, names: seq<Tag>, p: Parsed, m: Mesh, bones: nat, r: nat, rs: nat)
    requires Segments(payload, names) == Some(p) && MeshFits(p, m, bones)
    requires r + 30 <= rs <= |payload| && p.parts[..4] == Front(payload, r, rs)
    requires Cut(Layout(p.colors), payload[rs..]) == Some(p.parts[4..])
    ensures var n := Concat(NewParts(p, m, bones));
      rs <= |n| && Agree(payload, n, rs + |Kept(p)|) && n[rs..] == Concat(NewRest(p, m, bones))
  {
    hide Segments, NewParts, NewRest, Agree, Cut, Concat, Kept, MeshFits, Front;
    FrontTiles(payload, r, rs);
    NewBytes(payload, p, m, bones, rs);
    CutTiles(Layout(p.colors), payload[rs..], p.parts[4..]);
    ConcatSlices(payload, names, p, rs);
    var rest := NewRestStarts(p, m, bones);
    AgreeUpTo(payload, Concat(NewParts(p, m, bones)), rs, Kept(p), Concat(p.parts[8..]), rest);
  }

  /** The number of bones the reference skeleton declares. */
  function BoneCount(p: Parsed): int
    requires |p.parts| == |Labels(p.colors)| && |p.parts[4]| >= 4
  {
    DecI32(p.parts[4])
  }

  /** The kept parts still fill their slots. */
  lemma KeptFill(p: Parsed)
    requires |p.parts| == |Labels(p.colors)| && AllFill(Layout(p.colors), p.parts[4..])
    ensures EachFills(SKELETON, p.parts[4..8]) && Fills(LISTS[4].body, p.parts[12])
  {
    hide Fills;
    var slots := Layout(p.colors);
    forall i | 0 <= i < 4 ensures Fills(SKELETON[i].body, p.parts[4..8][i]) {
      assert slots[i] == SKELETON[i] && p.parts[4..][i] == p.parts[4..8][i];
    }
    assert slots[8] == LISTS[4] && p.parts[4..][8] == p.parts[12];
  }

  lemma NewRestFills(p: Parsed, m: Mesh, bones: nat)
    requires |p.parts| == |Labels(p.colors)| && AllFill(Layout(p.colors), p.parts[4..])
    requires MeshFits(p, m, bones) && AllPacked(m)
    ensures AllFill(Layout(p.colors), NewRest(p, m, bones))
  {
    hide Fills, Buffers, NewLists, Encoded;
    KeptFill(p);
    StripIsTwo(p.parts[12]);
    ListsFill(p, m, bones);
    BuffersFill(m, p.colors);
    EachAppend(SKELETON, LISTS, p.parts[4..8], NewLists(p, m, bones));
    EachAppend(SKELETON + LISTS, Buffers(p.colors), p.parts[4..8] + NewLists(p, m, bones), Encoded(m, p.colors));
  }

  lemma StripIsTwo(part: Data)
    requires Fills(LISTS[4].body, part)
    ensures |part| == 2
  {
    ExtentAllStep([Fixed(2)], part, 2);
  }

  /** The skeleton part holds all its bone entries. */
  lemma BonesInside(p: Parsed)
    requires |p.parts| == |Labels(p.colors)| && Fills(SKELETON[0].body, p.parts[4])
    ensures 4 <= |p.parts[4]| && 4 + 12 * BoneCount(p) <= |p.parts[4]|
  {
    var items := [Arr(12), Arr(40), Arr(12)];
    var n := Extent(Arr(12), p.parts[4]);
    ArrayBytesIsProduct(DecI32(p.parts[4]), 12);
    ExtentAllStep(items, p.parts[4], n.value);
  }

  lemma KeptStarts(p: Parsed)
    requires |p.parts| == |Labels(p.colors)|
    ensures |p.parts[4]| <= |Kept(p)| && Kept(p)[..|p.parts[4]|] == p.parts[4]
  {
    hide Concat;
    assert p.parts[4..8] == [p.parts[4]] + p.parts[5..8];
    ConcatCons(p.parts[4], p.parts[5..8]);
  }

  lemma PropsStay(payload: Data, names: seq<Tag>, n: Data, r: nat, colors: bool, k: nat)
    requires PropEnd(payload, names, TURNS, false) == Some((r, colors)) && r <= k && Agree(payload, n, k)
    ensures PropEnd(n, names, TURNS, false) == Some((r, colors))
  {
    hide PropEnd;
    AgreeDrop(payload, n, k, r);
    PropEndIsLocal(payload, n, names, TURNS, false, r);
  }

  lemma FrontStays(payload: Data, n: Data, r: nat, rs: nat, k: nat)
    requires r + 30 <= rs <= k && Agree(payload, n, k)
    ensures rs <= |n| && rs <= |payload| && Front(n, r, rs) == Front(payload, r, rs)
  {
    AgreeDrop(payload, n, k, rs);
    assert n[..rs] == payload[..rs];
    assert n[..r] == n[..rs][..r] && payload[..r] == payload[..rs][..r];
    assert n[r..r + 2] == n[..rs][r..r + 2] && payload[r..r + 2] == payload[..rs][r..r + 2];
    assert n[r + 2..r + 30] == n[..rs][r + 2..r + 30] && payload[r + 2..r + 30] == payload[..rs][r + 2..r + 30];
    assert n[r + 30..rs] == n[..rs][r + 30..rs] && payload[r + 30..rs] == payload[..rs][r + 30..rs];
  }

  /** The skeleton that was found opens the kept bytes. */
  lemma KeptCount(p: Parsed)
    requires |p.parts| == |Labels(p.colors)| && AllFill(Layout(p.colors), p.parts[4..])
    ensures 4 <= |Kept(p)| && 4 + 12 * DecI32(Kept(p)) <= |Kept(p)|
  {
    hide Fills, Kept, DecI32;
    KeptFill(p);
    assert Fills(SKELETON[0].body, p.parts[4..8][0]);
    BonesInside(p);
    KeptStarts(p);
    assert Kept(p) == p.parts[4] + Kept(p)[|p.parts[4]|..];
    I32Prefix(p.parts[4], Kept(p)[|p.parts[4]|..]);
  }

  /** Where the search for the skeleton starts, and where it ended. */
  function SearchStart(p: Parsed): nat
    requires |p.parts| == |Labels(p.colors)|
  {
    |p.parts[0]| + 30
  }

  function SkeletonAt(p: Parsed): nat
    requires |p.parts| == |Labels(p.colors)|
  {
    SearchStart(p) + |p.parts[3]|
  }

  lemma PartsTell(payload: Data, p: Parsed, r: nat, rs: nat)
    requires |p.parts| == |Labels(p.colors)| && r + 30 <= rs <= |payload| && p.parts[..4] == Front(payload, r, rs)
    ensures SearchStart(p) == r + 30 && SkeletonAt(p) == rs
  {
    assert p.parts[0] == p.parts[..4][0] && p.parts[3] == p.parts[..4][3];
  }

  /** The kept skeleton holds its own bones and is not near the end. */
  lemma KeptEnough(payload: Data, names: seq<Tag>, p: Parsed, rs: nat)
    requires Segments(payload, names) == Some(p) && rs <= |payload|
    requires Cut(Layout(p.colors), payload[rs..]) == Some(p.parts[4..])
    requires payload[rs..] == Kept(p) + Concat(p.parts[8..])
    requires rs + 16 <= |payload| && Plausible(payload, rs)
    ensures |Kept(p)| >= 46 && rs + 4 + 12 * DecI32(payload[rs..]) <= rs + |Kept(p)|
  {
    hide Segments, Cut, Kept, Concat, DecI32;
    CutFills(Layout(p.colors), payload[rs..], p.parts[4..]);
    KeptCount(p);
    I32Prefix(Kept(p), Concat(p.parts[8..]));
    KeptLength(p);
    KeptFill(p);
    assert Fills(SKELETON[0].body, p.parts[4..8][0]);
    BonesInside(p);
    KeptStarts(p);
    assert Kept(p) == p.parts[4] + Kept(p)[|p.parts[4]|..];
    I32Prefix(p.parts[4], Kept(p)[|p.parts[4]|..]);
  }

  /** What the cooked payload shares with the template, and where its skeleton is found if nowhere earlier. */
  lemma SplicedShares(payload: Data, names: seq<Tag>, p: Parsed, m: Mesh, bones: nat) returns (r: nat, rs: nat)
    requires Segments(payload, names) == Some(p) && MeshFits(p, m, bones)
    ensures r + 30 == SearchStart(p) <= rs == SkeletonAt(p) && rs <= |payload|
    ensures var n := Concat(NewParts(p, m, bones));
      && rs <= |n| && n[rs..] == Concat(NewRest(p, m, bones)) && Front(n, r, rs) == p.parts[..4]
      && PropEnd(n, names, TURNS, false) == Some((r, p.colors))
      && Agree(payload, n, rs + |Kept(p)|) && rs + |Kept(p)| <= |payload|
      && (FindRefskel(n, |names|, r + 30) == Some(rs) <==> NoneBefore(n, |names|, r + 30, rs))
    ensures FindRefskel(payload, |names|, r + 30) == Some(rs)
    ensures Cut(Layout(p.colors), payload[rs..]) == Some(p.parts[4..])
  {
    hide Segments, NewRest, Agree, Cut, Concat, Kept, MeshFits, Front, PropEnd, FindRefskel, Layout, AllFill,
      NoneBefore, DecI32, NewParts, Judge, Plausible, SearchEnd;
    r, rs := ParsedAs(payload, names, p);
    PartsTell(payload, p, r, rs);
    var n := Concat(NewParts(p, m, bones));
    SplicedAgrees(payload, names, p, m, bones, r, rs);
    var k := rs + |Kept(p)|;
    CutTiles(Layout(p.colors), payload[rs..], p.parts[4..]);
    ConcatSlices(payload, names, p, rs);
    AcceptedThere(payload, |names|, r + 30, rs);
    KeptEnough(payload, names, p, rs);
    AgreeSizes(payload, n, k);
    PropsStay(payload, names, n, r, p.colors, k);
    FrontStays(payload, n, r, rs, k);
    JudgeAgrees(payload, n, k, |names|, rs);
    StillInRange(payload, n, r + 30, rs);
    FoundIff(n, |names|, r + 30, rs);
  }

  lemma AcceptedThere(b: Data, nameCount: nat, start: nat, rs: nat)
    requires FindRefskel(b, nameCount, start) == Some(rs)
    ensures start <= rs < SearchEnd(b, start) && rs + 16 <= |b|
    ensures Judge(b, nameCount, rs) == Accepted && Plausible(b, rs)
    ensures NoneBefore(b, nameCount, start, rs)
  {
    hide Bones, Plausible;
  }

  lemma StillInRange(b: Data, c: Data, start: nat, rs: nat)
    requires rs < SearchEnd(b, start) && rs + 46 <= |c|
    ensures rs < SearchEnd(c, start)
  {
  }

  /**
   * Exactly when a splice is cut back: the cooked payload has the same labels, the kept parts byte for
   * byte, and the encoded parts in the replaced places, if and only if the search rejects every
   * candidate before the skeleton in the cooked payload too.
   */
  lemma SpliceRoundTripIff(payload: Data, names: seq<Tag>, p: Parsed, m: Mesh, bones: nat)
    requires Segments(payload, names) == Some(p) && MeshFits(p, m, bones) && AllPacked(m)
    ensures var n := Concat(NewParts(p, m, bones));
      Segments(n, names) == Some(Parsed(NewParts(p, m, bones), p.colors))
      <==> NoneBefore(n, |names|, SearchStart(p), SkeletonAt(p))
  {
    hide Segments, NewRest, Agree, Cut, Concat, Kept, MeshFits, Front, PropEnd, FindRefskel, Layout, AllFill, AllPacked,
      NoneBefore;
    var r, rs := SplicedShares(payload, names, p, m, bones);
    var n, q := Concat(NewParts(p, m, bones)), Parsed(NewParts(p, m, bones), p.colors);
    if NoneBefore(n, |names|, r + 30, rs) {
      CutFills(Layout(p.colors), payload[rs..], p.parts[4..]);
      NewRestFills(p, m, bones);
      CutRestores(Layout(p.colors), NewRest(p, m, bones));
      SegmentsOf(n, names, r, p.colors, rs, NewRest(p, m, bones), NewParts(p, m, bones));
    }
    if Segments(n, names) == Some(q) {
      var s, ss := ParsedAs(n, names, q);
      PartsTell(n, q, s, ss);
      assert q.parts[0] == p.parts[0] && q.parts[3] == p.parts[3];
    }
  }

  /** The kept bytes alone, up to the level-of-detail header, reject every candidate before the skeleton. */
  ghost predicate EarlyRejected(p: Parsed, nameCount: nat)
    requires |p.parts| == |Labels(p.colors)|
  {
    NoneBefore(Concat(p.parts[..8]), nameCount, SearchStart(p), SkeletonAt(p))
  }

  /** The kept bytes are the payload's up to the level-of-detail header. */
  lemma KeptFront8(payload: Data, p: Parsed, r: nat, rs: nat)
    requires |p.parts| == |Labels(p.colors)| && r + 30 <= rs <= |payload| && p.parts[..4] == Front(payload, r, rs)
    requires payload[rs..] == Kept(p) + Concat(p.parts[8..])
    ensures rs + |Kept(p)| <= |payload| && Concat(p.parts[..8]) == payload[..rs + |Kept(p)|]
  {
    hide Concat, Front;
    FrontTiles(payload, r, rs);
    ConcatAppend(p.parts[..4], p.parts[4..8]);
    assert p.parts[..8] == p.parts[..4] + p.parts[4..8];
    assert payload == payload[..rs] + (Kept(p) + Concat(p.parts[8..]));
  }

  lemma PrefixAgrees(a: Data, b: Data, k: nat)
    requires Agree(a, b, k)
    ensures Agree(a[..k], b, |a[..k]|) && Agree(a, a[..k], k)
  {
  }

  /**
   * Splice round trip: where the kept bytes reject every candidate before the skeleton, whatever mesh is
   * spliced in, cutting the cooked payload gives the same labels, the kept parts byte for byte, and the
   * encoded parts in the replaced places.
   */
  lemma SpliceRoundTrip(payload: Data, names: seq<Tag>, p: Parsed, m: Mesh, bones: nat)
    requires Segments(payload, names) == Some(p) && EarlyRejected(p, |names|)
    requires MeshFits(p, m, bones) && AllPacked(m)
    ensures Segments(Concat(NewParts(p, m, bones)), names) == Some(Parsed(NewParts(p, m, bones), p.colors))
  {
    hide Segments, NewRest, Agree, Cut, Concat, Kept, MeshFits, Front, PropEnd, FindRefskel, Layout, AllPacked, Judge,
      NewParts;
    var r, rs := SplicedShares(payload, names, p, m, bones);
    var n, k := Concat(NewParts(p, m, bones)), rs + |Kept(p)|;
    var front := Concat(p.parts[..8]);
    assert front == payload[..k] by { FrontOf(payload, names, p, r, rs); }
    PrefixAgrees(payload, n, k);
    NoneBeforeStays(front, n, |names|, r + 30, rs);
    SpliceRoundTripIff(payload, names, p, m, bones);
  }

  lemma FrontOf(payload: Data, names: seq<Tag>, p: Parsed, r: nat, rs: nat)
    requires Segments(payload, names) == Some(p) && r + 30 == SearchStart(p) && rs == SkeletonAt(p)
    ensures rs + |Kept(p)| <= |payload| && Concat(p.parts[..8]) == payload[..rs + |Kept(p)|]
  {
    hide Segments, Concat, Kept, Front, Cut, PropEnd, FindRefskel, Layout;
    var s, ss := ParsedAs(payload, names, p);
    PartsTell(payload, p, s, ss);
    CutTiles(Layout(p.colors), payload[rs..], p.parts[4..]);
    ConcatSlices(payload, names, p, rs);
    KeptFront8(payload, p, r, rs);
  }

  /** A long skeleton leaves no earlier candidate to later bytes. */
  lemma LongRejectsEarly(payload: Data, names: seq<Tag>, p: Parsed)
    requires Segments(payload, names) == Some(p) && LongSkeleton(p)
    ensures EarlyRejected(p, |names|)
  {
    hide Segments, Concat, Kept, Front, Cut, PropEnd, FindRefskel, Layout, Judge, Agree, DecI32;
    var r, rs := ParsedAs(payload, names, p);
    PartsTell(payload, p, r, rs);
    FrontOf(payload, names, p, r, rs);
    AcceptedThere(payload, |names|, r + 30, rs);
    var k := rs + |Kept(p)|;
    WholeAgrees(payload, k);
    forall o | r + 30 <= o < rs ensures RejectedAt(payload[..k], |names|, o) {
      NoneBeforeAt(payload, |names|, r + 30, rs, o);
      JudgeAgrees(payload, payload[..k], k, |names|, o);
    }
  }

  lemma WholeAgrees(a: Data, k: nat)
    requires k <= |a|
    ensures Agree(a, a[..k], k)
  {
  }

  // ----- when the kept skeleton is long enough -----

  /** The three counts of a reference skeleton: bones, poses, name map entries. */
  lemma SkeletonLength(part: Data, n: int, poses: int, mapped: int)
    requires Fills(SKELETON[0].body, part)
    requires |part| >= 4 && n == DecI32(part) && 0 <= n
    requires |part| >= 8 + 12 * n && poses == DecI32(part[4 + 12 * n..]) && 0 <= poses
    requires |part| >= 12 + 12 * n + 40 * poses && mapped == DecI32(part[8 + 12 * n + 40 * poses..]) && 0 <= mapped
    ensures |part| == 12 + 12 * n + 40 * poses + 12 * mapped
  {
    hide DecI32, ArrayBytes;
    var b := part[4 + 12 * n..];
    var c := b[4 + 40 * poses..];
    ArrayBytesIsProduct(n, 12);
    ArrayBytesIsProduct(poses, 40);
    ArrayBytesIsProduct(mapped, 12);
    DropDrop(part, 4 + 12 * n, 4 + 40 * poses);
    ExtentAllStep([Arr(12), Arr(40), Arr(12)], part, 4 + 12 * n);
    assert [Arr(12), Arr(40), Arr(12)][1..] == [Arr(40), Arr(12)];
    ExtentAllStep([Arr(40), Arr(12)], b, 4 + 40 * poses);
    assert [Arr(40), Arr(12)][1..] == [Arr(12)];
    ExtentAllStep([Arr(12)], c, 4 + 12 * mapped);
    assert [Arr(12)][1..] == [];
  }

  lemma KeptLength(p: Parsed)
    requires |p.parts| == |Labels(p.colors)| && AllFill(Layout(p.colors), p.parts[4..])
    ensures |Kept(p)| == |p.parts[4]| + 18
  {
    hide Fills, Concat;
    KeptFill(p);
    var q := p.parts[4..8];
    assert Fills(SKELETON[1].body, q[1]) && Fills(SKELETON[2].body, q[2]) && Fills(SKELETON[3].body, q[3]);
    SmallParts(q[1], q[2], q[3]);
    assert q == [q[0], q[1], q[2], q[3]];
    ConcatFour(q[0], q[1], q[2], q[3]);
  }

  lemma SmallParts(a: Data, b: Data, c: Data)
    requires Fills(SKELETON[1].body, a) && Fills(SKELETON[2].body, b) && Fills(SKELETON[3].body, c)
    ensures |a| == 4 && |b| == 4 && |c| == 10
  {
    ExtentAllStep([Fixed(4)], a, 4);
    ExtentAllStep([One], b, 4);
    ExtentAllStep([Fixed(10)], c, 10);
  }

  /** With as many poses and mapped names as bones, the hypothesis is exactly 75 bones or more. */
  lemma LongFromSeventyFive(p: Parsed, n: int)
    requires |p.parts| == |Labels(p.colors)| && AllFill(Layout(p.colors), p.parts[4..])
    requires |p.parts[4]| >= 4 && n == BoneCount(p) && 0 <= n
    requires |p.parts[4]| >= 8 + 12 * n && DecI32(p.parts[4][4 + 12 * n..]) == n
    requires |p.parts[4]| >= 12 + 52 * n && DecI32(p.parts[4][8 + 52 * n..]) == n
    ensures LongSkeleton(p) <==> n >= 75
  {
    hide Fills, Kept, DecI32;
    KeptFill(p);
    KeptLength(p);
    assert Fills(SKELETON[0].body, p.parts[4..8][0]);
    SkeletonLength(p.parts[4], n, n, n);
  }

  // ----- what the spliced parts are -----

  /** The parts kept byte for byte, and the stored buffer size against what is really streamed. */
  lemma SplicedParts(p: Parsed, m: Mesh, bones: nat)
    requires |p.parts| == |Labels(p.colors)| && MeshFits(p, m, bones)
    ensures var q := NewParts(p, m, bones);
      && (forall i :: 0 <= i < 8 || i == 12 || i == |q| - 1 ==> q[i] == p.parts[i])
      && q[8] == EBones(bones) && q[9] == ESections(m, bones) && q[10] == EBones(bones)
      && q[13..|q| - 1] == Encoded(m, p.colors)
      && |q[11]| == 4 && U32At(q[11]) == |Concat(q[12..|q| - 1])|
  {
    hide EBones, ESections, EncU32, U32At, Concat;
    var q := NewParts(p, m, bones);
    U32RoundTrip(|Streamed(p, m)|, []);
    assert EncU32(|Streamed(p, m)|) + [] == EncU32(|Streamed(p, m)|);
    assert q[12..|q| - 1] == [p.parts[12]] + Encoded(m, p.colors);
  }

  lemma {:induction false} ConcatAt(parts: seq<Data>, k: nat, i: nat)
    requires forall j :: 0 <= j < |parts| ==> |parts[j]| == k
    requires i < |parts|
    ensures 0 <= ArrayBytes(i, k) && ArrayBytes(i, k) + k <= |Concat(parts)|
    ensures Concat(parts)[ArrayBytes(i, k)..ArrayBytes(i, k) + k] == parts[i]
    decreases i
  {
    var rest := Concat(parts[1..]);
    if i == 0 {
      ArrayBytesIsProduct(0, k);
    } else {
      ConcatAt(parts[1..], k, i - 1);
      ArrayBytesNext(i - 1, k);
      assert Concat(parts) == parts[0] + rest;
      var at := ArrayBytes(i - 1, k);
      assert (parts[0] + rest)[k + at..k + at + k] == rest[at..at + k];
    }
  }

  /** Entry `i` of a bulk array of equal elements. */
  lemma BulkEntry(head: Data, es: nat, parts: seq<Data>, count: int, i: nat, rest: Data)
    requires InI32(es) && InI32(count) && i < |parts|
    requires forall j :: 0 <= j < |parts| ==> |parts[j]| == es
    ensures var b := head + (BulkOf(es, count, Concat(parts)) + rest); var at := |head| + 8 + ArrayBytes(i, es);
      0 <= at && at + es <= |b| && b[at..at + es] == parts[i]
  {
    hide ArrayBytes, EncI32, Concat;
    ConcatAt(parts, es, i);
    var b := head + (BulkOf(es, count, Concat(parts)) + rest);
    var pre := head + EncI32(es) + EncI32(count);
    assert b == pre + (Concat(parts) + rest) && |pre| == |head| + 8;
    SliceWithin(pre, Concat(parts), rest, ArrayBytes(i, es), es);
  }

  lemma SliceWithin(pre: Data, x: Data, rest: Data, at: nat, n: nat)
    requires at + n <= |x|
    ensures var b := pre + (x + rest); |pre| + at + n <= |b| && b[|pre| + at..|pre| + at + n] == x[at..at + n]
  {
  }

  /** Every stored index is the vertex number, cut to sixteen bits. */
  lemma StoredIndex(m: Mesh, i: nat)
    requires CountsFit(m) && i < |m.idx|
    ensures 9 + 2 * i + 2 <= |EIndex(m)| && U16At(EIndex(m)[9 + 2 * i..]) == m.idx[i] % 0x1_0000
  {
    hide Concat, BulkOf;
    BulkEntry([2], 2, Words(m.idx), |m.idx|, i, []);
    ArrayBytesIsProduct(i, 2);
    var b := BulkOf(2, |m.idx|, Concat(Words(m.idx)));
    assert [2] + (b + []) == EIndex(m);
    U16RoundTrip(m.idx[i]);
    assert EIndex(m)[9 + 2 * i..][..2] == EIndex(m)[9 + 2 * i..9 + 2 * i + 2];
  }

  /** All indices read back exactly if and only if none needs more than sixteen bits. */
  lemma IndicesReadBackIff(m: Mesh)
    requires CountsFit(m)
    ensures (forall i :: 0 <= i < |m.idx| ==>
               |EIndex(m)| >= 11 + 2 * i && U16At(EIndex(m)[9 + 2 * i..]) == m.idx[i])
       <==> (forall i :: 0 <= i < |m.idx| ==> m.idx[i] < 0x1_0000)
  {
    hide U16At, EIndex;
    forall i: nat | i < |m.idx|
      ensures |EIndex(m)| >= 11 + 2 * i && U16At(EIndex(m)[9 + 2 * i..]) == m.idx[i] % 0x1_0000
    {
      StoredIndex(m, i);
    }
  }

  /** A vertex's stored bone is its bone cut to eight bits, with full weight and nothing else. */
  lemma StoredBone(m: Mesh, i: nat)
    requires CountsFit(m) && i < |m.verts|
    ensures 30 + 8 * i + 8 <= |ESkinWeight(m)|
    ensures ESkinWeight(m)[30 + 8 * i..30 + 8 * i + 8] == [m.verts[i].bone % 0x100, 0, 0, 0, 255, 0, 0, 0]
  {
    hide Concat, EncU32;
    var head := STRIP + EncU32(0) + EncU32(4) + EncU32(4 * |m.verts|) + EncU32(|m.verts|) + EncU32(0);
    WeightEntry(m, i, head, (STRIP + EncI32(0)) + BulkOf(4, 0, []));
  }

  lemma WeightEntry(m: Mesh, i: nat, head: Data, rest: Data)
    requires CountsFit(m) && i < |m.verts| && |head| == 22
    ensures var b := head + (BulkOf(1, 8 * |m.verts|, Concat(Weights(m))) + rest);
      30 + 8 * i + 8 <= |b| && b[30 + 8 * i..30 + 8 * i + 8] == Weight(m.verts[i].bone)
  {
    hide EncI32, Weight;
    var w := Concat(Weights(m));
    ConcatAt(Weights(m), 8, i);
    ArrayBytesIsProduct(i, 8);
    var pre := head + EncI32(1) + EncI32(8 * |m.verts|);
    var b := head + (BulkOf(1, 8 * |m.verts|, w) + rest);
    assert b == pre + (w + rest) && |pre| == 30;
    assert b[30 + 8 * i..30 + 8 * i + 8] == w[8 * i..8 * i + 8];
  }

  /** A vertex's stored position. */
  lemma StoredPosition(m: Mesh, i: nat)
    requires CountsFit(m) && AllPacked(m) && i < |m.verts|
    ensures 16 + 12 * i + 12 <= |EPosition(m)| && EPosition(m)[16 + 12 * i..16 + 12 * i + 12] == m.verts[i].pos
  {
    hide Concat, BulkOf, EncI32;
    var head := EncI32(12) + EncI32(|m.verts|);
    var b := BulkOf(12, |m.verts|, Concat(Positions(m)));
    BulkEntry(head, 12, Positions(m), |m.verts|, i, []);
    ArrayBytesIsProduct(i, 12);
    assert head + (b + []) == EPosition(m);
  }

  /** A vertex's stored tangent frame and texture coordinates, each at its own stride. */
  lemma StoredFrameAndUv(m: Mesh, i: nat)
    requires CountsFit(m) && AllPacked(m) && i < |m.verts|
    ensures var b := EVertexBuffer(m); var at := 34 + 8 * |m.verts|;
      && 26 + 8 * i + 8 <= |b| && b[26 + 8 * i..26 + 8 * i + 8] == m.verts[i].frame
      && at + 4 * i + 4 <= |b| && b[at + 4 * i..at + 4 * i + 4] == m.verts[i].uv
  {
    hide Concat, BulkOf, EncI32;
    var n := |m.verts|;
    var head := STRIP + EncI32(1) + EncI32(n) + EncI32(0) + EncI32(0);
    var a, b := BulkOf(8, n, Concat(Frames(m))), BulkOf(4, n, Concat(Uvs(m)));
    BulkEntry(head, 8, Frames(m), n, i, b);
    ArrayBytesIsProduct(i, 8);
    ConcatLength(Frames(m), 8);
    ArrayBytesIsProduct(n, 8);
    BulkEntry(head + a, 4, Uvs(m), n, i, []);
    ArrayBytesIsProduct(i, 4);
    assert head + (a + b) == (head + a) + (b + []);
  }

  /** The bone list names every bone once, in order. */
  lemma BoneListIsIdentity(bones: nat, i: nat)
    requires bones <= 400 && i < bones
    ensures 4 + 2 * i + 2 <= |EBones(bones)| && DecI32(EBones(bones)) == bones
    ensures U16At(EBones(bones)[4 + 2 * i..]) == i
  {
    hide Concat, EncI32, DecI32;
    var w := Words(Upto(bones));
    I32RoundTrip(bones, Concat(w));
    ConcatAt(w, 2, i);
    ArrayBytesIsProduct(i, 2);
    U16RoundTrip(i);
    assert EBones(bones)[4 + 2 * i..][..2] == Concat(w)[2 * i..2 * i + 2];
  }

  /** The one section holds a third as many triangles as there are indices, every bone and every vertex. */
  lemma SectionCounts(m: Mesh, bones: nat)
    requires CountsFit(m) && bones <= 400
    ensures var b := ESections(m, bones); var nv := 33 + |EBones(bones)|;
      && nv + 4 <= |b| && DecI32(b) == 1 && DecI32(b[12..]) == |m.idx| / 3
      && b[33..nv] == EBones(bones) && DecI32(b[nv..]) == |m.verts|
  {
    hide EncI32, DecI32, EBones;
    var tris := |m.idx| / 3;
    var front := STRIP + [0, 0] + EncI32(0);
    var back := EncI32(0) + [0] + EncI32(1) + EncU32(0);
    var rest := SectionTail(|m.verts|) + (EncI32(0) + (EncI32(0) + EncI32(0)));
    var tail := EncI32(1) + [255, 255] + seq(16, i => 0) + EncI32(-1) + (EncI32(0) + (EncI32(0) + EncI32(0)));
    var b := ESections(m, bones);
    I32RoundTrip(1, ESection(m, bones));
    assert b[12..] == EncI32(tris) + (back + (EncI32(0) + (EBones(bones) + rest)));
    I32RoundTrip(tris, back + (EncI32(0) + (EBones(bones) + rest)));
    assert b[33..33 + |EBones(bones)|] == EBones(bones);
    assert b[33 + |EBones(bones)|..] == EncI32(|m.verts|) + tail;
    I32RoundTrip(|m.verts|, tail);
  }

  // ----- the program -----

  /** `seg[label]`: the last range recorded under a label. */
  function Lookup(segs: seq<Segment>, name: Label): Option<Segment> {
    if segs == [] then None
    else if segs[|segs| - 1].name == name then Some(segs[|segs| - 1])
    else Lookup(segs[..|segs| - 1], name)
  }

  lemma {:induction false} LookupFinds(segs: seq<Segment>, i: nat)
    requires i < |segs| && forall j :: i < j < |segs| ==> segs[j].name != segs[i].name
    ensures Lookup(segs, segs[i].name) == Some(segs[i])
  {
    if i < |segs| - 1 { LookupFinds(segs[..|segs| - 1], i); }
  }

  lemma LabelsAre(colors: bool)
    ensures Labels(colors) == FIRST + [RefSkel, Cooked, NumLods, LodHeader, RequiredBones, Sections, ActiveBones,
      BufferSize, DataStrip, Index, Position, VertexBuffer, SkinWeight]
      + (if colors then [Color] else []) + [Adjacency, Tail]
  {
  }

  lemma KeepIs(payload: Data, segs: seq<Segment>, p: Parsed, i: nat)
    requires Recorded(payload, segs, Labels(p.colors), p.parts, |payload|) && i < |segs|
    requires forall j :: i < j < |segs| ==> Labels(p.colors)[j] != Labels(p.colors)[i]
    ensures var seg := Lookup(segs, Labels(p.colors)[i]);
      seg.Some? && InsideOf(payload, seg.value) && BytesOf(payload, seg.value) == p.parts[i]
  {
    hide Labels;
    LookupFinds(segs, i);
  }

  /** `keep(label)`: the template's bytes under a label. */
  method Keep(payload: Data, segs: seq<Segment>, name: Label, ghost p: Parsed, ghost i: nat) returns (part: Data)
    requires Recorded(payload, segs, Labels(p.colors), p.parts, |payload|)
    requires i < |segs| && Labels(p.colors)[i] == name
    requires forall j :: i < j < |segs| ==> Labels(p.colors)[j] != name
    ensures part == p.parts[i]
  {
    hide Labels, Recorded;
    KeepIs(payload, segs, p, i);
    var seg := Lookup(segs, name);
    return payload[seg.value.start..seg.value.end];
  }

  /** The skeleton that the search accepted declares between 2 and 400 bones. */
  lemma BoneCountInRange(payload: Data, names: seq<Tag>, p: Parsed)
    requires Segments(payload, names) == Some(p)
    ensures |p.parts[4]| >= 4 && 2 <= BoneCount(p) <= 400
  {
    hide Segments, PropEnd, Cut, Bones, Concat, DecI32, Fills;
    var r, rs := ParsedAs(payload, names, p);
    CutFills(Layout(p.colors), payload[rs..], p.parts[4..]);
    CutTiles(Layout(p.colors), payload[rs..], p.parts[4..]);
    KeptFill(p);
    assert Fills(SKELETON[0].body, p.parts[4..8][0]);
    FirstWord(payload[rs..], p);
    assert Judge(payload, |names|, rs) == Accepted;
  }

  lemma FirstWord(b: Data, p: Parsed)
    requires |p.parts| == |Labels(p.colors)| && b == Concat(p.parts[4..]) && Fills(SKELETON[0].body, p.parts[4])
    ensures |p.parts[4]| >= 4 && |b| >= 4 && DecI32(b) == BoneCount(p)
  {
    hide DecI32, Concat, ArrayBytes;
    BonesInside(p);
    assert p.parts[4..] == [p.parts[4]] + p.parts[5..];
    ConcatCons(p.parts[4], p.parts[5..]);
    I32Prefix(p.parts[4], Concat(p.parts[5..]));
  }

  lemma LabelsDistinct(colors: bool)
    ensures forall i, j :: 0 <= i < j < |Labels(colors)| ==> Labels(colors)[i] != Labels(colors)[j]
  {
    LabelsAre(colors);
    hide Labels;
  }

  /** The eight kept parts in front, in order. */
  method KeptFront(payload: Data, segs: seq<Segment>, ghost p: Parsed) returns (front: Data)
    requires Recorded(payload, segs, Labels(p.colors), p.parts, |payload|)
    ensures front == Concat(p.parts[..8])
  {
    hide Recorded, Concat;
    assert |segs| == |Labels(p.colors)| == |p.parts| by { RecordedSizes(payload, segs, p); }
    LabelsDistinct(p.colors);
    LabelsAre(p.colors);
    hide Labels;
    var order := [PropBlock, SkelStrip, Bounds, Materials, RefSkel, Cooked, NumLods, LodHeader];
    front := [];
    var i := 0;
    assert p.parts[..0] == [] && Concat([]) == [] by { NoParts(); }
    while i < |order|
      invariant 0 <= i <= |order| && front == Concat(p.parts[..i])
    {
      assert order[i] == Labels(p.colors)[i];
      var part := Keep(payload, segs, order[i], p, i);
      assert p.parts[..i + 1] == p.parts[..i] + [p.parts[i]];
      ConcatAppend(p.parts[..i], [p.parts[i]]);
      ConcatOne(p.parts[i]);
      front := front + part;
      i := i + 1;
    }
  }

  lemma NoParts()
    ensures Concat([]) == []
  {
  }

  lemma RecordedSizes(payload: Data, segs: seq<Segment>, p: Parsed)
    requires Recorded(payload, segs, Labels(p.colors), p.parts, |payload|)
    ensures |segs| == |Labels(p.colors)| == |p.parts|
  {
    hide Labels;
  }

  lemma NewPayloadIs(p: Parsed, m: Mesh, bones: nat)
    requires |p.parts| == |Labels(p.colors)| && MeshFits(p, m, bones)
    ensures Concat(NewParts(p, m, bones)) ==
      Concat(p.parts[..8]) + EBones(bones) + ESections(m, bones) + EBones(bones) + EncU32(|Streamed(p, m)|)
        + Streamed(p, m) + p.parts[|p.parts| - 1]
  {
    hide EBones, ESections, EncU32, Encoded, Concat;
    var a, b, c, d := EBones(bones), ESections(m, bones), EBones(bones), EncU32(|Streamed(p, m)|);
    var s, t := [p.parts[12]] + Encoded(m, p.colors), p.parts[|p.parts| - 1];
    assert NewParts(p, m, bones) == p.parts[..8] + ([a, b, c, d] + (s + [t]));
    ConcatAppend(p.parts[..8], [a, b, c, d] + (s + [t]));
    ConcatAppend([a, b, c, d], s + [t]);
    ConcatAppend(s, [t]);
    ConcatOne(t);
    ConcatFour(a, b, c, d);
    Joined(Concat(p.parts[..8]), a, b, c, d, Concat(s), t);
  }

  lemma Joined(f: Data, a: Data, b: Data, c: Data, d: Data, s: Data, t: Data)
    ensures f + ((a + (b + (c + d))) + (s + t)) == f + a + b + c + d + s + t
  {
  }

  lemma StreamedIs(p: Parsed, m: Mesh)
    requires |p.parts| == |Labels(p.colors)| && CountsFit(m)
    ensures Streamed(p, m) == p.parts[12] + EIndex(m) + EPosition(m) + EVertexBuffer(m) + ESkinWeight(m)
      + (if p.colors then EColor(m) else []) + EAdjacency()
  {
    hide EIndex, EPosition, EVertexBuffer, ESkinWeight, EColor, EAdjacency, Concat;
    var e := if p.colors then [EColor(m)] else [];
    var head := [EIndex(m), EPosition(m), EVertexBuffer(m), ESkinWeight(m)];
    assert [p.parts[12]] + Encoded(m, p.colors) == [p.parts[12]] + (head + (e + [EAdjacency()]));
    ConcatOne(p.parts[12]);
    ConcatAppend([p.parts[12]], head + (e + [EAdjacency()]));
    ConcatAppend(head, e + [EAdjacency()]);
    ConcatAppend(e, [EAdjacency()]);
    ConcatOne(EAdjacency());
    ConcatOne(EColor(m));
    NoParts();
    ConcatFour(EIndex(m), EPosition(m), EVertexBuffer(m), ESkinWeight(m));
    var x := if p.colors then EColor(m) else [];
    assert Concat(e) == x;
    Joined2(p.parts[12], EIndex(m), EPosition(m), EVertexBuffer(m), ESkinWeight(m), x, EAdjacency());
  }

  lemma Joined2(f: Data, a: Data, b: Data, c: Data, d: Data, x: Data, t: Data)
    ensures f + ((a + (b + (c + d))) + (x + t)) == f + a + b + c + d + x + t
  {
    Joined(f, a, b, c, d, x, t);
  }

  /** The part of `cook` that parses the template, encodes the mesh and splices the payload. */
  method CookPayload(payload: Data, names: seq<Tag>, m: Mesh) returns (r: Option<Data>)
    ensures r.Some? <==>
      && Segments(payload, names).Some?
      && var p := Segments(payload, names).value; BoneCount(p) >= 0 && MeshFits(p, m, BoneCount(p))
    ensures r.Some? ==>
      var p := Segments(payload, names).value; r.value == Concat(NewParts(p, m, BoneCount(p)))
  {
    hide Segments, Recorded, Concat, Fills, EBones, ESections, Encoded, Labels, LabelsOf, Layout, NewParts, Streamed,
      DecI32, EIndex, EPosition, EVertexBuffer, ESkinWeight, EColor, EAdjacency;
    var parsed := ParseSegments(payload, names);
    if parsed.None? { return None; }
    ghost var p := Segments(payload, names).value;
    var segs, colors := parsed.value.0, parsed.value.1;
    RecordedSizes(payload, segs, p);
    BoneCountInRange(payload, names, p);
    LabelsDistinct(colors);
    LabelsAre(colors);
    var skeleton := Keep(payload, segs, RefSkel, p, 4);
    var bones := DecI32(skeleton);
    if !CountsFit(m) { return None; }
    var strip := Keep(payload, segs, DataStrip, p, 12);
    var streamed := strip + EIndex(m) + EPosition(m) + EVertexBuffer(m) + ESkinWeight(m)
      + (if colors then EColor(m) else []) + EAdjacency();
    StreamedIs(p, m);
    if |streamed| >= 0x1_0000_0000 { return None; }
    var front := KeptFront(payload, segs, p);
    var tail := Keep(payload, segs, Tail, p, |p.parts| - 1);
    NewPayloadIs(p, m, bones);
    return Some(front + EBones(bones) + ESections(m, bones) + EBones(bones) + EncU32(|streamed|) + streamed + tail);
  }
}
