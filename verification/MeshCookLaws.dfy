/**
 * The buffers that tools/client_model/ue_cook.py writes, number by number at the offsets the template's
 * own readers use: strides, counts, flags, the one section, and the parts that hold nothing.
 */
module MeshCookLaws {
  import opened Results
  import opened Bytes
  import opened FoundBytes
  import opened SkelMesh
  import opened MeshSplice
  import opened MeshCook

  /** A counted bulk array: element size, count, then the data. */
  lemma BulkFields(es: int, count: int, data: Data)
    requires InI32(es) && InI32(count)
    ensures var b := BulkOf(es, count, data);
      |b| == 8 + |data| && Finds(b, 0, EncI32(es)) && Finds(b, 4, EncI32(count)) && Finds(b, 8, data)
  {
    hide EncI32;
  }

  /** The same, seen inside a buffer. */
  lemma BulkInside(b: Data, at: int, es: int, count: int, data: Data)
    requires InI32(es) && InI32(count) && Finds(b, at, BulkOf(es, count, data))
    ensures Numbers(b, [(at, es), (at + 4, count)]) && Finds(b, at + 8, data)
  {
    hide EncI32, Finds, ReadsI32, BulkOf;
    BulkFields(es, count, data);
    NumberInside(b, at, BulkOf(es, count, data), 0, es);
    NumberInside(b, at, BulkOf(es, count, data), 4, count);
    FindsInside(b, at, BulkOf(es, count, data), 8, data);
    TwoNumbers(b, at, es, at + 4, count);
  }

  lemma FindsFront(a: Data, b: Data)
    ensures Finds(a + b, 0, a) && Finds(a + b, |a|, b)
  {
  }

  lemma EqualParts(parts: seq<Data>, k: nat)
    requires forall i :: 0 <= i < |parts| ==> |parts[i]| == k
    ensures |Concat(parts)| == |parts| * k
  {
    ConcatLength(parts, k);
    ArrayBytesIsProduct(|parts|, k);
  }

  /** The index buffer: two bytes an index, as many as there are corners. */
  lemma IndexFields(m: Mesh)
    requires CountsFit(m)
    ensures var b := EIndex(m);
      |b| == 9 + 2 * |m.idx| && b[0] == 2 && Numbers(b, [(1, 2), (5, |m.idx|)])
  {
    hide EncI32, Finds, ReadsI32, BulkOf, Concat, Words, Numbers;
    WordsAreTwo(m.idx);
    EqualParts(Words(m.idx), 2);
    var bulk := BulkOf(2, |m.idx|, Concat(Words(m.idx)));
    FindsFront([2], bulk);
    BulkInside(EIndex(m), 1, 2, |m.idx|, Concat(Words(m.idx)));
  }

  /** The position buffer: a stride of twelve and one entry a vertex, said twice. */
  lemma PositionFields(m: Mesh)
    requires CountsFit(m) && AllPacked(m)
    ensures var b, nv := EPosition(m), |m.verts|;
      |b| == 16 + 12 * nv && Numbers(b, [(0, 12), (4, nv)]) && Numbers(b, [(8, 12), (12, nv)])
  {
    hide EncI32, Finds, ReadsI32, BulkOf, Concat, Numbers;
    EqualParts(Positions(m), 12);
    var nv := |m.verts|;
    var head, bulk := EncI32(12) + EncI32(nv), BulkOf(12, nv, Concat(Positions(m)));
    FindsFront(head, bulk);
    FindsFront(EncI32(12), EncI32(nv));
    NumberInside(EPosition(m), 0, head, 0, 12);
    NumberInside(EPosition(m), 0, head, 4, nv);
    TwoNumbers(EPosition(m), 0, 12, 4, nv);
    BulkInside(EPosition(m), 8, 12, nv, Concat(Positions(m)));
  }

  lemma HeadOfFive(a: Data, b: Data, c: Data, d: Data, e: Data)
    requires |a| == 2 && |b| == |c| == |d| == |e| == 4
    ensures var s := a + b + c + d + e;
      Finds(s, 0, a) && Finds(s, 2, b) && Finds(s, 6, c) && Finds(s, 10, d) && Finds(s, 14, e)
  {
  }

  lemma FourNumbers(b: Data, p: int, v: int, q: int, w: int, r: int, x: int, s: int, y: int)
    requires ReadsI32(b, p, v) && ReadsI32(b, q, w) && ReadsI32(b, r, x) && ReadsI32(b, s, y)
    ensures Numbers(b, [(p, v), (q, w), (r, x), (s, y)])
  {
  }

  /** The vertex buffer: one texture coordinate a vertex at half precision, tangent frames of eight bytes. */
  lemma VertexFields(m: Mesh)
    requires CountsFit(m) && AllPacked(m)
    ensures var b, nv := EVertexBuffer(m), |m.verts|;
      && |b| == 34 + 12 * nv && Finds(b, 0, [1, 0]) && Numbers(b, [(2, 1), (6, nv), (10, 0), (14, 0)])
      && Numbers(b, [(18, 8), (22, nv)]) && Numbers(b, [(26 + 8 * nv, 4), (30 + 8 * nv, nv)])
  {
    hide EncI32, Finds, ReadsI32, BulkOf, Concat, Numbers;
    var b, nv := EVertexBuffer(m), |m.verts|;
    EqualParts(Frames(m), 8);
    EqualParts(Uvs(m), 4);
    var head := STRIP + EncI32(1) + EncI32(nv) + EncI32(0) + EncI32(0);
    var one, two := BulkOf(8, nv, Concat(Frames(m))), BulkOf(4, nv, Concat(Uvs(m)));
    HeadOfFive(STRIP, EncI32(1), EncI32(nv), EncI32(0), EncI32(0));
    FindsFront(head, one + two);
    FindsFront(one, two);
    FindsInside(b, 0, head, 0, STRIP);
    NumberInside(b, 0, head, 2, 1);
    NumberInside(b, 0, head, 6, nv);
    NumberInside(b, 0, head, 10, 0);
    NumberInside(b, 0, head, 14, 0);
    FourNumbers(b, 2, 1, 6, nv, 10, 0, 14, 0);
    FindsInside(b, 18, one + two, 0, one);
    FindsInside(b, 18, one + two, 8 + 8 * nv, two);
    BulkInside(b, 18, 8, nv, Concat(Frames(m)));
    BulkInside(b, 26 + 8 * nv, 4, nv, Concat(Uvs(m)));
  }

  lemma WhiteBytes(n: nat, i: nat)
    requires i < 4 * n
    ensures |Concat(Whites(n))| == 4 * n && Concat(Whites(n))[i] == 255
  {
    EqualParts(Whites(n), 4);
    ConcatAt(Whites(n), 4, i / 4);
    ArrayBytesIsProduct(i / 4, 4);
    assert Whites(n)[i / 4] == [255, 255, 255, 255];
    assert Concat(Whites(n))[i / 4 * 4..i / 4 * 4 + 4][i % 4] == 255;
  }

  /** The colour buffer, if any: a stride of four, one white entry a vertex. */
  lemma ColorFields(m: Mesh)
    requires CountsFit(m)
    ensures var b, nv := EColor(m), |m.verts|;
      && |b| == 18 + 4 * nv && Finds(b, 0, [1, 0]) && Numbers(b, [(2, 4), (6, nv)]) && Numbers(b, [(10, 4), (14, nv)])
      && forall i :: 18 <= i < |b| ==> b[i] == 255
  {
    hide EncI32, Finds, ReadsI32, BulkOf, Concat, Numbers, Whites;
    var b, nv := EColor(m), |m.verts|;
    WhitesAreFour(nv);
    EqualParts(Whites(nv), 4);
    var head, bulk := STRIP + EncI32(4) + EncI32(nv), BulkOf(4, nv, Concat(Whites(nv)));
    ThreeFields(STRIP, EncI32(4), EncI32(nv));
    FindsFront(head, bulk);
    FindsInside(b, 0, head, 0, STRIP);
    NumberInside(b, 0, head, 2, 4);
    NumberInside(b, 0, head, 6, nv);
    TwoNumbers(b, 2, 4, 6, nv);
    BulkInside(b, 10, 4, nv, Concat(Whites(nv)));
    forall i | 18 <= i < |b| ensures b[i] == 255 {
      WhiteBytes(nv, i - 18);
      FoundByte(b, 18, Concat(Whites(nv)), i - 18);
    }
  }

  lemma WhitesAreFour(n: nat)
    ensures |Whites(n)| == n && forall i :: 0 <= i < n ==> |Whites(n)[i]| == 4
  {
  }

  lemma FoundByte(b: Data, at: int, x: Data, i: nat)
    requires Finds(b, at, x) && i < |x|
    ensures at + i < |b| && b[at + i] == x[i]
  {
    assert b[at..at + |x|][i] == x[i];
  }

  lemma ThreeFields(a: Data, b: Data, c: Data)
    requires |a| == 2 && |b| == |c| == 4
    ensures var s := a + b + c; Finds(s, 0, a) && Finds(s, 2, b) && Finds(s, 6, c)
  {
  }

  /** The adjacency buffer holds nothing. */
  lemma AdjacencyFields()
    ensures |EAdjacency()| == 9 && EAdjacency()[0] == 2 && Numbers(EAdjacency(), [(1, 2), (5, 0)])
  {
    hide EncI32, Finds, ReadsI32, BulkOf, Numbers;
    FindsFront([2], BulkOf(2, 0, []));
    BulkInside(EAdjacency(), 1, 2, 0, []);
  }

  lemma SixFields(a: Data, b: Data, c: Data, d: Data, e: Data, f: Data)
    requires |a| == 2 && |b| == |c| == |d| == |e| == |f| == 4
    ensures var s := a + b + c + d + e + f;
      && Finds(s, 0, a) && Finds(s, 2, b) && Finds(s, 6, c) && Finds(s, 10, d) && Finds(s, 14, e) && Finds(s, 18, f)
  {
  }

  lemma FiveNumbers(b: Data, p: int, v: int, q: int, w: int, r: int, x: int, s: int, y: int, t: int, z: int)
    requires ReadsI32(b, p, v) && ReadsI32(b, q, w) && ReadsI32(b, r, x) && ReadsI32(b, s, y) && ReadsI32(b, t, z)
    ensures Numbers(b, [(p, v), (q, w), (r, x), (s, y), (t, z)])
  {
  }

  lemma ThreeNumbers(b: Data, p: int, v: int, q: int, w: int, r: int, x: int)
    requires ReadsI32(b, p, v) && ReadsI32(b, q, w) && ReadsI32(b, r, x)
    ensures Numbers(b, [(p, v), (q, w), (r, x)])
  {
  }

  /** The weights: at most four influences, eight bytes a vertex, and no lookup table behind them. */
  lemma SkinFields(m: Mesh)
    requires CountsFit(m)
    ensures var b, nv := ESkinWeight(m), |m.verts|;
      && |b| == 44 + 8 * nv && Finds(b, 0, [1, 0])
      && Numbers(b, [(2, 0), (6, 4), (10, 4 * nv), (14, nv), (18, 0)]) && Numbers(b, [(22, 1), (26, 8 * nv)])
      && Finds(b, 30 + 8 * nv, [1, 0]) && Numbers(b, [(32 + 8 * nv, 0), (36 + 8 * nv, 4), (40 + 8 * nv, 0)])
  {
    hide EncI32, EncU32, Finds, ReadsI32, BulkOf, Concat, Numbers, Weights;
    var b, nv := ESkinWeight(m), |m.verts|;
    WeightsAreEight(m);
    EqualParts(Weights(m), 8);
    SmallU32(0);
    SmallU32(4);
    SmallU32(4 * nv);
    SmallU32(nv);
    var head := STRIP + EncU32(0) + EncU32(4) + EncU32(4 * nv) + EncU32(nv) + EncU32(0);
    var one, two := BulkOf(1, 8 * nv, Concat(Weights(m))), (STRIP + EncI32(0)) + BulkOf(4, 0, []);
    SixFields(STRIP, EncU32(0), EncU32(4), EncU32(4 * nv), EncU32(nv), EncU32(0));
    FindsFront(head, one + two);
    FindsFront(one, two);
    FindsInside(b, 0, head, 0, STRIP);
    NumberInside(b, 0, head, 2, 0);
    NumberInside(b, 0, head, 6, 4);
    NumberInside(b, 0, head, 10, 4 * nv);
    NumberInside(b, 0, head, 14, nv);
    NumberInside(b, 0, head, 18, 0);
    FiveNumbers(b, 2, 0, 6, 4, 10, 4 * nv, 14, nv, 18, 0);
    FindsInside(b, 22, one + two, 0, one);
    FindsInside(b, 22, one + two, 8 + 8 * nv, two);
    BulkInside(b, 22, 1, 8 * nv, Concat(Weights(m)));
    LookupFields(b, 30 + 8 * nv);
  }

  lemma LookupFields(b: Data, at: int)
    requires Finds(b, at, (STRIP + EncI32(0)) + BulkOf(4, 0, []))
    ensures Finds(b, at, [1, 0]) && Numbers(b, [(at + 2, 0), (at + 6, 4), (at + 10, 0)])
  {
    hide EncI32, Finds, ReadsI32, BulkOf, Numbers;
    var head := STRIP + EncI32(0);
    var two := head + BulkOf(4, 0, []);
    FindsFront(head, BulkOf(4, 0, []));
    FindsFront(STRIP, EncI32(0));
    FindsInside(b, at, two, 0, head);
    FindsInside(b, at, head, 0, STRIP);
    NumberInside(b, at, head, 2, 0);
    FindsInside(b, at, two, 6, BulkOf(4, 0, []));
    BulkFields(4, 0, []);
    NumberInside(b, at + 6, BulkOf(4, 0, []), 0, 4);
    NumberInside(b, at + 6, BulkOf(4, 0, []), 4, 0);
    ThreeNumbers(b, at + 2, 0, at + 6, 4, at + 10, 0);
  }

  lemma WeightsAreEight(m: Mesh)
    ensures |Weights(m)| == |m.verts| && forall i :: 0 <= i < |m.verts| ==> |Weights(m)[i]| == 8
  {
  }

  // ----- the one section -----

  lemma EightFields(a: Data, b: Data, c: Data, d: Data, e: Data, f: Data, g: Data, h: Data)
    requires |a| == |b| == 2 && |c| == |d| == |e| == 4 && |f| == 1 && |g| == |h| == 4
    ensures var s := a + b + c + d + e + f + g + h;
      && Finds(s, 0, a) && Finds(s, 2, b) && Finds(s, 4, c) && Finds(s, 8, d) && Finds(s, 12, e) && Finds(s, 16, f)
      && Finds(s, 17, g) && Finds(s, 21, h)
  {
  }

  /** The section's header: strip flags, material 0, base index 0, triangles, no recomputing, shadow, base vertex 0. */
  lemma SectionHeadFields(b: Data, at: int, tris: nat)
    requires InI32(tris) && Finds(b, at, SectionHead(tris))
    ensures Finds(b, at, [1, 0]) && Finds(b, at + 2, [0, 0]) && Finds(b, at + 16, [0])
    ensures Numbers(b, [(at + 4, 0), (at + 8, tris), (at + 12, 0), (at + 17, 1), (at + 21, 0)])
  {
    hide EncI32, EncU32, Finds, ReadsI32, Numbers;
    SmallU32(0);
    EightFields(STRIP, [0, 0], EncI32(0), EncI32(tris), EncI32(0), [0], EncI32(1), EncU32(0));
    var head := SectionHead(tris);
    FindsInside(b, at, head, 0, STRIP);
    FindsInside(b, at, head, 2, [0, 0]);
    NumberInside(b, at, head, 4, 0);
    NumberInside(b, at, head, 8, tris);
    NumberInside(b, at, head, 12, 0);
    FindsInside(b, at, head, 16, [0]);
    NumberInside(b, at, head, 17, 1);
    NumberInside(b, at, head, 21, 0);
    FiveNumbers(b, at + 4, 0, at + 8, tris, at + 12, 0, at + 17, 1, at + 21, 0);
  }

  lemma TailParts(a: Data, b: Data, c: Data, d: Data, e: Data)
    requires |a| == |b| == 4 && |c| == 2 && |d| == 16 && |e| == 4
    ensures var s := a + b + c + d + e;
      Finds(s, 0, a) && Finds(s, 4, b) && Finds(s, 8, c) && Finds(s, 10, d) && Finds(s, 26, e)
  {
  }

  /** Its end: vertices, one influence at most, no cloth asset, and the clothing data of none. */
  lemma SectionTailFields(b: Data, at: int, nv: nat)
    requires InI32(nv) && Finds(b, at, SectionTail(nv))
    ensures Numbers(b, [(at, nv as int), (at + 4, 1), (at + 26, -1)])
    ensures Finds(b, at + 8, [255, 255]) && forall i :: at + 10 <= i < at + 26 ==> 0 <= i < |b| && b[i] == 0
  {
    hide EncI32, Finds, ReadsI32, Numbers;
    var zeros: Data := seq(16, i => 0);
    TailParts(EncI32(nv), EncI32(1), [255, 255], zeros, EncI32(-1));
    var tail := SectionTail(nv);
    NumberInside(b, at, tail, 0, nv);
    NumberInside(b, at, tail, 4, 1);
    FindsInside(b, at, tail, 8, [255, 255]);
    FindsInside(b, at, tail, 10, zeros);
    NumberInside(b, at, tail, 26, -1);
    ThreeNumbers(b, at, nv, at + 4, 1, at + 26, -1);
    FindsNotBefore(b, at + 10, zeros);
    forall i | at + 10 <= i < at + 26 ensures 0 <= i < |b| && b[i] == 0 {
      FoundByte(b, at + 10, zeros, i - at - 10);
    }
  }

  lemma FindsNotBefore(b: Data, at: int, x: Data)
    requires Finds(b, at, x)
    ensures 0 <= at
  {
  }

  /** What is found in front of something else, and that behind it. */
  lemma Peel(b: Data, at: int, x: Data, rest: Data)
    requires Finds(b, at, x + rest)
    ensures Finds(b, at, x) && Finds(b, at + |x|, rest)
  {
    FindsFront(x, rest);
    FindsInside(b, at, x + rest, 0, x);
    FindsInside(b, at, x + rest, |x|, rest);
    hide Finds;
  }

  lemma FindsWhole(b: Data)
    ensures Finds(b, 0, b)
  {
  }

  /**
   * The one section: all triangles and vertices, every bone in its map, one influence a vertex, no cloth,
   * no duplicates, not disabled.
   */
  lemma SectionFields(m: Mesh, bones: nat)
    requires CountsFit(m) && bones <= 400
    ensures var b, tris, nv := ESections(m, bones), |m.idx| / 3, |m.verts|; var at := 33 + |EBones(bones)|;
      && |b| == at + 42 && Numbers(b, [(0, 1), (29, 0)]) && Finds(b, 33, EBones(bones))
      && Finds(b, 4, [1, 0]) && Finds(b, 6, [0, 0]) && Finds(b, 20, [0])
      && Numbers(b, [(8, 0), (12, tris), (16, 0), (21, 1), (25, 0)])
      && Numbers(b, [(at, nv as int), (at + 4, 1), (at + 26, -1)]) && Finds(b, at + 8, [255, 255])
      && (forall i :: at + 10 <= i < at + 26 ==> 0 <= i < |b| && b[i] == 0)
      && Numbers(b, [(at + 30, 0), (at + 34, 0), (at + 38, 0)])
  {
    hide EncI32, Finds, ReadsI32, Numbers, SectionHead, SectionTail, EBones;
    var b, tris, nv := ESections(m, bones), |m.idx| / 3, |m.verts|;
    var at := 33 + |EBones(bones)|;
    var s5 := EncI32(0) + (EncI32(0) + EncI32(0));
    var s3 := EBones(bones) + (SectionTail(nv) + s5);
    FindsWhole(b);
    Peel(b, 0, EncI32(1), ESection(m, bones));
    Peel(b, 4, SectionHead(tris), EncI32(0) + s3);
    Peel(b, 29, EncI32(0), s3);
    Peel(b, 33, EBones(bones), SectionTail(nv) + s5);
    Peel(b, at, SectionTail(nv), s5);
    Peel(b, at + 30, EncI32(0), EncI32(0) + EncI32(0));
    Peel(b, at + 34, EncI32(0), EncI32(0));
    FoundI32(b, 0, 1);
    FoundI32(b, 29, 0);
    TwoNumbers(b, 0, 1, 29, 0);
    SectionHeadFields(b, 4, tris);
    SectionTailFields(b, at, nv);
    FoundI32(b, at + 30, 0);
    FoundI32(b, at + 34, 0);
    FoundI32(b, at + 38, 0);
    ThreeNumbers(b, at + 30, 0, at + 34, 0, at + 38, 0);
  }
}
