/**
 * The de-indexing of tools/client_model/ue_cook.py: face corners with separate position, texture
 * and normal numbers become one list of vertices and one list of indices into it.
 */
module MeshIndex {
  import opened Results
  import opened Bytes
  import opened Images
  import opened Vectors
  import opened AtlasSampling
  import opened MeshCook

  /** A face corner: position, texture coordinate (any number outside the list means none) and normal. */
  datatype Corner = Corner(p: nat, uv: int, n: nat)

  datatype Face = Face(a: Corner, b: Corner, c: Corner, mat: string)

  /** What makes two corners the same vertex. */
  datatype Key = Key(corner: Corner, mat: string)

  datatype Geometry = Geometry(pos: seq<Vec>, normals: seq<Vec>, bones: seq<nat>, uvs: seq<UV>,
                               tiles: map<string, Rect>, aw: nat, ah: nat)

  datatype Attributes = Attributes(pos: Vec, normal: Vec, bone: nat, uv: UV)

  /** The corner's numbers are in range and its material has a tile on a nonempty canvas. */
  predicate Known(g: Geometry, k: Key) {
    && k.corner.p < |g.pos| && k.corner.p < |g.bones| && k.corner.n < |g.normals|
    && k.mat in g.tiles && g.aw > 0 && g.ah > 0
  }

  /** A corner's own texture coordinate, or the origin when it has none. */
  function OwnUv(g: Geometry, k: Key): UV {
    if 0 <= k.corner.uv < |g.uvs| then g.uvs[k.corner.uv] else UV(0.0, 0.0)
  }

  /** What a corner looks like in the atlas. */
  function Look(g: Geometry, k: Key): Attributes
    requires Known(g, k)
  {
    Attributes(g.pos[k.corner.p], g.normals[k.corner.n], g.bones[k.corner.p],
               Remap(OwnUv(g, k), g.tiles[k.mat], g.aw, g.ah))
  }

  /** The corners of the first `n` faces, face by face. */
  function Keys(faces: seq<Face>, n: nat): (ks: seq<Key>)
    requires n <= |faces|
    ensures |ks| == 3 * n
  {
    if n == 0 then []
    else
      var f := faces[n - 1];
      Keys(faces, n - 1) + [Key(f.a, f.mat)] + [Key(f.b, f.mat)] + [Key(f.c, f.mat)]
  }

  predicate FaceKnown(g: Geometry, f: Face) {
    Known(g, Key(f.a, f.mat)) && Known(g, Key(f.b, f.mat)) && Known(g, Key(f.c, f.mat))
  }

  ghost predicate AllKnown(g: Geometry, ks: seq<Key>) { forall i :: 0 <= i < |ks| ==> Known(g, ks[i]) }

  datatype Indexed = Indexed(verts: seq<Attributes>, idx: seq<nat>)

  ghost predicate Uses(idx: seq<nat>, j: int) { exists i :: 0 <= i < |idx| && idx[i] == j }

  /**
   * `verts` and `idx` present the corners `ks` through the distinct keys `order`: every corner's
   * index leads to its own key, every key is used, and its first use is in order.
   */
  ghost predicate Presents(g: Geometry, r: Indexed, order: seq<Key>, ks: seq<Key>) {
    && |r.idx| == |ks| && |r.verts| == |order| && AllKnown(g, order)
    && (forall i :: 0 <= i < |ks| ==> r.idx[i] < |order| && order[r.idx[i]] == ks[i])
    && (forall i, j :: 0 <= i < j < |order| ==> order[i] != order[j])
    && (forall j :: 0 <= j < |order| ==> Uses(r.idx, j))
    && (forall j :: 0 <= j < |order| ==> r.verts[j] == Look(g, order[j]))
  }

  /** `vmap` is the inverse of the key order. */
  ghost predicate Inverts(vmap: map<Key, nat>, order: seq<Key>) {
    && (forall k :: k in vmap ==> vmap[k] < |order| && order[vmap[k]] == k)
    && (forall j :: 0 <= j < |order| ==> order[j] in vmap)
  }

  lemma OldKey(g: Geometry, r: Indexed, order: seq<Key>, ks: seq<Key>, vmap: map<Key, nat>, k: Key)
    requires Presents(g, r, order, ks) && Inverts(vmap, order) && k in vmap
    ensures Presents(g, Indexed(r.verts, r.idx + [vmap[k]]), order, ks + [k])
  {
    hide Look, Known;
    var idx := r.idx + [vmap[k]];
    forall j | 0 <= j < |order| ensures Uses(idx, j) {
      assert Uses(r.idx, j);
      var i :| 0 <= i < |r.idx| && r.idx[i] == j;
      assert idx[i] == j;
    }
  }

  lemma NewKey(g: Geometry, r: Indexed, order: seq<Key>, ks: seq<Key>, vmap: map<Key, nat>, k: Key)
    requires Presents(g, r, order, ks) && Inverts(vmap, order) && k !in vmap && Known(g, k)
    ensures Presents(g, Indexed(r.verts + [Look(g, k)], r.idx + [|order|]), order + [k], ks + [k])
    ensures Inverts(vmap[k := |order|], order + [k])
  {
    hide Look, Known;
    var idx := r.idx + [|order|];
    forall j | 0 <= j < |order| + 1 ensures Uses(idx, j) {
      if j < |order| {
        assert Uses(r.idx, j);
        var i :| 0 <= i < |r.idx| && r.idx[i] == j;
        assert idx[i] == j;
      } else {
        assert idx[|r.idx|] == j;
      }
    }
    forall j | 0 <= j < |order| ensures order[j] != k { assert order[j] in vmap; }
  }

  /** The de-indexing loop, one corner at a time. */
  method Deindex(g: Geometry, faces: seq<Face>) returns (r: Indexed, ghost order: seq<Key>)
    requires forall i :: 0 <= i < |faces| ==> FaceKnown(g, faces[i])
    ensures Presents(g, r, order, Keys(faces, |faces|))
  {
    hide Presents, Inverts, Known, Look;
    var vmap: map<Key, nat> := map[];
    r, order := Indexed([], []), [];
    StartEmpty(g);
    var f := 0;
    while f < |faces|
      invariant 0 <= f <= |faces|
      invariant Presents(g, r, order, Keys(faces, f)) && Inverts(vmap, order)
    {
      var face := faces[f];
      ghost var ks := Keys(faces, f);
      r, vmap, order := Take(g, r, vmap, order, ks, Key(face.a, face.mat));
      r, vmap, order := Take(g, r, vmap, order, ks + [Key(face.a, face.mat)], Key(face.b, face.mat));
      r, vmap, order := Take(g, r, vmap, order, ks + [Key(face.a, face.mat)] + [Key(face.b, face.mat)],
                             Key(face.c, face.mat));
      f := f + 1;
    }
  }

  lemma StartEmpty(g: Geometry)
    ensures Presents(g, Indexed([], []), [], []) && Inverts(map[], [])
  {
  }

  /** One corner: look its key up, append a vertex when it is new, append its index. */
  method Take(g: Geometry, r0: Indexed, vmap0: map<Key, nat>, ghost order0: seq<Key>, ghost ks: seq<Key>, k: Key)
    returns (r: Indexed, vmap: map<Key, nat>, ghost order: seq<Key>)
    requires Presents(g, r0, order0, ks) && Inverts(vmap0, order0) && Known(g, k)
    ensures Presents(g, r, order, ks + [k]) && Inverts(vmap, order)
  {
    hide Presents, Inverts, Known, Look;
    r, vmap, order := r0, vmap0, order0;
    SameCount(g, r, order, ks);
    if k !in vmap {
      NewKey(g, r, order, ks, vmap, k);
      var vid := |r.verts|;
      vmap := vmap[k := vid];
      order := order + [k];
      r := Indexed(r.verts + [Look(g, k)], r.idx + [vid]);
    } else {
      OldKey(g, r, order, ks, vmap, k);
      r := Indexed(r.verts, r.idx + [vmap[k]]);
    }
  }

  lemma SameCount(g: Geometry, r: Indexed, order: seq<Key>, ks: seq<Key>)
    requires Presents(g, r, order, ks)
    ensures |r.verts| == |order|
  {
  }

  /** Expanding the indices through the vertices reproduces every corner's look, in order. */
  lemma ExpansionIsFaithful(g: Geometry, r: Indexed, order: seq<Key>, ks: seq<Key>)
    requires Presents(g, r, order, ks) && AllKnown(g, ks)
    ensures forall i :: 0 <= i < |ks| ==> r.idx[i] < |r.verts| && r.verts[r.idx[i]] == Look(g, ks[i])
    ensures forall i, j :: 0 <= i < |ks| && 0 <= j < |ks| ==> (r.idx[i] == r.idx[j] <==> ks[i] == ks[j])
  {
    hide Look, Known;
  }

  /**
   * Through indices, vertices and atlas: sampling the atlas at a corner's vertex shows what
   * clamp-mode sampling of the corner's own texture shows.
   */
  lemma CornersSampleTheirTiles(g: Geometry, r: Indexed, order: seq<Key>, ks: seq<Key>, i: nat, atlas: Image, im: Image)
    requires Presents(g, r, order, ks) && AllKnown(g, ks) && i < |ks|
    requires atlas.w == g.aw <= 1024 && atlas.h == g.ah <= 1024 && Holds(atlas, im, g.tiles[ks[i].mat])
    ensures r.idx[i] < |r.verts|
    ensures var a, uv := r.verts[r.idx[i]].uv, OwnUv(g, ks[i]);
      Shade(Sample(atlas, a.u, a.v)) == Shade(Sample(im, Clamp01(uv.u), 1.0 - Clamp01(uv.v)))
  {
    hide Sample, Holds, Remap;
    ExpansionIsFaithful(g, r, order, ks);
    ExactRemapSamplesItsTile(atlas, im, g.tiles[ks[i].mat], OwnUv(g, ks[i]));
  }

  /** The stored indices of a mesh lead every corner to its own key. */
  ghost predicate StoredKeysRight(m: Mesh, order: seq<Key>, ks: seq<Key>)
    requires CountsFit(m) && |m.idx| == |ks|
  {
    forall i :: 0 <= i < |ks| ==>
      && |EIndex(m)| >= 11 + 2 * i && U16At(EIndex(m)[9 + 2 * i..]) < |order|
      && order[U16At(EIndex(m)[9 + 2 * i..])] == ks[i]
  }

  /** The index buffer as stored is right exactly for meshes of at most 65536 vertices. */
  lemma StoredIndicesRightIff(g: Geometry, r: Indexed, order: seq<Key>, ks: seq<Key>, m: Mesh)
    requires Presents(g, r, order, ks) && CountsFit(m) && m.idx == r.idx
    ensures StoredKeysRight(m, order, ks) <==> |r.verts| <= 0x1_0000
  {
    hide EIndex, U16At, Look, Known;
    forall i: nat | i < |ks|
      ensures |EIndex(m)| >= 11 + 2 * i && U16At(EIndex(m)[9 + 2 * i..]) == r.idx[i] % 0x1_0000
    {
      StoredIndex(m, i);
    }
    if |r.verts| > 0x1_0000 {
      assert Uses(r.idx, 0x1_0000);
      var i :| 0 <= i < |r.idx| && r.idx[i] == 0x1_0000;
      assert r.idx[i] % 0x1_0000 == 0 && order[0] != order[0x1_0000];
      assert U16At(EIndex(m)[9 + 2 * i..]) == 0;
    }
  }

  /** The stored bones are the vertices' bones exactly when all of them are below 256. */
  lemma StoredBonesRightIff(m: Mesh)
    requires CountsFit(m)
    ensures (forall i :: 0 <= i < |m.verts| ==>
               |ESkinWeight(m)| >= 38 + 8 * i && ESkinWeight(m)[30 + 8 * i] as int == m.verts[i].bone)
       <==> (forall i :: 0 <= i < |m.verts| ==> m.verts[i].bone < 0x100)
  {
    hide ESkinWeight;
    forall i: nat | i < |m.verts|
      ensures |ESkinWeight(m)| >= 38 + 8 * i && ESkinWeight(m)[30 + 8 * i] as int == m.verts[i].bone % 0x100
    {
      StoredBone(m, i);
      assert ESkinWeight(m)[30 + 8 * i] == ESkinWeight(m)[30 + 8 * i..30 + 8 * i + 8][0];
    }
  }

  /**
   * The whole way through what is stored: in a mesh of at most 65536 vertices, the stored index of a
   * corner leads to a vertex whose texture coordinate, rounded to single and then to half precision
   * as it is written, samples the corner's own tile less than half a texel from the corner's own
   * coordinate, and never a texel outside the tile's gutter cell.
   */
  lemma StoredCornersSampleTheirTiles(g: Geometry, r: Indexed, order: seq<Key>, ks: seq<Key>, m: Mesh, i: nat,
                                      atlas: Image, im: Image, s: UV, h: UV) returns (j: nat, u: real, v: real)
    requires Presents(g, r, order, ks) && CountsFit(m) && m.idx == r.idx && |r.verts| <= 0x1_0000
    requires AllKnown(g, ks) && i < |ks|
    requires atlas.w == g.aw <= 1024 && atlas.h == g.ah <= 1024 && Holds(atlas, im, g.tiles[ks[i].mat])
    requires var uv := Look(g, ks[i]).uv; NearestSingle(uv.u, s.u) && NearestSingle(uv.v, s.v)
    requires NearestHalf(s.u, h.u) && NearestHalf(s.v, h.v)
    ensures |EIndex(m)| >= 11 + 2 * i && j == U16At(EIndex(m)[9 + 2 * i..])
    ensures j < |r.verts| && r.verts[j] == Look(g, ks[i])
    ensures FourTexelsInCell(g.tiles[ks[i].mat], Texel(h.u, atlas.w), Texel(h.v, atlas.h))
    ensures Dist(u, Clamp01(OwnUv(g, ks[i]).u)) < 0.5 / im.w as real
    ensures Dist(v, 1.0 - Clamp01(OwnUv(g, ks[i]).v)) < 0.5 / im.h as real
    ensures Shade(Sample(atlas, h.u, h.v)) == Shade(Sample(im, u, v))
  {
    hide Sample, Holds, Remap, EIndex, U16At, NearestSingle, NearestHalf;
    StoredIndicesRightIff(g, r, order, ks, m);
    assert StoredKeysRight(m, order, ks);
    j := U16At(EIndex(m)[9 + 2 * i..]);
    u, v := StoredUvSamplesItsTile(atlas, im, g.tiles[ks[i].mat], OwnUv(g, ks[i]), s, h);
  }

  // ----- said of the faces -----

  /** A face's corners in order. */
  function CornerOf(f: Face, j: nat): Corner
    requires j < 3
  {
    if j == 0 then f.a else if j == 1 then f.b else f.c
  }

  lemma {:induction false} KeysAreCorners(faces: seq<Face>, n: nat, i: nat, j: nat)
    requires i < n <= |faces| && j < 3
    ensures Keys(faces, n)[3 * i + j] == Key(CornerOf(faces[i], j), faces[i].mat)
  {
    if i < n - 1 { KeysAreCorners(faces, n - 1, i, j); }
  }

  lemma {:induction false} KeysKnown(g: Geometry, faces: seq<Face>, n: nat)
    requires n <= |faces| && forall i :: 0 <= i < |faces| ==> FaceKnown(g, faces[i])
    ensures AllKnown(g, Keys(faces, n))
  {
    if n > 0 {
      KeysKnown(g, faces, n - 1);
      assert FaceKnown(g, faces[n - 1]);
    }
  }

  /** The atlas coordinate, measured in pixels, of a corner's own coordinate inside its tile. */
  predicate InTile(at: UV, u: real, v: real, tile: Rect, aw: nat, ah: nat) {
    && at.u * aw as real == tile.x as real + Clamp01(u) * tile.w as real
    && at.v * ah as real == tile.y as real + (1.0 - Clamp01(v)) * tile.h as real
  }

  /** A corner's position, normal and bone by its numbers, and its coordinate, or none, inside its tile. */
  predicate ShowsCorner(g: Geometry, v: Attributes, c: Corner, mat: string)
    requires Known(g, Key(c, mat))
  {
    && v.pos == g.pos[c.p] && v.bone == g.bones[c.p] && v.normal == g.normals[c.n]
    && (if 0 <= c.uv < |g.uvs| then InTile(v.uv, g.uvs[c.uv].u, g.uvs[c.uv].v, g.tiles[mat], g.aw, g.ah)
        else InTile(v.uv, 0.0, 0.0, g.tiles[mat], g.aw, g.ah))
  }

  lemma RemapInTile(uv: UV, r: Rect, aw: nat, ah: nat)
    requires aw > 0 && ah > 0
    ensures InTile(Remap(uv, r, aw, ah), uv.u, uv.v, r, aw, ah)
  {
    DivMul(Along(r.x, Clamp01(uv.u), r.w), aw as real);
    DivMul(Along(r.y, 1.0 - Clamp01(uv.v), r.h), ah as real);
  }

  lemma LookShows(g: Geometry, k: Key)
    requires Known(g, k)
    ensures ShowsCorner(g, Look(g, k), k.corner, k.mat)
  {
    hide Remap, InTile;
    RemapInTile(OwnUv(g, k), g.tiles[k.mat], g.aw, g.ah);
  }

  /**
   * Following the indices face by face, corner by corner: each leads to a vertex with the corner's own
   * position, normal and bone, and its own texture coordinate inside its own tile.
   */
  lemma IndicesShowFaces(g: Geometry, faces: seq<Face>, r: Indexed, order: seq<Key>, i: nat, j: nat)
    requires forall k :: 0 <= k < |faces| ==> FaceKnown(g, faces[k])
    requires Presents(g, r, order, Keys(faces, |faces|)) && i < |faces| && j < 3
    ensures |r.idx| == 3 * |faces| && r.idx[3 * i + j] < |r.verts|
    ensures Known(g, Key(CornerOf(faces[i], j), faces[i].mat))
    ensures ShowsCorner(g, r.verts[r.idx[3 * i + j]], CornerOf(faces[i], j), faces[i].mat)
  {
    hide Look, ShowsCorner, Known;
    KeysKnown(g, faces, |faces|);
    KeysAreCorners(faces, |faces|, i, j);
    ExpansionIsFaithful(g, r, order, Keys(faces, |faces|));
    var k := Key(CornerOf(faces[i], j), faces[i].mat);
    assert Keys(faces, |faces|)[3 * i + j] == k && Known(g, k);
    LookShows(g, k);
  }
}
