/**
 * Texture sampling: bilinear filtering with texel centres at half-integers and clamped
 * addressing, the corner-UV remap of tools/client_model/ue_cook.py, and the binary16 store
 * of the remapped UV.
 */
module AtlasSampling {
  import opened Results
  import opened Images

  datatype Color = Color(r: real, g: real, b: real, a: real)

  /** What the filter hardware gathers: the four texels and the two blend weights. */
  datatype Fetch = Fetch(p00: Pixel, p10: Pixel, p01: Pixel, p11: Pixel, fx: real, fy: real)

  function Lerp(a: real, b: real, f: real): real { a * (1.0 - f) + b * f }

  function Lerp4(a: Byte, b: Byte, c: Byte, d: Byte, fx: real, fy: real): real {
    Lerp(Lerp(a as real, b as real, fx), Lerp(c as real, d as real, fx), fy)
  }

  /** The filtered colour, a function of the fetch alone. */
  function Shade(f: Fetch): Color {
    Color(Lerp4(f.p00.r, f.p10.r, f.p01.r, f.p11.r, f.fx, f.fy),
          Lerp4(f.p00.g, f.p10.g, f.p01.g, f.p11.g, f.fx, f.fy),
          Lerp4(f.p00.b, f.p10.b, f.p01.b, f.p11.b, f.fx, f.fy),
          Lerp4(f.p00.a, f.p10.a, f.p01.a, f.p11.a, f.fx, f.fy))
  }

  /** Bilinear fetch at a position measured in texels from the picture's corner. */
  function Bilinear(im: Image, sx: real, sy: real): Fetch {
    var x, y := (sx - 0.5).Floor, (sy - 0.5).Floor;
    Fetch(ClampAt(im, x, y), ClampAt(im, x + 1, y),
          ClampAt(im, x, y + 1), ClampAt(im, x + 1, y + 1),
          sx - 0.5 - x as real, sy - 0.5 - y as real)
  }

  /** A coordinate in [0,1] measured in texels. */
  function Texel(u: real, n: nat): real { u * n as real }

  /** Clamp-mode bilinear sampling at a texture coordinate. */
  function Sample(im: Image, u: real, v: real): Fetch {
    Bilinear(im, Texel(u, im.w), Texel(v, im.h))
  }

  /** At the centre of a texel a sample shows just that texel. */
  lemma CentreShowsTexel(im: Image, i: nat, j: nat)
    requires i < im.w && j < im.h
    ensures var p := At(im, i, j);
      Shade(Bilinear(im, i as real + 0.5, j as real + 0.5)) == Color(p.r as real, p.g as real, p.b as real, p.a as real)
  {
    assert (i as real + 0.5 - 0.5).Floor == i && (j as real + 0.5 - 0.5).Floor == j;
    var f := Bilinear(im, i as real + 0.5, j as real + 0.5);
    assert f.fx == 0.0 && f.fy == 0.0 && f.p00 == At(im, i, j);
  }

  /** Between two texel centres the blend goes evenly from the one to the other. */
  lemma BlendIsEven(a: real, b: real, f: real, g: real)
    ensures Lerp(a, b, 0.0) == a && Lerp(a, b, 1.0) == b
    ensures Lerp(a, b, f) - Lerp(a, b, g) == (b - a) * (f - g)
  {
  }

  /** A tile's pixel rectangle in the atlas. */
  datatype Rect = Rect(x: int, y: int, w: nat, h: nat)

  /** The rectangle with its one-pixel gutter lies on a `W` by `H` canvas. */
  predicate CellInside(r: Rect, W: nat, H: nat) {
    1 <= r.x && r.x + r.w + 1 <= W && 1 <= r.y && r.y + r.h + 1 <= H
  }

  /** The atlas shows the picture at `r`, edge pixels repeated once into the gutter. */
  ghost predicate Holds(atlas: Image, im: Image, r: Rect) {
    && r.w == im.w && r.h == im.h
    && CellInside(r, atlas.w, atlas.h)
    && forall i, j :: -1 <= i <= im.w && -1 <= j <= im.h ==>
      At(atlas, r.x + i, r.y + j) == ClampAt(im, i, j)
  }

  lemma FloorShift(s: real, k: int)
    ensures (s + k as real).Floor == s.Floor + k
  {
  }

  /** The four texels of a fetch all lie within one pixel of the rectangle. */
  ghost predicate FourTexelsInCell(r: Rect, sx: real, sy: real) {
    var x, y := (sx - 0.5).Floor, (sy - 0.5).Floor;
    && r.x - 1 <= x && x + 1 <= r.x + r.w
    && r.y - 1 <= y && y + 1 <= r.y + r.h
  }

  /**
   * Less than half a texel outside the tile on every side, the atlas and the tile itself give
   * the same colour, and the atlas fetch never leaves the tile's own gutter cell.
   */
  lemma FetchMatches(atlas: Image, im: Image, r: Rect, sx: real, sy: real)
    requires Holds(atlas, im, r)
    requires -0.5 < sx < im.w as real + 0.5 && -0.5 < sy < im.h as real + 0.5
    ensures FourTexelsInCell(r, r.x as real + sx, r.y as real + sy)
    ensures Bilinear(atlas, r.x as real + sx, r.y as real + sy) == Bilinear(im, sx, sy)
  {
    var x, y := (sx - 0.5).Floor, (sy - 0.5).Floor;
    FloorShift(sx - 0.5, r.x);
    FloorShift(sy - 0.5, r.y);
    assert r.x as real + sx - 0.5 == (sx - 0.5) + r.x as real;
    assert r.y as real + sy - 0.5 == (sy - 0.5) + r.y as real;
    assert -1 <= x <= im.w - 1 && -1 <= y <= im.h - 1;
    forall i, j | x <= i <= x + 1 && y <= j <= y + 1
      ensures ClampAt(atlas, r.x + i, r.y + j) == ClampAt(im, i, j)
    {
      assert At(atlas, r.x + i, r.y + j) == ClampAt(im, i, j);
    }
  }

  lemma SamplesAt(atlas: Image, im: Image, r: Rect, U: real, V: real, u: real, v: real, sx: real, sy: real)
    requires Holds(atlas, im, r)
    requires Texel(U, atlas.w) == r.x as real + sx && Texel(u, im.w) == sx
    requires Texel(V, atlas.h) == r.y as real + sy && Texel(v, im.h) == sy
    requires -0.5 < sx < im.w as real + 0.5 && -0.5 < sy < im.h as real + 0.5
    ensures FourTexelsInCell(r, Texel(U, atlas.w), Texel(V, atlas.h))
    ensures Sample(atlas, U, V) == Sample(im, u, v)
  {
    FetchMatches(atlas, im, r, sx, sy);
  }

  // ----- the corner remap of ue_cook -----

  function Clamp01(t: real): (r: real)
    ensures 0.0 <= r <= 1.0
    ensures 0.0 <= t <= 1.0 ==> r == t
    ensures (t < 0.0 ==> r == 0.0) && (t > 1.0 ==> r == 1.0)
  {
    if t < 0.0 then 0.0 else if t > 1.0 then 1.0 else t
  }

  datatype UV = UV(u: real, v: real)

  lemma DivMul(a: real, b: real)
    requires b > 0.0
    ensures a / b * b == a
  {
  }

  lemma ScaledError(e: real, n: real)
    requires 0.0 < n <= 1024.0 && -1.0 / 2048.0 < e < 1.0 / 2048.0
    ensures -0.5 < e * n < 0.5
  {
    assert e * n < 1.0 / 2048.0 * n;
    assert e * n > -1.0 / 2048.0 * n;
  }

  lemma Scaled01(t: real, n: real)
    requires 0.0 <= t <= 1.0 && n >= 0.0
    ensures 0.0 <= t * n <= n
  {
  }

  lemma SplitProduct(t: real, d: real, n: real)
    requires n > 0.0
    ensures (t + d / n) * n == t * n + d
  {
    assert (t + d / n) * n == t * n + d / n * n;
    DivMul(d, n);
  }

  function Ratio(a: real, n: nat): real
    requires n > 0
  {
    a / n as real
  }

  function Along(o: int, t: real, w: nat): real { o as real + t * w as real }

  function RemapAxis(o: int, t: real, w: nat, n: nat): real
    requires n > 0
  {
    Ratio(Along(o, t, w), n)
  }

  /** The tile coordinate that an error `e` in the atlas coordinate amounts to. */
  function Moved(t: real, e: real, n: nat, w: nat): real
    requires w > 0
  {
    t + e * n as real / w as real
  }

  lemma RemappedAxis(o: int, t: real, w: nat, n: nat, e: real) returns (sx: real)
    requires 0.0 <= t <= 1.0 && w > 0 && 0 < n <= 1024
    requires -1.0 / 2048.0 < e < 1.0 / 2048.0
    ensures Texel(RemapAxis(o, t, w, n) + e, n) == o as real + sx
    ensures Texel(Moved(t, e, n, w), w) == sx
    ensures -0.5 < sx < w as real + 0.5
  {
    var W, N := w as real, n as real;
    sx := t * W + e * N;
    assert Texel(RemapAxis(o, t, w, n) + e, n) == o as real + sx by { RemapScaled(o, t, w, n, e); }
    assert Texel(Moved(t, e, n, w), w) == sx by { SplitProduct(t, e * N, W); }
    assert -0.5 < sx < W + 0.5 by {
      ScaledError(e, N);
      Scaled01(t, W);
    }
  }

  lemma RemapScaled(o: int, t: real, w: nat, n: nat, e: real)
    requires n > 0
    ensures (RemapAxis(o, t, w, n) + e) * n as real == o as real + (t * w as real + e * n as real)
  {
    var q, N := RemapAxis(o, t, w, n), n as real;
    DivMul(o as real + t * w as real, N);
    assert (q + e) * N == q * N + e * N;
  }

  /** A face corner's texture coordinate, v-up, to atlas coordinates, v-down. */
  function Remap(uv: UV, r: Rect, aw: nat, ah: nat): UV
    requires aw > 0 && ah > 0
  {
    UV(RemapAxis(r.x, Clamp01(uv.u), r.w, aw), RemapAxis(r.y, 1.0 - Clamp01(uv.v), r.h, ah))
  }

  /**
   * The gutter claim: with any UV error below 1/2048 on canvases up to 1024, sampling the atlas
   * at a remapped corner is clamp-mode sampling of the original texture (at the coordinate the
   * error moves it to), and the four texels fetched belong to the tile's own gutter cell.
   */
  lemma RemappedUvSamplesItsTile(atlas: Image, im: Image, r: Rect, uv: UV, eu: real, ev: real)
    requires Holds(atlas, im, r) && atlas.w <= 1024 && atlas.h <= 1024
    requires -1.0 / 2048.0 < eu < 1.0 / 2048.0 && -1.0 / 2048.0 < ev < 1.0 / 2048.0
    ensures var a := Remap(uv, r, atlas.w, atlas.h);
      && FourTexelsInCell(r, Texel(a.u + eu, atlas.w), Texel(a.v + ev, atlas.h))
      && Sample(atlas, a.u + eu, a.v + ev)
         == Sample(im, Moved(Clamp01(uv.u), eu, atlas.w, im.w), Moved(1.0 - Clamp01(uv.v), ev, atlas.h, im.h))
  {
    var a := Remap(uv, r, atlas.w, atlas.h);
    var sx := RemappedAxis(r.x, Clamp01(uv.u), r.w, atlas.w, eu);
    var sy := RemappedAxis(r.y, 1.0 - Clamp01(uv.v), r.h, atlas.h, ev);
    SamplesAt(atlas, im, r, a.u + eu, a.v + ev,
              Moved(Clamp01(uv.u), eu, atlas.w, im.w), Moved(1.0 - Clamp01(uv.v), ev, atlas.h, im.h), sx, sy);
  }

  lemma NotMoved(t: real, n: nat, w: nat)
    requires w > 0
    ensures Moved(t, 0.0, n, w) == t
  {
  }

  /** With no error the two samples are at the very same texture coordinate. */
  lemma ExactRemapSamplesItsTile(atlas: Image, im: Image, r: Rect, uv: UV)
    requires Holds(atlas, im, r) && atlas.w <= 1024 && atlas.h <= 1024
    ensures var a := Remap(uv, r, atlas.w, atlas.h);
      Sample(atlas, a.u, a.v) == Sample(im, Clamp01(uv.u), 1.0 - Clamp01(uv.v))
  {
    RemappedUvSamplesItsTile(atlas, im, r, uv, 0.0, 0.0);
    NotMoved(Clamp01(uv.u), atlas.w, im.w);
    NotMoved(1.0 - Clamp01(uv.v), atlas.h, im.h);
  }

  // ----- the stored coordinate -----

  function Pow2(e: int): (p: real)
    ensures p > 0.0
    decreases if e < 0 then -e else e
  {
    if e == 0 then 1.0 else if e > 0 then 2.0 * Pow2(e - 1) else Pow2(e + 1) / 2.0
  }

  function Scaled(m: nat, e: int): real { m as real * Pow2(e) }

  /** The nonnegative finite values of a binary format with `p` significand bits and least exponent `lo`. */
  ghost predicate Float(x: real, p: nat, lo: int, hi: int) {
    exists m: nat, e: int :: lo <= e <= hi && m as real < Pow2(p) && x == Scaled(m, e)
  }

  ghost predicate Half(x: real) { Float(x, 11, -24, 5) }
  ghost predicate Single(x: real) { Float(x, 24, -149, 104) }

  ghost predicate NearestHalf(x: real, h: real) {
    Half(h) && forall g :: Half(g) ==> Dist(x, h) <= Dist(x, g)
  }

  ghost predicate NearestSingle(x: real, s: real) {
    Single(s) && forall g :: Single(g) ==> Dist(x, s) <= Dist(x, g)
  }

  function Dist(a: real, b: real): real { if a < b then b - a else a - b }

  lemma GridPoint(x: real, n: nat) returns (k: nat)
    requires 0.0 <= x <= 1.0 && n > 0
    ensures k <= n && Dist(x, k as real / n as real) <= 0.5 / n as real
  {
    var N := n as real;
    assert 0.0 <= x * N <= N;
    k := (x * N + 0.5).Floor;
    assert -0.5 <= x * N - k as real <= 0.5;
    DivMul(k as real, N);
    DivMul(0.5, N);
    var d := x - k as real / N;
    assert d * N == x * N - k as real;
    Unscale(d, N);
  }

  lemma Unscale(d: real, n: real)
    requires n > 0.0 && -0.5 <= d * n <= 0.5
    ensures -(0.5 / n) <= d <= 0.5 / n
  {
  }

  lemma Pow2Values()
    ensures Pow2(1) == 2.0 && Pow2(0) == 1.0 && Pow2(11) == 2048.0 && Pow2(24) == 16777216.0
    ensures Pow2(-11) == 1.0 / 2048.0 && Pow2(-24) == 1.0 / 16777216.0
  {
    assert Pow2(4) == 16.0;
    assert Pow2(8) == 256.0;
    assert Pow2(12) == 4096.0;
    assert Pow2(16) == 65536.0;
    assert Pow2(20) == 1048576.0;
    assert Pow2(-4) == 1.0 / 16.0;
    assert Pow2(-8) == 1.0 / 256.0;
    assert Pow2(-12) == 1.0 / 4096.0;
    assert Pow2(-16) == 1.0 / 65536.0;
    assert Pow2(-20) == 1.0 / 1048576.0;
  }

  lemma GridIsHalf(k: nat)
    requires k <= 2048
    ensures Half(k as real / 2048.0)
  {
    Pow2Values();
    if k == 2048 {
      assert k as real / 2048.0 == Scaled(1, 0);
    } else {
      assert k as real / 2048.0 == Scaled(k, -11);
    }
  }

  lemma GridIsSingle(k: nat)
    requires k <= 16777216
    ensures Single(k as real / 16777216.0)
  {
    Pow2Values();
    if k == 16777216 {
      assert k as real / 16777216.0 == Scaled(1, 0);
    } else {
      assert k as real / 16777216.0 == Scaled(k, -24);
    }
  }

  lemma SingleError(x: real, s: real)
    requires 0.0 <= x <= 1.0 && NearestSingle(x, s)
    ensures Dist(x, s) <= 0.5 / 16777216.0
  {
    var k := GridPoint(x, 16777216);
    GridIsSingle(k);
  }

  lemma HalfError(s: real, h: real)
    requires NearestHalf(s, h)
    ensures Dist(s, h) <= Dist(s, Clamp01(s)) + 0.5 / 2048.0
  {
    var k := GridPoint(Clamp01(s), 2048);
    GridIsHalf(k);
    assert Dist(s, h) <= Dist(s, k as real / 2048.0);
  }

  /**
   * A coordinate in [0,1] rounded to single precision and then to half precision, as the vertex
   * buffer stores it, is off by well under 1/2048.
   */
  lemma StoredUvError(x: real, s: real, h: real)
    requires 0.0 <= x <= 1.0 && NearestSingle(x, s) && NearestHalf(s, h)
    ensures -1.0 / 2048.0 < h - x < 1.0 / 2048.0
  {
    SingleError(x, s);
    HalfError(s, h);
  }

  lemma UnitAxis(o: int, t: real, w: nat, n: nat)
    requires 0.0 <= t <= 1.0 && n > 0 && 0 <= o && o + w <= n
    ensures 0.0 <= RemapAxis(o, t, w, n) <= 1.0
  {
    hide Along, Ratio;
    AlongWithin(o, t, w, n);
    UnitRatio(Along(o, t, w), n);
  }

  lemma AlongWithin(o: int, t: real, w: nat, n: nat)
    requires 0.0 <= t <= 1.0 && 0 <= o && o + w <= n
    ensures 0.0 <= Along(o, t, w) <= n as real
  {
    Scaled01(t, w as real);
    assert o as real + w as real == (o + w) as real;
  }

  lemma UnitRatio(a: real, n: nat)
    requires 0.0 <= a <= n as real && n > 0
    ensures 0.0 <= Ratio(a, n) <= 1.0
  {
    Quotient01(a, n as real);
  }

  lemma Quotient01(a: real, n: real)
    requires 0.0 <= a <= n && n > 0.0
    ensures 0.0 <= a / n <= 1.0
  {
  }

  lemma MovedLittle(t: real, e: real, n: nat, w: nat)
    requires w > 0 && 0 < n <= 1024 && -1.0 / 2048.0 < e < 1.0 / 2048.0
    ensures Dist(Moved(t, e, n, w), t) < 0.5 / w as real
  {
    ScaledError(e, n as real);
    SmallQuotient(e * n as real, w as real);
  }

  lemma SmallQuotient(d: real, n: real)
    requires -0.5 < d < 0.5 && n > 0.0
    ensures -(0.5 / n) < d / n < 0.5 / n
  {
  }

  /**
   * Sampling at the coordinate as stored: the fetch stays in the tile's own gutter cell and is a
   * clamp-mode fetch of the original less than half a texel from the corner's coordinate.
   */
  lemma StoredUvSamplesItsTile(atlas: Image, im: Image, r: Rect, uv: UV, s: UV, h: UV)
      returns (u: real, v: real)
    requires Holds(atlas, im, r) && atlas.w <= 1024 && atlas.h <= 1024
    requires NearestSingle(Remap(uv, r, atlas.w, atlas.h).u, s.u) && NearestHalf(s.u, h.u)
    requires NearestSingle(Remap(uv, r, atlas.w, atlas.h).v, s.v) && NearestHalf(s.v, h.v)
    ensures FourTexelsInCell(r, Texel(h.u, atlas.w), Texel(h.v, atlas.h))
    ensures Dist(u, Clamp01(uv.u)) < 0.5 / im.w as real
    ensures Dist(v, 1.0 - Clamp01(uv.v)) < 0.5 / im.h as real
    ensures Sample(atlas, h.u, h.v) == Sample(im, u, v)
  {
    var a := Remap(uv, r, atlas.w, atlas.h);
    UnitAxis(r.x, Clamp01(uv.u), r.w, atlas.w);
    UnitAxis(r.y, 1.0 - Clamp01(uv.v), r.h, atlas.h);
    StoredUvError(a.u, s.u, h.u);
    StoredUvError(a.v, s.v, h.v);
    var eu, ev := h.u - a.u, h.v - a.v;
    RemappedUvSamplesItsTile(atlas, im, r, uv, eu, ev);
    assert a.u + eu == h.u && a.v + ev == h.v;
    MovedLittle(Clamp01(uv.u), eu, atlas.w, im.w);
    MovedLittle(1.0 - Clamp01(uv.v), ev, atlas.h, im.h);
    u, v := Moved(Clamp01(uv.u), eu, atlas.w, im.w), Moved(1.0 - Clamp01(uv.v), ev, atlas.h, im.h);
  }
}
