/**
 * What the fit of tools/client_model/repose.py is asked for can be given: a similarity is determined
 * by its image of three points that are not on one line.
 */
module SimilarityFit {
  import opened Vectors
  import opened Rigid
  import opened Repose

  // ----- vectors -----

  lemma AcrossAxis(d: Vec, a: Vec, b: Vec)
    ensures d.y * (a.x * b.y - a.y * b.x) - d.z * (a.z * b.x - a.x * b.z)
         == (d.x * b.x + d.y * b.y + d.z * b.z) * a.x - (d.x * a.x + d.y * a.y + d.z * a.z) * b.x
  {
    assert d.y * (a.x * b.y - a.y * b.x) == d.y * b.y * a.x - d.y * a.y * b.x;
    assert d.z * (a.z * b.x - a.x * b.z) == d.z * a.z * b.x - d.z * b.z * a.x;
    assert (d.x * b.x + d.y * b.y + d.z * b.z) * a.x == d.x * b.x * a.x + d.y * b.y * a.x + d.z * b.z * a.x;
    assert (d.x * a.x + d.y * a.y + d.z * a.z) * b.x == d.x * a.x * b.x + d.y * a.y * b.x + d.z * a.z * b.x;
    assert d.x * b.x * a.x == d.x * a.x * b.x;
  }

  lemma AcrossFirst(d: Vec, a: Vec, b: Vec)
    ensures Cross(d, Cross(a, b)).x == Times(Dot(d, b), a.x) - Times(Dot(d, a), b.x)
  {
    AcrossAxis(d, a, b);
  }

  /** The axes in turn. */
  function Turned(v: Vec): Vec { Vec(v.y, v.z, v.x) }

  lemma TurnedProducts(u: Vec, v: Vec)
    ensures Dot(Turned(u), Turned(v)) == Dot(u, v) && Cross(Turned(u), Turned(v)) == Turned(Cross(u, v))
  {
    hide Times;
  }

  lemma AcrossToX(d: Vec, a: Vec, b: Vec)
    requires Dot(d, a) == 0.0 && Dot(d, b) == 0.0
    ensures Cross(d, Cross(a, b)).x == 0.0
  {
    hide Dot, Cross, Times;
    AcrossFirst(d, a, b);
    TimesUnits(a.x);
    TimesUnits(b.x);
  }

  lemma TurnedAcross(d: Vec, a: Vec, b: Vec)
    ensures Dot(Turned(d), Turned(a)) == Dot(d, a) && Dot(Turned(d), Turned(b)) == Dot(d, b)
    ensures Cross(Turned(d), Cross(Turned(a), Turned(b))) == Turned(Cross(d, Cross(a, b)))
  {
    hide Dot, Cross;
    TurnedProducts(d, a);
    TurnedProducts(d, b);
    TurnedProducts(a, b);
    TurnedProducts(d, Cross(a, b));
  }

  /** A vector across two others is along their cross product. */
  lemma AcrossBoth(d: Vec, a: Vec, b: Vec)
    requires Dot(d, a) == 0.0 && Dot(d, b) == 0.0
    ensures Cross(d, Cross(a, b)) == ZERO
  {
    AcrossToX(d, a, b);
    TurnedAcross(d, a, b);
    AcrossToX(Turned(d), Turned(a), Turned(b));
    TurnedAcross(Turned(d), Turned(a), Turned(b));
    AcrossToX(Turned(Turned(d)), Turned(Turned(a)), Turned(Turned(b)));
    hide Dot, Cross;
  }

  lemma Lagrange(d: Vec, e: Vec)
    ensures Times(Dot(d, d), Dot(e, e)) == Times(Dot(d, e), Dot(d, e)) + Dot(Cross(d, e), Cross(d, e))
  {
  }

  lemma Square(a: real)
    ensures Times(a, a) >= 0.0 && (Times(a, a) == 0.0 ==> a == 0.0)
  {
    if a > 0.0 {
      PositiveProduct(a, a);
    } else if a < 0.0 {
      PositiveProduct(-a, -a);
      TimesNeg(a, -a);
      TimesNeg(a, a);
    }
  }

  lemma NoLength(d: Vec)
    ensures Dot(d, d) == 0.0 <==> d == ZERO
  {
    Square(d.x);
    Square(d.y);
    Square(d.z);
    TimesUnits(0.0);
    hide Times;
  }

  lemma ZeroFactor(a: real, b: real)
    requires Times(a, b) == 0.0 && b != 0.0
    ensures a == 0.0
  {
  }

  /** A vector across three that span the space is zero. */
  lemma AcrossAll(d: Vec, a: Vec, b: Vec)
    requires Dot(d, a) == 0.0 && Dot(d, b) == 0.0 && Dot(d, Cross(a, b)) == 0.0 && Cross(a, b) != ZERO
    ensures d == ZERO
  {
    var e := Cross(a, b);
    AcrossBoth(d, a, b);
    Lagrange(d, e);
    hide Dot, Cross, Times;
    assert Times(0.0, 0.0) == 0.0 by { TimesUnits(0.0); }
    NoLength(ZERO);
    NoLength(e);
    ZeroFactor(Dot(d, d), Dot(e, e));
    NoLength(d);
  }

  lemma SameOnAll(p: Vec, q: Vec, a: Vec, b: Vec)
    requires Dot(p, a) == Dot(q, a) && Dot(p, b) == Dot(q, b) && Dot(p, Cross(a, b)) == Dot(q, Cross(a, b))
    requires Cross(a, b) != ZERO
    ensures p == q
  {
    var d := Add(p, Neg(q));
    forall w ensures Dot(d, w) == Dot(p, w) - Dot(q, w) {
      DotAdd(p, Neg(q), w);
      DotNeg(q, w);
    }
    assert d == ZERO by {
      hide Dot, Cross;
      AcrossAll(d, a, b);
    }
  }

  // ----- rotations -----

  lemma RotationIsRows(m: Mat, v: Vec)
    ensures MulV(m, v) == RowMul(v, Transpose(m))
  {
    hide MulV, RowMul, Transpose;
    RowIsTransposed(v, Transpose(m));
    TransposeTwice(m);
  }

  lemma BackAgain(m: Mat, v: Vec)
    requires IsRotation(m)
    ensures MulV(Transpose(m), MulV(m, v)) == v
  {
    assert Mul(Transpose(m), m) == ID;
    hide MulV, Mul, Transpose, RightHanded;
    MulActs(Transpose(m), m, v);
    MulVId(v);
  }

  lemma RotationKeepsDot(m: Mat, u: Vec, v: Vec)
    requires IsRotation(m)
    ensures Dot(MulV(m, u), MulV(m, v)) == Dot(u, v)
  {
    hide MulV, RowMul, Transpose, IsRotation, Dot;
    RotationIsRows(m, u);
    RowMulV(u, Transpose(m), MulV(m, v));
    BackAgain(m, v);
  }

  lemma RotationKeepsCross(m: Mat, u: Vec, v: Vec)
    requires IsRotation(m)
    ensures MulV(m, Cross(u, v)) == Cross(MulV(m, u), MulV(m, v))
  {
    hide MulV, RowMul, Transpose, Cross, Mul, RightHanded;
    RotationIsRows(m, u);
    RotationIsRows(m, v);
    RotationIsRows(m, Cross(u, v));
    CrossOfRows(u, v, Transpose(m));
  }

  /** A rotation that fixes two directions is the identity. */
  lemma FixesTwo(r: Mat, u: Vec, v: Vec)
    requires IsRotation(r) && MulV(r, u) == u && MulV(r, v) == v && Cross(u, v) != ZERO
    ensures r == ID
  {
    var e := Cross(u, v);
    RotationKeepsCross(r, u, v);
    MulVId(u);
    MulVId(v);
    MulVId(e);
    assert MulV(r, e) == e;
    hide Dot, Cross, IsRotation;
    SameOnAll(r.a, ID.a, u, v);
    SameOnAll(r.b, ID.b, u, v);
    SameOnAll(r.c, ID.c, u, v);
  }

  /** Two rotations that agree on two directions are equal. */
  lemma SameRotation(m: Mat, n: Mat, u: Vec, v: Vec)
    requires IsRotation(m) && IsRotation(n) && Cross(u, v) != ZERO
    requires MulV(m, u) == MulV(n, u) && MulV(m, v) == MulV(n, v)
    ensures m == n
  {
    var t := Transpose(n);
    var r := Mul(t, m);
    assert Mul(n, t) == ID;
    hide MulV, Mul, Transpose, RightHanded, Cross;
    TransposeIsRotation(n);
    ProductIsRotation(t, m);
    MulActs(t, m, u);
    MulActs(t, m, v);
    BackAgain(n, u);
    BackAgain(n, v);
    FixesTwo(r, u, v);
    MulAssoc(n, t, m);
    MulId(m);
    MulId(n);
  }

  // ----- similarities -----

  /** A similarity takes an edge to the scaled and turned edge. */
  lemma EdgeImage(f: Sim, p: Vec, q: Vec)
    ensures Add(SimAct(f, q), Neg(SimAct(f, p))) == Scale(f.s, MulV(f.m, Add(q, Neg(p))))
  {
    hide MulV, Scale;
    MulVAdd(f.m, q, Neg(p));
    MulVNeg(f.m, p);
    ScaleAdd(f.s, MulV(f.m, q), Neg(MulV(f.m, p)));
    ScaleNeg(f.s, MulV(f.m, p));
  }

  /** The squared length of a scaled and turned vector. */
  lemma ScaledLength(s: real, m: Mat, e: Vec)
    requires IsRotation(m)
    ensures Dot(Scale(s, MulV(m, e)), Scale(s, MulV(m, e))) == Times(s, Times(s, Dot(e, e)))
  {
    hide Dot, Scale, MulV, IsRotation, Times;
    var w := MulV(m, e);
    DotScale(s, w, Scale(s, w));
    DotScale(s, w, w);
    RotationKeepsDot(m, e, e);
  }

  lemma SameSquare(s: real, r: real, q: real)
    requires s > 0.0 && r > 0.0 && q != 0.0 && Times(s, Times(s, q)) == Times(r, Times(r, q))
    ensures s == r
  {
    assert (s * s - r * r) * q == 0.0 by {
      assert s * (s * q) == s * s * q && r * (r * q) == r * r * q;
    }
    ZeroFactor(s * s - r * r, q);
    assert (s - r) * (s + r) == 0.0;
    ZeroFactor(s - r, s + r);
  }

  lemma Unscaled(s: real, u: Vec, v: Vec)
    requires s > 0.0 && Scale(s, u) == Scale(s, v)
    ensures u == v
  {
    UnscaledAxis(s, u.x, v.x);
    UnscaledAxis(s, u.y, v.y);
    UnscaledAxis(s, u.z, v.z);
  }

  lemma UnscaledAxis(s: real, a: real, b: real)
    requires s > 0.0 && Times(s, a) == Times(s, b)
    ensures a == b
  {
    assert (a - b) * s == 0.0;
    ZeroFactor(a - b, s);
  }

  lemma CrossOfNone(v: Vec)
    ensures Cross(ZERO, v) == ZERO
  {
    TimesUnits(v.x);
    TimesUnits(v.y);
    TimesUnits(v.z);
    hide Times;
  }

  lemma SameEdges(f: Sim, g: Sim, d: Vec, e: Vec)
    requires f.s > 0.0 && g.s > 0.0 && IsRotation(f.m) && IsRotation(g.m) && Cross(d, e) != ZERO
    requires Scale(f.s, MulV(f.m, d)) == Scale(g.s, MulV(g.m, d))
    requires Scale(f.s, MulV(f.m, e)) == Scale(g.s, MulV(g.m, e))
    ensures f.s == g.s && f.m == g.m
  {
    hide Scale, MulV, IsRotation, Cross, Times, Dot;
    CrossOfNone(e);
    NoLength(d);
    ScaledLength(f.s, f.m, d);
    ScaledLength(g.s, g.m, d);
    SameSquare(f.s, g.s, Dot(d, d));
    Unscaled(f.s, MulV(f.m, d), MulV(g.m, d));
    Unscaled(f.s, MulV(f.m, e), MulV(g.m, e));
    SameRotation(f.m, g.m, d, e);
  }

  lemma SameShift(u: Vec, s: Vec, t: Vec)
    requires Add(u, s) == Add(u, t)
    ensures s == t
  {
  }

  /** Two similarities with the same image of points that are not all on one line are equal. */
  lemma ImageDeterminesSimilarity(xs: seq<Vec>, ys: seq<Vec>, f: Sim, g: Sim)
    requires IsImage(xs, ys, f) && f.s > 0.0 && IsRotation(f.m)
    requires IsImage(xs, ys, g) && g.s > 0.0 && IsRotation(g.m)
    requires Spanning(xs)
    ensures f == g
  {
    hide MulV, IsRotation, Cross, Scale;
    var i: nat, j: nat, k: nat :| i < |xs| && j < |xs| && k < |xs| && Cross(Edge(xs, i, j), Edge(xs, i, k)) != ZERO;
    assert ys[i] == SimAct(f, xs[i]) == SimAct(g, xs[i]);
    assert ys[j] == SimAct(f, xs[j]) == SimAct(g, xs[j]);
    assert ys[k] == SimAct(f, xs[k]) == SimAct(g, xs[k]);
    EdgeImage(f, xs[i], xs[j]);
    EdgeImage(g, xs[i], xs[j]);
    EdgeImage(f, xs[i], xs[k]);
    EdgeImage(g, xs[i], xs[k]);
    SameEdges(f, g, Edge(xs, i, j), Edge(xs, i, k));
    SameShift(Scale(f.s, MulV(f.m, xs[i])), f.t, g.t);
  }

  ghost predicate Fits(xs: seq<Vec>, ys: seq<Vec>, f: Sim) {
    IsImage(xs, ys, f) && f.s > 0.0 && IsRotation(f.m)
  }

  /** Some similarity with this image, if there is one. */
  ghost function Fit(xs: seq<Vec>, ys: seq<Vec>): (f: Sim)
    ensures (exists g :: Fits(xs, ys, g)) ==> Fits(xs, ys, f)
  {
    if exists g :: Fits(xs, ys, g) then
      var g :| Fits(xs, ys, g);
      g
    else Sim(1.0, ID, ZERO)
  }

  /** So there is a fit that is exact on exact input, as the profiles ask of theirs. */
  lemma ExactFitExists()
    ensures FitsExactly(Fit)
  {
    hide IsImage, IsRotation, Spanning;
    forall xs: seq<Vec>, ys: seq<Vec>, f: Sim | IsImage(xs, ys, f) && f.s > 0.0 && IsRotation(f.m) && Spanning(xs)
      ensures Fit(xs, ys) == f
    {
      assert Fits(xs, ys, f);
      ImageDeterminesSimilarity(xs, ys, f, Fit(xs, ys));
    }
  }
}
