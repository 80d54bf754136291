/**
 * The shading normals of tools/client_model/repose.py: they turn with their bones, and on the posed and
 * placed model they stand on the surface as they did at rest.
 */
module ReposeNormals {
  import opened Results
  import opened Vectors
  import opened Rigid
  import opened Repose
  import opened ReposeLaws

  /** The Euclidean length of a vector. */
  ghost predicate IsLength(norm: Vec -> real) {
    forall v: Vec :: norm(v) >= 0.0 && Times(norm(v), norm(v)) == Dot(v, v)
  }

  /** Shorter normals are left unscaled. */
  const TINY := 0.00000001

  /** A direction turned by its bone from the rest pose to the new one. */
  function Turned(w: seq<Frame>, wa: seq<Frame>, b: nat, n: Vec): Vec
    requires b < |w| == |wa|
  {
    MulV(w[b].m, MulV(Inv(wa[b]).m, n))
  }

  function Normalised(norm: Vec -> real, n: Vec): Vec {
    if norm(n) > TINY then Scale(1.0 / norm(n), n) else n
  }

  /** The normals turned by their bones, at unit length. */
  method CarryNormals(ns: seq<Vec>, nbone: seq<nat>, w: seq<Frame>, wa: seq<Frame>, norm: Vec -> real)
    returns (out: seq<Vec>)
    requires |ns| == |nbone| && |w| == |wa| && forall i :: 0 <= i < |nbone| ==> nbone[i] < |w|
    ensures |out| == |ns|
    ensures forall i :: 0 <= i < |ns| ==> out[i] == Normalised(norm, Turned(w, wa, nbone[i], ns[i]))
  {
    out := [];
    for i := 0 to |ns|
      invariant |out| == i
      invariant forall k :: 0 <= k < i ==> out[k] == Normalised(norm, Turned(w, wa, nbone[k], ns[k]))
    {
      var n := MulV(w[nbone[i]].m, MulV(Inv(wa[nbone[i]]).m, ns[i]));
      var l := norm(n);
      out := out + [if l > TINY then Scale(1.0 / l, n) else n];
    }
  }

  /** A rotation keeps products, and with them lengths and angles. */
  lemma RotationKeepsDot(m: Mat, u: Vec, v: Vec)
    requires IsRotation(m)
    ensures Dot(MulV(m, u), MulV(m, v)) == Dot(u, v)
  {
    hide Dot, MulV, RowMul, Mul;
    RowMulV(MulV(m, u), m, v);
    RowIsTransposed(MulV(m, u), m);
    MulActs(Transpose(m), m, u);
    MulVId(u);
  }

  lemma TurnKeepsDot(w: seq<Frame>, wa: seq<Frame>, b: nat, u: Vec, v: Vec)
    requires b < |w| == |wa| && IsRigid(w[b]) && IsRigid(wa[b])
    ensures Dot(Turned(w, wa, b, u), Turned(w, wa, b, v)) == Dot(u, v)
  {
    hide Dot, MulV, IsRotation;
    InvIsRigid(wa[b]);
    RotationKeepsDot(Inv(wa[b]).m, u, v);
    RotationKeepsDot(w[b].m, MulV(Inv(wa[b]).m, u), MulV(Inv(wa[b]).m, v));
  }

  /** From one point to another. */
  function Between(p: Vec, q: Vec): Vec { Add(q, Neg(p)) }

  lemma ActBetween(f: Frame, p: Vec, q: Vec)
    ensures Between(Act(f, p), Act(f, q)) == MulV(f.m, Between(p, q))
  {
    hide MulV;
    MulVAdd(f.m, q, Neg(p));
    MulVNeg(f.m, p);
  }

  /** An edge between two vertices of a bone turns as its normals do. */
  lemma EdgeTurns(w: seq<Frame>, wa: seq<Frame>, b: nat, p: Vec, q: Vec)
    requires b < |w| == |wa|
    ensures Between(Carried(w, wa, b, p), Carried(w, wa, b, q)) == Turned(w, wa, b, Between(p, q))
  {
    hide MulV, Act, Between;
    ActBetween(Inv(wa[b]), p, q);
    ActBetween(w[b], Act(Inv(wa[b]), p), Act(Inv(wa[b]), q));
  }

  /** Two numbers are on the same side of zero. */
  predicate SameSide(x: real, y: real) { (x > 0.0 <==> y > 0.0) && (x == 0.0 <==> y == 0.0) }

  lemma StretchedSide(k: real, x: real)
    requires k > 0.0
    ensures SameSide(x, Times(k, x))
  {
    if x > 0.0 { assert k * x > 0.0; } else if x < 0.0 { assert k * -x > 0.0; }
  }

  lemma SquareGrows(x: real, y: real)
    requires 0.0 <= x < y
    ensures Times(x, x) < Times(y, y)
  {
    StretchedSide(y - x, y + x);
    assert (y - x) * (y + x) == y * y - x * x;
  }

  lemma SameSquares(x: real, y: real)
    requires x >= 0.0 && y >= 0.0 && Times(x, x) == Times(y, y)
    ensures x == y
  {
    hide Times;
    if x < y { SquareGrows(x, y); }
    if y < x { SquareGrows(y, x); }
  }

  lemma TurnKeepsLength(norm: Vec -> real, w: seq<Frame>, wa: seq<Frame>, b: nat, n: Vec)
    requires IsLength(norm) && b < |w| == |wa| && IsRigid(w[b]) && IsRigid(wa[b])
    ensures norm(Turned(w, wa, b, n)) == norm(n)
  {
    hide Dot, Turned, IsRotation, Times;
    TurnKeepsDot(w, wa, b, n, n);
    SameSquares(norm(Turned(w, wa, b, n)), norm(n));
  }

  lemma UnitLength(norm: Vec -> real, n: Vec)
    requires IsLength(norm) && norm(n) > 0.0
    ensures norm(Scale(1.0 / norm(n), n)) == 1.0
  {
    var l := norm(n);
    var k := 1.0 / l;
    assert Times(k, l) == 1.0;
    hide Dot, Scale, Times;
    DotScale(k, n, n);
    DotScale(k, n, Scale(k, n));
    TimesAssoc(k, l, l);
    assert Dot(Scale(k, n), Scale(k, n)) == Times(k, Times(k, Times(l, l)));
    TimesUnits(l);
    TimesUnits(1.0);
    SameSquares(norm(Scale(k, n)), 1.0);
  }

  /** How much longer a normal was than its carried one. */
  function Stretch(norm: Vec -> real, n: Vec): real { if norm(n) > TINY then norm(n) else 1.0 }

  /**
   * Whatever the poses: a normal that is not tiny comes out at unit length, and it makes with every edge
   * of its bone the product it made at rest, up to that normalisation.
   */
  lemma NormalsFollow(norm: Vec -> real, w: seq<Frame>, wa: seq<Frame>, b: nat, n: Vec, p: Vec, q: Vec)
    requires IsLength(norm) && b < |w| == |wa| && IsRigid(w[b]) && IsRigid(wa[b])
    ensures var c := Normalised(norm, Turned(w, wa, b, n));
      && norm(c) == (if norm(n) > TINY then 1.0 else norm(n))
      && Times(Stretch(norm, n), Dot(c, Between(Carried(w, wa, b, p), Carried(w, wa, b, q)))) == Dot(n, Between(p, q))
  {
    var t, e, l := Turned(w, wa, b, n), Between(p, q), norm(n);
    TurnKeepsLength(norm, w, wa, b, n);
    EdgeTurns(w, wa, b, p, q);
    var d := Turned(w, wa, b, e);
    TurnKeepsDot(w, wa, b, n, e);
    TimesUnits(Dot(t, d));
    if l > TINY {
      UnitLength(norm, t);
      assert Times(l, 1.0 / l) == 1.0;
      hide Dot, Scale, Times, Turned, Between, Carried, IsRotation, IsLength;
      DotScale(1.0 / l, t, d);
      TimesAssoc(l, 1.0 / l, Dot(t, d));
    }
  }

  lemma SpreadBetween(k: real, d: Vec, u: Vec, v: Vec)
    ensures Between(Add(Scale(k, u), d), Add(Scale(k, v), d)) == Scale(k, Between(u, v))
  {
    hide Times;
    TimesAdd(v.x, -u.x, k);
    TimesAdd(v.y, -u.y, k);
    TimesAdd(v.z, -u.z, k);
    TimesNeg(k, u.x);
    TimesNeg(k, u.y);
    TimesNeg(k, u.z);
  }

  /**
   * On the model as posed and placed: of two vertices of one bone, the second lies before, in or behind
   * the plane of a normal through the first exactly as it did at rest.
   */
  lemma NormalsFitPlacedModel(norm: Vec -> real, out: seq<Vec>, w: seq<Frame>, vs: seq<Vec>, vbone: seq<nat>,
                              wa: seq<Frame>, parent: seq<int>, prof: Profile, pose: seq<Frame>, n: Vec,
                              i: nat, j: nat)
    requires IsLength(norm) && |vs| == |vbone| && |wa| == |parent| && forall k :: 0 <= k < |vbone| ==> vbone[k] < |wa|
    requires Applied(out, w, vs, vbone, wa, parent, prof, pose) && Replayed(w, wa, parent, pose)
    requires prof.height > 0.0 && i < |vs| && j < |vs| && vbone[i] == vbone[j]
    ensures |w| == |wa| && |out| == |vs|
    ensures var c := Normalised(norm, Turned(w, wa, vbone[i], n));
      SameSide(Dot(c, Between(out[i], out[j])), Dot(n, Between(vs[i], vs[j])))
  {
    var us := CarriedAll(w, wa, vs, vbone);
    var b := vbone[i];
    var k, d := PlacedToMeasure(us, prof);
    PosedIsRigid(w, wa, parent, pose, b);
    var c := Normalised(norm, Turned(w, wa, b, n));
    NormalsFollow(norm, w, wa, b, n, vs[i], vs[j]);
    assert us[i] == Carried(w, wa, b, vs[i]) && us[j] == Carried(w, wa, b, vs[j]);
    hide *;
    SpreadBetween(k, d, us[i], us[j]);
    DotScale(k, Between(us[i], us[j]), c);
    StretchedSide(k, Dot(c, Between(us[i], us[j])));
    StretchedSide(Stretch(norm, n), Dot(c, Between(us[i], us[j])));
  }
}
