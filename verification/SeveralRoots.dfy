/**
 * When a profile learned from a skeleton with several roots gives its model back: exactly when the
 * roots in use were learned at one place.
 */
module SeveralRoots {
  import opened Vectors
  import opened Rigid
  import opened Repose
  import opened SimilarityFit

  // ----- two different posed points of one bone -----

  /** A bone's point is one of its vertices. */
  lemma {:induction false} PointIsVertex(vs: seq<Vec>, vbone: seq<nat>, b: nat, n: nat, m: nat) returns (k: nat)
    requires |vs| == |vbone| && n <= |vs| && m < |PointsOf(vs, vbone, b, n)|
    ensures k < n && vbone[k] == b && vs[k] == PointsOf(vs, vbone, b, n)[m]
  {
    if m < |PointsOf(vs, vbone, b, n - 1)| {
      k := PointIsVertex(vs, vbone, b, n - 1, m);
    } else {
      k := n - 1;
    }
  }

  lemma EdgeOfOne(p: Vec)
    ensures Add(p, Neg(p)) == ZERO
  {
  }

  /** Points that are not all on one line are not all one point. */
  lemma SpanningDiffers(xs: seq<Vec>) returns (i: nat, j: nat)
    requires Spanning(xs)
    ensures i < |xs| && j < |xs| && xs[i] != xs[j]
  {
    hide Cross, Add;
    var k: nat;
    i, j, k :| i < |xs| && j < |xs| && k < |xs| && Cross(Edge(xs, i, j), Edge(xs, i, k)) != ZERO;
    EdgeOfOne(xs[i]);
    CrossOfNone(Edge(xs, i, k));
  }

  lemma SimilarityIsInjective(f: Sim, p: Vec, q: Vec)
    requires f.s > 0.0 && IsRotation(f.m) && p != q
    ensures SimAct(f, p) != SimAct(f, q)
  {
    hide MulV, Scale, IsRotation;
    if SimAct(f, p) == SimAct(f, q) {
      SameStart(Scale(f.s, MulV(f.m, p)), Scale(f.s, MulV(f.m, q)), f.t);
      Unscaled(f.s, MulV(f.m, p), MulV(f.m, q));
      BackAgain(f.m, p);
      BackAgain(f.m, q);
    }
  }

  lemma SameStart(u: Vec, v: Vec, t: Vec)
    requires Add(u, t) == Add(v, t)
    ensures u == v
  {
  }

  /** The first vertex's bone has two vertices that are posed at different points. */
  lemma TwoPosed(vs: seq<Vec>, ps: seq<Vec>, vbone: seq<nat>, truth: seq<Sim>, c: real) returns (i: nat, j: nat)
    requires RigidImages(vs, ps, vbone, truth, c) && WellCovered(vs, vbone, |truth|) && |vs| > 0
    ensures i < |vs| && j < |vs| && vbone[i] == vbone[j] && ps[i] != ps[j]
  {
    hide SimAct, IsRotation, Spanning;
    var b := vbone[0];
    HasPoint(vs, vbone, b, |vs|, 0);
    var m, n := SpanningDiffers(PointsOf(vs, vbone, b, |vs|));
    i := PointIsVertex(vs, vbone, b, |vs|, m);
    j := PointIsVertex(vs, vbone, b, |vs|, n);
    SimilarityIsInjective(truth[b], vs[i], vs[j]);
  }

  // ----- the placement's scale -----

  lemma ScaleOnAxis(s: real, c: real, u: real, v: real, d: real, t: real)
    requires Times(s, u) + d == Times(c, u + t) && Times(s, v) + d == Times(c, v + t) && u != v
    ensures s == c
  {
    assert (s - c) * (u - v) == 0.0 by {
      assert s * u + d == c * u + c * t && s * v + d == c * v + c * t;
    }
    ZeroFactor(s - c, u - v);
  }

  /** Two points that were shifted alike and posed apart fix the scale of the placement. */
  lemma ScaleIsForced(s: real, c: real, u: Vec, v: Vec, d: Vec, t: Vec)
    requires Add(Scale(s, u), d) == Scale(c, Add(u, t)) && Add(Scale(s, v), d) == Scale(c, Add(v, t)) && u != v
    ensures s == c
  {
    hide Times;
    if u.x != v.x {
      ScaleOnAxis(s, c, u.x, v.x, d.x, t.x);
    } else if u.y != v.y {
      ScaleOnAxis(s, c, u.y, v.y, d.y, t.y);
    } else {
      ScaleOnAxis(s, c, u.z, v.z, d.z, t.z);
    }
  }

  /** How far the placement moves the scaled points. */
  function Offset(us: seq<Vec>, prof: Profile): Vec
    requires |us| > 0 && Height(us) != 0.0
  {
    var ss := ScaledAll(prof.height / Height(us), us);
    Vec(prof.centerX - Middle(Xs(ss)), prof.centerY - Middle(Ys(ss)), prof.foot - Least(Zs(ss)))
  }

  lemma PlaceMoves(us: seq<Vec>, prof: Profile, k: nat)
    requires k < |us| && Height(us) != 0.0
    ensures Place(us, prof)[k] == Add(Scale(prof.height / Height(us), us[k]), Offset(us, prof))
  {
    hide Times, Most, Least, Middle;
  }

  /** Points placed back where they were posed were scaled by the common scale. */
  lemma PlacedToScale(us: seq<Vec>, ps: seq<Vec>, ts: seq<Vec>, c: real, prof: Profile, i: nat, j: nat)
    requires |us| == |ps| == |ts| && i < |us| && j < |us| && ts[i] == ts[j] && ps[i] != ps[j]
    requires forall k :: 0 <= k < |us| ==> ps[k] == Scale(c, Add(us[k], ts[k]))
    requires Height(us) != 0.0 && Place(us, prof) == ps
    ensures prof.height / Height(us) == c
  {
    hide Place, Offset, Height, Scale, Add;
    PlaceMoves(us, prof, i);
    PlaceMoves(us, prof, j);
    ScaleIsForced(prof.height / Height(us), c, us[i], us[j], Offset(us, prof), ts[i]);
  }

  /** And then every point was shifted alike. */
  lemma PlacedAlike(us: seq<Vec>, ps: seq<Vec>, ts: seq<Vec>, c: real, prof: Profile, i: nat, j: nat)
    requires |us| == |ps| == |ts| && i < |us| && j < |us| && c > 0.0
    requires forall k :: 0 <= k < |us| ==> ps[k] == Scale(c, Add(us[k], ts[k]))
    requires Height(us) != 0.0 && prof.height / Height(us) == c && Place(us, prof) == ps
    ensures ts[i] == ts[j]
  {
    hide Place, Offset, Height, Scale;
    var d := Offset(us, prof);
    forall k: nat | k < |us| ensures Scale(c, ts[k]) == d {
      PlaceMoves(us, prof, k);
      ScaleAdd(c, us[k], ts[k]);
    }
    Unscaled(c, ts[i], ts[j]);
  }

  /**
   * Learn then apply gives the posed points back if and only if the roots above the bones with
   * vertices were learned at one place.
   */
  lemma LearnThenApplyIff(vs: seq<Vec>, ps: seq<Vec>, vbone: seq<nat>, wa: seq<Frame>, parent: seq<int>,
                          names: seq<string>, truth: seq<Sim>, c: real, fit: (seq<Vec>, seq<Vec>) -> Sim,
                          ortho: Mat -> Mat, median: seq<real> -> real, prof: Profile, w: seq<Frame>, v: seq<Frame>)
    requires Posable(vs, ps, vbone, wa, parent, names, truth, c)
    requires FitsExactly(fit) && KeepsRotations(ortho) && MedianOfEqual(median)
    requires Learned(prof, w, vs, ps, vbone, wa, parent, names, fit, ortho, median)
    requires Posed(v, wa, parent, PoseByName(prof, names))
    ensures var us := CarriedAll(v, wa, vs, vbone);
      Height(us) != 0.0 && Place(us, prof) == ps <==> ShiftedAlike(w, parent, vbone)
  {
    hide Place, Carried, SimAct, Scale, Add, Height, FitsExactly, KeepsRotations, MedianOfEqual, WellCovered,
      DistinctNames, FrameOf, PoseOf, PosedFrame, AllRigid, IsRotation, Measured, Scales, HangsWell, RootOf;
    LearnsTruth(vs, ps, vbone, wa, parent, names, truth, c, fit, median);
    OwnNames(prof);
    var sb := Measured(fit, vs, ps, vbone, |wa|);
    var us := CarriedAll(v, wa, vs, vbone);
    var ts := seq(|vs|, i requires 0 <= i < |vs| => w[RootOf(parent, vbone[i])].t);
    forall i | 0 <= i < |us| ensures ps[i] == Scale(c, Add(us[i], ts[i])) {
      CarriedIsScaledDown(v, w, sb, truth, c, wa, parent, ortho, prof.pose, vbone[i], vs[i]);
    }
    if ShiftedAlike(w, parent, vbone) {
      LearnThenApply(vs, ps, vbone, wa, parent, names, truth, c, fit, ortho, median, prof, w, v);
    }
    if Height(us) != 0.0 && PlacedBack(us, ps, prof) {
      var m, n := TwoPosed(vs, ps, vbone, truth, c);
      PlacedToScale(us, ps, ts, c, prof, m, n);
      forall i, j | 0 <= i < |vbone| && 0 <= j < |vbone|
        ensures w[RootOf(parent, vbone[i])].t == w[RootOf(parent, vbone[j])].t
      {
        PlacedAlike(us, ps, ts, c, prof, i, j);
        assert ts[i] == ts[j];
      }
    }
  }

  ghost predicate PlacedBack(us: seq<Vec>, ps: seq<Vec>, prof: Profile)
    requires |us| > 0 && Height(us) != 0.0
  {
    Place(us, prof) == ps
  }
}
