/**
 * What the signed volume of tools/client_model/ue_cook.py measures: the volume of a tetrahedron, the
 * same for every order of a face's corners that keeps its side, and for a closed mesh the same wherever
 * the mesh stands.
 */
module WindingLaws {
  import opened Vectors
  import opened Winding

  // ----- one face -----

  /** The determinant of three edges, written out. */
  function Det(u: Vec, v: Vec, w: Vec): real {
    Times(u.x, Times(v.y, w.z)) + Times(u.y, Times(v.z, w.x)) + Times(u.z, Times(v.x, w.y))
      - Times(u.x, Times(v.z, w.y)) - Times(u.y, Times(v.x, w.z)) - Times(u.z, Times(v.y, w.x))
  }

  lemma CornerIsDet(a: Vec, b: Vec, c: Vec)
    ensures Corner6(a, b, c) == Det(a, b, c)
  {
    TimesMinus(Times(b.y, c.z), Times(b.z, c.y), a.x);
    TimesMinus(Times(b.z, c.x), Times(b.x, c.z), a.y);
    TimesMinus(Times(b.x, c.y), Times(b.y, c.x), a.z);
    hide Times;
  }

  lemma Rotated(x: real, y: real, z: real)
    ensures Times(x, Times(y, z)) == Times(y, Times(z, x)) == Times(z, Times(x, y))
  {
    TimesAssoc(x, y, z);
    TimesAssoc(y, z, x);
    TimesComm(Times(x, y), z);
    TimesComm(Times(y, z), x);
    hide Times;
  }

  lemma Swapped(x: real, y: real, z: real)
    ensures Times(x, Times(y, z)) == Times(x, Times(z, y))
  {
    TimesComm(y, z);
    hide Times;
  }

  /** Starting a face at another of its corners does not change its contribution. */
  lemma CyclicKeeps(a: Vec, b: Vec, c: Vec)
    ensures Corner6(b, c, a) == Corner6(a, b, c) && Corner6(c, a, b) == Corner6(a, b, c)
  {
    CornerIsDet(a, b, c);
    CornerIsDet(b, c, a);
    CornerIsDet(c, a, b);
    DetCyclic(a, b, c);
    DetCyclic(b, c, a);
    hide Det, Corner6;
  }

  lemma DetCyclic(a: Vec, b: Vec, c: Vec)
    ensures Det(b, c, a) == Det(a, b, c)
  {
    Rotated(a.x, b.y, c.z);
    Rotated(a.y, b.z, c.x);
    Rotated(a.z, b.x, c.y);
    Rotated(a.x, b.z, c.y);
    Rotated(a.y, b.x, c.z);
    Rotated(a.z, b.y, c.x);
    Swapped(b.x, c.z, a.y);
    hide Times;
    DetSwaps(a, b, c);
  }

  lemma DetSwaps(a: Vec, b: Vec, c: Vec)
    ensures Times(b.x, Times(c.z, a.y)) == Times(a.y, Times(b.x, c.z))
    ensures Times(b.y, Times(c.x, a.z)) == Times(a.z, Times(b.y, c.x))
    ensures Times(b.z, Times(c.y, a.x)) == Times(a.x, Times(b.z, c.y))
    ensures Times(b.x, Times(c.y, a.z)) == Times(a.z, Times(b.x, c.y))
    ensures Times(b.y, Times(c.z, a.x)) == Times(a.x, Times(b.y, c.z))
    ensures Times(b.z, Times(c.x, a.y)) == Times(a.y, Times(b.z, c.x))
  {
    Rotated(a.y, b.x, c.z);
    Rotated(a.z, b.y, c.x);
    Rotated(a.x, b.z, c.y);
    Rotated(a.z, b.x, c.y);
    Rotated(a.x, b.y, c.z);
    Rotated(a.y, b.z, c.x);
    hide Times;
  }

  // ----- moving a face -----

  /** A face's directed edges against a shift. */
  function EdgeTerm(t: Vec, p: Vec, q: Vec): real { Dot(t, Cross(p, q)) }

  /** Shifting a face changes its contribution by terms of its three directed edges. */
  lemma ShiftedCorner(t: Vec, a: Vec, b: Vec, c: Vec)
    ensures Corner6(Add(a, t), Add(b, t), Add(c, t))
         == Corner6(a, b, c) + EdgeTerm(t, a, b) + EdgeTerm(t, b, c) + EdgeTerm(t, c, a)
  {
    ShiftedCross(t, b, c);
    var k := Cross(b, c);
    var m := Add(Cross(b, t), Cross(t, c));
    DotAdd(k, m, Add(a, t));
    DotAdd(a, t, k);
    DotAdd(a, t, m);
    DotAdd(Cross(b, t), Cross(t, c), a);
    DotAdd(Cross(b, t), Cross(t, c), t);
    TripleTurns(t, a, b);
    TripleTurns(t, c, a);
    TripleFlat(t, b);
    TripleFlat(t, c);
    hide Dot, Cross, Add;
  }

  lemma ShiftedCross(t: Vec, b: Vec, c: Vec)
    ensures Cross(Add(b, t), Add(c, t)) == Add(Cross(b, c), Add(Cross(b, t), Cross(t, c)))
  {
    CrossAdd(b, t, Add(c, t));
    CrossAdd(c, t, b);
    CrossAdd(c, t, t);
    CrossSwap(t, t);
    hide Cross;
  }

  lemma TripleTurns(t: Vec, p: Vec, q: Vec)
    ensures Dot(p, Cross(q, t)) == EdgeTerm(t, p, q) && Dot(q, Cross(t, p)) == EdgeTerm(t, p, q)
  {
    CyclicKeeps(t, p, q);
    hide Dot, Cross;
  }

  lemma TripleFlat(t: Vec, b: Vec)
    ensures Dot(t, Cross(b, t)) == 0.0 && Dot(t, Cross(t, b)) == 0.0
  {
    TripleTurns(t, t, b);
    FlipNegates(t, b, t);
    CrossSwap(t, b);
    CyclicKeeps(t, t, b);
    CrossSwap(t, t);
    ZeroDot(b);
    hide Dot, Cross;
  }

  lemma ZeroDot(b: Vec)
    ensures Dot(b, ZERO) == 0.0 && Dot(ZERO, b) == 0.0
  {
    TimesUnits(b.x);
    TimesUnits(b.y);
    TimesUnits(b.z);
    hide Times;
  }

  // ----- closed meshes -----

  /** A directed edge between two vertex numbers. */
  datatype Edge = Edge(p: nat, q: nat)

  function Back(e: Edge): Edge { Edge(e.q, e.p) }

  function Backs(es: seq<Edge>): (r: seq<Edge>)
    ensures |r| == |es|
  {
    seq(|es|, i requires 0 <= i < |es| => Back(es[i]))
  }

  /** The directed edges of all faces, three a face. */
  function Edges(tris: seq<Tri>): seq<Edge> {
    if tris == [] then []
    else
      var t := tris[|tris| - 1];
      Edges(tris[..|tris| - 1]) + [Edge(t.a, t.b), Edge(t.b, t.c), Edge(t.c, t.a)]
  }

  /** Every directed edge occurs as often as its reverse. */
  ghost predicate Closed(tris: seq<Tri>) {
    forall e: Edge :: multiset(Edges(tris))[e] == multiset(Edges(tris))[Back(e)]
  }

  predicate InRange(es: seq<Edge>, n: nat) { forall i :: 0 <= i < |es| ==> es[i].p < n && es[i].q < n }

  function EdgeSum(t: Vec, ps: seq<Vec>, es: seq<Edge>): real
    requires InRange(es, |ps|)
  {
    if es == [] then 0.0
    else
      var e := es[|es| - 1];
      EdgeSum(t, ps, es[..|es| - 1]) + EdgeTerm(t, ps[e.p], ps[e.q])
  }

  lemma EdgesInRange(tris: seq<Tri>, n: nat)
    requires Within(tris, n)
    ensures InRange(Edges(tris), n)
  {
    if tris != [] { EdgesInRange(tris[..|tris| - 1], n); }
  }

  lemma SumSnoc(t: Vec, ps: seq<Vec>, es: seq<Edge>, e: Edge)
    requires InRange(es, |ps|) && e.p < |ps| && e.q < |ps|
    ensures InRange(es + [e], |ps|)
    ensures EdgeSum(t, ps, es + [e]) == EdgeSum(t, ps, es) + EdgeTerm(t, ps[e.p], ps[e.q])
  {
    hide EdgeTerm;
    assert (es + [e])[..|es|] == es;
  }

  lemma {:induction false} SumAppend(t: Vec, ps: seq<Vec>, es: seq<Edge>, fs: seq<Edge>)
    requires InRange(es, |ps|) && InRange(fs, |ps|)
    ensures InRange(es + fs, |ps|) && EdgeSum(t, ps, es + fs) == EdgeSum(t, ps, es) + EdgeSum(t, ps, fs)
  {
    hide EdgeTerm;
    if fs == [] {
      assert es + fs == es;
    } else {
      var front, f := fs[..|fs| - 1], fs[|fs| - 1];
      SumAppend(t, ps, es, front);
      SumSnoc(t, ps, es + front, f);
      assert es + fs == es + front + [f];
    }
  }

  /** The sum does not depend on the order of the edges. */
  lemma {:induction false} SumOfSame(t: Vec, ps: seq<Vec>, es: seq<Edge>, fs: seq<Edge>)
    requires InRange(es, |ps|) && InRange(fs, |ps|) && multiset(es) == multiset(fs)
    ensures EdgeSum(t, ps, es) == EdgeSum(t, ps, fs)
    decreases |es|
  {
    hide EdgeTerm;
    if es == [] {
      assert |fs| == |multiset(fs)| == 0;
    } else {
      var front, e := es[..|es| - 1], es[|es| - 1];
      assert es == front + [e];
      var k := PlaceOf(fs, es, e);
      var rest := fs[..k] + fs[k + 1..];
      WithoutOne(es, fs, k);
      SumOfSame(t, ps, front, rest);
      SumAppend(t, ps, fs[..k], fs[k + 1..]);
      SumSnoc(t, ps, fs[..k], e);
      SumAppend(t, ps, fs[..k] + [e], fs[k + 1..]);
    }
  }

  lemma WithoutOne(es: seq<Edge>, fs: seq<Edge>, k: nat)
    requires multiset(es) == multiset(fs) && es != [] && k < |fs| && fs[k] == es[|es| - 1]
    ensures multiset(es[..|es| - 1]) == multiset(fs[..k] + fs[k + 1..])
    ensures fs == fs[..k] + [fs[k]] + fs[k + 1..]
  {
    assert es == es[..|es| - 1] + [es[|es| - 1]];
    assert fs == fs[..k] + [fs[k]] + fs[k + 1..];
    assert multiset(fs[..k] + fs[k + 1..]) == multiset(fs) - multiset{fs[k]};
    assert multiset(es[..|es| - 1]) == multiset(es) - multiset{fs[k]};
  }

  lemma PlaceOf(fs: seq<Edge>, es: seq<Edge>, e: Edge) returns (k: nat)
    requires multiset(es) == multiset(fs) && e in es
    ensures k < |fs| && fs[k] == e
  {
    assert e in multiset(fs);
    k :| 0 <= k < |fs| && fs[k] == e;
  }

  lemma EdgeBack(t: Vec, p: Vec, q: Vec)
    ensures EdgeTerm(t, q, p) == -EdgeTerm(t, p, q)
  {
    FlipNegates(t, p, q);
  }

  lemma {:induction false} BacksNegate(t: Vec, ps: seq<Vec>, es: seq<Edge>)
    requires InRange(es, |ps|)
    ensures InRange(Backs(es), |ps|) && EdgeSum(t, ps, Backs(es)) == -EdgeSum(t, ps, es)
  {
    hide EdgeTerm;
    if es != [] {
      var e := es[|es| - 1];
      BacksNegate(t, ps, es[..|es| - 1]);
      assert Backs(es)[..|es| - 1] == Backs(es[..|es| - 1]);
      EdgeBack(t, ps[e.p], ps[e.q]);
    }
  }

  lemma {:induction false} BacksCount(es: seq<Edge>, e: Edge)
    ensures multiset(Backs(es))[e] == multiset(es)[Back(e)]
  {
    if es != [] {
      var front, f := es[..|es| - 1], es[|es| - 1];
      assert es == front + [f];
      assert Backs(es) == Backs(front) + [Back(f)];
      BacksCount(front, e);
      assert Back(f) == e <==> f == Back(e);
    }
  }

  lemma ClosedSumsToZero(t: Vec, ps: seq<Vec>, tris: seq<Tri>)
    requires Within(tris, |ps|) && Closed(tris)
    ensures InRange(Edges(tris), |ps|) && EdgeSum(t, ps, Edges(tris)) == 0.0
  {
    hide EdgeTerm, EdgeSum;
    var es := Edges(tris);
    EdgesInRange(tris, |ps|);
    forall e: Edge ensures multiset(Backs(es))[e] == multiset(es)[e] { BacksCount(es, e); }
    assert multiset(Backs(es)) == multiset(es);
    BacksNegate(t, ps, es);
    SumOfSame(t, ps, Backs(es), es);
  }

  function Shifted(t: Vec, ps: seq<Vec>): (r: seq<Vec>)
    ensures |r| == |ps|
  {
    seq(|ps|, i requires 0 <= i < |ps| => Add(ps[i], t))
  }

  /** Shifting a mesh changes its volume by the terms of its directed edges. */
  lemma {:induction false} ShiftedVolume(t: Vec, ps: seq<Vec>, tris: seq<Tri>)
    requires Within(tris, |ps|)
    ensures InRange(Edges(tris), |ps|)
    ensures Volume6(Shifted(t, ps), tris) == Volume6(ps, tris) + EdgeSum(t, ps, Edges(tris))
  {
    hide EdgeTerm, Corner6, Add;
    EdgesInRange(tris, |ps|);
    if tris != [] {
      var front, f := tris[..|tris| - 1], tris[|tris| - 1];
      ShiftedVolume(t, ps, front);
      ShiftedCorner(t, ps[f.a], ps[f.b], ps[f.c]);
      ThreeEdges(t, ps, Edges(front), f);
    }
  }

  lemma ThreeEdges(t: Vec, ps: seq<Vec>, es: seq<Edge>, f: Tri)
    requires InRange(es, |ps|) && f.a < |ps| && f.b < |ps| && f.c < |ps|
    ensures InRange(es + [Edge(f.a, f.b), Edge(f.b, f.c), Edge(f.c, f.a)], |ps|)
    ensures EdgeSum(t, ps, es + [Edge(f.a, f.b), Edge(f.b, f.c), Edge(f.c, f.a)])
         == EdgeSum(t, ps, es) + EdgeTerm(t, ps[f.a], ps[f.b]) + EdgeTerm(t, ps[f.b], ps[f.c])
          + EdgeTerm(t, ps[f.c], ps[f.a])
  {
    hide EdgeTerm;
    SumSnoc(t, ps, es, Edge(f.a, f.b));
    SumSnoc(t, ps, es + [Edge(f.a, f.b)], Edge(f.b, f.c));
    SumSnoc(t, ps, es + [Edge(f.a, f.b)] + [Edge(f.b, f.c)], Edge(f.c, f.a));
    assert es + [Edge(f.a, f.b), Edge(f.b, f.c), Edge(f.c, f.a)]
        == es + [Edge(f.a, f.b)] + [Edge(f.b, f.c)] + [Edge(f.c, f.a)];
  }

  /** A closed mesh measures the same wherever it stands. */
  lemma ClosedVolumeIsFixed(t: Vec, ps: seq<Vec>, tris: seq<Tri>)
    requires Within(tris, |ps|) && Closed(tris)
    ensures Volume6(Shifted(t, ps), tris) == Volume6(ps, tris)
  {
    ShiftedVolume(t, ps, tris);
    ClosedSumsToZero(t, ps, tris);
  }

  /** So where a closed mesh stands does not decide which way its faces are wound. */
  lemma WindingIgnoresPlace(t: Vec, ps: seq<Vec>, tris: seq<Tri>, template: real)
    requires Within(tris, |ps|) && Closed(tris)
    ensures Wound(Shifted(t, ps), tris, template) == Wound(ps, tris, template)
  {
    hide Volume6;
    ClosedVolumeIsFixed(t, ps, tris);
  }

  // ----- the tetrahedron -----

  /** The four outward faces of the tetrahedron on the points 0, 1, 2, 3. */
  const TETRA: seq<Tri> := [Tri(0, 2, 1), Tri(0, 1, 3), Tri(0, 3, 2), Tri(2, 3, 1)]

  lemma OneMoreFace(ps: seq<Vec>, tris: seq<Tri>, t: Tri)
    requires Within(tris, |ps|) && t.a < |ps| && t.b < |ps| && t.c < |ps|
    ensures Within(tris + [t], |ps|)
    ensures Volume6(ps, tris + [t]) == Volume6(ps, tris) + Corner6(ps[t.a], ps[t.b], ps[t.c])
  {
    hide Corner6;
    assert (tris + [t])[..|tris|] == tris;
  }

  lemma FourFaces(ps: seq<Vec>)
    requires |ps| == 4
    ensures Within(TETRA, 4)
    ensures Volume6(ps, TETRA) == Corner6(ps[0], ps[2], ps[1]) + Corner6(ps[0], ps[1], ps[3])
      + Corner6(ps[0], ps[3], ps[2]) + Corner6(ps[2], ps[3], ps[1])
  {
    hide Corner6;
    var one := [Tri(0, 2, 1)];
    var two := one + [Tri(0, 1, 3)];
    var three := two + [Tri(0, 3, 2)];
    OneMoreFace(ps, [], Tri(0, 2, 1));
    assert [] + one == one;
    OneMoreFace(ps, one, Tri(0, 1, 3));
    OneMoreFace(ps, two, Tri(0, 3, 2));
    OneMoreFace(ps, three, Tri(2, 3, 1));
    assert TETRA == three + [Tri(2, 3, 1)];
  }

  lemma ShiftBack(a: Vec, b: Vec)
    ensures Add(Add(b, Neg(a)), a) == b && Add(ZERO, a) == a
  {
  }

  lemma CornerAtOrigin(b: Vec, c: Vec)
    ensures Corner6(ZERO, b, c) == 0.0
  {
    ZeroDot(Cross(b, c));
    hide Dot, Cross;
  }

  /** The faces' shifts cancel along the six edges. */
  lemma TetraShift(a: Vec, b: Vec, c: Vec, d: Vec, t: Vec)
    ensures Corner6(Add(a, t), Add(c, t), Add(b, t)) + Corner6(Add(a, t), Add(b, t), Add(d, t))
      + Corner6(Add(a, t), Add(d, t), Add(c, t)) + Corner6(Add(c, t), Add(d, t), Add(b, t))
      == Corner6(a, c, b) + Corner6(a, b, d) + Corner6(a, d, c) + Corner6(c, d, b)
  {
    hide Corner6, EdgeTerm, Add;
    ShiftedCorner(t, a, c, b);
    ShiftedCorner(t, a, b, d);
    ShiftedCorner(t, a, d, c);
    ShiftedCorner(t, c, d, b);
    EdgeBack(t, a, b);
    EdgeBack(t, a, c);
    EdgeBack(t, a, d);
    EdgeBack(t, b, c);
    EdgeBack(t, b, d);
    EdgeBack(t, c, d);
  }

  /** The tetrahedron measures the determinant of its edges from one corner: six times its volume. */
  lemma TetraVolume(a: Vec, b: Vec, c: Vec, d: Vec)
    ensures Within(TETRA, 4)
    ensures Volume6([a, b, c, d], TETRA) == Det(Add(b, Neg(a)), Add(c, Neg(a)), Add(d, Neg(a)))
  {
    hide Corner6, Det, Volume6, Add;
    var u, v, w := Add(b, Neg(a)), Add(c, Neg(a)), Add(d, Neg(a));
    ShiftBack(a, b);
    ShiftBack(a, c);
    ShiftBack(a, d);
    FourFaces([a, b, c, d]);
    TetraShift(ZERO, u, v, w, a);
    CornerAtOrigin(v, u);
    CornerAtOrigin(u, w);
    CornerAtOrigin(w, v);
    CyclicKeeps(u, v, w);
    CornerIsDet(u, v, w);
  }

  /**
   * A tetrahedron is wound right against any template of positive volume: listed with its outward faces
   * it is left alone, and listed inside out it is turned.
   */
  lemma TetraIsWoundRight(ps: seq<Vec>, volume: real)
    requires |ps| == 4 && volume > 0.0
    requires Det(Add(ps[1], Neg(ps[0])), Add(ps[2], Neg(ps[0])), Add(ps[3], Neg(ps[0]))) > 0.0
    ensures Within(TETRA, 4) && Wound(ps, TETRA, volume) == TETRA
    ensures Within(Reversed(TETRA), 4) && Wound(ps, Reversed(TETRA), volume) == TETRA
  {
    hide Volume6, Det;
    assert ps == [ps[0], ps[1], ps[2], ps[3]];
    TetraVolume(ps[0], ps[1], ps[2], ps[3]);
    ReversalNegates(ps, TETRA);
    ReversalUndone(TETRA);
  }
}
