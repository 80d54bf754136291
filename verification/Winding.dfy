/** The winding step of tools/client_model/ue_cook.py: signed volumes and the reversal of faces. */
module Winding {
  import opened Vectors

  /** Three vertex numbers. */
  datatype Tri = Tri(a: nat, b: nat, c: nat)

  predicate Within(tris: seq<Tri>, n: nat) {
    forall i :: 0 <= i < |tris| ==> tris[i].a < n && tris[i].b < n && tris[i].c < n
  }

  /** Six times the signed volume of the tetrahedron over a face. */
  function Corner6(a: Vec, b: Vec, c: Vec): real { Dot(a, Cross(b, c)) }

  function Volume6(ps: seq<Vec>, tris: seq<Tri>): real
    requires Within(tris, |ps|)
  {
    if tris == [] then 0.0
    else
      var t := tris[|tris| - 1];
      Volume6(ps, tris[..|tris| - 1]) + Corner6(ps[t.a], ps[t.b], ps[t.c])
  }

  function SignedVolume(ps: seq<Vec>, tris: seq<Tri>): real
    requires Within(tris, |ps|)
  {
    Volume6(ps, tris) / 6.0
  }

  function Flip(t: Tri): Tri { Tri(t.a, t.c, t.b) }

  function Reversed(tris: seq<Tri>): (r: seq<Tri>)
    ensures |r| == |tris|
  {
    seq(|tris|, i requires 0 <= i < |tris| => Flip(tris[i]))
  }

  lemma FlipNegates(a: Vec, b: Vec, c: Vec)
    ensures Corner6(a, c, b) == -Corner6(a, b, c)
  {
    CrossSwap(b, c);
    DotNeg(Cross(b, c), a);
    hide Dot, Cross;
  }

  /** Reversing every face negates the volume. */
  lemma {:induction false} ReversalNegates(ps: seq<Vec>, tris: seq<Tri>)
    requires Within(tris, |ps|)
    ensures Within(Reversed(tris), |ps|)
    ensures Volume6(ps, Reversed(tris)) == -Volume6(ps, tris)
  {
    hide Corner6;
    if tris != [] {
      var front, t := tris[..|tris| - 1], tris[|tris| - 1];
      ReversalNegates(ps, front);
      assert Reversed(tris)[..|tris| - 1] == Reversed(front);
      FlipNegates(ps[t.a], ps[t.b], ps[t.c]);
    }
  }

  /** The mirror from the modelling space to the cooked space. */
  function Mirror(v: Vec): Vec { Vec(v.x, -v.y, v.z) }

  function Mirrored(ps: seq<Vec>): (r: seq<Vec>)
    ensures |r| == |ps|
  {
    seq(|ps|, i requires 0 <= i < |ps| => Mirror(ps[i]))
  }

  lemma MirrorNegates(a: Vec, b: Vec, c: Vec)
    ensures Corner6(Mirror(a), Mirror(b), Mirror(c)) == -Corner6(a, b, c)
  {
    MirrorCross(b, c);
    MirrorDot(a, Cross(b, c));
    hide Dot, Cross;
  }

  lemma MirrorCross(b: Vec, c: Vec)
    ensures Cross(Mirror(b), Mirror(c)) == Neg(Mirror(Cross(b, c)))
  {
    TimesNeg(b.y, c.z);
    TimesNeg(b.z, c.y);
    TimesNeg(b.x, c.y);
    TimesNeg(b.y, c.x);
    hide Times;
  }

  lemma MirrorDot(a: Vec, k: Vec)
    ensures Dot(Mirror(a), Neg(Mirror(k))) == -Dot(a, k)
  {
    TimesNeg(a.x, k.x);
    TimesNeg(-a.y, k.y);
    TimesNeg(a.y, k.y);
    TimesNeg(a.z, k.z);
    assert -(-k.y) == k.y;
    hide Times;
  }

  /** Mirroring alone turns the mesh inside out. */
  lemma {:induction false} MirrorTurnsInsideOut(ps: seq<Vec>, tris: seq<Tri>)
    requires Within(tris, |ps|)
    ensures Volume6(Mirrored(ps), tris) == -Volume6(ps, tris)
  {
    hide Corner6;
    if tris != [] {
      var t := tris[|tris| - 1];
      MirrorTurnsInsideOut(ps, tris[..|tris| - 1]);
      MirrorNegates(ps[t.a], ps[t.b], ps[t.c]);
    }
  }

  /** The running sum over the faces. */
  method MeasureVolume(ps: seq<Vec>, tris: seq<Tri>) returns (v: real)
    requires Within(tris, |ps|)
    ensures v == SignedVolume(ps, tris)
  {
    hide Corner6;
    var sum := 0.0;
    for i := 0 to |tris|
      invariant sum == Volume6(ps, tris[..i])
    {
      var t := tris[i];
      assert tris[..i + 1][..i] == tris[..i];
      sum := sum + Corner6(ps[t.a], ps[t.b], ps[t.c]);
    }
    assert tris[..|tris|] == tris;
    return sum / 6.0;
  }

  /** The faces after the winding step. */
  function Wound(ps: seq<Vec>, tris: seq<Tri>, template: real): (r: seq<Tri>)
    requires Within(tris, |ps|)
    ensures |r| == |tris| && Within(r, |ps|)
  {
    if (SignedVolume(ps, tris) > 0.0) != (template > 0.0) then Reversed(tris) else tris
  }

  /** The step itself: measure, compare, and reverse every face when the signs differ. */
  method MatchWinding(ps: seq<Vec>, tris: seq<Tri>, tps: seq<Vec>, ttris: seq<Tri>) returns (r: seq<Tri>, v: real)
    requires Within(tris, |ps|) && Within(ttris, |tps|)
    ensures r == Wound(ps, tris, SignedVolume(tps, ttris)) && v == SignedVolume(ps, r)
  {
    var svT := MeasureVolume(tps, ttris);
    r := tris;
    v := MeasureVolume(ps, tris);
    if (v > 0.0) != (svT > 0.0) {
      r := Reversed(tris);
      v := MeasureVolume(ps, r);
    }
  }

  /**
   * After the step the volume is positive exactly when the template's is, unless the template's is
   * positive and the mesh's own volume is zero; with both nonzero the signs agree.
   */
  lemma WindingMatchesIff(ps: seq<Vec>, tris: seq<Tri>, template: real)
    requires Within(tris, |ps|)
    ensures var before, after := SignedVolume(ps, tris), SignedVolume(ps, Wound(ps, tris, template));
      && ((after > 0.0) == (template > 0.0) <==> !(template > 0.0 && before == 0.0))
      && (before != 0.0 && template != 0.0 ==> (after > 0.0 <==> template > 0.0) && (after < 0.0 <==> template < 0.0))
  {
    hide Volume6;
    ReversalNegates(ps, tris);
  }

  /** Reversal keeps each face's corners and its first one; doing it twice restores the faces. */
  lemma ReversalUndone(tris: seq<Tri>)
    ensures Reversed(Reversed(tris)) == tris
  {
  }
}
