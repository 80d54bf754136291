/** Points and vectors with exact coordinates, and the laws of the product they are built from. */
module Vectors {
  /** Multiplication by name, so that proofs about vectors can treat it by its laws alone. */
  function Times(a: real, b: real): real { a * b }

  lemma TimesAdd(a: real, b: real, c: real)
    ensures Times(a + b, c) == Times(a, c) + Times(b, c) && Times(c, a + b) == Times(c, a) + Times(c, b)
  {
  }

  lemma TimesMinus(a: real, b: real, c: real)
    ensures Times(a - b, c) == Times(a, c) - Times(b, c) && Times(c, a - b) == Times(c, a) - Times(c, b)
  {
  }

  lemma TimesNeg(a: real, b: real)
    ensures Times(-a, b) == -Times(a, b) && Times(a, -b) == -Times(a, b)
  {
  }

  lemma TimesComm(a: real, b: real)
    ensures Times(a, b) == Times(b, a)
  {
  }

  lemma TimesAssoc(a: real, b: real, c: real)
    ensures Times(Times(a, b), c) == Times(a, Times(b, c))
  {
  }

  lemma TimesUnits(a: real)
    ensures Times(1.0, a) == a && Times(a, 1.0) == a && Times(0.0, a) == 0.0 && Times(a, 0.0) == 0.0
  {
  }

  datatype Vec = Vec(x: real, y: real, z: real)

  const ZERO := Vec(0.0, 0.0, 0.0)

  function Add(a: Vec, b: Vec): Vec { Vec(a.x + b.x, a.y + b.y, a.z + b.z) }
  function Neg(a: Vec): Vec { Vec(-a.x, -a.y, -a.z) }
  function Scale(k: real, a: Vec): Vec { Vec(Times(k, a.x), Times(k, a.y), Times(k, a.z)) }
  function Dot(a: Vec, b: Vec): real { Times(a.x, b.x) + Times(a.y, b.y) + Times(a.z, b.z) }

  function Cross(a: Vec, b: Vec): Vec {
    Vec(Times(a.y, b.z) - Times(a.z, b.y), Times(a.z, b.x) - Times(a.x, b.z), Times(a.x, b.y) - Times(a.y, b.x))
  }

  lemma DotComm(u: Vec, v: Vec)
    ensures Dot(u, v) == Dot(v, u)
  {
    TimesComm(u.x, v.x);
    TimesComm(u.y, v.y);
    TimesComm(u.z, v.z);
    hide Times;
  }

  lemma DotAdd(u: Vec, v: Vec, w: Vec)
    ensures Dot(Add(u, v), w) == Dot(u, w) + Dot(v, w) && Dot(w, Add(u, v)) == Dot(w, u) + Dot(w, v)
  {
    TimesAdd(u.x, v.x, w.x);
    TimesAdd(u.y, v.y, w.y);
    TimesAdd(u.z, v.z, w.z);
    hide Times;
  }

  lemma DotNeg(u: Vec, w: Vec)
    ensures Dot(Neg(u), w) == -Dot(u, w) && Dot(w, Neg(u)) == -Dot(w, u)
  {
    TimesNeg(u.x, w.x);
    TimesNeg(u.y, w.y);
    TimesNeg(u.z, w.z);
    TimesNeg(w.x, u.x);
    TimesNeg(w.y, u.y);
    TimesNeg(w.z, u.z);
    hide Times;
  }

  lemma Spread(k: real, a: real, b: real, c: real)
    ensures Times(k, a + b + c) == Times(k, a) + Times(k, b) + Times(k, c)
  {
    TimesAdd(a + b, c, k);
    TimesAdd(a, b, k);
    hide Times;
  }

  lemma DotScale(k: real, u: Vec, w: Vec)
    ensures Dot(Scale(k, u), w) == Times(k, Dot(u, w)) && Dot(w, Scale(k, u)) == Times(k, Dot(w, u))
  {
    TimesAssoc(k, u.x, w.x);
    TimesAssoc(k, u.y, w.y);
    TimesAssoc(k, u.z, w.z);
    Spread(k, Times(u.x, w.x), Times(u.y, w.y), Times(u.z, w.z));
    DotComm(Scale(k, u), w);
    DotComm(u, w);
    hide Times;
  }

  /** The cross product is antisymmetric. */
  lemma CrossSwap(u: Vec, v: Vec)
    ensures Cross(v, u) == Neg(Cross(u, v)) && Cross(u, u) == ZERO
  {
    TimesComm(u.y, v.z);
    TimesComm(u.z, v.y);
    TimesComm(u.z, v.x);
    TimesComm(u.x, v.z);
    TimesComm(u.x, v.y);
    TimesComm(u.y, v.x);
    TimesComm(u.y, u.z);
    TimesComm(u.z, u.x);
    TimesComm(u.x, u.y);
    hide Times;
  }

  lemma CrossAdd(u: Vec, v: Vec, w: Vec)
    ensures Cross(Add(u, v), w) == Add(Cross(u, w), Cross(v, w)) && Cross(w, Add(u, v)) == Add(Cross(w, u), Cross(w, v))
  {
    TimesAdd(u.x, v.x, w.y);
    TimesAdd(u.x, v.x, w.z);
    TimesAdd(u.y, v.y, w.x);
    TimesAdd(u.y, v.y, w.z);
    TimesAdd(u.z, v.z, w.x);
    TimesAdd(u.z, v.z, w.y);
    hide Times;
  }

  lemma CrossScale(k: real, u: Vec, w: Vec)
    ensures Cross(Scale(k, u), w) == Scale(k, Cross(u, w)) && Cross(w, Scale(k, u)) == Scale(k, Cross(w, u))
  {
    ScaleMinus(k, u.y, w.z, u.z, w.y);
    ScaleMinus(k, u.z, w.x, u.x, w.z);
    ScaleMinus(k, u.x, w.y, u.y, w.x);
    CrossSwap(Scale(k, u), w);
    CrossSwap(u, w);
    ScaleNeg(k, Cross(u, w));
    hide Times;
  }

  lemma ScaleMinus(k: real, a: real, b: real, c: real, d: real)
    ensures Times(Times(k, a), b) - Times(Times(k, c), d) == Times(k, Times(a, b) - Times(c, d))
  {
    TimesAssoc(k, a, b);
    TimesAssoc(k, c, d);
    TimesMinus(Times(a, b), Times(c, d), k);
    hide Times;
  }

  lemma ScaleNeg(k: real, u: Vec)
    ensures Scale(k, Neg(u)) == Neg(Scale(k, u)) && Scale(-k, u) == Neg(Scale(k, u))
  {
    TimesNeg(k, u.x);
    TimesNeg(k, u.y);
    TimesNeg(k, u.z);
    hide Times;
  }

  lemma ScaleUnits(k: real, u: Vec)
    ensures Scale(1.0, u) == u && Scale(0.0, u) == ZERO && Scale(k, ZERO) == ZERO
  {
    TimesUnits(u.x);
    TimesUnits(u.y);
    TimesUnits(u.z);
    TimesUnits(k);
    hide Times;
  }

  lemma ScaleAdd(k: real, u: Vec, v: Vec)
    ensures Scale(k, Add(u, v)) == Add(Scale(k, u), Scale(k, v))
  {
    TimesAdd(u.x, v.x, k);
    TimesAdd(u.y, v.y, k);
    TimesAdd(u.z, v.z, k);
    hide Times;
  }

  lemma ScaleScale(k: real, l: real, u: Vec)
    ensures Scale(k, Scale(l, u)) == Scale(Times(k, l), u)
  {
    TimesAssoc(k, l, u.x);
    TimesAssoc(k, l, u.y);
    TimesAssoc(k, l, u.z);
    hide Times;
  }
}
