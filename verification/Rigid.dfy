/** Rotations and rigid transforms with exact coordinates, as a group acting on points. */
module Rigid {
  import opened Vectors

  /** A matrix by rows. */
  datatype Mat = Mat(a: Vec, b: Vec, c: Vec)

  const ID := Mat(Vec(1.0, 0.0, 0.0), Vec(0.0, 1.0, 0.0), Vec(0.0, 0.0, 1.0))

  function MulV(m: Mat, v: Vec): Vec { Vec(Dot(m.a, v), Dot(m.b, v), Dot(m.c, v)) }

  /** A row times a matrix. */
  function RowMul(r: Vec, m: Mat): Vec { Add(Add(Scale(r.x, m.a), Scale(r.y, m.b)), Scale(r.z, m.c)) }

  function Mul(m: Mat, n: Mat): Mat { Mat(RowMul(m.a, n), RowMul(m.b, n), RowMul(m.c, n)) }

  function Transpose(m: Mat): Mat {
    Mat(Vec(m.a.x, m.b.x, m.c.x), Vec(m.a.y, m.b.y, m.c.y), Vec(m.a.z, m.b.z, m.c.z))
  }

  // ----- linearity -----

  /** A row times a matrix, then a vector: the row against the matrix's image of the vector. */
  lemma RowMulV(r: Vec, m: Mat, v: Vec)
    ensures Dot(RowMul(r, m), v) == Dot(r, MulV(m, v))
  {
    hide Dot, Add, Scale;
    var p, q, s := Scale(r.x, m.a), Scale(r.y, m.b), Scale(r.z, m.c);
    DotAdd(Add(p, q), s, v);
    DotAdd(p, q, v);
    DotScale(r.x, m.a, v);
    DotScale(r.y, m.b, v);
    DotScale(r.z, m.c, v);
    DotOf(r, m, v);
  }

  lemma DotOf(r: Vec, m: Mat, v: Vec)
    ensures Dot(r, MulV(m, v)) == Times(r.x, Dot(m.a, v)) + Times(r.y, Dot(m.b, v)) + Times(r.z, Dot(m.c, v))
  {
    hide Times;
  }

  /** A product acts as one matrix after the other. */
  lemma MulActs(m: Mat, n: Mat, v: Vec)
    ensures MulV(Mul(m, n), v) == MulV(m, MulV(n, v))
  {
    hide Dot, RowMul;
    RowMulV(m.a, n, v);
    RowMulV(m.b, n, v);
    RowMulV(m.c, n, v);
  }

  lemma MulVAdd(m: Mat, u: Vec, v: Vec)
    ensures MulV(m, Add(u, v)) == Add(MulV(m, u), MulV(m, v))
  {
    hide Dot;
    DotAdd(u, v, m.a);
    DotAdd(u, v, m.b);
    DotAdd(u, v, m.c);
  }

  /** A row times a matrix is the transposed matrix acting on the row. */
  lemma RowIsTransposed(r: Vec, m: Mat)
    ensures RowMul(r, m) == MulV(Transpose(m), r)
  {
    ColumnDot(r, m.a.x, m.b.x, m.c.x);
    ColumnDot(r, m.a.y, m.b.y, m.c.y);
    ColumnDot(r, m.a.z, m.b.z, m.c.z);
    hide Times;
  }

  lemma ColumnDot(r: Vec, p: real, q: real, s: real)
    ensures Times(r.x, p) + Times(r.y, q) + Times(r.z, s) == Dot(Vec(p, q, s), r)
  {
    TimesComm(r.x, p);
    TimesComm(r.y, q);
    TimesComm(r.z, s);
    hide Times;
  }

  lemma TransposeTwice(m: Mat)
    ensures Transpose(Transpose(m)) == m
  {
  }

  /** The entries of a product are rows against columns. */
  lemma MulEntries(m: Mat, n: Mat)
    ensures var t := Transpose(n);
      Mul(m, n) == Mat(Vec(Dot(m.a, t.a), Dot(m.a, t.b), Dot(m.a, t.c)),
                       Vec(Dot(m.b, t.a), Dot(m.b, t.b), Dot(m.b, t.c)),
                       Vec(Dot(m.c, t.a), Dot(m.c, t.b), Dot(m.c, t.c)))
  {
    RowIsTransposed(m.a, n);
    RowIsTransposed(m.b, n);
    RowIsTransposed(m.c, n);
    hide RowMul;
    var t := Transpose(n);
    DotComm(m.a, t.a);
    DotComm(m.a, t.b);
    DotComm(m.a, t.c);
    DotComm(m.b, t.a);
    DotComm(m.b, t.b);
    DotComm(m.b, t.c);
    DotComm(m.c, t.a);
    DotComm(m.c, t.b);
    DotComm(m.c, t.c);
    hide Dot;
  }

  lemma TransposeMul(m: Mat, n: Mat)
    ensures Transpose(Mul(m, n)) == Mul(Transpose(n), Transpose(m))
  {
    MulEntries(m, n);
    MulEntries(Transpose(n), Transpose(m));
    TransposeTwice(m);
    var t := Transpose(n);
    DotComm(m.a, t.a);
    DotComm(m.a, t.b);
    DotComm(m.a, t.c);
    DotComm(m.b, t.a);
    DotComm(m.b, t.b);
    DotComm(m.b, t.c);
    DotComm(m.c, t.a);
    DotComm(m.c, t.b);
    DotComm(m.c, t.c);
    hide Dot, Mul;
  }

  /** Matrix multiplication is associative. */
  lemma MulAssoc(l: Mat, m: Mat, n: Mat)
    ensures Mul(Mul(l, m), n) == Mul(l, Mul(m, n))
  {
    hide RowMul;
    RowAssoc(l.a, m, n);
    RowAssoc(l.b, m, n);
    RowAssoc(l.c, m, n);
  }

  lemma RowAssoc(r: Vec, m: Mat, n: Mat)
    ensures RowMul(RowMul(r, m), n) == RowMul(r, Mul(m, n))
  {
    hide RowMul, MulV, Mul, Transpose;
    RowIsTransposed(r, m);
    RowIsTransposed(MulV(Transpose(m), r), n);
    RowIsTransposed(r, Mul(m, n));
    TransposeMul(m, n);
    MulActs(Transpose(n), Transpose(m), r);
  }

  lemma RowId(r: Vec)
    ensures RowMul(r, ID) == r
  {
    TimesUnits(r.x);
    TimesUnits(r.y);
    TimesUnits(r.z);
    hide Times;
  }

  lemma UnitRows(m: Mat)
    ensures RowMul(ID.a, m) == m.a && RowMul(ID.b, m) == m.b && RowMul(ID.c, m) == m.c
  {
    ScaleUnits(0.0, m.a);
    ScaleUnits(0.0, m.b);
    ScaleUnits(0.0, m.c);
    hide Scale;
  }

  lemma MulId(m: Mat)
    ensures Mul(ID, m) == m && Mul(m, ID) == m
  {
    UnitRows(m);
    RowId(m.a);
    RowId(m.b);
    RowId(m.c);
    hide RowMul;
  }

  lemma MulVId(v: Vec)
    ensures MulV(ID, v) == v
  {
    TimesUnits(v.x);
    TimesUnits(v.y);
    TimesUnits(v.z);
    hide Times;
  }

  // ----- rotations -----

  /** The rows follow each other by the right-hand rule. */
  predicate RightHanded(m: Mat) {
    Cross(m.a, m.b) == m.c && Cross(m.b, m.c) == m.a && Cross(m.c, m.a) == m.b
  }

  predicate IsRotation(m: Mat) {
    && Mul(m, Transpose(m)) == ID && Mul(Transpose(m), m) == ID
    && RightHanded(m) && RightHanded(Transpose(m))
  }

  lemma IdIsRotation()
    ensures IsRotation(ID)
  {
    MulId(ID);
    assert Transpose(ID) == ID;
    UnitsRightHanded();
    hide Mul, RightHanded, Transpose;
    RotationBy(ID);
  }

  lemma UnitsRightHanded()
    ensures RightHanded(ID)
  {
    TimesUnits(0.0);
    TimesUnits(1.0);
    hide Times;
  }

  lemma TransposeIsRotation(m: Mat)
    requires IsRotation(m)
    ensures IsRotation(Transpose(m))
  {
    TransposeTwice(m);
    hide Mul, RightHanded;
  }

  /** Expanding a cross product along one row. */
  lemma CrossRow(r: Vec, m: Mat, w: Vec)
    ensures Cross(RowMul(r, m), w) ==
      Add(Add(Scale(r.x, Cross(m.a, w)), Scale(r.y, Cross(m.b, w))), Scale(r.z, Cross(m.c, w)))
    ensures Cross(w, RowMul(r, m)) ==
      Add(Add(Scale(r.x, Cross(w, m.a)), Scale(r.y, Cross(w, m.b))), Scale(r.z, Cross(w, m.c)))
  {
    hide Cross, Add, Scale;
    var p, q, s := Scale(r.x, m.a), Scale(r.y, m.b), Scale(r.z, m.c);
    CrossAdd(Add(p, q), s, w);
    CrossAdd(p, q, w);
    CrossScale(r.x, m.a, w);
    CrossScale(r.y, m.b, w);
    CrossScale(r.z, m.c, w);
  }

  /** A row against the right-handed rows: the matrix's own rows come back. */
  lemma CrossWithRows(r: Vec, m: Mat)
    requires RightHanded(m)
    ensures Cross(m.a, RowMul(r, m)) == Add(Scale(r.y, m.c), Neg(Scale(r.z, m.b)))
    ensures Cross(m.b, RowMul(r, m)) == Add(Scale(r.z, m.a), Neg(Scale(r.x, m.c)))
    ensures Cross(m.c, RowMul(r, m)) == Add(Scale(r.x, m.b), Neg(Scale(r.y, m.a)))
  {
    CrossRow(r, m, m.a);
    CrossRow(r, m, m.b);
    CrossRow(r, m, m.c);
    CrossSwap(m.a, m.b);
    CrossSwap(m.b, m.c);
    CrossSwap(m.c, m.a);
    ScaleUnits(r.x, ZERO);
    ScaleUnits(r.y, ZERO);
    ScaleUnits(r.z, ZERO);
    ScaleNeg(r.z, m.b);
    ScaleNeg(r.x, m.c);
    ScaleNeg(r.y, m.a);
    hide Cross, RowMul, Scale;
  }

  /** Rotating two rows rotates their cross product. */
  lemma CrossOfRows(u: Vec, v: Vec, m: Mat)
    requires RightHanded(m)
    ensures Cross(RowMul(u, m), RowMul(v, m)) == RowMul(Cross(u, v), m)
  {
    CrossRow(u, m, RowMul(v, m));
    CrossWithRows(v, m);
    Collect(u, v, m);
    hide Cross, Scale, Add, Neg;
  }

  lemma Collect(u: Vec, v: Vec, m: Mat)
    ensures Add(Add(Scale(u.x, Add(Scale(v.y, m.c), Neg(Scale(v.z, m.b)))),
                    Scale(u.y, Add(Scale(v.z, m.a), Neg(Scale(v.x, m.c))))),
                Scale(u.z, Add(Scale(v.x, m.b), Neg(Scale(v.y, m.a))))) == RowMul(Cross(u, v), m)
  {
    Open(u.x, v.y, m.c, v.z, m.b);
    Open(u.y, v.z, m.a, v.x, m.c);
    Open(u.z, v.x, m.b, v.y, m.a);
    Close(Times(u.y, v.z), Times(u.z, v.y), m.a);
    Close(Times(u.z, v.x), Times(u.x, v.z), m.b);
    Close(Times(u.x, v.y), Times(u.y, v.x), m.c);
    hide Scale, Times;
  }

  lemma Open(k: real, p: real, u: Vec, q: real, v: Vec)
    ensures Scale(k, Add(Scale(p, u), Neg(Scale(q, v)))) == Add(Scale(Times(k, p), u), Neg(Scale(Times(k, q), v)))
  {
    ScaleAdd(k, Scale(p, u), Neg(Scale(q, v)));
    ScaleScale(k, p, u);
    ScaleScale(k, q, v);
    ScaleNeg(k, Scale(q, v));
    hide Scale, Times, Add, Neg;
  }

  lemma Close(p: real, q: real, u: Vec)
    ensures Scale(p - q, u) == Add(Scale(p, u), Neg(Scale(q, u)))
  {
    TimesMinus(p, q, u.x);
    TimesMinus(p, q, u.y);
    TimesMinus(p, q, u.z);
    hide Times;
  }

  lemma ProductRightHanded(m: Mat, n: Mat)
    requires RightHanded(m) && RightHanded(n)
    ensures RightHanded(Mul(m, n))
  {
    CrossOfRows(m.a, m.b, n);
    CrossOfRows(m.b, m.c, n);
    CrossOfRows(m.c, m.a, n);
    hide Cross, RowMul;
  }

  lemma CancelMiddle(m: Mat, n: Mat, k: Mat, l: Mat)
    requires Mul(n, k) == ID && Mul(m, l) == ID
    ensures Mul(Mul(m, n), Mul(k, l)) == ID
  {
    hide Mul;
    MulAssoc(m, n, Mul(k, l));
    MulAssoc(n, k, l);
    MulId(l);
  }

  lemma RotationBy(m: Mat)
    requires Mul(m, Transpose(m)) == ID && Mul(Transpose(m), m) == ID
    requires RightHanded(m) && RightHanded(Transpose(m))
    ensures IsRotation(m)
  {
    hide Mul, Transpose, RightHanded;
  }

  /** Rotations are closed under products. */
  lemma ProductIsRotation(m: Mat, n: Mat)
    requires IsRotation(m) && IsRotation(n)
    ensures IsRotation(Mul(m, n))
  {
    var p := Mul(m, n);
    assert IsRotation(p) by {
      hide Mul, RightHanded, Transpose;
      TransposeMul(m, n);
      CancelMiddle(m, n, Transpose(n), Transpose(m));
      CancelMiddle(Transpose(n), Transpose(m), m, n);
      ProductRightHanded(m, n);
      ProductRightHanded(Transpose(n), Transpose(m));
      RotationBy(p);
    }
  }

  // ----- rigid transforms -----

  /** A linear part and a translation. */
  datatype Frame = Frame(m: Mat, t: Vec)

  const HOME := Frame(ID, ZERO)

  predicate IsRigid(f: Frame) { IsRotation(f.m) }

  function Act(f: Frame, p: Vec): Vec { Add(MulV(f.m, p), f.t) }

  /** First `g`, then `f`. */
  function Comp(f: Frame, g: Frame): Frame { Frame(Mul(f.m, g.m), Add(MulV(f.m, g.t), f.t)) }

  /** The inverse of a rigid transform. */
  function Inv(f: Frame): Frame {
    Frame(Transpose(f.m), Neg(MulV(Transpose(f.m), f.t)))
  }

  lemma AddAssoc(u: Vec, v: Vec, w: Vec)
    ensures Add(Add(u, v), w) == Add(u, Add(v, w))
  {
  }

  /** Composition acts as one transform after the other. */
  lemma CompActs(f: Frame, g: Frame, p: Vec)
    ensures Act(Comp(f, g), p) == Act(f, Act(g, p))
  {
    hide MulV, Mul, Add;
    MulActs(f.m, g.m, p);
    MulVAdd(f.m, MulV(g.m, p), g.t);
    AddAssoc(MulV(f.m, MulV(g.m, p)), MulV(f.m, g.t), f.t);
  }

  lemma CompAssoc(f: Frame, g: Frame, h: Frame)
    ensures Comp(Comp(f, g), h) == Comp(f, Comp(g, h))
  {
    hide MulV, Mul, Add;
    MulAssoc(f.m, g.m, h.m);
    MulActs(f.m, g.m, h.t);
    MulVAdd(f.m, MulV(g.m, h.t), g.t);
    AddAssoc(MulV(f.m, MulV(g.m, h.t)), MulV(f.m, g.t), f.t);
  }

  lemma CompHome(f: Frame)
    ensures Comp(HOME, f) == f && Comp(f, HOME) == f
  {
    MulId(f.m);
    MulVId(f.t);
    MulVZero(f.m);
    hide MulV, Mul;
  }

  lemma DotZero(u: Vec)
    ensures Dot(u, ZERO) == 0.0
  {
    TimesUnits(u.x);
    TimesUnits(u.y);
    TimesUnits(u.z);
    hide Times;
  }

  lemma MulVZero(m: Mat)
    ensures MulV(m, ZERO) == ZERO
  {
    DotZero(m.a);
    DotZero(m.b);
    DotZero(m.c);
    hide Dot;
  }

  lemma MulVNeg(m: Mat, u: Vec)
    ensures MulV(m, Neg(u)) == Neg(MulV(m, u))
  {
    DotNeg(u, m.a);
    DotNeg(u, m.b);
    DotNeg(u, m.c);
    hide Dot;
  }

  /** The inverse undoes a rigid transform on either side. */
  lemma CompInv(f: Frame)
    requires IsRigid(f)
    ensures Comp(Inv(f), f) == HOME && Comp(f, Inv(f)) == HOME
  {
    hide MulV, Mul, RightHanded, Transpose;
    MulVNeg(f.m, MulV(Transpose(f.m), f.t));
    MulActs(f.m, Transpose(f.m), f.t);
    MulVId(f.t);
  }

  lemma InvIsRigid(f: Frame)
    requires IsRigid(f)
    ensures IsRigid(Inv(f))
  {
    hide IsRotation, Transpose;
    TransposeIsRotation(f.m);
  }

  lemma CompIsRigid(f: Frame, g: Frame)
    requires IsRigid(f) && IsRigid(g)
    ensures IsRigid(Comp(f, g))
  {
    hide IsRotation, Mul;
    ProductIsRotation(f.m, g.m);
  }

  /** Going through a transform and its inverse changes nothing. */
  lemma CompCancels(f: Frame, g: Frame)
    requires IsRigid(f)
    ensures Comp(f, Comp(Inv(f), g)) == g && Comp(Inv(f), Comp(f, g)) == g
  {
    hide Comp, Inv, IsRigid;
    CompInv(f);
    CompAssoc(f, Inv(f), g);
    CompAssoc(Inv(f), f, g);
    CompHome(g);
  }

  lemma ActInv(f: Frame, p: Vec)
    requires IsRigid(f)
    ensures Act(f, Act(Inv(f), p)) == p
  {
    hide Comp, Inv, IsRigid, Add;
    CompInv(f);
    CompActs(f, Inv(f), p);
    ActHome(p);
  }

  lemma ActHome(p: Vec)
    ensures Act(HOME, p) == p
  {
    MulVId(p);
    hide MulV;
  }
}
