/**
 * What a pose profile does to other skeletons than its own (tools/client_model/repose.py): bones that it
 * does not name keep their place on their parents, an unposed model is learned as no pose at all, and
 * where a model's root stands at rest does not matter.
 */
module ReposeLaws {
  import opened Results
  import opened Vectors
  import opened Rigid
  import opened Repose
  import opened SimilarityFit

  // ----- how a bone sits on its parent -----

  /** A bone's frame seen from its parent's. */
  function Onto(fs: seq<Frame>, parent: seq<int>, b: nat): Frame
    requires |fs| == |parent| && b < |fs| && 0 <= parent[b] < |fs|
  {
    Comp(Inv(fs[parent[b]]), fs[b])
  }

  /** With rigid poses every replayed frame is rigid. */
  lemma {:induction false} PosedIsRigid(w: seq<Frame>, wa: seq<Frame>, parent: seq<int>, pose: seq<Frame>, b: nat)
    requires Posed(w, wa, parent, pose) && Ordered(parent) && AllRigid(wa) && AllRigid(pose) && b < |w|
    ensures IsRigid(w[b])
    decreases Depth(parent, b)
  {
    hide Rest, Comp, IsRotation, Depth;
    if parent[b] >= 0 {
      ParentIsHigher(parent, b);
      PosedIsRigid(w, wa, parent, pose, parent[b]);
      RestIsRigid(wa, parent, b);
      CompIsRigid(Rest(wa, parent, b), pose[b]);
      CompIsRigid(w[parent[b]], Comp(Rest(wa, parent, b), pose[b]));
    }
  }

  /** Replayed, a bone sits on its parent as at rest, moved by its own delta. */
  lemma OffsetThenDelta(w: seq<Frame>, wa: seq<Frame>, parent: seq<int>, pose: seq<Frame>, b: nat)
    requires Posed(w, wa, parent, pose) && Ordered(parent) && AllRigid(wa) && AllRigid(pose)
    requires b < |w| && 0 <= parent[b]
    ensures Onto(w, parent, b) == Comp(Onto(wa, parent, b), pose[b])
  {
    hide Comp, Inv, IsRotation, Depth;
    ParentIsHigher(parent, b);
    PosedIsRigid(w, wa, parent, pose, parent[b]);
    CompCancels(w[parent[b]], Comp(Rest(wa, parent, b), pose[b]));
  }

  /** A replay of rigid deltas over a rigid skeleton. */
  ghost predicate Replayed(w: seq<Frame>, wa: seq<Frame>, parent: seq<int>, pose: seq<Frame>) {
    Posed(w, wa, parent, pose) && Ordered(parent) && AllRigid(wa) && AllRigid(pose)
  }

  lemma ReplayedSizes(w: seq<Frame>, wa: seq<Frame>, parent: seq<int>, pose: seq<Frame>)
    requires Replayed(w, wa, parent, pose)
    ensures |w| == |wa| == |parent| == |pose| && forall b :: 0 <= b < |w| ==> parent[b] < |w|
  {
    hide IsRotation, Comp, Rest;
  }

  /** Exactly the bones without a delta keep their place on their parents. */
  lemma UnposedKeepsOffset(w: seq<Frame>, wa: seq<Frame>, parent: seq<int>, pose: seq<Frame>, b: nat)
    requires |w| == |wa| == |parent| == |pose| && b < |w| && 0 <= parent[b] < |w|
    requires Replayed(w, wa, parent, pose)
    ensures Onto(w, parent, b) == Onto(wa, parent, b) <==> pose[b] == HOME
  {
    hide Comp, Inv, IsRotation, Depth, Posed, Ordered, AllRigid;
    OffsetThenDelta(w, wa, parent, pose, b);
    var rest := Onto(wa, parent, b);
    OntoIsRigid(wa, parent, b);
    CompHome(rest);
    if Onto(w, parent, b) == rest { CancelLeft(rest, pose[b], HOME); }
  }

  lemma OntoIsRigid(wa: seq<Frame>, parent: seq<int>, b: nat)
    requires AllRigid(wa) && |wa| == |parent| && b < |wa| && 0 <= parent[b] < |wa|
    ensures IsRigid(Onto(wa, parent, b))
  {
    hide Comp, Inv, IsRotation;
    InvIsRigid(wa[parent[b]]);
    CompIsRigid(Inv(wa[parent[b]]), wa[b]);
  }

  lemma CancelLeft(f: Frame, g: Frame, h: Frame)
    requires IsRigid(f) && Comp(f, g) == Comp(f, h)
    ensures g == h
  {
    hide Comp, Inv, IsRotation;
    CompCancels(f, g);
    CompCancels(f, h);
  }

  /** And the vertices of a bone that does are carried as if they were the parent's own. */
  lemma CarriedWithParent(w: seq<Frame>, wa: seq<Frame>, parent: seq<int>, b: nat, p: Vec)
    requires |w| == |wa| == |parent| && b < |w| && 0 <= parent[b] < |w| && AllRigid(wa) && IsRigid(w[parent[b]])
    requires Onto(w, parent, b) == Onto(wa, parent, b)
    ensures Carried(w, wa, b, p) == Carried(w, wa, parent[b], p)
  {
    hide Comp, Inv, IsRotation, Act;
    var q := parent[b];
    CompCancels(w[q], w[b]);
    assert w[b] == Comp(w[q], Onto(wa, parent, b));
    var x := Act(Inv(wa[b]), p);
    CompActs(w[q], Onto(wa, parent, b), x);
    CompActs(Inv(wa[q]), wa[b], x);
    ActInv(wa[b], p);
  }

  // ----- a profile that names no bone -----

  /** With no delta anywhere, a bone's frame is its rest frame seen from its root's. */
  lemma {:induction false} UnposedFrames(w: seq<Frame>, wa: seq<Frame>, parent: seq<int>, pose: seq<Frame>, b: nat)
    requires Posed(w, wa, parent, pose) && Ordered(parent) && AllRigid(wa) && b < |w|
    requires forall k :: 0 <= k < |pose| ==> pose[k] == HOME
    ensures w[b] == Comp(Inv(wa[RootOf(parent, b)]), wa[b])
    decreases Depth(parent, b)
  {
    hide Comp, Inv, IsRotation, Depth;
    if parent[b] < 0 {
      CompInv(wa[b]);
    } else {
      ParentIsHigher(parent, b);
      UnposedFrames(w, wa, parent, pose, parent[b]);
      var r, q := RootOf(parent, b), parent[b];
      CompHome(Rest(wa, parent, b));
      CompAssoc(Inv(wa[r]), wa[q], Rest(wa, parent, b));
      CompCancels(wa[q], wa[b]);
    }
  }

  /** So it moves all vertices below a root by one rigid motion, the one that takes the root home. */
  lemma UnposedMovesRigidly(w: seq<Frame>, wa: seq<Frame>, parent: seq<int>, pose: seq<Frame>, b: nat, p: Vec)
    requires Posed(w, wa, parent, pose) && Ordered(parent) && AllRigid(wa) && b < |w|
    requires forall k :: 0 <= k < |pose| ==> pose[k] == HOME
    ensures Carried(w, wa, b, p) == Act(Inv(wa[RootOf(parent, b)]), p)
  {
    hide Comp, Inv, IsRotation, Act;
    UnposedFrames(w, wa, parent, pose, b);
    var g := Inv(wa[RootOf(parent, b)]);
    CompActs(g, wa[b], Act(Inv(wa[b]), p));
    ActInv(wa[b], p);
  }

  lemma InvHome()
    ensures Inv(HOME) == HOME
  {
    hide Comp, Inv, IsRotation;
    IdIsRotation();
    CompInv(HOME);
    CompHome(Inv(HOME));
  }

  /** Applied to a model whose roots are at home, a profile that names none of its bones only places it. */
  lemma UnnamedIsOnlyPlaced(out: seq<Vec>, w: seq<Frame>, vs: seq<Vec>, vbone: seq<nat>, wa: seq<Frame>,
                            parent: seq<int>, prof: Profile, names: seq<string>)
    requires |vs| == |vbone| && |wa| == |parent| == |names| && Ordered(parent) && AllRigid(wa)
    requires forall i :: 0 <= i < |vbone| ==> vbone[i] < |wa|
    requires forall b :: 0 <= b < |wa| && parent[b] < 0 ==> wa[b] == HOME
    requires forall b, k :: 0 <= b < |names| && 0 <= k < |prof.names| ==> prof.names[k] != names[b]
    requires Applied(out, w, vs, vbone, wa, parent, prof, PoseByName(prof, names))
    ensures |vs| > 0 && Height(vs) != 0.0 && out == Place(vs, prof)
  {
    hide Place, Comp, Inv, IsRotation, Act, Posed, Named, Ordered, AllRigid;
    var pose := PoseByName(prof, names);
    forall b | 0 <= b < |pose| ensures pose[b] == HOME { NotNamed(prof, names[b], Entries(prof)); }
    SameCount(w, wa, parent, pose);
    var us := CarriedAll(w, wa, vs, vbone);
    forall i | 0 <= i < |vs| ensures us[i] == vs[i] {
      UnposedMovesRigidly(w, wa, parent, pose, vbone[i], vs[i]);
      InvHome();
      ActHome(vs[i]);
    }
    assert us == vs;
  }

  lemma SameCount(w: seq<Frame>, wa: seq<Frame>, parent: seq<int>, pose: seq<Frame>)
    requires Posed(w, wa, parent, pose)
    ensures |w| == |wa| == |parent| == |pose|
  {
  }

  lemma {:induction false} NotNamed(prof: Profile, name: string, n: nat)
    requires n <= |prof.names| && n <= |prof.pose| && forall k :: 0 <= k < n ==> prof.names[k] != name
    ensures Named(prof, name, n) == HOME
  {
    if n > 0 { NotNamed(prof, name, n - 1); }
  }

  /** A bone's pose is the one of the last entry of its name, and none if there is no entry. */
  lemma {:induction false} NamedIsLast(prof: Profile, name: string, n: nat, k: nat)
    requires n <= |prof.names| && n <= |prof.pose| && k < n && prof.names[k] == name
    requires forall j :: k < j < n ==> prof.names[j] != name
    ensures Named(prof, name, n) == prof.pose[k]
  {
    if k < n - 1 { NamedIsLast(prof, name, n - 1, k); }
  }

  // ----- the same profile on a model that stands elsewhere -----

  /** The two rest skeletons have their bones on their parents alike. */
  ghost predicate SameJoints(wa: seq<Frame>, wb: seq<Frame>, parent: seq<int>) {
    && |wa| == |wb| == |parent|
    && forall b :: 0 <= b < |parent| && 0 <= parent[b] < |parent| ==> Onto(wa, parent, b) == Onto(wb, parent, b)
  }

  /** The replay looks only at how bones sit on their parents, not at where the skeleton stands at rest. */
  lemma {:induction false} StandingDoesNotMatter(v: seq<Frame>, w: seq<Frame>, wa: seq<Frame>, wb: seq<Frame>,
                                                 parent: seq<int>, pose: seq<Frame>, b: nat)
    requires Posed(v, wa, parent, pose) && Posed(w, wb, parent, pose) && SameJoints(wa, wb, parent)
    requires Ordered(parent) && b < |v|
    ensures v[b] == w[b]
    decreases Depth(parent, b)
  {
    hide Comp, Inv, Depth;
    if parent[b] >= 0 {
      ParentIsHigher(parent, b);
      StandingDoesNotMatter(v, w, wa, wb, parent, pose, parent[b]);
      assert Onto(wa, parent, b) == Onto(wb, parent, b);
    }
  }

  // ----- learning -----

  /** A bone that is not measured and not a root is learned where it rests on its parent. */
  lemma UnmeasuredKeepsOffset(w: seq<Frame>, sb: seq<Option<Sim>>, scale: real, wa: seq<Frame>, parent: seq<int>,
                              ortho: Mat -> Mat, b: nat)
    requires Filled(w, sb, scale, wa, parent, ortho) && b < |w| && 0 <= parent[b] < |w| && sb[b].None?
    requires IsRigid(w[parent[b]])
    ensures Onto(w, parent, b) == Onto(wa, parent, b)
  {
    hide Comp, Inv, IsRotation, UnitFrame, FirstChild;
    CompCancels(w[parent[b]], Onto(wa, parent, b));
  }

  /** An unmeasured root borrows the rotation of its first measured child, and stays at the origin. */
  lemma UnmeasuredRootBorrows(w: seq<Frame>, sb: seq<Option<Sim>>, scale: real, wa: seq<Frame>, parent: seq<int>,
                              ortho: Mat -> Mat, b: nat, c: nat)
    requires Filled(w, sb, scale, wa, parent, ortho) && b < |w| && parent[b] < 0 && sb[b].None?
    requires c < |w| && parent[c] == b && sb[c].Some? && forall k :: 0 <= k < c && parent[k] == b ==> sb[k].None?
    ensures w[b] == Frame(ortho(w[c].m), ZERO)
  {
    hide Comp, Inv, UnitFrame;
    FirstIs(parent, sb, b, 0, c);
  }

  lemma {:induction false} FirstIs(parent: seq<int>, sb: seq<Option<Sim>>, b: int, from: nat, c: nat)
    requires |parent| == |sb| && from <= c < |parent| && parent[c] == b && sb[c].Some?
    requires forall k :: from <= k < c && parent[k] == b ==> sb[k].None?
    ensures FirstChild(parent, sb, b, from) == Some(c)
    decreases c - from
  {
    if from < c { FirstIs(parent, sb, b, from + 1, c); }
  }

  /** Without a measured child it is learned at home. */
  lemma ChildlessRootIsHome(w: seq<Frame>, sb: seq<Option<Sim>>, scale: real, wa: seq<Frame>, parent: seq<int>,
                            ortho: Mat -> Mat, b: nat)
    requires Filled(w, sb, scale, wa, parent, ortho) && b < |w| && parent[b] < 0 && sb[b].None?
    requires forall k :: 0 <= k < |w| && parent[k] == b ==> sb[k].None?
    ensures w[b] == HOME
  {
    hide Comp, Inv, UnitFrame;
    NoChild(parent, sb, b, 0);
  }

  lemma {:induction false} NoChild(parent: seq<int>, sb: seq<Option<Sim>>, b: int, from: nat)
    requires |parent| == |sb| && forall k :: from <= k < |parent| && parent[k] == b ==> sb[k].None?
    ensures FirstChild(parent, sb, b, from) == None
    decreases |parent| - from
  {
    if from < |parent| { NoChild(parent, sb, b, from + 1); }
  }

  /** The delta of a bone is none exactly when it was learned where it rests on its parent. */
  lemma NoDeltaIff(w: seq<Frame>, wa: seq<Frame>, parent: seq<int>, ortho: Mat -> Mat, b: nat)
    requires |w| == |wa| == |parent| && b < |w| && 0 <= parent[b] < |w|
    requires KeepsRotations(ortho) && IsRigid(w[b]) && IsRigid(w[parent[b]]) && AllRigid(wa)
    ensures PoseOf(w, wa, parent, ortho, b) == HOME <==> Onto(w, parent, b) == Onto(wa, parent, b)
  {
    hide Comp, Inv, IsRotation, KeepsRotations, PoseOf;
    PoseIsDelta(w, wa, parent, ortho, b);
    var rest, local := Onto(wa, parent, b), Onto(w, parent, b);
    OntoIsRigid(wa, parent, b);
    CompInv(rest);
    CompHome(rest);
    CompCancels(rest, local);
    if Comp(Inv(rest), local) == HOME { assert Comp(rest, Comp(Inv(rest), local)) == Comp(rest, HOME); }
  }

  /** All of the model was moved, turned and scaled as one piece. */
  ghost predicate OnePiece(truth: seq<Sim>, f: Sim) { forall b :: 0 <= b < |truth| ==> truth[b] == f }

  /** Learned from a model that was moved as one piece, every bone below a measured root is where that puts it. */
  lemma {:induction false} OnePieceFrames(w: seq<Frame>, sb: seq<Option<Sim>>, truth: seq<Sim>, c: real,
                                          wa: seq<Frame>, parent: seq<int>, ortho: Mat -> Mat, f: Sim, b: nat)
    requires Exact(w, sb, truth, c, wa, parent, ortho) && OnePiece(truth, f) && b < |w|
    requires sb[RootOf(parent, b)].Some?
    ensures w[b] == Comp(Unit(f), wa[b])
    decreases Depth(parent, b)
  {
    hide Comp, Inv, IsRotation, Depth, Unit, KeepsRotations, FirstChild, UnitFrame;
    if sb[b].Some? {
      assert truth[b] == f;
      UnitFrameIs(f, wa[b]);
    } else {
      ParentIsHigher(parent, b);
      var q := parent[b];
      OnePieceFrames(w, sb, truth, c, wa, parent, ortho, f, q);
      CompAssoc(Unit(f), wa[q], Rest(wa, parent, b));
      CompCancels(wa[q], wa[b]);
    }
  }

  /** So its profile has no delta at any bone that is not a root. */
  lemma OnePieceHasNoDeltas(w: seq<Frame>, sb: seq<Option<Sim>>, truth: seq<Sim>, c: real, wa: seq<Frame>,
                            parent: seq<int>, ortho: Mat -> Mat, f: Sim, b: nat)
    requires Exact(w, sb, truth, c, wa, parent, ortho) && OnePiece(truth, f) && b < |w| && 0 <= parent[b] < |w|
    requires sb[RootOf(parent, b)].Some?
    ensures PoseOf(w, wa, parent, ortho, b) == HOME
  {
    hide Comp, Inv, IsRotation, Depth, Unit, KeepsRotations, FrameOf, PoseOf;
    var q := parent[b];
    assert RootOf(parent, q) == RootOf(parent, b);
    OnePieceFrames(w, sb, truth, c, wa, parent, ortho, f, b);
    OnePieceFrames(w, sb, truth, c, wa, parent, ortho, f, q);
    FrameIsRigid(w, sb, truth, c, wa, parent, ortho, b);
    FrameIsRigid(w, sb, truth, c, wa, parent, ortho, q);
    UnitIsRotation(f, truth, w, sb, c, wa, parent, ortho);
    MovedOnto(Unit(f), wa, w, parent, b);
    NoDeltaIff(w, wa, parent, ortho, b);
  }

  lemma UnitIsRotation(f: Sim, truth: seq<Sim>, w: seq<Frame>, sb: seq<Option<Sim>>, c: real, wa: seq<Frame>,
                       parent: seq<int>, ortho: Mat -> Mat)
    requires Exact(w, sb, truth, c, wa, parent, ortho) && OnePiece(truth, f) && |w| > 0
    ensures f.s > 0.0 && IsRigid(Unit(f))
  {
    hide IsRotation, Filled, KeepsRotations;
    assert truth[0] == f;
  }

  /** Moving both as one piece keeps a bone where it is on its parent. */
  lemma MovedOnto(u: Frame, wa: seq<Frame>, w: seq<Frame>, parent: seq<int>, b: nat)
    requires |w| == |wa| == |parent| && b < |w| && 0 <= parent[b] < |w| && AllRigid(wa) && IsRigid(u)
    requires w[b] == Comp(u, wa[b]) && w[parent[b]] == Comp(u, wa[parent[b]])
    ensures Onto(w, parent, b) == Onto(wa, parent, b)
  {
    hide Comp, Inv, IsRotation;
    var q := parent[b];
    CompIsRigid(u, wa[q]);
    CompAssoc(u, wa[q], Onto(wa, parent, b));
    CompCancels(wa[q], wa[b]);
    CompCancels(w[q], Onto(wa, parent, b));
  }

  /** A profile learned from a model that was moved as one piece, whose root has vertices, poses no bone. */
  lemma LearnedInOnePiece(vs: seq<Vec>, ps: seq<Vec>, vbone: seq<nat>, wa: seq<Frame>, parent: seq<int>,
                          names: seq<string>, truth: seq<Sim>, c: real, fit: (seq<Vec>, seq<Vec>) -> Sim,
                          ortho: Mat -> Mat, median: seq<real> -> real, prof: Profile, w: seq<Frame>, f: Sim,
                          b: nat, i: nat)
    requires Posable(vs, ps, vbone, wa, parent, names, truth, c) && OnePiece(truth, f)
    requires FitsExactly(fit) && KeepsRotations(ortho) && MedianOfEqual(median)
    requires Learned(prof, w, vs, ps, vbone, wa, parent, names, fit, ortho, median)
    requires b < |parent| && 0 <= parent[b] && i < |vbone| && vbone[i] == RootOf(parent, b)
    ensures |prof.pose| == |wa| && prof.pose[b] == HOME
  {
    hide Comp, Inv, IsRotation, FitsExactly, MedianOfEqual, KeepsRotations, WellCovered, DistinctNames, PoseOf, FrameOf,
      Scales, RootOf, HangsWell, Height;
    LearnsTruth(vs, ps, vbone, wa, parent, names, truth, c, fit, median);
    var sb := Measured(fit, vs, ps, vbone, |wa|);
    OnePieceHasNoDeltas(w, sb, truth, c, wa, parent, ortho, f, b);
  }

  // ----- what is measured -----

  /** The vertices of a bone, by number and in order. */
  ghost predicate VerticesOf(vbone: seq<nat>, b: nat, n: nat, at: seq<nat>)
    requires n <= |vbone|
  {
    && (forall k :: 0 <= k < |at| ==> at[k] < n && vbone[at[k]] == b)
    && (forall k, l :: 0 <= k < l < |at| ==> at[k] < at[l])
    && (forall i :: 0 <= i < n && vbone[i] == b ==> i in at)
  }

  lemma OneMoreVertex(vbone: seq<nat>, b: nat, n: nat, at: seq<nat>)
    requires 0 < n <= |vbone| && VerticesOf(vbone, b, n - 1, at)
    ensures VerticesOf(vbone, b, n, if vbone[n - 1] == b then at + [n - 1] else at)
  {
    if vbone[n - 1] == b {
      var more := at + [n - 1];
      assert more[|at|] == n - 1;
      forall i | 0 <= i < n && vbone[i] == b ensures i in more { assert i in at || i == n - 1; }
    }
  }

  /** The points at these vertices. */
  function PointsAt(ps: seq<Vec>, at: seq<nat>): (r: seq<Vec>)
    requires forall k :: 0 <= k < |at| ==> at[k] < |ps|
    ensures |r| == |at|
  {
    seq(|at|, k requires 0 <= k < |at| => ps[at[k]])
  }

  lemma PointsSnoc(ps: seq<Vec>, at: seq<nat>, i: nat)
    requires i < |ps| && forall k :: 0 <= k < |at| ==> at[k] < |ps|
    ensures PointsAt(ps, at + [i]) == PointsAt(ps, at) + [ps[i]]
  {
  }

  lemma VerticesInRange(vbone: seq<nat>, b: nat, n: nat, at: seq<nat>)
    requires n <= |vbone| && VerticesOf(vbone, b, n, at)
    ensures forall k :: 0 <= k < |at| ==> at[k] < |vbone|
  {
  }

  /** The points of a bone are the points at just its vertices, in order, whatever the points are. */
  lemma {:induction false} PointsAreAtVertices(ps: seq<Vec>, vs: seq<Vec>, vbone: seq<nat>, b: nat, n: nat)
      returns (at: seq<nat>)
    requires n <= |ps| == |vs| == |vbone|
    ensures VerticesOf(vbone, b, n, at) && forall k :: 0 <= k < |at| ==> at[k] < |vbone|
    ensures PointsOf(ps, vbone, b, n) == PointsAt(ps, at) && PointsOf(vs, vbone, b, n) == PointsAt(vs, at)
  {
    hide VerticesOf, PointsAt;
    if n == 0 {
      at := [];
      NoVertices(vbone, b, ps, vs);
    } else {
      at := PointsAreAtVertices(ps, vs, vbone, b, n - 1);
      OneMoreVertex(vbone, b, n, at);
      if vbone[n - 1] == b {
        PointsSnoc(ps, at, n - 1);
        PointsSnoc(vs, at, n - 1);
        at := at + [n - 1];
      } else {
        assert PointsOf(ps, vbone, b, n) == PointsOf(ps, vbone, b, n - 1) + [];
        assert PointsOf(vs, vbone, b, n) == PointsOf(vs, vbone, b, n - 1) + [];
      }
      VerticesInRange(vbone, b, n, at);
    }
  }

  lemma NoVertices(vbone: seq<nat>, b: nat, ps: seq<Vec>, vs: seq<Vec>)
    ensures VerticesOf(vbone, b, 0, []) && PointsAt(ps, []) == [] && PointsAt(vs, []) == []
  {
  }

  /** A bone is measured, from its own vertices at rest and posed, exactly when it has at least three. */
  lemma MeasuredFromThree(fit: (seq<Vec>, seq<Vec>) -> Sim, vs: seq<Vec>, ps: seq<Vec>, vbone: seq<nat>, b: nat)
      returns (at: seq<nat>)
    requires |vs| == |ps| == |vbone|
    ensures VerticesOf(vbone, b, |vs|, at)
    ensures forall k :: 0 <= k < |at| ==> at[k] < |vs|
    ensures Measure(fit, vs, ps, vbone, b)
         == if |at| >= 3 then Some(fit(PointsAt(vs, at), PointsAt(ps, at))) else None
  {
    hide VerticesOf;
    at := PointsAreAtVertices(ps, vs, vbone, b, |vs|);
  }

  /** The measured bones, in order. */
  ghost predicate MeasuredBones(sb: seq<Option<Sim>>, at: seq<nat>) {
    && (forall k :: 0 <= k < |at| ==> at[k] < |sb| && sb[at[k]].Some?)
    && (forall k, l :: 0 <= k < l < |at| ==> at[k] < at[l])
    && (forall b :: 0 <= b < |sb| && sb[b].Some? ==> b in at)
  }

  lemma OneMoreBone(sb: seq<Option<Sim>>, at: seq<nat>)
    requires sb != [] && MeasuredBones(sb[..|sb| - 1], at)
    ensures MeasuredBones(sb, if sb[|sb| - 1].Some? then at + [|sb| - 1] else at)
  {
    var n := |sb| - 1;
    if sb[n].Some? {
      var more := at + [n];
      assert more[|at|] == n;
      forall b | 0 <= b < |sb| && sb[b].Some? ensures b in more { assert b == n || sb[..n][b].Some?; }
    }
  }

  predicate AllMeasured(sb: seq<Option<Sim>>, at: seq<nat>) {
    forall k :: 0 <= k < |at| ==> at[k] < |sb| && sb[at[k]].Some?
  }

  function ScalesAt(sb: seq<Option<Sim>>, at: seq<nat>): seq<real>
    requires AllMeasured(sb, at)
  {
    seq(|at|, k requires 0 <= k < |at| => sb[at[k]].value.s)
  }

  lemma ScalesOfFront(sb: seq<Option<Sim>>, at: seq<nat>)
    requires sb != [] && AllMeasured(sb[..|sb| - 1], at)
    ensures AllMeasured(sb, at) && ScalesAt(sb, at) == ScalesAt(sb[..|sb| - 1], at)
  {
    assert forall k :: 0 <= k < |at| ==> sb[..|sb| - 1][at[k]] == sb[at[k]];
  }

  lemma ScalesSnoc(sb: seq<Option<Sim>>, at: seq<nat>, b: nat)
    requires AllMeasured(sb, at) && b < |sb| && sb[b].Some?
    ensures AllMeasured(sb, at + [b]) && ScalesAt(sb, at + [b]) == ScalesAt(sb, at) + [sb[b].value.s]
  {
  }

  /** The scales that the median is taken of are those of the measured bones, in order. */
  lemma {:induction false} ScalesAreMeasured(sb: seq<Option<Sim>>) returns (at: seq<nat>)
    ensures MeasuredBones(sb, at) && AllMeasured(sb, at) && Scales(sb) == ScalesAt(sb, at)
  {
    hide ScalesAt, MeasuredBones, AllMeasured;
    if sb == [] {
      at := [];
      NoBones();
    } else {
      at := ScalesAreMeasured(sb[..|sb| - 1]);
      OneMoreBone(sb, at);
      ScalesOfFront(sb, at);
      if sb[|sb| - 1].Some? {
        ScalesSnoc(sb, at, |sb| - 1);
        at := at + [|sb| - 1];
      } else {
        assert Scales(sb) == Scales(sb[..|sb| - 1]) + [];
      }
    }
  }

  lemma NoBones()
    ensures MeasuredBones([], []) && AllMeasured([], []) && ScalesAt([], []) == []
  {
  }

  // ----- placement -----

  lemma {:induction false} LeastIs(xs: seq<real>)
    requires |xs| > 0
    ensures Least(xs) in xs && forall x :: x in xs ==> Least(xs) <= x
  {
    if |xs| > 1 {
      LeastIs(xs[..|xs| - 1]);
      assert xs == xs[..|xs| - 1] + [xs[|xs| - 1]];
    }
  }

  lemma {:induction false} MostIs(xs: seq<real>)
    requires |xs| > 0
    ensures Most(xs) in xs && forall x :: x in xs ==> x <= Most(xs)
  {
    if |xs| > 1 {
      MostIs(xs[..|xs| - 1]);
      assert xs == xs[..|xs| - 1] + [xs[|xs| - 1]];
    }
  }

  /** These numbers range exactly from `lo` to `hi`. */
  ghost predicate Ranges(xs: seq<real>, lo: real, hi: real) {
    && lo in xs && hi in xs && forall x :: x in xs ==> lo <= x <= hi
  }

  lemma RangeIs(xs: seq<real>)
    requires |xs| > 0
    ensures Ranges(xs, Least(xs), Most(xs))
  {
    LeastIs(xs);
    MostIs(xs);
  }

  lemma RangeIsOne(xs: seq<real>, lo: real, hi: real)
    requires |xs| > 0 && Ranges(xs, lo, hi)
    ensures lo == Least(xs) && hi == Most(xs)
  {
    RangeIs(xs);
  }

  /** A profile keeps the posed model's height, its lowest point, and the middle of its ground extents. */
  lemma ProfileMeasures(names: seq<string>, pose: seq<Frame>, ps: seq<Vec>, lo: Vec, hi: Vec)
    requires |ps| > 0 && Ranges(Xs(ps), lo.x, hi.x) && Ranges(Ys(ps), lo.y, hi.y) && Ranges(Zs(ps), lo.z, hi.z)
    ensures ProfileOf(names, pose, ps)
         == Profile(names, pose, hi.z - lo.z, lo.z, (hi.x + lo.x) / 2.0, (hi.y + lo.y) / 2.0)
  {
    RangeIsOne(Xs(ps), lo.x, hi.x);
    RangeIsOne(Ys(ps), lo.y, hi.y);
    RangeIsOne(Zs(ps), lo.z, hi.z);
  }

  /**
   * Whatever model a profile is applied to, the result stands on the profile's foot at the profile's
   * height, is centred on its centre, and keeps the model's proportions.
   */
  lemma PlacedToMeasure(us: seq<Vec>, prof: Profile) returns (k: real, d: Vec)
    requires |us| > 0 && Height(us) != 0.0 && prof.height > 0.0
    ensures var out := Place(us, prof);
      && Ranges(Zs(out), prof.foot, prof.foot + prof.height)
      && Least(Xs(out)) + Most(Xs(out)) == 2.0 * prof.centerX && Least(Ys(out)) + Most(Ys(out)) == 2.0 * prof.centerY
    ensures k > 0.0 && forall i :: 0 <= i < |us| ==> Place(us, prof)[i] == Add(Scale(k, us[i]), d)
  {
    hide Most, Least, Times;
    k := prof.height / Height(us);
    var ss, out := ScaledAll(k, us), Place(us, prof);
    HeightPositive(us);
    ScaleIsPositive(prof.height, Height(us));
    ScaledHeight(us, k);
    d := Vec(prof.centerX - Middle(Xs(ss)), prof.centerY - Middle(Ys(ss)), prof.foot - Least(Zs(ss)));
    ShiftedMeasures(out, ss, d);
    MiddleShift(out, ss, d);
    RangeIs(Zs(out));
  }

  lemma HeightPositive(us: seq<Vec>)
    requires |us| > 0 && Height(us) != 0.0
    ensures Height(us) > 0.0
  {
    LeastIs(Zs(us));
    MostIs(Zs(us));
  }

  lemma ScaleIsPositive(a: real, b: real)
    requires a > 0.0 && b > 0.0
    ensures a / b > 0.0 && Times(a / b, b) == a
  {
  }

  lemma MiddleShift(ps: seq<Vec>, ss: seq<Vec>, d: Vec)
    requires ShiftedBy(ps, ss, d)
    ensures Least(Xs(ps)) + Most(Xs(ps)) == 2.0 * (Middle(Xs(ss)) + d.x)
    ensures Least(Ys(ps)) + Most(Ys(ps)) == 2.0 * (Middle(Ys(ss)) + d.y)
  {
    ShiftedMeasures(ps, ss, d);
  }
}
