/**
 * `learn` and `_apply` of tools/client_model/repose.py: pose deltas measured along a skeleton, and
 * their replay. The similarity fit, the nearest rotation and the median come in as functions;
 * coordinates are exact.
 */
module Repose {
  import opened Results
  import opened Vectors
  import opened Rigid

  /** A scaled rotation and a translation. */
  datatype Sim = Sim(s: real, m: Mat, t: Vec)

  function SimAct(f: Sim, p: Vec): Vec { Add(Scale(f.s, MulV(f.m, p)), f.t) }

  // ----- the oracles and what is asked of them -----

  /** Three of the points are not on one line. */
  ghost predicate Spanning(xs: seq<Vec>) {
    exists i, j, k :: 0 <= i < |xs| && 0 <= j < |xs| && 0 <= k < |xs| && Cross(Edge(xs, i, j), Edge(xs, i, k)) != ZERO
  }

  function Edge(xs: seq<Vec>, i: nat, j: nat): Vec
    requires i < |xs| && j < |xs|
  {
    Add(xs[j], Neg(xs[i]))
  }

  ghost predicate IsImage(xs: seq<Vec>, ys: seq<Vec>, f: Sim) {
    |xs| == |ys| && forall i :: 0 <= i < |xs| ==> ys[i] == SimAct(f, xs[i])
  }

  /** The fit recovers an exact similarity from points in general position. */
  ghost predicate FitsExactly(fit: (seq<Vec>, seq<Vec>) -> Sim) {
    forall xs: seq<Vec>, ys: seq<Vec>, f: Sim ::
      IsImage(xs, ys, f) && f.s > 0.0 && IsRotation(f.m) && Spanning(xs) ==> fit(xs, ys) == f
  }

  /** A rotation is its own nearest rotation. */
  ghost predicate KeepsRotations(ortho: Mat -> Mat) { forall m: Mat :: IsRotation(m) ==> ortho(m) == m }

  ghost predicate AllAre(xs: seq<real>, c: real) { |xs| > 0 && forall i :: 0 <= i < |xs| ==> xs[i] == c }

  ghost predicate MedianOfEqual(median: seq<real> -> real) {
    forall xs: seq<real>, c: real :: AllAre(xs, c) ==> median(xs) == c
  }

  // ----- the skeleton -----

  /** A bone that is not a root hangs off a root or off a bone listed before it. */
  predicate HangsWell(parent: seq<int>, b: nat)
    requires b < |parent|
  {
    0 <= parent[b] < |parent| ==> parent[parent[b]] < 0 || parent[b] < b
  }

  /** Roots first and then the other bones in order is an order in which every parent comes first. */
  predicate Ordered(parent: seq<int>) {
    && (forall b :: 0 <= b < |parent| ==> parent[b] < |parent|)
    && (forall b :: 0 <= b < |parent| ==> HangsWell(parent, b))
  }

  /** How often one can go up from a bone is bounded by this. */
  function Depth(parent: seq<int>, b: nat): nat
    requires b < |parent|
  {
    if parent[b] < 0 then 0 else b + 1
  }

  lemma ParentIsHigher(parent: seq<int>, b: nat)
    requires Ordered(parent) && b < |parent| && 0 <= parent[b]
    ensures parent[b] < |parent| && Depth(parent, parent[b]) < Depth(parent, b)
  {
    assert HangsWell(parent, b);
  }

  /** The root that a bone hangs off in the end. */
  function RootOf(parent: seq<int>, b: nat): (r: nat)
    requires Ordered(parent) && b < |parent|
    ensures r < |parent| && parent[r] < 0
    decreases Depth(parent, b)
  {
    if parent[b] < 0 then b
    else
      assert HangsWell(parent, b);
      RootOf(parent, parent[b])
  }

  function Rest(wa: seq<Frame>, parent: seq<int>, b: nat): Frame
    requires b < |wa| == |parent| && 0 <= parent[b] < |wa|
  {
    Comp(Inv(wa[parent[b]]), wa[b])
  }

  /** The points of one bone among the first `n`. */
  function PointsOf(ps: seq<Vec>, vbone: seq<nat>, b: nat, n: nat): seq<Vec>
    requires n <= |ps| && |ps| == |vbone|
  {
    if n == 0 then [] else PointsOf(ps, vbone, b, n - 1) + if vbone[n - 1] == b then [ps[n - 1]] else []
  }

  // ----- learning -----

  /** The measured similarity of every bone with at least three vertices. */
  function Measured(fit: (seq<Vec>, seq<Vec>) -> Sim, vs: seq<Vec>, ps: seq<Vec>, vbone: seq<nat>, nb: nat)
    : (sb: seq<Option<Sim>>)
    requires |vs| == |ps| == |vbone|
    ensures |sb| == nb
  {
    seq(nb, b requires 0 <= b < nb => Measure(fit, vs, ps, vbone, b))
  }

  function Measure(fit: (seq<Vec>, seq<Vec>) -> Sim, vs: seq<Vec>, ps: seq<Vec>, vbone: seq<nat>, b: nat): Option<Sim>
    requires |vs| == |ps| == |vbone|
  {
    var xs := PointsOf(vs, vbone, b, |vs|);
    if |xs| >= 3 then Some(fit(xs, PointsOf(ps, vbone, b, |ps|))) else None
  }

  function Scales(sb: seq<Option<Sim>>): seq<real> {
    if sb == [] then []
    else Scales(sb[..|sb| - 1]) + if sb[|sb| - 1].Some? then [sb[|sb| - 1].value.s] else []
  }

  function ScaleMat(k: real, m: Mat): Mat { Mat(Scale(k, m.a), Scale(k, m.b), Scale(k, m.c)) }

  /** The measured frame at unit scale, in front of the bone's rest frame. */
  function UnitFrame(f: Sim, scale: real, wa: Frame): Frame
    requires scale != 0.0
  {
    Comp(Frame(ScaleMat(f.s / scale, f.m), Scale(1.0 / scale, f.t)), wa)
  }

  /** The first measured child of a bone. */
  function FirstChild(parent: seq<int>, sb: seq<Option<Sim>>, b: int, from: nat): (r: Option<nat>)
    requires |parent| == |sb|
    ensures r.Some? ==> r.value < |sb| && sb[r.value].Some?
    decreases |parent| - from
  {
    if from >= |parent| then None
    else if parent[from] == b && sb[from].Some? then Some(from)
    else FirstChild(parent, sb, b, from + 1)
  }

  /** What `learn` decides for one bone, given the frames it builds on. */
  function FrameOf(w: seq<Frame>, sb: seq<Option<Sim>>, scale: real, wa: seq<Frame>, parent: seq<int>,
                   ortho: Mat -> Mat, b: nat): Frame
    requires |w| == |sb| == |wa| == |parent| && b < |w| && parent[b] < |w| && scale != 0.0
  {
    if sb[b].Some? then UnitFrame(sb[b].value, scale, wa[b])
    else if parent[b] < 0 then
      var ch := FirstChild(parent, sb, b, 0);
      Frame(if ch.Some? then ortho(UnitFrame(sb[ch.value].value, scale, wa[ch.value]).m) else ID, ZERO)
    else Comp(w[parent[b]], Rest(wa, parent, b))
  }

  ghost predicate Filled(w: seq<Frame>, sb: seq<Option<Sim>>, scale: real, wa: seq<Frame>, parent: seq<int>,
                         ortho: Mat -> Mat)
  {
    && |w| == |sb| == |wa| == |parent| && scale != 0.0
    && forall b :: 0 <= b < |w| ==> parent[b] < |w| && w[b] == FrameOf(w, sb, scale, wa, parent, ortho, b)
  }

  /** Frames of the roots before `k` and of the other bones before `n` are in place. */
  ghost predicate FilledTo(w: seq<Frame>, sb: seq<Option<Sim>>, scale: real, wa: seq<Frame>, parent: seq<int>,
                           ortho: Mat -> Mat, k: nat, n: nat)
  {
    && |w| == |sb| == |wa| == |parent| && scale != 0.0 && Ordered(parent) && n <= k <= |w| && (n == 0 || k == |w|)
    && forall b :: 0 <= b < |w| && (if parent[b] < 0 then b < k else b < n) ==>
         w[b] == FrameOf(w, sb, scale, wa, parent, ortho, b)
  }

  /** A bone's frame looks only at its parent's. */
  lemma FrameLooksUp(w: seq<Frame>, v: seq<Frame>, sb: seq<Option<Sim>>, scale: real, wa: seq<Frame>,
                     parent: seq<int>, ortho: Mat -> Mat, b: nat)
    requires |w| == |v| == |sb| == |wa| == |parent| && b < |w| && parent[b] < |w| && scale != 0.0
    requires parent[b] >= 0 ==> w[parent[b]] == v[parent[b]]
    ensures FrameOf(w, sb, scale, wa, parent, ortho, b) == FrameOf(v, sb, scale, wa, parent, ortho, b)
  {
    hide UnitFrame, Comp, Rest;
  }

  lemma FillRoot(w: seq<Frame>, sb: seq<Option<Sim>>, scale: real, wa: seq<Frame>, parent: seq<int>,
                 ortho: Mat -> Mat, k: nat)
    requires FilledTo(w, sb, scale, wa, parent, ortho, k, 0) && k < |w| && parent[k] < 0
    ensures FilledTo(w[k := FrameOf(w, sb, scale, wa, parent, ortho, k)], sb, scale, wa, parent, ortho, k + 1, 0)
  {
    hide FrameOf, HangsWell;
    var v := w[k := FrameOf(w, sb, scale, wa, parent, ortho, k)];
    forall b | 0 <= b < |w| && parent[b] < 0 && b < k + 1 ensures v[b] == FrameOf(v, sb, scale, wa, parent, ortho, b) {
      FrameLooksUp(w, v, sb, scale, wa, parent, ortho, b);
    }
  }

  lemma FillOne(w: seq<Frame>, sb: seq<Option<Sim>>, scale: real, wa: seq<Frame>, parent: seq<int>,
                ortho: Mat -> Mat, n: nat)
    requires FilledTo(w, sb, scale, wa, parent, ortho, |w|, n) && n < |w| && parent[n] >= 0
    ensures FilledTo(w[n := FrameOf(w, sb, scale, wa, parent, ortho, n)], sb, scale, wa, parent, ortho, |w|, n + 1)
  {
    hide FrameOf;
    var v := w[n := FrameOf(w, sb, scale, wa, parent, ortho, n)];
    forall b | 0 <= b < |w| && (parent[b] < 0 || b < n + 1)
      ensures v[b] == FrameOf(v, sb, scale, wa, parent, ortho, b) {
      assert HangsWell(parent, b);
      FrameLooksUp(w, v, sb, scale, wa, parent, ortho, b);
    }
  }

  /** The hierarchy pass: the roots first, then the other bones in order. */
  method FillFrames(sb: seq<Option<Sim>>, scale: real, wa: seq<Frame>, parent: seq<int>, ortho: Mat -> Mat)
    returns (w: seq<Frame>)
    requires |sb| == |wa| == |parent| && scale != 0.0 && Ordered(parent)
    ensures Filled(w, sb, scale, wa, parent, ortho)
  {
    hide FrameOf, HangsWell;
    w := seq(|wa|, i => HOME);
    var k := 0;
    while k < |w|
      invariant 0 <= k <= |w| == |wa| && FilledTo(w, sb, scale, wa, parent, ortho, k, 0)
    {
      if parent[k] < 0 {
        FillRoot(w, sb, scale, wa, parent, ortho, k);
        w := w[k := FrameOf(w, sb, scale, wa, parent, ortho, k)];
      }
      k := k + 1;
    }
    var b := 0;
    while b < |w|
      invariant 0 <= b <= |w| == |wa| && FilledTo(w, sb, scale, wa, parent, ortho, |w|, b)
    {
      if parent[b] >= 0 {
        FillOne(w, sb, scale, wa, parent, ortho, b);
        w := w[b := FrameOf(w, sb, scale, wa, parent, ortho, b)];
      }
      b := b + 1;
    }
  }

  /** The transferable pose of a bone: the root's world rotation, or the delta in its rest frame. */
  function PoseOf(w: seq<Frame>, wa: seq<Frame>, parent: seq<int>, ortho: Mat -> Mat, b: nat): Frame
    requires |w| == |wa| == |parent| && b < |w| && parent[b] < |w|
  {
    if parent[b] < 0 then Frame(ortho(w[b].m), ZERO)
    else
      var d := Comp(Inv(Rest(wa, parent, b)), Comp(Inv(w[parent[b]]), w[b]));
      Frame(ortho(d.m), d.t)
  }

  function Least(xs: seq<real>): (r: real)
    requires |xs| > 0
  {
    if |xs| == 1 then xs[0]
    else
      var m := Least(xs[..|xs| - 1]);
      if xs[|xs| - 1] < m then xs[|xs| - 1] else m
  }

  function Most(xs: seq<real>): (r: real)
    requires |xs| > 0
  {
    if |xs| == 1 then xs[0]
    else
      var m := Most(xs[..|xs| - 1]);
      if xs[|xs| - 1] > m then xs[|xs| - 1] else m
  }

  function Xs(ps: seq<Vec>): seq<real> { seq(|ps|, i requires 0 <= i < |ps| => ps[i].x) }
  function Ys(ps: seq<Vec>): seq<real> { seq(|ps|, i requires 0 <= i < |ps| => ps[i].y) }
  function Zs(ps: seq<Vec>): seq<real> { seq(|ps|, i requires 0 <= i < |ps| => ps[i].z) }

  function Middle(xs: seq<real>): real
    requires |xs| > 0
  {
    (Most(xs) + Least(xs)) / 2.0
  }

  /** A learned profile; the up axis is z. */
  datatype Profile = Profile(names: seq<string>, pose: seq<Frame>, height: real,
                             foot: real, centerX: real, centerY: real)

  function ProfileOf(names: seq<string>, pose: seq<Frame>, ps: seq<Vec>): Profile
    requires |ps| > 0
  {
    Profile(names, pose, Most(Zs(ps)) - Least(Zs(ps)), Least(Zs(ps)), Middle(Xs(ps)), Middle(Ys(ps)))
  }

  /** Everything `learn` establishes: measured bones, common scale, complete frames, pose deltas. */
  ghost predicate Learned(prof: Profile, w: seq<Frame>, vs: seq<Vec>, ps: seq<Vec>, vbone: seq<nat>, wa: seq<Frame>,
                          parent: seq<int>, names: seq<string>, fit: (seq<Vec>, seq<Vec>) -> Sim, ortho: Mat -> Mat,
                          median: seq<real> -> real)
    requires |vs| == |ps| == |vbone| && |wa| == |parent| && |ps| > 0
  {
    var sb := Measured(fit, vs, ps, vbone, |wa|);
    && Filled(w, sb, median(Scales(sb)), wa, parent, ortho)
    && |prof.pose| == |w|
    && (forall b :: 0 <= b < |w| ==> prof.pose[b] == PoseOf(w, wa, parent, ortho, b))
    && prof == ProfileOf(names, prof.pose, ps)
  }

  /** `learn`; `None` when the posed points do not correspond or nothing was measured. */
  method Learn(vs: seq<Vec>, vbone: seq<nat>, ps: seq<Vec>, pb: seq<nat>, wa: seq<Frame>, parent: seq<int>,
               names: seq<string>, fit: (seq<Vec>, seq<Vec>) -> Sim, ortho: Mat -> Mat, median: seq<real> -> real)
    returns (r: Option<Profile>, ghost w: seq<Frame>)
    requires |vs| == |vbone| && |ps| == |pb| && |wa| == |parent| == |names| && Ordered(parent)
    ensures r.None? <==> vbone != pb || ps == [] || median(Scales(Measured(fit, vs, ps, vbone, |wa|))) == 0.0
    ensures r.Some? ==> Learned(r.value, w, vs, ps, vbone, wa, parent, names, fit, ortho, median)
  {
    hide Filled, PoseOf;
    w := [];
    if |vs| != |ps| || vbone != pb { return None, w; }
    if ps == [] { return None, w; }
    var sb := Measured(fit, vs, ps, vbone, |wa|);
    var scale := median(Scales(sb));
    if scale == 0.0 { return None, w; }
    var frames := FillFrames(sb, scale, wa, parent, ortho);
    FilledSizes(frames, sb, scale, wa, parent, ortho);
    var pose: seq<Frame> := [];
    var b := 0;
    while b < |frames|
      invariant 0 <= b <= |frames| && |pose| == b
      invariant forall k :: 0 <= k < b ==> pose[k] == PoseOf(frames, wa, parent, ortho, k)
    {
      pose := pose + [PoseOf(frames, wa, parent, ortho, b)];
      b := b + 1;
    }
    w := frames;
    return Some(ProfileOf(names, pose, ps)), frames;
  }

  lemma FilledSizes(w: seq<Frame>, sb: seq<Option<Sim>>, scale: real, wa: seq<Frame>,
                    parent: seq<int>, ortho: Mat -> Mat)
    requires Filled(w, sb, scale, wa, parent, ortho)
    ensures |w| == |wa| == |parent| && forall b :: 0 <= b < |w| ==> parent[b] < |w|
  {
  }

  // ----- applying -----

  /** The profile's pose for a bone name: the last entry of that name, or the identity. */
  function Named(prof: Profile, name: string, n: nat): Frame
    requires n <= |prof.names| && n <= |prof.pose|
  {
    if n == 0 then HOME else if prof.names[n - 1] == name then prof.pose[n - 1] else Named(prof, name, n - 1)
  }

  function Entries(prof: Profile): nat { if |prof.names| < |prof.pose| then |prof.names| else |prof.pose| }

  function PosedFrame(w: seq<Frame>, wa: seq<Frame>, parent: seq<int>, pose: seq<Frame>, b: nat): Frame
    requires |w| == |wa| == |parent| == |pose| && b < |w| && parent[b] < |w|
  {
    if parent[b] < 0 then pose[b] else Comp(w[parent[b]], Comp(Rest(wa, parent, b), pose[b]))
  }

  ghost predicate Posed(w: seq<Frame>, wa: seq<Frame>, parent: seq<int>, pose: seq<Frame>) {
    && |w| == |wa| == |parent| == |pose|
    && forall b :: 0 <= b < |w| ==> parent[b] < |w| && w[b] == PosedFrame(w, wa, parent, pose, b)
  }

  /** A point carried by its bone from the rest pose to the new one. */
  function Carried(w: seq<Frame>, wa: seq<Frame>, b: nat, p: Vec): Vec
    requires b < |w| == |wa|
  {
    Act(w[b], Act(Inv(wa[b]), p))
  }

  function CarriedAll(w: seq<Frame>, wa: seq<Frame>, vs: seq<Vec>, vbone: seq<nat>): (us: seq<Vec>)
    requires |vs| == |vbone| && |w| == |wa| && forall i :: 0 <= i < |vbone| ==> vbone[i] < |w|
    ensures |us| == |vs|
  {
    seq(|vs|, i requires 0 <= i < |vs| => Carried(w, wa, vbone[i], vs[i]))
  }

  function ScaledAll(k: real, us: seq<Vec>): (r: seq<Vec>)
    ensures |r| == |us|
  {
    seq(|us|, i requires 0 <= i < |us| => Scale(k, us[i]))
  }

  /** Scaled to the profile's height, put on its foot, and centred. */
  function Place(us: seq<Vec>, prof: Profile): (r: seq<Vec>)
    requires |us| > 0 && Most(Zs(us)) - Least(Zs(us)) != 0.0
    ensures |r| == |us|
  {
    var ss := ScaledAll(prof.height / (Most(Zs(us)) - Least(Zs(us))), us);
    seq(|us|, i requires 0 <= i < |us| =>
      Vec(ss[i].x - Middle(Xs(ss)) + prof.centerX, ss[i].y - Middle(Ys(ss)) + prof.centerY,
          ss[i].z - Least(Zs(ss)) + prof.foot))
  }

  ghost predicate Applied(out: seq<Vec>, w: seq<Frame>, vs: seq<Vec>, vbone: seq<nat>, wa: seq<Frame>,
                          parent: seq<int>, prof: Profile, pose: seq<Frame>)
    requires |vs| == |vbone| && |wa| == |parent| && forall i :: 0 <= i < |vbone| ==> vbone[i] < |wa|
  {
    && Posed(w, wa, parent, pose)
    && var us := CarriedAll(w, wa, vs, vbone);
       |us| > 0 && Most(Zs(us)) - Least(Zs(us)) != 0.0 && out == Place(us, prof)
  }

  /** The roots before `k` and the other bones before `n` are posed. */
  ghost predicate PosedTo(w: seq<Frame>, wa: seq<Frame>, parent: seq<int>, pose: seq<Frame>, k: nat, n: nat) {
    && |w| == |wa| == |parent| == |pose| && Ordered(parent) && n <= k <= |w| && (n == 0 || k == |w|)
    && forall b :: 0 <= b < |w| && (if parent[b] < 0 then b < k else b < n) ==>
         w[b] == PosedFrame(w, wa, parent, pose, b)
  }

  lemma PoseOne(w: seq<Frame>, wa: seq<Frame>, parent: seq<int>, pose: seq<Frame>, n: nat)
    requires PosedTo(w, wa, parent, pose, |w|, n) && n < |w| && parent[n] >= 0
    ensures PosedTo(w[n := PosedFrame(w, wa, parent, pose, n)], wa, parent, pose, |w|, n + 1)
  {
    hide Comp, Rest;
    var v := w[n := PosedFrame(w, wa, parent, pose, n)];
    forall b | 0 <= b < |w| && (parent[b] < 0 || b < n + 1) ensures v[b] == PosedFrame(v, wa, parent, pose, b) {
      assert HangsWell(parent, b);
      if parent[b] >= 0 { assert v[parent[b]] == w[parent[b]]; }
    }
  }

  /** The replay along the skeleton: the roots first, then the other bones in order. */
  method PoseFrames(wa: seq<Frame>, parent: seq<int>, pose: seq<Frame>) returns (w: seq<Frame>)
    requires |wa| == |parent| == |pose| && Ordered(parent)
    ensures Posed(w, wa, parent, pose)
  {
    hide Comp, Rest, HangsWell;
    w := seq(|wa|, i => HOME);
    var k := 0;
    while k < |w|
      invariant 0 <= k <= |w| == |wa| && PosedTo(w, wa, parent, pose, k, 0)
    {
      if parent[k] < 0 { w := w[k := pose[k]]; }
      k := k + 1;
    }
    var b := 0;
    while b < |w|
      invariant 0 <= b <= |w| == |wa| && PosedTo(w, wa, parent, pose, |w|, b)
    {
      if parent[b] >= 0 {
        PoseOne(w, wa, parent, pose, b);
        w := w[b := PosedFrame(w, wa, parent, pose, b)];
      }
      b := b + 1;
    }
  }

  /** `_apply`: poses by bone name, frames, points, placement; `None` for no points or no height. */
  method Apply(vs: seq<Vec>, vbone: seq<nat>, wa: seq<Frame>, parent: seq<int>, prof: Profile, names: seq<string>)
    returns (r: Option<seq<Vec>>, ghost w: seq<Frame>)
    requires |vs| == |vbone| && |wa| == |parent| == |names| && Ordered(parent)
    requires forall i :: 0 <= i < |vbone| ==> vbone[i] < |wa|
    ensures Posed(w, wa, parent, PoseByName(prof, names))
    ensures r.None? <==>
      vs == [] || (var us := CarriedAll(w, wa, vs, vbone); |us| > 0 && Most(Zs(us)) == Least(Zs(us)))
    ensures r.Some? ==> Applied(r.value, w, vs, vbone, wa, parent, prof, PoseByName(prof, names))
  {
    hide Posed, Place, Carried;
    var pose := PoseByName(prof, names);
    var frames := PoseFrames(wa, parent, pose);
    w := frames;
    PosedSizes(frames, wa, parent, pose);
    if vs == [] { return None, w; }
    var us: seq<Vec> := [];
    var i := 0;
    while i < |vs|
      invariant 0 <= i <= |vs| && |us| == i
      invariant forall k :: 0 <= k < i ==> us[k] == Carried(frames, wa, vbone[k], vs[k])
    {
      us := us + [Carried(frames, wa, vbone[i], vs[i])];
      i := i + 1;
    }
    assert us == CarriedAll(frames, wa, vs, vbone);
    if Most(Zs(us)) == Least(Zs(us)) { return None, w; }
    return Some(Place(us, prof)), w;
  }

  function PoseByName(prof: Profile, names: seq<string>): (pose: seq<Frame>)
    ensures |pose| == |names|
  {
    seq(|names|, b requires 0 <= b < |names| => Named(prof, names[b], Entries(prof)))
  }

  lemma PosedSizes(w: seq<Frame>, wa: seq<Frame>, parent: seq<int>, pose: seq<Frame>)
    requires Posed(w, wa, parent, pose)
    ensures |w| == |wa|
  {
  }

  // ----- what learning recovers -----

  /** The posed points are per-bone rotations and translations of the rest points, at one scale. */
  ghost predicate RigidImages(vs: seq<Vec>, ps: seq<Vec>, vbone: seq<nat>, truth: seq<Sim>, c: real) {
    && |vs| == |ps| == |vbone| && c > 0.0
    && (forall b :: 0 <= b < |truth| ==> truth[b].s == c && IsRotation(truth[b].m))
    && (forall i :: 0 <= i < |vs| ==> vbone[i] < |truth| && ps[i] == SimAct(truth[vbone[i]], vs[i]))
  }

  /** Every bone with vertices has at least three, in general position. */
  ghost predicate WellCovered(vs: seq<Vec>, vbone: seq<nat>, nb: nat)
    requires |vs| == |vbone|
  {
    forall b :: 0 <= b < nb ==>
      var xs := PointsOf(vs, vbone, b, |vs|); xs == [] || (|xs| >= 3 && Spanning(xs))
  }

  lemma {:induction false} PointsAreImages(vs: seq<Vec>, ps: seq<Vec>, vbone: seq<nat>, f: Sim, b: nat, n: nat)
    requires |vs| == |ps| == |vbone| && n <= |vs|
    requires forall i :: 0 <= i < n && vbone[i] == b ==> ps[i] == SimAct(f, vs[i])
    ensures IsImage(PointsOf(vs, vbone, b, n), PointsOf(ps, vbone, b, n), f)
  {
    hide SimAct;
    if n > 0 { PointsAreImages(vs, ps, vbone, f, b, n - 1); }
  }

  /** Every bone that is measured is measured right. */
  lemma MeasuresTruth(fit: (seq<Vec>, seq<Vec>) -> Sim, vs: seq<Vec>, ps: seq<Vec>, vbone: seq<nat>,
                      truth: seq<Sim>, c: real, b: nat)
    requires FitsExactly(fit) && RigidImages(vs, ps, vbone, truth, c) && WellCovered(vs, vbone, |truth|) && b < |truth|
    ensures Measure(fit, vs, ps, vbone, b).Some? ==> Measure(fit, vs, ps, vbone, b) == Some(truth[b])
    ensures Measure(fit, vs, ps, vbone, b).Some? <==> PointsOf(vs, vbone, b, |vs|) != []
  {
    hide Spanning, SimAct, IsRotation;
    PointsAreImages(vs, ps, vbone, truth[b], b, |vs|);
    var xs, ys := PointsOf(vs, vbone, b, |vs|), PointsOf(ps, vbone, b, |ps|);
    assert IsImage(xs, ys, truth[b]);
  }

  lemma {:induction false} ScalesAre(sb: seq<Option<Sim>>, c: real)
    requires forall b :: 0 <= b < |sb| && sb[b].Some? ==> sb[b].value.s == c
    ensures forall i :: 0 <= i < |Scales(sb)| ==> Scales(sb)[i] == c
    ensures (exists b :: 0 <= b < |sb| && sb[b].Some?) ==> |Scales(sb)| > 0
  {
    if sb != [] { ScalesAre(sb[..|sb| - 1], c); }
  }

  lemma {:induction false} HasPoint(vs: seq<Vec>, vbone: seq<nat>, b: nat, n: nat, i: nat)
    requires |vs| == |vbone| && i < n <= |vs| && vbone[i] == b
    ensures PointsOf(vs, vbone, b, n) != []
  {
    if i < n - 1 { HasPoint(vs, vbone, b, n - 1, i); }
  }

  /** The bones' measured frames at unit scale. */
  function Unit(f: Sim): Frame
    requires f.s != 0.0
  {
    Frame(f.m, Scale(1.0 / f.s, f.t))
  }

  lemma UnitFrameIs(f: Sim, wa: Frame)
    requires f.s > 0.0
    ensures UnitFrame(f, f.s, wa) == Comp(Unit(f), wa)
  {
    hide Comp, Scale;
    assert f.s / f.s == 1.0;
    ScaleUnits(0.0, f.m.a);
    ScaleUnits(0.0, f.m.b);
    ScaleUnits(0.0, f.m.c);
  }

  /** A posed point is the common scale times its unit-scale image. */
  lemma ScaledImage(f: Sim, v: Vec)
    requires f.s > 0.0
    ensures SimAct(f, v) == Scale(f.s, Act(Unit(f), v))
  {
    hide MulV, Add, Scale, Times;
    ScaleAdd(f.s, MulV(f.m, v), Scale(1.0 / f.s, f.t));
    ScaleScale(f.s, 1.0 / f.s, f.t);
    assert Times(f.s, 1.0 / f.s) == 1.0 by { Reciprocal(f.s); }
    ScaleUnits(0.0, f.t);
  }

  lemma Reciprocal(c: real)
    requires c > 0.0
    ensures Times(c, 1.0 / c) == 1.0
  {
  }

  // ----- every learned frame is rigid -----

  ghost predicate AllRigid(fs: seq<Frame>) { forall b :: 0 <= b < |fs| ==> IsRigid(fs[b]) }

  /** What the learned frames are built from, once the fit is exact. */
  ghost predicate Exact(w: seq<Frame>, sb: seq<Option<Sim>>, truth: seq<Sim>, c: real, wa: seq<Frame>,
                        parent: seq<int>, ortho: Mat -> Mat)
  {
    && Filled(w, sb, c, wa, parent, ortho) && Ordered(parent) && AllRigid(wa) && KeepsRotations(ortho)
    && |truth| == |w| && c > 0.0
    && (forall b :: 0 <= b < |w| ==> truth[b].s == c && IsRotation(truth[b].m))
    && (forall b :: 0 <= b < |w| && sb[b].Some? ==> sb[b] == Some(truth[b]))
  }

  lemma RestIsRigid(wa: seq<Frame>, parent: seq<int>, b: nat)
    requires AllRigid(wa) && b < |wa| == |parent| && 0 <= parent[b] < |wa|
    ensures IsRigid(Rest(wa, parent, b))
  {
    hide IsRigid, Comp, Inv;
    InvIsRigid(wa[parent[b]]);
    CompIsRigid(Inv(wa[parent[b]]), wa[b]);
  }

  lemma UnitIsRigid(f: Sim, wa: Frame)
    requires f.s > 0.0 && IsRotation(f.m) && IsRigid(wa)
    ensures IsRigid(UnitFrame(f, f.s, wa)) && UnitFrame(f, f.s, wa) == Comp(Unit(f), wa)
  {
    hide IsRotation, Comp, UnitFrame;
    UnitFrameIs(f, wa);
    CompIsRigid(Unit(f), wa);
  }

  lemma RootIsRigid(w: seq<Frame>, sb: seq<Option<Sim>>, truth: seq<Sim>, c: real, wa: seq<Frame>, parent: seq<int>,
                    ortho: Mat -> Mat, root: nat)
    requires Exact(w, sb, truth, c, wa, parent, ortho) && root < |w| && parent[root] < 0
    ensures IsRigid(w[root])
  {
    hide IsRotation, Comp, UnitFrame;
    if sb[root].Some? {
      UnitIsRigid(truth[root], wa[root]);
    } else {
      var ch := FirstChild(parent, sb, root, 0);
      if ch.Some? {
        UnitIsRigid(truth[ch.value], wa[ch.value]);
      }
      IdIsRotation();
    }
  }

  /** Down the skeleton: the roots, then the bones behind their parents. */
  lemma {:induction false} FrameIsRigid(w: seq<Frame>, sb: seq<Option<Sim>>, truth: seq<Sim>, c: real, wa: seq<Frame>,
                                        parent: seq<int>, ortho: Mat -> Mat, b: nat)
    requires Exact(w, sb, truth, c, wa, parent, ortho) && b < |w|
    ensures IsRigid(w[b])
    decreases Depth(parent, b)
  {
    hide IsRotation, Comp, UnitFrame, Rest, HangsWell;
    if parent[b] < 0 {
      RootIsRigid(w, sb, truth, c, wa, parent, ortho, b);
    } else if sb[b].Some? {
      UnitIsRigid(truth[b], wa[b]);
    } else {
      ParentIsHigher(parent, b);
      FrameIsRigid(w, sb, truth, c, wa, parent, ortho, parent[b]);
      RestIsRigid(wa, parent, b);
      CompIsRigid(w[parent[b]], Rest(wa, parent, b));
    }
  }

  // ----- replaying the deltas -----

  /** A shift without rotation. */
  function Shift(d: Vec): Frame { Frame(ID, d) }

  lemma ShiftActs(d: Vec, p: Vec)
    ensures Act(Shift(d), p) == Add(p, d)
  {
    MulVId(p);
    hide MulV;
  }

  lemma ShiftedRoot(f: Frame)
    ensures Comp(Shift(Neg(f.t)), f) == Frame(f.m, ZERO)
  {
    MulId(f.m);
    MulVId(f.t);
    hide MulV, Mul;
  }

  /** The delta of a bone between rigid frames is rigid, and the nearest rotation leaves it alone. */
  lemma PoseIsDelta(w: seq<Frame>, wa: seq<Frame>, parent: seq<int>, ortho: Mat -> Mat, b: nat)
    requires |w| == |wa| == |parent| && b < |w| && 0 <= parent[b] < |w|
    requires KeepsRotations(ortho) && IsRigid(w[b]) && IsRigid(w[parent[b]]) && AllRigid(wa)
    ensures PoseOf(w, wa, parent, ortho, b) == Comp(Inv(Rest(wa, parent, b)), Comp(Inv(w[parent[b]]), w[b]))
  {
    var r := Rest(wa, parent, b);
    var d := Comp(Inv(r), Comp(Inv(w[parent[b]]), w[b]));
    assert IsRotation(d.m) by {
      hide IsRotation, Comp, Inv, Rest;
      RestIsRigid(wa, parent, b);
      InvIsRigid(r);
      InvIsRigid(w[parent[b]]);
      CompIsRigid(Inv(w[parent[b]]), w[b]);
      CompIsRigid(Inv(r), Comp(Inv(w[parent[b]]), w[b]));
    }
    hide IsRotation, Comp, Inv, Rest;
  }

  lemma RootPose(w: seq<Frame>, wa: seq<Frame>, parent: seq<int>, ortho: Mat -> Mat, root: nat)
    requires |w| == |wa| == |parent| && root < |w| && parent[root] < 0 && KeepsRotations(ortho) && IsRigid(w[root])
    ensures PoseOf(w, wa, parent, ortho, root) == Frame(w[root].m, ZERO)
  {
    hide IsRotation;
  }

  /** Rest frame times delta is the learned frame relative to its parent. */
  lemma DeltaTelescopes(t: Frame, wp: Frame, rest: Frame, wb: Frame)
    requires IsRigid(wp) && IsRigid(rest)
    ensures Comp(Comp(t, wp), Comp(rest, Comp(Inv(rest), Comp(Inv(wp), wb)))) == Comp(t, wb)
  {
    hide Comp, Inv, IsRigid;
    CompCancels(rest, Comp(Inv(wp), wb));
    CompAssoc(t, wp, Comp(Inv(wp), wb));
    CompCancels(wp, wb);
  }

  ghost predicate PosesAre(pose: seq<Frame>, w: seq<Frame>, wa: seq<Frame>, parent: seq<int>, ortho: Mat -> Mat)
    requires |w| == |wa| == |parent|
  {
    |pose| == |w| && forall b :: 0 <= b < |w| ==> parent[b] < |w| && pose[b] == PoseOf(w, wa, parent, ortho, b)
  }

  /** The replayed frames are the learned ones, shifted so that the bone's root stands at the origin. */
  lemma {:induction false} ReplayIsShifted(v: seq<Frame>, w: seq<Frame>, sb: seq<Option<Sim>>, truth: seq<Sim>, c: real,
                                           wa: seq<Frame>, parent: seq<int>, ortho: Mat -> Mat,
                                           pose: seq<Frame>, b: nat)
    requires Exact(w, sb, truth, c, wa, parent, ortho) && b < |w|
    requires PosesAre(pose, w, wa, parent, ortho) && Posed(v, wa, parent, pose)
    ensures v[b] == Comp(Shift(Neg(w[RootOf(parent, b)].t)), w[b])
    decreases Depth(parent, b)
  {
    hide FrameOf, Comp, PoseOf, Rest, IsRigid, Shift, HangsWell;
    FrameIsRigid(w, sb, truth, c, wa, parent, ortho, b);
    if parent[b] < 0 {
      RootPose(w, wa, parent, ortho, b);
      ShiftedRoot(w[b]);
    } else {
      var pa := parent[b];
      ParentIsHigher(parent, b);
      ReplayIsShifted(v, w, sb, truth, c, wa, parent, ortho, pose, pa);
      FrameIsRigid(w, sb, truth, c, wa, parent, ortho, pa);
      PoseIsDelta(w, wa, parent, ortho, b);
      RestIsRigid(wa, parent, b);
      DeltaTelescopes(Shift(Neg(w[RootOf(parent, b)].t)), w[pa], Rest(wa, parent, b), w[b]);
    }
  }

  /** A carried point of a measured bone: its unit-scale image, shifted. */
  lemma CarriedPoint(v: seq<Frame>, wa: seq<Frame>, b: nat, d: Vec, u: Frame, p: Vec)
    requires b < |v| == |wa| && IsRigid(wa[b]) && v[b] == Comp(Shift(d), Comp(u, wa[b]))
    ensures Carried(v, wa, b, p) == Add(Act(u, p), d)
  {
    hide Comp, Inv, IsRigid, Shift, Add, Act;
    var q := Act(Inv(wa[b]), p);
    CompActs(Shift(d), Comp(u, wa[b]), q);
    CompActs(u, wa[b], q);
    ActInv(wa[b], p);
    ShiftActs(d, Act(u, p));
  }

  /** Every posed point is the common scale times the carried point moved back. */
  lemma CarriedIsScaledDown(v: seq<Frame>, w: seq<Frame>, sb: seq<Option<Sim>>, truth: seq<Sim>, c: real,
                            wa: seq<Frame>, parent: seq<int>, ortho: Mat -> Mat, pose: seq<Frame>, b: nat, p: Vec)
    requires Exact(w, sb, truth, c, wa, parent, ortho) && b < |w| && sb[b].Some?
    requires PosesAre(pose, w, wa, parent, ortho) && Posed(v, wa, parent, pose)
    ensures SimAct(truth[b], p) == Scale(c, Add(Carried(v, wa, b, p), w[RootOf(parent, b)].t))
  {
    hide Comp, IsRigid, Shift, Act, SimAct, Carried, PosesAre, Scale, Unit, HangsWell;
    var t := w[RootOf(parent, b)].t;
    var d := Neg(t);
    ReplayIsShifted(v, w, sb, truth, c, wa, parent, ortho, pose, b);
    UnitIsRigid(truth[b], wa[b]);
    CarriedPoint(v, wa, b, d, Unit(truth[b]), p);
    ScaledImage(truth[b], p);
    AddBack(Act(Unit(truth[b]), p), t);
  }

  lemma AddBack(u: Vec, t: Vec)
    ensures Add(Add(u, Neg(t)), t) == u
  {
  }

  // ----- placement -----

  lemma {:induction false} ShiftedExtremes(xs: seq<real>, ys: seq<real>, d: real)
    requires |xs| == |ys| > 0 && forall i :: 0 <= i < |xs| ==> ys[i] == xs[i] + d
    ensures Most(ys) == Most(xs) + d && Least(ys) == Least(xs) + d && Middle(ys) == Middle(xs) + d
  {
    if |xs| > 1 { ShiftedExtremes(xs[..|xs| - 1], ys[..|ys| - 1], d); }
  }

  lemma TimesOrder(c: real, a: real, b: real)
    requires c > 0.0
    ensures Times(c, a) < Times(c, b) <==> a < b
  {
    if a < b { Grows(c, a, b); }
    if b < a { Grows(c, b, a); }
  }

  lemma Grows(c: real, a: real, b: real)
    requires c > 0.0 && a < b
    ensures Times(c, a) < Times(c, b)
  {
    TimesMinus(b, a, c);
    assert Times(c, b - a) > 0.0 by { PositiveProduct(c, b - a); }
    hide Times;
  }

  lemma PositiveProduct(c: real, d: real)
    requires c > 0.0 && d > 0.0
    ensures Times(c, d) > 0.0
  {
  }

  lemma {:induction false} ScaledExtremes(xs: seq<real>, ys: seq<real>, c: real)
    requires |xs| == |ys| > 0 && c > 0.0 && forall i :: 0 <= i < |xs| ==> ys[i] == Times(c, xs[i])
    ensures Most(ys) == Times(c, Most(xs)) && Least(ys) == Times(c, Least(xs))
  {
    hide Times;
    if |xs| > 1 {
      var last := xs[|xs| - 1];
      ScaledExtremes(xs[..|xs| - 1], ys[..|ys| - 1], c);
      TimesOrder(c, last, Least(xs[..|xs| - 1]));
      TimesOrder(c, Most(xs[..|xs| - 1]), last);
    }
  }

  function Height(ps: seq<Vec>): real
    requires |ps| > 0
  {
    Most(Zs(ps)) - Least(Zs(ps))
  }

  lemma ScaledHeight(us: seq<Vec>, c: real)
    requires |us| > 0 && c > 0.0
    ensures Height(ScaledAll(c, us)) == Times(c, Height(us))
  {
    hide Times, Most, Least;
    ScaledExtremes(Zs(us), Zs(ScaledAll(c, us)), c);
    TimesMinus(Most(Zs(us)), Least(Zs(us)), c);
  }

  ghost predicate ShiftedBy(ps: seq<Vec>, ss: seq<Vec>, d: Vec) {
    |ps| == |ss| > 0 && forall i :: 0 <= i < |ps| ==> ps[i] == Add(ss[i], d)
  }

  lemma ShiftedMeasures(ps: seq<Vec>, ss: seq<Vec>, d: Vec)
    requires ShiftedBy(ps, ss, d)
    ensures Height(ps) == Height(ss) && Least(Zs(ps)) == Least(Zs(ss)) + d.z
    ensures Middle(Xs(ps)) == Middle(Xs(ss)) + d.x && Middle(Ys(ps)) == Middle(Ys(ss)) + d.y
  {
    hide Most, Least, Middle;
    ShiftedExtremes(Xs(ss), Xs(ps), d.x);
    ShiftedExtremes(Ys(ss), Ys(ps), d.y);
    ShiftedExtremes(Zs(ss), Zs(ps), d.z);
  }

  lemma QuotientBack(c: real, h: real)
    requires h != 0.0
    ensures Times(c, h) / h == c
  {
  }

  /** Placing by the target's measures undoes any scaling and shift. */
  lemma PlacementRecovers(us: seq<Vec>, ps: seq<Vec>, c: real, t: Vec, prof: Profile)
    requires |us| == |ps| > 0 && c > 0.0 && forall i :: 0 <= i < |us| ==> ps[i] == Scale(c, Add(us[i], t))
    requires Height(ps) != 0.0 && prof == ProfileOf(prof.names, prof.pose, ps)
    ensures Height(us) != 0.0 && Place(us, prof) == ps
  {
    hide Scale, Times, Most, Least, Middle;
    var ss, d := ScaledAll(c, us), Scale(c, t);
    forall i | 0 <= i < |ps| ensures ps[i] == Add(ss[i], d) { ScaleAdd(c, us[i], t); }
    ShiftedMeasures(ps, ss, d);
    ScaledHeight(us, c);
    TimesUnits(c);
    QuotientBack(c, Height(us));
    forall i | 0 <= i < |ps| ensures Place(us, prof)[i] == ps[i] {}
  }

  // ----- names -----

  ghost predicate DistinctNames(names: seq<string>) {
    forall a, b :: 0 <= a < b < |names| ==> names[a] != names[b]
  }

  lemma {:induction false} NamedFinds(prof: Profile, b: nat, n: nat)
    requires |prof.names| == |prof.pose| && b < n <= |prof.names| && DistinctNames(prof.names)
    ensures Named(prof, prof.names[b], n) == prof.pose[b]
  {
    if b < n - 1 { NamedFinds(prof, b, n - 1); }
  }

  lemma OwnNames(prof: Profile)
    requires |prof.names| == |prof.pose| && DistinctNames(prof.names)
    ensures PoseByName(prof, prof.names) == prof.pose
  {
    forall b: nat | b < |prof.names| ensures PoseByName(prof, prof.names)[b] == prof.pose[b] {
      NamedFinds(prof, b, |prof.names|);
    }
  }

  // ----- learn, then apply -----

  /** The posed model meets the conditions under which a profile reproduces it. */
  ghost predicate Posable(vs: seq<Vec>, ps: seq<Vec>, vbone: seq<nat>, wa: seq<Frame>, parent: seq<int>,
                          names: seq<string>, truth: seq<Sim>, c: real)
  {
    && |vs| == |ps| == |vbone| && |ps| > 0 && Height(ps) != 0.0
    && |wa| == |parent| == |names| == |truth| && Ordered(parent) && AllRigid(wa) && DistinctNames(names)
    && RigidImages(vs, ps, vbone, truth, c) && WellCovered(vs, vbone, |truth|)
  }

  /** The fit finds the true similarities and so the common scale. */
  lemma LearnsTruth(vs: seq<Vec>, ps: seq<Vec>, vbone: seq<nat>, wa: seq<Frame>, parent: seq<int>,
                    names: seq<string>, truth: seq<Sim>, c: real, fit: (seq<Vec>, seq<Vec>) -> Sim,
                    median: seq<real> -> real)
    requires Posable(vs, ps, vbone, wa, parent, names, truth, c) && FitsExactly(fit) && MedianOfEqual(median)
    ensures var sb := Measured(fit, vs, ps, vbone, |wa|);
      && median(Scales(sb)) == c
      && (forall b :: 0 <= b < |wa| && sb[b].Some? ==> sb[b] == Some(truth[b]))
      && (forall i :: 0 <= i < |vs| ==> vbone[i] < |wa| && sb[vbone[i]].Some?)
  {
    hide Measure, FitsExactly, WellCovered, SimAct, IsRotation, Spanning, Height, Scales, AllRigid;
    var sb := Measured(fit, vs, ps, vbone, |wa|);
    forall b: nat | b < |wa| && sb[b].Some? ensures sb[b] == Some(truth[b]) {
      MeasuresTruth(fit, vs, ps, vbone, truth, c, b);
    }
    forall i: nat | i < |vs| ensures vbone[i] < |wa| && sb[vbone[i]].Some? {
      MeasuresTruth(fit, vs, ps, vbone, truth, c, vbone[i]);
      HasPoint(vs, vbone, vbone[i], |vs|, i);
    }
    ScalesAre(sb, c);
    assert sb[vbone[0]].Some?;
    assert AllAre(Scales(sb), c);
  }

  /** The roots above the bones with vertices were learned at one place, so replay shifts them alike. */
  ghost predicate ShiftedAlike(w: seq<Frame>, parent: seq<int>, vbone: seq<nat>)
    requires Ordered(parent) && |w| == |parent| && forall i :: 0 <= i < |vbone| ==> vbone[i] < |parent|
  {
    forall i, j :: 0 <= i < |vbone| && 0 <= j < |vbone| ==>
      w[RootOf(parent, vbone[i])].t == w[RootOf(parent, vbone[j])].t
  }

  /**
   * Learn then apply is the identity: a profile learned from a posed model, applied to the same
   * model at rest, gives back exactly the posed points.
   */
  lemma LearnThenApply(vs: seq<Vec>, ps: seq<Vec>, vbone: seq<nat>, wa: seq<Frame>, parent: seq<int>,
                       names: seq<string>, truth: seq<Sim>, c: real, fit: (seq<Vec>, seq<Vec>) -> Sim,
                       ortho: Mat -> Mat, median: seq<real> -> real, prof: Profile, w: seq<Frame>, v: seq<Frame>)
    requires Posable(vs, ps, vbone, wa, parent, names, truth, c)
    requires FitsExactly(fit) && KeepsRotations(ortho) && MedianOfEqual(median)
    requires Learned(prof, w, vs, ps, vbone, wa, parent, names, fit, ortho, median)
    requires Posed(v, wa, parent, PoseByName(prof, names)) && ShiftedAlike(w, parent, vbone)
    ensures var us := CarriedAll(v, wa, vs, vbone); Height(us) != 0.0 && Place(us, prof) == ps
  {
    hide Place, Carried, SimAct, Scale, Add, Height, FitsExactly, KeepsRotations, MedianOfEqual, WellCovered,
      DistinctNames, FrameOf, PoseOf, PosedFrame, AllRigid, IsRotation, Measured, Scales, HangsWell;
    LearnsTruth(vs, ps, vbone, wa, parent, names, truth, c, fit, median);
    OwnNames(prof);
    var sb := Measured(fit, vs, ps, vbone, |wa|);
    var us := CarriedAll(v, wa, vs, vbone);
    var t := w[RootOf(parent, vbone[0])].t;
    forall i | 0 <= i < |us| ensures ps[i] == Scale(c, Add(us[i], t)) {
      CarriedIsScaledDown(v, w, sb, truth, c, wa, parent, ortho, prof.pose, vbone[i], vs[i]);
      assert w[RootOf(parent, vbone[i])].t == t;
    }
    PlacementRecovers(us, ps, c, t, prof);
  }

  /** All bones with vertices hang off one root. */
  ghost predicate OneRoot(parent: seq<int>, vbone: seq<nat>)
    requires Ordered(parent) && forall i :: 0 <= i < |vbone| ==> vbone[i] < |parent|
  {
    forall i, j :: 0 <= i < |vbone| && 0 <= j < |vbone| ==> RootOf(parent, vbone[i]) == RootOf(parent, vbone[j])
  }

  /** The self-validation at the end of `learn`: the rebuilt points are the posed ones. */
  method SelfValidate(vs: seq<Vec>, vbone: seq<nat>, ps: seq<Vec>, wa: seq<Frame>, parent: seq<int>,
                      names: seq<string>, fit: (seq<Vec>, seq<Vec>) -> Sim, ortho: Mat -> Mat,
                      median: seq<real> -> real, ghost truth: seq<Sim>, ghost c: real)
    returns (out: Option<seq<Vec>>)
    requires Posable(vs, ps, vbone, wa, parent, names, truth, c) && OneRoot(parent, vbone)
    requires FitsExactly(fit) && KeepsRotations(ortho) && MedianOfEqual(median)
    ensures out == Some(ps)
  {
    hide Place, Carried, SimAct, FitsExactly, KeepsRotations, MedianOfEqual, WellCovered, DistinctNames, AllRigid,
      IsRotation, Measured, Scales, Posed, Spanning, Most, Least, HangsWell;
    LearnsTruth(vs, ps, vbone, wa, parent, names, truth, c, fit, median);
    var prof, w := Learn(vs, vbone, ps, vbone, wa, parent, names, fit, ortho, median);
    var again, v := Apply(vs, vbone, wa, parent, prof.value, names);
    LearnThenApply(vs, ps, vbone, wa, parent, names, truth, c, fit, ortho, median, prof.value, w, v);
    return again;
  }
}
