/**
 * `resolve_bone_targets` of tools/client_model/ue_cook.py: every bone goes to its own target, or
 * to that of its nearest ancestor that has one, or to the fallback.
 */
module BoneTargets {
  import opened Results

  /** How a bone found its target. */
  datatype How = Direct | Ancestor(bone: nat) | Miss

  /** Parents are other bones or negative, and following them ends. */
  ghost predicate IsForest(parent: seq<int>, rank: seq<nat>) {
    && |rank| == |parent|
    && forall i :: 0 <= i < |parent| && parent[i] >= 0 ==> parent[i] < |parent| && rank[parent[i]] < rank[i]
  }

  /** The bone `k` steps up from `i`, if the chain is that long. */
  function Up(parent: seq<int>, i: int, k: nat): int {
    if k == 0 then i
    else
      var j := Up(parent, i, k - 1);
      if 0 <= j < |parent| then parent[j] else -1
  }

  predicate Mapped(direct: seq<Option<string>>, j: int) { 0 <= j < |direct| && direct[j].Some? }

  /** `bone` is the first mapped one strictly above `i`. */
  ghost predicate IsNearest(direct: seq<Option<string>>, parent: seq<int>, i: nat, bone: nat) {
    exists k :: IsNearestAt(direct, parent, i, bone, k)
  }

  ghost predicate IsNearestAt(direct: seq<Option<string>>, parent: seq<int>, i: nat, bone: nat, k: int) {
    && 1 <= k && Up(parent, i, k) == bone && Mapped(direct, bone)
    && forall m :: 1 <= m < k ==> !Mapped(direct, Up(parent, i, m))
  }

  /** The target and how it was found are the ones the rule asks for. */
  ghost predicate Resolved(direct: seq<Option<string>>, parent: seq<int>, fallback: string, i: nat,
                           target: string, how: How) {
    match how
    case Direct => Mapped(direct, i) && target == direct[i].value
    case Ancestor(j) => !Mapped(direct, i) && IsNearest(direct, parent, i, j) && target == direct[j].value
    case Miss => target == fallback && forall m: nat :: !Mapped(direct, Up(parent, i, m))
  }

  /** The climb from an unmapped bone. */
  method Climb(direct: seq<Option<string>>, parent: seq<int>, i: nat, ghost rank: seq<nat>) returns (j: int)
    requires |direct| == |parent| && i < |parent| && !Mapped(direct, i) && IsForest(parent, rank)
    ensures j >= 0 ==> IsNearest(direct, parent, i, j)
    ensures j < 0 ==> forall m: nat :: !Mapped(direct, Up(parent, i, m))
  {
    j := parent[i];
    ghost var k := 1;
    while j >= 0 && direct[j].None?
      invariant k >= 1 && j == Up(parent, i, k) && j < |parent|
      invariant forall m :: 0 <= m < k ==> !Mapped(direct, Up(parent, i, m))
      decreases if j >= 0 then rank[j] + 1 else 0
    {
      assert Up(parent, i, k + 1) == parent[j];
      j := parent[j];
      k := k + 1;
    }
    if j >= 0 {
      assert IsNearestAt(direct, parent, i, j, k);
    } else {
      forall m: nat ensures !Mapped(direct, Up(parent, i, m)) {
        if m >= k { StaysOut(parent, i, k, m); }
      }
    }
  }

  lemma {:induction false} StaysOut(parent: seq<int>, i: int, k: nat, m: nat)
    requires k <= m && Up(parent, i, k) < 0
    ensures Up(parent, i, m) < 0
  {
    if k < m { StaysOut(parent, i, k, m - 1); }
  }

  /** Every bone's target, aligned with the bones. */
  method ResolveTargets(direct: seq<Option<string>>, parent: seq<int>, fallback: string, ghost rank: seq<nat>)
    returns (targets: seq<string>, hows: seq<How>)
    requires |direct| == |parent| && IsForest(parent, rank)
    ensures |targets| == |hows| == |direct|
    ensures forall i :: 0 <= i < |direct| ==> Resolved(direct, parent, fallback, i, targets[i], hows[i])
  {
    hide IsNearest;
    targets, hows := [], [];
    for i := 0 to |direct|
      invariant |targets| == |hows| == i
      invariant forall k :: 0 <= k < i ==> Resolved(direct, parent, fallback, k, targets[k], hows[k])
    {
      if direct[i].Some? {
        targets, hows := targets + [direct[i].value], hows + [Direct];
      } else {
        var j := Climb(direct, parent, i, rank);
        if j >= 0 {
          NearestIsMapped(direct, parent, i, j);
          targets, hows := targets + [direct[j].value], hows + [Ancestor(j)];
        } else {
          targets, hows := targets + [fallback], hows + [Miss];
        }
      }
    }
  }

  lemma NearestIsMapped(direct: seq<Option<string>>, parent: seq<int>, i: nat, j: nat)
    requires IsNearest(direct, parent, i, j)
    ensures Mapped(direct, j)
  {
  }

  lemma FirstIsFirst(direct: seq<Option<string>>, parent: seq<int>, i: nat, a: nat, k: int, b: nat, l: int)
    requires IsNearestAt(direct, parent, i, a, k) && IsNearestAt(direct, parent, i, b, l)
    ensures k <= l
  {
  }

  lemma NearestUnique(direct: seq<Option<string>>, parent: seq<int>, i: nat, a: nat, b: nat)
    requires IsNearest(direct, parent, i, a) && IsNearest(direct, parent, i, b)
    ensures a == b
  {
    var k :| IsNearestAt(direct, parent, i, a, k);
    var l :| IsNearestAt(direct, parent, i, b, l);
    FirstIsFirst(direct, parent, i, a, k, b, l);
    FirstIsFirst(direct, parent, i, b, l, a, k);
  }

  /** The rule leaves no choice. */
  lemma ResolutionIsUnique(direct: seq<Option<string>>, parent: seq<int>, fallback: string, i: nat,
                           t: string, how: How, u: string, other: How)
    requires Resolved(direct, parent, fallback, i, t, how) && Resolved(direct, parent, fallback, i, u, other)
    ensures t == u && how == other
  {
    if how.Ancestor? && other.Ancestor? { NearestUnique(direct, parent, i, how.bone, other.bone); }
    assert Up(parent, i, 0) == i;
  }

  // ----- said of paths -----

  /** A walk up the skeleton from `i`: each bone is followed by its parent. */
  ghost predicate IsPath(parent: seq<int>, i: nat, path: seq<nat>) {
    && |path| > 0 && path[0] == i && (forall k :: 0 <= k < |path| ==> path[k] < |parent|)
    && forall k :: 0 <= k < |path| - 1 ==> parent[path[k]] == path[k + 1]
  }

  lemma UpIsPath(parent: seq<int>, i: nat, n: nat) returns (path: seq<nat>)
    requires i < |parent| && forall m :: 0 <= m < n ==> 0 <= Up(parent, i, m) < |parent|
    requires n > 0
    ensures IsPath(parent, i, path) && |path| == n && forall m :: 0 <= m < n ==> path[m] == Up(parent, i, m)
  {
    path := seq(n, m requires 0 <= m < n => Up(parent, i, m));
    forall k | 0 <= k < n - 1 ensures parent[path[k]] == path[k + 1] {
      assert Up(parent, i, k + 1) == parent[Up(parent, i, k)];
    }
  }

  lemma {:induction false} UpStaysIn(parent: seq<int>, rank: seq<nat>, i: nat, k: nat)
    requires IsForest(parent, rank) && i < |parent| && 0 <= Up(parent, i, k)
    ensures forall m :: 0 <= m <= k ==> 0 <= Up(parent, i, m) < |parent|
  {
    if k > 0 {
      var j := Up(parent, i, k - 1);
      UpStaysIn(parent, rank, i, k - 1);
      assert Up(parent, i, k) == parent[j];
    }
  }

  /** A bone that follows an ancestor: the path to it has no mapped bone before its end. */
  lemma AncestorByPath(direct: seq<Option<string>>, parent: seq<int>, rank: seq<nat>, fallback: string, i: nat,
                       t: string, how: How) returns (path: seq<nat>)
    requires |direct| == |parent| && IsForest(parent, rank) && i < |parent|
    requires Resolved(direct, parent, fallback, i, t, how) && how.Ancestor?
    ensures IsPath(parent, i, path) && |path| >= 2
    ensures forall k :: 0 <= k < |path| - 1 ==> direct[path[k]].None?
    ensures direct[path[|path| - 1]] == Some(t) && how.bone == path[|path| - 1]
  {
    hide IsForest;
    var k :| IsNearestAt(direct, parent, i, how.bone, k);
    UpStaysIn(parent, rank, i, k);
    path := UpIsPath(parent, i, k + 1);
    forall m | 0 <= m < k ensures direct[path[m]].None? { assert m == 0 || !Mapped(direct, Up(parent, i, m)); }
  }

  /** A bone sent to the fallback: no bone on the whole way up to its root is mapped. */
  lemma MissByPath(direct: seq<Option<string>>, parent: seq<int>, rank: seq<nat>, fallback: string, i: nat,
                   t: string) returns (path: seq<nat>)
    requires |direct| == |parent| && IsForest(parent, rank) && i < |parent|
    requires Resolved(direct, parent, fallback, i, t, Miss)
    ensures t == fallback && IsPath(parent, i, path) && parent[path[|path| - 1]] < 0
    ensures forall k :: 0 <= k < |path| ==> direct[path[k]].None?
  {
    var n := WayUp(parent, rank, i, 0);
    path := UpIsPath(parent, i, n);
    forall m | 0 <= m < n ensures direct[path[m]].None? { assert !Mapped(direct, Up(parent, i, m)); }
    assert Up(parent, i, n) == parent[path[n - 1]];
  }

  lemma {:induction false} WayUp(parent: seq<int>, rank: seq<nat>, i: nat, k: nat) returns (n: nat)
    requires IsForest(parent, rank) && i < |parent| && forall m :: 0 <= m <= k ==> 0 <= Up(parent, i, m) < |parent|
    ensures n > 0 && Up(parent, i, n) < 0 && forall m :: 0 <= m < n ==> 0 <= Up(parent, i, m) < |parent|
    decreases rank[Up(parent, i, k)]
  {
    var j := Up(parent, i, k);
    assert Up(parent, i, k + 1) == parent[j];
    if parent[j] < 0 { n := k + 1; } else { n := WayUp(parent, rank, i, k + 1); }
  }
}
