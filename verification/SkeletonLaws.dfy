/**
 * What the search of tools/client_model/ue_skelmesh.py takes for a reference skeleton: said of the numbers
 * in the file, and of a skeleton as it is written.
 */
module SkeletonLaws {
  import opened Results
  import opened Bytes
  import opened FoundBytes
  import opened SkelMesh

  // ----- the numbers of a candidate -----

  /** Entry `i` of the bones counted at `at` lies inside the file. */
  predicate EntryInside(b: Data, at: nat, i: nat) { at + 16 + 12 * i <= |b| }

  /** Entry `i` has a known name and a parent among the `n` bones, or -1. */
  predicate GoodEntry(b: Data, nameCount: nat, at: nat, n: int, i: nat) {
    && EntryInside(b, at, i)
    && 0 <= DecI32(b[at + 4 + 12 * i..]) < nameCount && -1 <= DecI32(b[at + 12 + 12 * i..]) < n
  }

  /** Two to four hundred bones, the first of them a root. */
  predicate GoodHead(b: Data, at: nat, n: int) {
    && at + 16 <= |b| && DecI32(b[at..]) == n && 2 <= n <= 400 && DecI32(b[at + 12..]) == -1
  }

  ghost predicate GoodFrom(b: Data, nameCount: nat, at: nat, n: int, i: nat, k: int) {
    forall j: nat :: i <= j < k ==> GoodEntry(b, nameCount, at, n, j)
  }

  /** A skeleton of `n` bones stands at this offset. */
  ghost predicate IsSkeleton(b: Data, nameCount: nat, at: nat, n: int) {
    GoodHead(b, at, n) && GoodFrom(b, nameCount, at, n, 0, n)
  }

  /** The file ends inside what would be a skeleton as far as it goes. */
  ghost predicate IsCutShort(b: Data, nameCount: nat, at: nat, n: int) {
    GoodHead(b, at, n) && CutFrom(b, nameCount, at, n, 0)
  }

  ghost predicate CutFrom(b: Data, nameCount: nat, at: nat, n: int, i: nat) {
    exists k: nat :: i <= k < n && !EntryInside(b, at, k) && GoodFrom(b, nameCount, at, n, i, k)
  }

  lemma {:induction false} BonesAre(b: Data, nameCount: nat, at: nat, n: nat, i: nat)
    requires i <= n
    ensures Bones(b, nameCount, at, n, i) == Accepted <==> GoodFrom(b, nameCount, at, n, i, n)
    ensures Bones(b, nameCount, at, n, i) == Crashed <==> CutFrom(b, nameCount, at, n, i)
    decreases n - i
  {
    hide DecI32;
    if i < n {
      if !EntryInside(b, at, i) {
        assert GoodFrom(b, nameCount, at, n, i, i);
        assert !GoodEntry(b, nameCount, at, n, i);
      } else {
        BonesAre(b, nameCount, at, n, i + 1);
        GoodStep(b, nameCount, at, n, i);
      }
    }
  }

  lemma GoodStep(b: Data, nameCount: nat, at: nat, n: int, i: nat)
    requires i < n && EntryInside(b, at, i)
    ensures GoodFrom(b, nameCount, at, n, i, n) <==>
      GoodEntry(b, nameCount, at, n, i) && GoodFrom(b, nameCount, at, n, i + 1, n)
    ensures CutFrom(b, nameCount, at, n, i) <==>
      GoodEntry(b, nameCount, at, n, i) && CutFrom(b, nameCount, at, n, i + 1)
  {
    hide GoodEntry;
    if CutFrom(b, nameCount, at, n, i) {
      var k: nat :| i <= k < n && !EntryInside(b, at, k) && GoodFrom(b, nameCount, at, n, i, k);
      assert GoodFrom(b, nameCount, at, n, i + 1, k);
    }
    if GoodEntry(b, nameCount, at, n, i) && CutFrom(b, nameCount, at, n, i + 1) {
      var k: nat :| i + 1 <= k < n && !EntryInside(b, at, k) && GoodFrom(b, nameCount, at, n, i + 1, k);
      assert GoodFrom(b, nameCount, at, n, i, k);
    }
  }

  /** A candidate is accepted exactly if a skeleton stands there, and overruns exactly if one is cut short. */
  lemma VerdictIs(b: Data, nameCount: nat, at: nat)
    requires at + 16 <= |b|
    ensures Judge(b, nameCount, at) == Accepted <==> IsSkeleton(b, nameCount, at, DecI32(b[at..]))
    ensures Judge(b, nameCount, at) == Crashed <==> IsCutShort(b, nameCount, at, DecI32(b[at..]))
  {
    hide DecI32, Bones, GoodFrom, CutFrom;
    if Plausible(b, at) { BonesAre(b, nameCount, at, DecI32(b[at..]), 0); }
  }

  /** A skeleton stands here, or the start of one that the file ends in. */
  ghost predicate Stops(b: Data, nameCount: nat, at: nat) {
    exists n :: IsSkeleton(b, nameCount, at, n) || IsCutShort(b, nameCount, at, n)
  }

  lemma StopsIs(b: Data, nameCount: nat, at: nat)
    requires at + 16 <= |b|
    ensures Stops(b, nameCount, at) <==> Judge(b, nameCount, at) != Rejected
  {
    hide DecI32, GoodFrom, CutFrom, Judge;
    VerdictIs(b, nameCount, at);
    if Judge(b, nameCount, at) != Rejected {
      assert IsSkeleton(b, nameCount, at, DecI32(b[at..])) || IsCutShort(b, nameCount, at, DecI32(b[at..]));
    }
    if Stops(b, nameCount, at) {
      var n :| IsSkeleton(b, nameCount, at, n) || IsCutShort(b, nameCount, at, n);
      assert n == DecI32(b[at..]);
    }
  }

  /**
   * What is found is the first skeleton among the 40000 offsets from the start on that are more than 16
   * bytes before the end, if nothing before it makes the search read past the end.
   */
  lemma FirstSkeleton(b: Data, nameCount: nat, start: nat, r: nat)
    ensures FindRefskel(b, nameCount, start) == Some(r) <==>
      && start <= r < start + 40000 && r + 16 < |b| && IsSkeleton(b, nameCount, r, DecI32(b[r..]))
      && forall o: nat :: start <= o < r ==> !Stops(b, nameCount, o)
  {
    hide DecI32, IsSkeleton, Stops, Judge;
    if r + 16 < |b| {
      forall o: nat | start <= o <= r ensures Stops(b, nameCount, o) <==> Judge(b, nameCount, o) != Rejected {
        StopsIs(b, nameCount, o);
      }
      VerdictIs(b, nameCount, r);
      if start <= r < SearchEnd(b, start) && Judge(b, nameCount, r) == Accepted
        && forall o: nat :: start <= o < r ==> !Stops(b, nameCount, o)
      {
        SearchSkips(b, nameCount, start, SearchEnd(b, start), r);
      }
    }
  }

  // ----- a skeleton as it is written -----

  /** A bone's name and its number, and its parent. */
  datatype Bone = Bone(name: int, nameNo: int, parent: int)

  predicate WritableBone(x: Bone, nameCount: nat, n: int) {
    0 <= x.name < nameCount && InI32(x.name) && InI32(x.nameNo) && -1 <= x.parent < n
  }

  function WriteBone(x: Bone): (b: Data)
    requires InI32(x.name) && InI32(x.nameNo) && InI32(x.parent)
    ensures |b| == 12
  {
    EncI32(x.name) + EncI32(x.nameNo) + EncI32(x.parent)
  }

  /** Names in range, parents among the bones, the first a root; two to four hundred of them. */
  predicate WritableBones(bones: seq<Bone>, nameCount: nat) {
    && 2 <= |bones| <= 400 && bones[0].parent == -1
    && forall i :: 0 <= i < |bones| ==> WritableBone(bones[i], nameCount, |bones|)
  }

  predicate AllStorable(bones: seq<Bone>) {
    forall i :: 0 <= i < |bones| ==> InI32(bones[i].name) && InI32(bones[i].nameNo) && InI32(bones[i].parent)
  }

  function WriteBones(bones: seq<Bone>): (b: Data)
    requires AllStorable(bones)
    ensures |b| == 12 * |bones|
  {
    if bones == [] then [] else WriteBones(bones[..|bones| - 1]) + WriteBone(bones[|bones| - 1])
  }

  /** The count, then the bones. */
  function WriteSkeleton(bones: seq<Bone>): Data
    requires AllStorable(bones) && InI32(|bones|)
  {
    EncI32(|bones|) + WriteBones(bones)
  }

  lemma BonesSnoc(bones: seq<Bone>)
    requires AllStorable(bones) && bones != []
    ensures var front, last := bones[..|bones| - 1], bones[|bones| - 1];
      && AllStorable(front) && InI32(last.name) && InI32(last.nameNo) && InI32(last.parent)
      && Finds(WriteBones(bones), 0, WriteBones(front)) && Finds(WriteBones(bones), 12 * |front|, WriteBone(last))
  {
    var front, last := bones[..|bones| - 1], bones[|bones| - 1];
    assert WriteBones(bones) == WriteBones(front) + WriteBone(last);
  }

  lemma {:induction false} BoneFound(bones: seq<Bone>, i: nat)
    requires AllStorable(bones) && i < |bones|
    ensures Finds(WriteBones(bones), 12 * i, WriteBone(bones[i]))
  {
    hide WriteBone, WriteBones, Finds, InI32;
    var front := bones[..|bones| - 1];
    BonesSnoc(bones);
    if i < |front| {
      BoneFound(front, i);
      FindsInside(WriteBones(bones), 0, WriteBones(front), 12 * i, WriteBone(front[i]));
    }
  }

  lemma BoneFields(x: Bone)
    requires InI32(x.name) && InI32(x.nameNo) && InI32(x.parent)
    ensures Finds(WriteBone(x), 0, EncI32(x.name)) && Finds(WriteBone(x), 8, EncI32(x.parent))
  {
  }

  lemma BoneReads(b: Data, p: nat, x: Bone)
    requires InI32(x.name) && InI32(x.nameNo) && InI32(x.parent) && Finds(b, p, WriteBone(x))
    ensures ReadsI32(b, p, x.name) && ReadsI32(b, p + 8, x.parent)
  {
    BoneFields(x);
    hide *;
    NumberInside(b, p, WriteBone(x), 0, x.name);
    NumberInside(b, p, WriteBone(x), 8, x.parent);
  }

  lemma EntryReads(b: Data, at: nat, bones: seq<Bone>, i: nat)
    requires AllStorable(bones) && i < |bones| && Finds(b, at + 4, WriteBones(bones))
    ensures EntryInside(b, at, i)
    ensures DecI32(b[at + 4 + 12 * i..]) == bones[i].name && DecI32(b[at + 12 + 12 * i..]) == bones[i].parent
  {
    hide EncI32, DecI32, WriteBone, WriteBones, Finds, InI32;
    BoneFound(bones, i);
    FindsInside(b, at + 4, WriteBones(bones), 12 * i, WriteBone(bones[i]));
    assert at + 4 + 12 * i + 8 == at + 12 + 12 * i;
    BoneReads(b, at + 4 + 12 * i, bones[i]);
  }

  /** Any such skeleton is one to the search, whatever stands before and behind it. */
  lemma WrittenIsSkeleton(before: Data, bones: seq<Bone>, behind: Data, nameCount: nat)
    requires WritableBones(bones, nameCount)
    ensures AllStorable(bones) && InI32(|bones|)
    ensures IsSkeleton(before + WriteSkeleton(bones) + behind, nameCount, |before|, |bones|)
  {
    var n, at := |bones|, |before|;
    BonesStore(bones, nameCount);
    var x := WriteSkeleton(bones);
    var b := before + x + behind;
    hide *;
    CountThenBones(bones);
    FindsMiddle(before, x, behind);
    NumberInside(b, at, x, 0, n);
    FindsInside(b, at, x, 4, WriteBones(bones));
    BonesStand(b, at, bones, nameCount);
  }

  lemma BonesStand(b: Data, at: nat, bones: seq<Bone>, nameCount: nat)
    requires WritableBones(bones, nameCount) && AllStorable(bones)
    requires ReadsI32(b, at, |bones|) && Finds(b, at + 4, WriteBones(bones))
    ensures IsSkeleton(b, nameCount, at, |bones|)
  {
    hide DecI32, WriteBones, Finds, AllStorable, WritableBone, GoodEntry;
    forall i: nat | i < |bones| ensures GoodEntry(b, nameCount, at, |bones|, i) {
      WrittenEntry(b, at, bones, nameCount, i);
    }
    EntryReads(b, at, bones, 0);
  }

  lemma WrittenEntry(b: Data, at: nat, bones: seq<Bone>, nameCount: nat, i: nat)
    requires WritableBones(bones, nameCount) && AllStorable(bones) && i < |bones|
    requires Finds(b, at + 4, WriteBones(bones))
    ensures GoodEntry(b, nameCount, at, |bones|, i)
  {
    BoneInRange(bones, nameCount, i);
    hide DecI32, WritableBones, AllStorable, Finds;
    EntryReads(b, at, bones, i);
  }

  lemma CountThenBones(bones: seq<Bone>)
    requires AllStorable(bones) && |bones| <= 400
    ensures InI32(|bones|)
    ensures var x := WriteSkeleton(bones); Finds(x, 0, EncI32(|bones|)) && Finds(x, 4, WriteBones(bones))
  {
    hide WriteBones;
    var n := EncI32(|bones|);
    FindsMiddle([], n, WriteBones(bones));
    FindsMiddle(n, WriteBones(bones), []);
    assert [] + n + WriteBones(bones) == n + WriteBones(bones) == n + WriteBones(bones) + [];
  }

  lemma BoneInRange(bones: seq<Bone>, nameCount: nat, i: nat)
    requires WritableBones(bones, nameCount) && i < |bones|
    ensures 0 <= bones[i].name < nameCount && -1 <= bones[i].parent < |bones|
  {
  }

  lemma BonesStore(bones: seq<Bone>, nameCount: nat)
    requires WritableBones(bones, nameCount)
    ensures AllStorable(bones) && InI32(|bones|)
  {
  }

  /** It is found where it stands if the bytes before it stop no search. */
  lemma WrittenIsFound(before: Data, bones: seq<Bone>, behind: Data, nameCount: nat, start: nat)
    requires WritableBones(bones, nameCount) && start <= |before| < start + 40000
    ensures AllStorable(bones) && InI32(|bones|)
    ensures var b := before + WriteSkeleton(bones) + behind;
      FindRefskel(b, nameCount, start) == Some(|before|) <==>
        forall o: nat :: start <= o < |before| ==> !Stops(b, nameCount, o)
  {
    WrittenIsSkeleton(before, bones, behind, nameCount);
    hide *;
    var b := before + WriteSkeleton(bones) + behind;
    CountOf(b, nameCount, |before|, |bones|);
    FirstSkeleton(b, nameCount, start, |before|);
  }

  lemma CountOf(b: Data, nameCount: nat, at: nat, n: int)
    requires IsSkeleton(b, nameCount, at, n)
    ensures at + 16 < |b| && DecI32(b[at..]) == n
  {
    hide DecI32;
    assert GoodEntry(b, nameCount, at, n, 1);
  }
}
