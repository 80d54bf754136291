/**
 * What the function part of `diff_classes` in tools/sdk_diff.py reports, said of the entries of the two
 * dumps: which functions are renamed, removed, added and renumbered.
 */
module SdkLaws {
  import opened Results
  import opened Levenshtein
  import opened SdkDiff

  /** A function of a dump, by name and parameter count. */
  ghost predicate Entry(fns: seq<Fn>, f: Fn) { exists i :: 0 <= i < |fns| && fns[i] == f }

  ghost predicate HasName(fns: seq<Fn>, name: string) { exists i :: 0 <= i < |fns| && fns[i].name == name }

  lemma NamesAreEntries(fns: seq<Fn>, name: string)
    ensures name in Names(fns) <==> HasName(fns, name)
  {
  }

  lemma {:induction false} ParamsInIs(fns: seq<Fn>, i: nat, n: nat)
    requires Dict(fns) && i < n <= |fns|
    ensures ParamsIn(fns, fns[i].name, n) == fns[i].params
  {
    if i < n - 1 { ParamsInIs(fns, i, n - 1); }
  }

  /** Looking a parameter count up by name finds the entry's own. */
  lemma ParamsOfEntry(fns: seq<Fn>, f: Fn)
    requires Dict(fns) && Entry(fns, f)
    ensures Params(fns, f.name) == f.params
  {
    var i :| 0 <= i < |fns| && fns[i] == f;
    ParamsInIs(fns, i, |fns|);
  }

  /** The last of the first `n` functions whose name splits off this prefix. */
  ghost predicate LastOfPrefix(fns: seq<Fn>, n: nat, pfx: string, name: string)
    requires n <= |fns|
  {
    exists i :: 0 <= i < n && fns[i].name == name && Strip(name).1.Some? && Strip(name).0 == pfx
      && forall j :: i < j < n && Strip(fns[j].name).1.Some? ==> Strip(fns[j].name).0 != pfx
  }

  ghost predicate HasPrefix(fns: seq<Fn>, n: nat, pfx: string)
    requires n <= |fns|
  {
    exists i :: 0 <= i < n && Strip(fns[i].name).1.Some? && Strip(fns[i].name).0 == pfx
  }

  /** `old_k2` records exactly the prefixes that occur, each with the last function that has it. */
  lemma {:induction false} OldK2Records(fns: seq<Fn>, n: nat, pfx: string)
    requires n <= |fns|
    ensures pfx in OldK2(fns, n) <==> HasPrefix(fns, n, pfx)
    ensures pfx in OldK2(fns, n) ==>
      var (was, ord) := OldK2(fns, n)[pfx]; LastOfPrefix(fns, n, pfx, was) && Strip(was).1 == Some(ord)
  {
    hide Strip;
    if n > 0 {
      OldK2Records(fns, n - 1, pfx);
      var f := fns[n - 1].name;
      if Strip(f).1.Some? && Strip(f).0 == pfx {
        assert LastOfPrefix(fns, n, pfx, f);
      } else {
        assert HasPrefix(fns, n, pfx) <==> HasPrefix(fns, n - 1, pfx);
      }
    }
  }

  // ----- what goes and what comes -----

  /** Only in the old dump, and not the last of its K2Node prefix there. */
  ghost predicate Gone(oc: seq<Fn>, nc: seq<Fn>, r: string) {
    HasName(oc, r) && !HasName(nc, r) && !LastOfPrefix(oc, |oc|, Strip(r).0, r)
  }

  /** Only in the new dump, and not of a K2Node prefix that the old one has. */
  ghost predicate New(oc: seq<Fn>, nc: seq<Fn>, a: string) {
    HasName(nc, a) && !HasName(oc, a) && !(Strip(a).1.Some? && HasPrefix(oc, |oc|, Strip(a).0))
  }

  lemma LastIsOne(fns: seq<Fn>, pfx: string, a: string, b: string)
    requires LastOfPrefix(fns, |fns|, pfx, a) && LastOfPrefix(fns, |fns|, pfx, b)
    ensures a == b
  {
    hide Strip;
  }

  lemma LastHasPrefix(fns: seq<Fn>, n: nat, pfx: string, a: string)
    requires n <= |fns| && LastOfPrefix(fns, n, pfx, a)
    ensures HasPrefix(fns, n, pfx) && Strip(a).1.Some? && Strip(a).0 == pfx
  {
    hide Strip;
  }

  lemma RemovedIff(oc: seq<Fn>, nc: seq<Fn>, r: string)
    ensures r in RemovedSet(oc, nc) <==> Gone(oc, nc, r)
  {
    hide Strip, LastOfPrefix, HasPrefix, OldK2, Names, HasName;
    NamesAreEntries(oc, r);
    NamesAreEntries(nc, r);
    var k2 := OldK2(oc, |oc|);
    if r in OldDone(k2) {
      var pfx :| pfx in k2 && k2[pfx].0 == r;
      OldK2Records(oc, |oc|, pfx);
      LastHasPrefix(oc, |oc|, pfx, r);
    }
    if LastOfPrefix(oc, |oc|, Strip(r).0, r) {
      LastHasPrefix(oc, |oc|, Strip(r).0, r);
      OldK2Records(oc, |oc|, Strip(r).0);
      LastIsOne(oc, Strip(r).0, r, k2[Strip(r).0].0);
    }
  }

  lemma AddedIff(oc: seq<Fn>, nc: seq<Fn>, a: string)
    ensures a in AddedSet(oc, nc) <==> New(oc, nc, a)
  {
    hide Strip, HasPrefix, OldK2, Names, HasName;
    NamesAreEntries(oc, a);
    NamesAreEntries(nc, a);
    OldK2Records(oc, |oc|, Strip(a).0);
  }

  /** Close enough for a rename: at most two edits, or at most a quarter of the old name's length. */
  predicate Close(was: string, now: string) { Lev(was, now) <= 2 || 4 * Lev(was, now) <= |was| }

  /** The entry of a name. */
  lemma EntryOf(fns: seq<Fn>, name: string) returns (f: Fn)
    requires HasName(fns, name)
    ensures Entry(fns, f) && f.name == name
  {
    var i :| 0 <= i < |fns| && fns[i].name == name;
    f := fns[i];
  }

  /** Two entries may be paired exactly when their parameter counts are equal and their names close. */
  lemma PairableIff(oc: seq<Fn>, nc: seq<Fn>, f: Fn, g: Fn)
    requires Dict(oc) && Dict(nc) && Entry(oc, f) && Entry(nc, g)
    ensures Pairable(oc, nc, f.name, g.name) <==> f.params == g.params && Close(f.name, g.name)
  {
    ParamsOfEntry(oc, f);
    ParamsOfEntry(nc, g);
    hide Params, Lev;
  }

  /**
   * A rename in the report leads from a function that is gone to one that is new, with the same number
   * of parameters and close names, and gives their distance.
   */
  lemma RenamesJoinEntries(oc: seq<Fn>, nc: seq<Fn>, rep: Report, i: nat) returns (f: Fn, g: Fn)
    requires Reports(oc, nc, rep) && Dict(oc) && Dict(nc) && i < |rep.renamed|
    ensures Entry(oc, f) && Entry(nc, g) && Gone(oc, nc, f.name) && New(oc, nc, g.name)
    ensures rep.renamed[i] == Rename(f.name, g.name, Lev(f.name, g.name))
    ensures f.params == g.params && Close(f.name, g.name)
  {
    hide Strip, RemovedSet, AddedSet, Pairable, Lev, HasName, LastOfPrefix, HasPrefix, Close;
    var m := rep.renamed[i];
    RemovedIff(oc, nc, m.was);
    AddedIff(oc, nc, m.now);
    f := EntryOf(oc, m.was);
    g := EntryOf(nc, m.now);
    PairableIff(oc, nc, f, g);
  }

  /** A function reported removed and one reported added differ in their parameters or are not close. */
  lemma LeftoversDoNotPair(oc: seq<Fn>, nc: seq<Fn>, rep: Report, f: Fn, g: Fn)
    requires Reports(oc, nc, rep) && Dict(oc) && Dict(nc) && Entry(oc, f) && Entry(nc, g)
    requires f.name in rep.removed && g.name in rep.added
    ensures f.params != g.params || !Close(f.name, g.name)
  {
    hide RemovedSet, AddedSet, Pairable, Close;
    PairableIff(oc, nc, f, g);
  }

  /** A rename takes the closest: every new function as near was already taken by an earlier line. */
  lemma NearerWasTaken(oc: seq<Fn>, nc: seq<Fn>, rep: Report, i: nat, g: Fn)
    requires Reports(oc, nc, rep) && Dict(oc) && Dict(nc) && i < |rep.renamed|
    requires Entry(nc, g) && New(oc, nc, g.name) && Lev(rep.renamed[i].was, g.name) < rep.renamed[i].distance
    requires exists f :: Entry(oc, f) && f.name == rep.renamed[i].was && f.params == g.params
    ensures exists j :: 0 <= j < i && rep.renamed[j].now == g.name
  {
    hide Strip, RemovedSet, AddedSet, Pairable, Lev, Params, HasName, HasPrefix;
    var m := rep.renamed[i];
    var f :| Entry(oc, f) && f.name == m.was && f.params == g.params;
    ParamsOfEntry(oc, f);
    ParamsOfEntry(nc, g);
    AddedIff(oc, nc, g.name);
    assert ClosestFree(oc, nc, m, NowOf(rep.renamed[..i]));
    assert g.name in NowOf(rep.renamed[..i]);
    var j :| 0 <= j < i && NowOf(rep.renamed[..i])[j] == g.name;
    assert rep.renamed[j].now == g.name;
  }

  ghost predicate RenamedFrom(rep: Report, r: string) {
    exists i :: 0 <= i < |rep.renamed| && rep.renamed[i].was == r
  }

  ghost predicate RenamedTo(rep: Report, a: string) {
    exists i :: 0 <= i < |rep.renamed| && rep.renamed[i].now == a
  }

  /** Reported removed is what is gone and not renamed, reported added what is new and not a rename's end. */
  lemma ListsAreEntries(oc: seq<Fn>, nc: seq<Fn>, rep: Report, name: string)
    requires Reports(oc, nc, rep)
    ensures name in rep.removed <==> Gone(oc, nc, name) && !RenamedFrom(rep, name)
    ensures name in rep.added <==> New(oc, nc, name) && !RenamedTo(rep, name)
  {
    hide RemovedSet, AddedSet, Gone, New, Paired, NoneLeft, Renumbered;
    RemovedIff(oc, nc, name);
    AddedIff(oc, nc, name);
    assert name in WasOf(rep.renamed) <==> RenamedFrom(rep, name) by {
      if RenamedFrom(rep, name) {
        var i :| 0 <= i < |rep.renamed| && rep.renamed[i].was == name;
        assert WasOf(rep.renamed)[i] == name;
      }
    }
    assert name in NowOf(rep.renamed) <==> RenamedTo(rep, name) by {
      if RenamedTo(rep, name) {
        var i :| 0 <= i < |rep.renamed| && rep.renamed[i].now == name;
        assert NowOf(rep.renamed)[i] == name;
      }
    }
  }

  // ----- renumberings -----

  /** A new function and the last old one of the same K2Node prefix, under another ordinal. */
  ghost predicate IsRenumbering(oc: seq<Fn>, nc: seq<Fn>, x: Renumbering) {
    && HasName(nc, x.now) && Strip(x.now).1 == Some(x.newOrd) && Strip(x.was).1 == Some(x.oldOrd)
    && LastOfPrefix(oc, |oc|, Strip(x.now).0, x.was) && x.oldOrd != x.newOrd
  }

  /** The renumbering lines are exactly these. */
  lemma RenumberingsAreEntries(oc: seq<Fn>, nc: seq<Fn>, rep: Report, x: Renumbering)
    requires Reports(oc, nc, rep)
    ensures x in rep.renumbered <==> IsRenumbering(oc, nc, x)
  {
    hide Strip, LastOfPrefix, HasPrefix, OldK2, Paired, NoneLeft;
    var k2 := OldK2(oc, |oc|);
    RenumberedEntries(k2, nc, |nc|, x);
    var pfx := Strip(x.now).0;
    OldK2Records(oc, |oc|, pfx);
    if IsRenumbering(oc, nc, x) {
      LastHasPrefix(oc, |oc|, pfx, x.was);
      LastIsOne(oc, pfx, x.was, k2[pfx].0);
      assert Renumbers(k2, x.now) && x == LineFor(k2, x.now);
    }
  }

  // ----- the order of the lines -----

  /** Names are listed by their first difference, a prefix before what it begins. */
  lemma {:induction false} LessIff(a: string, b: string)
    ensures Less(a, b) <==> exists k :: 0 <= k <= |a| && FirstDifference(a, b, k)
  {
    if b == [] {
    } else if a == [] {
      assert FirstDifference(a, b, 0);
    } else if a[0] == b[0] {
      LessIff(a[1..], b[1..]);
      if k :| 0 <= k <= |a[1..]| && FirstDifference(a[1..], b[1..], k) {
        LaterDifference(a, b, k + 1);
      }
      if k :| 0 <= k <= |a| && FirstDifference(a, b, k) {
        LaterDifference(a, b, k);
      }
    } else {
      if a[0] < b[0] { assert FirstDifference(a, b, 0); }
      if k :| 0 <= k <= |a| && FirstDifference(a, b, k) { assert k == 0 || a[..k][0] == b[..k][0]; }
    }
  }

  predicate FirstDifference(a: string, b: string, k: nat)
    requires k <= |a|
  {
    k < |b| && a[..k] == b[..k] && (k == |a| || a[k] < b[k])
  }

  lemma LaterDifference(a: string, b: string, k: nat)
    requires a != [] && b != [] && a[0] == b[0] && k <= |a|
    ensures FirstDifference(a, b, k) ==> k > 0
    ensures k > 0 ==> (FirstDifference(a, b, k) <==> FirstDifference(a[1..], b[1..], k - 1))
  {
    if k > 0 && k < |b| {
      assert a[..k] == [a[0]] + a[1..][..k - 1];
      assert b[..k] == [b[0]] + b[1..][..k - 1];
      assert a[1..][..k - 1] == a[..k][1..] && b[1..][..k - 1] == b[..k][1..];
    }
  }
}
