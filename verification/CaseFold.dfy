/**
 * `runs` of tools/text/case_fold.py: the frozen lowercase table cut down to the pairs that a build
 * can draw on both sides.
 */
module CaseFold {
  /** `lower(cp) == cp + delta` for every code point from `begin` to `end`. */
  datatype Run = Run(begin: int, end: int, delta: int)

  predicate Covers(r: Run, cp: int) { r.begin <= cp <= r.end }

  /** The row folds this code point, and both sides can be drawn. */
  predicate Drawable(fold: set<int>, row: Run, cp: int) {
    Covers(row, cp) && cp in fold && cp + row.delta in fold
  }

  /** The table folds `cp` by `delta`. */
  ghost predicate Folds(table: seq<Run>, cp: int, delta: int) {
    exists i :: 0 <= i < |table| && Covers(table[i], cp) && table[i].delta == delta
  }

  /** Some row folds `cp` by `delta` with both sides drawable. */
  ghost predicate FoldsDrawably(table: seq<Run>, fold: set<int>, cp: int, delta: int) {
    exists i :: 0 <= i < |table| && Drawable(fold, table[i], cp) && table[i].delta == delta
  }

  /** Sorted, and no two rows share a code point. */
  ghost predicate SortedDisjoint(table: seq<Run>) {
    forall i, j :: 0 <= i < j < |table| ==> table[i].end < table[j].begin
  }

  /** The run is a stretch of drawable code points of the row that cannot be extended within it. */
  ghost predicate Maximal(fold: set<int>, row: Run, r: Run) {
    && r.delta == row.delta && r.begin <= r.end
    && (forall cp :: r.begin <= cp <= r.end ==> Drawable(fold, row, cp))
    && !Drawable(fold, row, r.begin - 1) && !Drawable(fold, row, r.end + 1)
  }

  // ----- one row -----

  /** What the inner loop has emitted for a row once it has passed the code points below `next`. */
  ghost predicate RowDone(fold: set<int>, row: Run, next: int, rs: seq<Run>, open: bool) {
    && (forall i :: 0 <= i < |rs| ==>
          && rs[i].delta == row.delta && row.begin <= rs[i].begin <= rs[i].end < next
          && (forall cp :: rs[i].begin <= cp <= rs[i].end ==> Drawable(fold, row, cp))
          && !Drawable(fold, row, rs[i].begin - 1)
          && (rs[i].end + 1 < next ==> !Drawable(fold, row, rs[i].end + 1)))
    && (forall i, j :: 0 <= i < j < |rs| ==> rs[i].end < rs[j].begin)
    && (forall cp :: row.begin <= cp < next && Drawable(fold, row, cp) ==> InSome(rs, cp))
    && (open <==> row.begin < next && Drawable(fold, row, next - 1))
    && (open ==> |rs| > 0 && rs[|rs| - 1].end == next - 1)
  }

  ghost predicate InSome(rs: seq<Run>, cp: int) { exists i :: 0 <= i < |rs| && Covers(rs[i], cp) }

  function Extended(rs: seq<Run>, cp: int): seq<Run>
    requires |rs| > 0
  {
    rs[|rs| - 1 := rs[|rs| - 1].(end := cp)]
  }

  lemma ExtendedCovers(rs: seq<Run>, cp: int, c: int)
    requires |rs| > 0 && rs[|rs| - 1].end == cp - 1 && rs[|rs| - 1].begin <= cp
    requires c == cp || InSome(rs, c)
    ensures InSome(Extended(rs, cp), c)
  {
    var t := Extended(rs, cp);
    if c == cp {
      assert Covers(t[|t| - 1], c);
    } else {
      var i :| 0 <= i < |rs| && Covers(rs[i], c);
      assert Covers(t[i], c);
    }
  }

  lemma Extend(fold: set<int>, row: Run, cp: int, rs: seq<Run>)
    requires RowDone(fold, row, cp, rs, true) && Drawable(fold, row, cp)
    ensures RowDone(fold, row, cp + 1, Extended(rs, cp), true)
  {
    hide InSome, Drawable;
    forall c | row.begin <= c < cp + 1 && Drawable(fold, row, c) ensures InSome(Extended(rs, cp), c) {
      ExtendedCovers(rs, cp, c);
    }
  }

  lemma AppendedCovers(rs: seq<Run>, r: Run, c: int)
    requires Covers(r, c) || InSome(rs, c)
    ensures InSome(rs + [r], c)
  {
    var t := rs + [r];
    if Covers(r, c) {
      assert Covers(t[|rs|], c);
    } else {
      var i :| 0 <= i < |rs| && Covers(rs[i], c);
      assert Covers(t[i], c);
    }
  }

  lemma Begin(fold: set<int>, row: Run, cp: int, rs: seq<Run>)
    requires RowDone(fold, row, cp, rs, false) && Drawable(fold, row, cp) && row.begin <= cp
    ensures RowDone(fold, row, cp + 1, rs + [Run(cp, cp, row.delta)], true)
  {
    hide InSome;
    forall c | row.begin <= c < cp + 1 && Drawable(fold, row, c) ensures InSome(rs + [Run(cp, cp, row.delta)], c) {
      AppendedCovers(rs, Run(cp, cp, row.delta), c);
    }
  }

  lemma Pass(fold: set<int>, row: Run, cp: int, rs: seq<Run>, open: bool)
    requires RowDone(fold, row, cp, rs, open) && !Drawable(fold, row, cp) && row.begin <= cp
    ensures RowDone(fold, row, cp + 1, rs, false)
  {
  }

  /** The inner loop over one row. */
  method RowRuns(fold: set<int>, row: Run) returns (rs: seq<Run>)
    ensures RowDone(fold, row, if row.begin <= row.end then row.end + 1 else row.begin, rs,
                    row.begin <= row.end && Drawable(fold, row, row.end))
  {
    hide RowDone;
    rs := [];
    var open := false;
    var cp := row.begin;
    RowStart(fold, row);
    while cp <= row.end
      invariant row.begin <= cp && (cp <= row.end + 1 || cp == row.begin)
      invariant RowDone(fold, row, cp, rs, open)
    {
      OpenRun(fold, row, cp, rs, open);
      if cp in fold && cp + row.delta in fold {
        if open && rs[|rs| - 1].end == cp - 1 {
          Extend(fold, row, cp, rs);
          rs := Extended(rs, cp);
        } else {
          Begin(fold, row, cp, rs);
          rs := rs + [Run(cp, cp, row.delta)];
          open := true;
        }
      } else {
        Pass(fold, row, cp, rs, open);
        open := false;
      }
      cp := cp + 1;
    }
    RowEnd(fold, row, cp, rs, open);
  }

  lemma RowStart(fold: set<int>, row: Run)
    ensures RowDone(fold, row, row.begin, [], false)
  {
  }

  lemma OpenRun(fold: set<int>, row: Run, cp: int, rs: seq<Run>, open: bool)
    requires RowDone(fold, row, cp, rs, open)
    ensures open ==> |rs| > 0 && rs[|rs| - 1].end == cp - 1
  {
  }

  lemma RowEnd(fold: set<int>, row: Run, cp: int, rs: seq<Run>, open: bool)
    requires RowDone(fold, row, cp, rs, open)
    ensures open <==> row.begin < cp && Drawable(fold, row, cp - 1)
  {
  }

  // ----- the whole table -----

  /** The emitted runs of the rows: each a maximal stretch of some row, in the rows' order. */
  ghost predicate Emits(table: seq<Run>, fold: set<int>, out: seq<Run>) {
    && (forall k :: 0 <= k < |out| ==> ComesFrom(table, fold, out[k]))
    && (forall cp, d :: FoldsDrawably(table, fold, cp, d) <==> Folds(out, cp, d))
    && (SortedDisjoint(table) ==> SortedDisjoint(out))
  }

  ghost predicate ComesFrom(table: seq<Run>, fold: set<int>, r: Run) {
    exists i :: 0 <= i < |table| && Maximal(fold, table[i], r)
  }

  /** One row's share: maximal runs of the row, in order, covering exactly its drawable points. */
  ghost predicate Shares(fold: set<int>, row: Run, rs: seq<Run>) {
    && (forall k :: 0 <= k < |rs| ==> Maximal(fold, row, rs[k]))
    && (forall cp :: Drawable(fold, row, cp) <==> InSome(rs, cp))
    && SortedDisjoint(rs)
  }

  lemma RowShares(fold: set<int>, row: Run, rs: seq<Run>)
    requires RowDone(fold, row, if row.begin <= row.end then row.end + 1 else row.begin, rs,
                     row.begin <= row.end && Drawable(fold, row, row.end))
    ensures Shares(fold, row, rs)
  {
    forall cp | InSome(rs, cp) ensures Drawable(fold, row, cp) {
      var i :| 0 <= i < |rs| && Covers(rs[i], cp);
    }
  }

  lemma FoldsAppend(a: seq<Run>, b: seq<Run>, cp: int, d: int)
    ensures Folds(a + b, cp, d) <==> Folds(a, cp, d) || Folds(b, cp, d)
  {
    if Folds(a, cp, d) {
      var i :| 0 <= i < |a| && Covers(a[i], cp) && a[i].delta == d;
      assert (a + b)[i] == a[i];
    }
    if Folds(b, cp, d) {
      var i :| 0 <= i < |b| && Covers(b[i], cp) && b[i].delta == d;
      assert (a + b)[|a| + i] == b[i];
    }
  }

  lemma DrawablyAppend(a: seq<Run>, row: Run, fold: set<int>, cp: int, d: int)
    ensures FoldsDrawably(a + [row], fold, cp, d) <==>
      FoldsDrawably(a, fold, cp, d) || (Drawable(fold, row, cp) && row.delta == d)
  {
    hide Drawable;
    var t := a + [row];
    if FoldsDrawably(a, fold, cp, d) {
      var i :| 0 <= i < |a| && Drawable(fold, a[i], cp) && a[i].delta == d;
      assert t[i] == a[i];
    }
    if Drawable(fold, row, cp) && row.delta == d { assert t[|a|] == row; }
  }

  lemma SharesFold(fold: set<int>, row: Run, rs: seq<Run>, cp: int, d: int)
    requires Shares(fold, row, rs)
    ensures Folds(rs, cp, d) <==> Drawable(fold, row, cp) && row.delta == d
  {
    hide Drawable;
    if Drawable(fold, row, cp) && row.delta == d {
      assert InSome(rs, cp);
      var i :| 0 <= i < |rs| && Covers(rs[i], cp);
      assert Maximal(fold, row, rs[i]);
    }
    if Folds(rs, cp, d) {
      var i :| 0 <= i < |rs| && Covers(rs[i], cp) && rs[i].delta == d;
      assert InSome(rs, cp) && Maximal(fold, row, rs[i]);
    }
  }

  lemma StillSorted(table: seq<Run>, fold: set<int>, out: seq<Run>, row: Run, rs: seq<Run>)
    requires Emits(table, fold, out) && Shares(fold, row, rs) && SortedDisjoint(table + [row])
    ensures SortedDisjoint(out + rs)
  {
    var t := table + [row];
    assert SortedDisjoint(table) by {
      forall i, j | 0 <= i < j < |table| ensures table[i].end < table[j].begin { assert t[i].end < t[j].begin; }
    }
    forall k, l | 0 <= k < |out| && 0 <= l < |rs| ensures out[k].end < rs[l].begin {
      assert ComesFrom(table, fold, out[k]);
      var i :| 0 <= i < |table| && Maximal(fold, table[i], out[k]);
      assert Maximal(fold, row, rs[l]);
      assert Drawable(fold, table[i], out[k].end) && Drawable(fold, row, rs[l].begin);
      assert t[i].end < t[|table|].begin;
    }
  }

  lemma EmitsNext(table: seq<Run>, fold: set<int>, out: seq<Run>, row: Run, rs: seq<Run>)
    requires Emits(table, fold, out) && Shares(fold, row, rs)
    ensures Emits(table + [row], fold, out + rs)
  {
    hide Maximal, Drawable;
    var t := table + [row];
    forall k | 0 <= k < |out + rs| ensures ComesFrom(t, fold, (out + rs)[k]) {
      if k < |out| {
        assert ComesFrom(table, fold, out[k]);
        var i :| 0 <= i < |table| && Maximal(fold, table[i], out[k]);
        assert Maximal(fold, t[i], out[k]);
      } else {
        assert Maximal(fold, t[|table|], rs[k - |out|]);
      }
    }
    forall cp: int, d: int ensures FoldsDrawably(t, fold, cp, d) <==> Folds(out + rs, cp, d) {
      FoldsAppend(out, rs, cp, d);
      DrawablyAppend(table, row, fold, cp, d);
      SharesFold(fold, row, rs, cp, d);
    }
    if SortedDisjoint(t) { StillSorted(table, fold, out, row, rs); }
  }

  /** `runs`: exactly the drawable pairs, in maximal runs that stay sorted and disjoint. */
  method Runs(table: seq<Run>, fold: set<int>) returns (out: seq<Run>)
    ensures Emits(table, fold, out)
  {
    hide Emits, RowDone, Shares;
    out := [];
    var i := 0;
    EmitsNone(fold);
    assert table[..0] == [];
    while i < |table|
      invariant 0 <= i <= |table| && Emits(table[..i], fold, out)
    {
      var rs := RowRuns(fold, table[i]);
      RowShares(fold, table[i], rs);
      EmitsNext(table[..i], fold, out, table[i], rs);
      assert table[..i + 1] == table[..i] + [table[i]];
      out := out + rs;
      i := i + 1;
    }
    assert table[..|table|] == table;
  }

  lemma EmitsNone(fold: set<int>)
    ensures Emits([], fold, [])
  {
  }

  lemma OneRun(out: seq<Run>, i: nat, j: nat, cp: int)
    requires SortedDisjoint(out) && i < |out| && j < |out| && Covers(out[i], cp) && Covers(out[j], cp)
    ensures i == j
  {
  }

  /** The emitted table is a partial function when the source rows are sorted and disjoint. */
  lemma EmittedIsFunction(table: seq<Run>, fold: set<int>, out: seq<Run>, cp: int, d: int, e: int)
    requires Emits(table, fold, out) && SortedDisjoint(table) && Folds(out, cp, d) && Folds(out, cp, e)
    ensures d == e && cp in fold && cp + d in fold
  {
    var i :| 0 <= i < |out| && Covers(out[i], cp) && out[i].delta == d;
    var j :| 0 <= j < |out| && Covers(out[j], cp) && out[j].delta == e;
    assert FoldsDrawably(table, fold, cp, d);
    OneRun(out, i, j, cp);
  }
}
