/**
 * `edit_distance` of tools/sdk_diff.py: the two-row dynamic program, the recursion it
 * computes, the shortest edit scripts it measures, and its metric laws.
 */
module Levenshtein {
  import opened Results

  function Min(a: nat, b: nat): nat { if a < b then a else b }

  function Last(s: string): char requires s != [] { s[|s| - 1] }
  function Front(s: string): string requires s != [] { s[..|s| - 1] }

  /** The Levenshtein recursion over prefixes. */
  function Lev(a: string, b: string): nat
    decreases |a| + |b|
  {
    if a == [] then |b|
    else if b == [] then |a|
    else Min(Min(Lev(a, Front(b)) + 1, Lev(Front(a), b) + 1),
             Lev(Front(a), Front(b)) + if Last(a) == Last(b) then 0 else 1)
  }

  // ----- the two-row program -----

  /** `row` is the recursion's row for the prefix `a` against the prefixes of `b` up to `upTo`. */
  ghost predicate IsRow(row: seq<nat>, a: string, b: string, upTo: nat)
    requires upTo < |row| && |row| == |b| + 1
  {
    forall j :: 0 <= j <= upTo ==> row[j] == Lev(a, b[..j])
  }

  lemma LevStep(a: string, b: string, x: nat, y: nat, z: nat)
    requires a != [] && b != []
    requires x == Lev(a, Front(b)) && y == Lev(Front(a), b) && z == Lev(Front(a), Front(b))
    ensures Lev(a, b) == Min(Min(x + 1, y + 1), z + if Last(a) == Last(b) then 0 else 1)
  {
  }

  lemma LevCell(a: string, b: string, i: nat, j: nat, x: nat, y: nat, z: nat)
    requires 1 <= i <= |a| && 1 <= j <= |b|
    requires x == Lev(a[..i], b[..j - 1]) && y == Lev(a[..i - 1], b[..j]) && z == Lev(a[..i - 1], b[..j - 1])
    ensures Lev(a[..i], b[..j]) == Min(Min(x + 1, y + 1), z + if a[i - 1] == b[j - 1] then 0 else 1)
  {
    hide Lev;
    assert Front(a[..i]) == a[..i - 1] && Front(b[..j]) == b[..j - 1];
    LevStep(a[..i], b[..j], x, y, z);
  }

  lemma LevEnds(a: string, b: string)
    ensures a == [] ==> Lev(a, b) == |b|
    ensures b == [] ==> Lev(a, b) == |a|
    ensures forall j :: 0 <= j <= |b| ==> Lev(a[..0], b[..j]) == j
    ensures forall i :: 0 <= i <= |a| ==> Lev(a[..i], b[..0]) == i
    ensures a[..|a|] == a && b[..|b|] == b
  {
  }

  method EditDistance(a: string, b: string) returns (d: nat)
    ensures d == Lev(a, b)
  {
    hide Lev;
    LevEnds(a, b);
    if a == b { ZeroIffEqual(a, b); return 0; }
    if a == "" { return |b|; }
    if b == "" { return |a|; }
    var prev: seq<nat> := seq(|b| + 1, j requires 0 <= j => j);
    assert IsRow(prev, a[..0], b, |b|);
    var i: nat := 1;
    while i <= |a|
      invariant 1 <= i <= |a| + 1
      invariant |prev| == |b| + 1 && IsRow(prev, a[..i - 1], b, |b|)
    {
      var cur: seq<nat> := [i] + seq(|b|, _ => 0);
      var j := 1;
      while j <= |b|
        invariant 1 <= j <= |b| + 1
        invariant |cur| == |b| + 1 && IsRow(cur, a[..i], b, j - 1)
      {
        var cost := if a[i - 1] == b[j - 1] then 0 else 1;
        LevCell(a, b, i, j, cur[j - 1], prev[j], prev[j - 1]);
        cur := cur[j := Min(Min(cur[j - 1] + 1, prev[j] + 1), prev[j - 1] + cost)];
        j := j + 1;
      }
      prev := cur;
      i := i + 1;
    }
    return prev[|b|];
  }

  // ----- edit scripts -----

  /** One step of an edit script, read along the source string. */
  datatype Edit = Keep | Delete | Insert(c: char) | Replace(c: char)

  function Cost(e: Edit): nat { if e.Keep? then 0 else 1 }

  function ScriptCost(es: seq<Edit>): nat {
    if es == [] then 0 else ScriptCost(es[..|es| - 1]) + Cost(es[|es| - 1])
  }

  /** Runs a script; `None` when it does not consume the source exactly. */
  function Run(es: seq<Edit>, a: string): Option<string> {
    if es == [] then (if a == [] then Some([]) else None)
    else
      var before, e := es[..|es| - 1], es[|es| - 1];
      if !e.Insert? && a == [] then None
      else
        var r := Run(before, if e.Insert? then a else Front(a));
        if r.None? || e.Delete? then r
        else Some(r.value + [if e.Keep? then Last(a) else e.c])
  }

  lemma LevOf(a: string, b: string)
    requires a != [] && b != []
    ensures Lev(a, b) == Min(Min(Lev(a, Front(b)) + 1, Lev(Front(a), b) + 1),
                             Lev(Front(a), Front(b)) + if Last(a) == Last(b) then 0 else 1)
  {
    hide Lev;
    LevStep(a, b, Lev(a, Front(b)), Lev(Front(a), b), Lev(Front(a), Front(b)));
  }

  /** No script from `a` to `b` is cheaper than the distance. */
  lemma {:induction false} ScriptsCostAtLeast(es: seq<Edit>, a: string, b: string)
    requires Run(es, a) == Some(b)
    ensures Lev(a, b) <= ScriptCost(es)
  {
    if es != [] {
      var before, e := es[..|es| - 1], es[|es| - 1];
      match e
      case Insert(c) =>
        var m := Run(before, a).value;
        ScriptsCostAtLeast(before, a, m);
        assert Front(b) == m;
      case Delete =>
        ScriptsCostAtLeast(before, Front(a), b);
      case Keep =>
        var m := Run(before, Front(a)).value;
        ScriptsCostAtLeast(before, Front(a), m);
        assert Front(b) == m && Last(b) == Last(a);
      case Replace(c) =>
        var m := Run(before, Front(a)).value;
        ScriptsCostAtLeast(before, Front(a), m);
        assert Front(b) == m;
    }
  }

  lemma RunSnoc(es: seq<Edit>, e: Edit)
    ensures (es + [e])[..|es|] == es && (es + [e])[|es|] == e
    ensures ScriptCost(es + [e]) == ScriptCost(es) + Cost(e)
  {
    assert (es + [e])[..|es|] == es;
  }

  /** Some script from `a` to `b` costs exactly the distance. */
  lemma {:induction false} ShortestScript(a: string, b: string) returns (es: seq<Edit>)
    ensures Run(es, a) == Some(b) && ScriptCost(es) == Lev(a, b)
    decreases |a| + |b|
  {
    if a != [] && b != [] { LevOf(a, b); }
    if a == [] && b == [] {
      es := [];
    } else if a == [] || (b != [] && Lev(a, b) == Lev(a, Front(b)) + 1) {
      var before := ShortestScript(a, Front(b));
      es := before + [Insert(Last(b))];
      RunSnoc(before, Insert(Last(b)));
      assert Front(b) + [Last(b)] == b;
    } else if b == [] || Lev(a, b) == Lev(Front(a), b) + 1 {
      var before := ShortestScript(Front(a), b);
      es := before + [Delete];
      RunSnoc(before, Delete);
    } else {
      var e := if Last(a) == Last(b) then Keep else Replace(Last(b));
      var before := ShortestScript(Front(a), Front(b));
      es := before + [e];
      RunSnoc(before, e);
      assert Front(b) + [Last(b)] == b;
    }
  }

  // ----- the metric laws -----

  lemma {:induction false} ZeroIffEqual(a: string, b: string)
    ensures Lev(a, b) == 0 <==> a == b
    decreases |a| + |b|
  {
    if a != [] && b != [] {
      ZeroIffEqual(Front(a), Front(b));
      assert a == Front(a) + [Last(a)] && b == Front(b) + [Last(b)];
    }
  }

  lemma {:induction false} Symmetric(a: string, b: string)
    ensures Lev(a, b) == Lev(b, a)
    decreases |a| + |b|
  {
    if a != [] && b != [] {
      Symmetric(a, Front(b));
      Symmetric(Front(a), b);
      Symmetric(Front(a), Front(b));
    }
  }

  lemma {:induction false} LengthGap(a: string, b: string)
    ensures |b| <= |a| + Lev(a, b) && |a| <= |b| + Lev(a, b)
    ensures Lev(a, b) <= if |a| < |b| then |b| else |a|
    decreases |a| + |b|
  {
    if a != [] && b != [] {
      LengthGap(a, Front(b));
      LengthGap(Front(a), b);
      LengthGap(Front(a), Front(b));
    }
  }

  lemma {:induction false} Triangle(a: string, b: string, c: string)
    ensures Lev(a, c) <= Lev(a, b) + Lev(b, c)
    decreases |a| + |b| + |c|
  {
    if a == [] {
      LengthGap(b, c);
    } else if c == [] {
      LengthGap(a, b);
    } else if b == [] {
      LengthGap(a, c);
    } else {
      hide Lev;
      LevOf(a, b);
      LevOf(b, c);
      LevOf(a, c);
      Triangle(Front(a), b, c);
      Triangle(a, b, Front(c));
      Triangle(a, Front(b), c);
      Triangle(a, Front(b), Front(c));
      Triangle(Front(a), Front(b), Front(c));
    }
  }
}
