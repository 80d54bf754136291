/**
 * The function part of `diff_classes` in tools/sdk_diff.py: K2Node ordinals, the greedy rename
 * matcher over sets of any iteration order, and the report lists.
 */
module SdkDiff {
  import opened Results
  import opened Levenshtein

  // ----- the K2Node name pattern -----

  const K2NODE := "K2Node"

  predicate AllDigits(s: string) { forall i :: 0 <= i < |s| ==> '0' <= s[i] <= '9' }

  /** The position of the last underscore among the first `n` characters, or -1. */
  function LastUnderscoreIn(s: string, n: nat): (u: int)
    requires n <= |s|
    ensures -1 <= u < n
    ensures u >= 0 ==> s[u] == '_'
  {
    if n == 0 then -1 else if s[n - 1] == '_' then n - 1 else LastUnderscoreIn(s, n - 1)
  }

  function LastUnderscore(s: string): int { LastUnderscoreIn(s, |s|) }

  lemma {:induction false} NoneAfter(s: string, n: nat)
    requires n <= |s|
    ensures forall k :: LastUnderscoreIn(s, n) < k < n ==> s[k] != '_'
  {
    if n > 0 && s[n - 1] != '_' { NoneAfter(s, n - 1); }
  }

  lemma LastUnderscoreUnique(s: string, u: nat)
    requires u < |s| && s[u] == '_' && '_' !in s[u + 1..]
    ensures LastUnderscore(s) == u
  {
    NoneAfter(s, |s|);
    forall k | u < k < |s| ensures s[k] != '_' { assert s[k] == s[u + 1..][k - u - 1]; }
  }

  predicate OccursAt(s: string, t: string, p: int) {
    0 <= p <= |s| - |t| && s[p..p + |t|] == t
  }

  predicate Contains(s: string, t: string) {
    exists p :: 0 <= p <= |s| && OccursAt(s, t, p)
  }

  /** The stretch of a stem after its last underscore. */
  function LastSegment(stem: string): string { stem[LastUnderscore(stem) + 1..] }

  /** `strip_k2node_ordinal`: the name's prefix and, for a K2Node name, its ordinal. */
  function Strip(name: string): (string, Option<string>) {
    var u := LastUnderscore(name);
    if u < 0 || u == |name| - 1 || !AllDigits(name[u + 1..]) then (name, None)
    else if Contains(LastSegment(name[..u]), K2NODE) then (name[..u + 1], Some(name[u + 1..]))
    else (name, None)
  }

  /** The pattern itself: anything, "K2Node", no underscore, an underscore, digits to the end. */
  ghost predicate Matches(name: string, pre: string, mid: string, digits: string) {
    && name == pre + K2NODE + mid + "_" + digits
    && '_' !in mid && digits != "" && AllDigits(digits)
  }

  lemma LastUnderscoreIs(s: string, t: string)
    requires '_' !in t
    ensures LastUnderscore(s + "_" + t) == |s|
  {
    var w := s + "_" + t;
    assert w[|s| + 1..] == t;
    LastUnderscoreUnique(w, |s|);
  }

  /** With no underscore in `t`, the last segment of `s + t` ends with all of `t`. */
  lemma LastSegmentEnds(s: string, t: string)
    requires '_' !in t
    ensures exists h :: LastSegment(s + t) == h + t
  {
    var w := s + t;
    var v := LastUnderscore(w);
    forall k | |s| <= k < |w| ensures w[k] != '_' { assert w[k] == t[k - |s|]; }
    assert w[v + 1..] == s[v + 1..] + t;
  }

  /** Every way the pattern matches gives the prefix and ordinal that `Strip` returns. */
  lemma MatchIsStripped(name: string, pre: string, mid: string, digits: string)
    requires Matches(name, pre, mid, digits)
    ensures Strip(name) == (pre + K2NODE + mid + "_", Some(digits))
  {
    var g := pre + K2NODE + mid;
    assert name == g + "_" + digits;
    LastUnderscoreIs(g, digits);
    assert name[..|g|] == g && name[|g| + 1..] == digits && name[..|g| + 1] == g + "_";
    assert g == pre + (K2NODE + mid);
    LastSegmentEnds(pre, K2NODE + mid);
    var h :| LastSegment(g) == h + (K2NODE + mid);
    assert OccursAt(LastSegment(g), K2NODE, |h|);
  }

  lemma SplitAtOccurrence(s: string, t: string, p: int)
    requires OccursAt(s, t, p)
    ensures s == s[..p] + t + s[p + |t|..]
  {
  }

  /** `Strip` reports an ordinal only where the pattern matches. */
  lemma StrippedMatches(name: string) returns (pre: string, mid: string, digits: string)
    requires Strip(name).1.Some?
    ensures Matches(name, pre, mid, digits)
  {
    var u := LastUnderscore(name);
    var stem := name[..u];
    assert Contains(LastSegment(stem), K2NODE);
    digits := name[u + 1..];
    assert name == stem + "_" + digits;
    pre, mid := StemSplits(stem, LastUnderscore(stem), LastSegment(stem));
  }

  /** A stem whose last segment holds "K2Node", split there; nothing behind it is an underscore. */
  lemma StemSplits(stem: string, v: int, seg: string) returns (pre: string, mid: string)
    requires -1 <= v < |stem| && seg == stem[v + 1..] && Contains(seg, K2NODE) && v == LastUnderscoreIn(stem, |stem|)
    ensures stem == pre + K2NODE + mid && '_' !in mid
  {
    hide LastUnderscoreIn;
    NoneAfter(stem, |stem|);
    var p :| 0 <= p <= |seg| && OccursAt(seg, K2NODE, p);
    pre, mid := JoinAround(stem, v + 1, p, K2NODE);
    forall k | 0 <= k < |mid| ensures mid[k] != '_' { assert mid[k] == stem[v + 1 + p + |K2NODE| + k]; }
  }

  lemma JoinAround(stem: string, v: nat, p: nat, t: string) returns (pre: string, mid: string)
    requires v <= |stem| && p <= |stem[v..]| && OccursAt(stem[v..], t, p)
    ensures stem == pre + t + mid && mid == stem[v + p + |t|..]
  {
    SplitAtOccurrence(stem[v..], t, p);
    pre, mid := stem[..v + p], stem[v + p + |t|..];
    assert stem[v + p..v + p + |t|] == stem[v..][p..p + |t|];
  }

  /**
   * Which generated names the pattern recognises: of the names whose last underscores enclose a kind
   * and digits, exactly those with "K2Node" inside the kind itself.
   */
  lemma KindDecides(pre: string, kind: string, digits: string)
    requires '_' !in kind && digits != "" && AllDigits(digits)
    ensures var stem := pre + "_" + kind; var name := stem + "_" + digits;
      Strip(name) == if Contains(kind, K2NODE) then (stem + "_", Some(digits)) else (name, None)
  {
    var stem := pre + "_" + kind;
    var name := stem + "_" + digits;
    DigitsHaveNoUnderscore(digits);
    LastUnderscoreIs(stem, digits);
    LastUnderscoreIs(pre, kind);
    assert name[..|stem|] == stem && name[|stem| + 1..] == digits && name[..|stem| + 1] == stem + "_";
    assert stem[|pre| + 1..] == kind;
  }

  lemma DigitsHaveNoUnderscore(digits: string)
    requires AllDigits(digits)
    ensures '_' !in digits
  {
  }

  /**
   * The documented kind of name, a prefix, K2Node, an event kind and an ordinal, is not recognised
   * unless the event kind itself holds "K2Node".
   */
  lemma DocumentedNamesAreNotStripped(pre: string, kind: string, digits: string)
    requires '_' !in kind && digits != "" && AllDigits(digits) && !Contains(kind, K2NODE)
    ensures var name := pre + "_K2Node" + "_" + kind + "_" + digits; Strip(name) == (name, None)
  {
    KindDecides(pre + "_K2Node", kind, digits);
  }

  /** The documented example is one of them. */
  lemma DocumentedExampleIsNotStripped()
    ensures Strip("InpActEvt_use_K2Node_InputActionEvent_41")
         == ("InpActEvt_use_K2Node_InputActionEvent_41", None)
  {
    hide Strip, Contains;
    var kind := "InputActionEvent";
    assert !Contains(kind, K2NODE) by { NoK(kind); }
    assert "InpActEvt_use_K2Node_InputActionEvent_41" == "InpActEvt_use" + "_K2Node" + "_" + kind + "_" + "41";
    DocumentedNamesAreNotStripped("InpActEvt_use", kind, "41");
  }

  lemma NoK(s: string)
    requires 'K' !in s
    ensures !Contains(s, K2NODE)
  {
    forall p | 0 <= p <= |s| ensures !OccursAt(s, K2NODE, p) {
      if p + 6 <= |s| { assert s[p..p + 6][0] == s[p] != 'K'; }
    }
  }

  // ----- names in sorted order -----

  predicate Less(a: string, b: string) {
    b != [] && (a == [] || a[0] < b[0] || (a[0] == b[0] && Less(a[1..], b[1..])))
  }

  lemma {:induction false} LessTotal(a: string, b: string)
    ensures Less(a, b) || a == b || Less(b, a)
    ensures !(Less(a, b) && Less(b, a)) && !Less(a, a)
  {
    if a != [] && b != [] {
      LessTotal(a[1..], b[1..]);
      assert a == [a[0]] + a[1..] && b == [b[0]] + b[1..];
    }
    if a != [] { LessTotal(a[1..], a[1..]); }
  }

  lemma {:induction false} LessTransitive(a: string, b: string, c: string)
    requires Less(a, b) && Less(b, c)
    ensures Less(a, c)
  {
    if a != [] && a[0] == b[0] && b[0] == c[0] {
      LessTransitive(a[1..], b[1..], c[1..]);
    }
  }

  ghost predicate Ascending(q: seq<string>) {
    forall i, j :: 0 <= i < j < |q| ==> Less(q[i], q[j])
  }

  /** `sorted` on a set of names. */
  method SortedNames(s: set<string>) returns (q: seq<string>)
    ensures Ascending(q)
    ensures forall x :: x in q <==> x in s
  {
    q := [];
    var rest := s;
    while rest != {}
      invariant rest <= s
      invariant forall x :: x in s <==> x in q || x in rest
      invariant Ascending(q)
      invariant forall x, y :: x in q && y in rest ==> Less(x, y)
      decreases |rest|
    {
      var least :| least in rest;
      var others := rest - {least};
      while others != {}
        invariant others <= rest && least in rest && least !in others
        invariant forall x :: x in rest && x !in others && x != least ==> Less(least, x)
        decreases |others|
      {
        var x :| x in others;
        others := others - {x};
        LessTotal(x, least);
        if Less(x, least) {
          forall y | y in rest && y !in others && y != x && y != least ensures Less(x, y) {
            LessTransitive(x, least, y);
          }
          least := x;
        }
      }
      q := q + [least];
      rest := rest - {least};
    }
  }

  lemma AscendingIsDistinct(q: seq<string>, x: string)
    requires Ascending(q)
    ensures multiset(q)[x] == if x in q then 1 else 0
  {
    if q != [] {
      var t := q[..|q| - 1];
      assert q == t + [q[|q| - 1]];
      AscendingIsDistinct(t, x);
      LessTotal(q[|q| - 1], q[|q| - 1]);
    }
  }

  // ----- one class present in both dumps -----

  datatype Fn = Fn(name: string, params: nat)

  /** A class's functions in declaration order, one per name. */
  ghost predicate Dict(fns: seq<Fn>) {
    forall i, j :: 0 <= i < j < |fns| ==> fns[i].name != fns[j].name
  }

  function Names(fns: seq<Fn>): set<string> { set i | 0 <= i < |fns| :: fns[i].name }

  function ParamsIn(fns: seq<Fn>, name: string, n: nat): nat
    requires n <= |fns|
  {
    if n == 0 then 0 else if fns[n - 1].name == name then fns[n - 1].params else ParamsIn(fns, name, n - 1)
  }

  /** The parameter count looked up by name. */
  function Params(fns: seq<Fn>, name: string): nat { ParamsIn(fns, name, |fns|) }

  function Threshold(name: string): nat {
    if |name| / 4 > 2 then |name| / 4 else 2
  }

  datatype Renumbering = Renumbering(was: string, now: string, oldOrd: string, newOrd: string)
  datatype Rename = Rename(was: string, now: string, distance: nat)

  datatype Report = Report(renumbered: seq<Renumbering>, renamed: seq<Rename>,
                           removed: seq<string>, added: seq<string>)

  type K2Map = map<string, (string, string)>

  /** `old_k2` over the first `n` old functions: for each prefix the last name and its ordinal. */
  function OldK2(fns: seq<Fn>, n: nat): K2Map
    requires n <= |fns|
  {
    if n == 0 then map[]
    else
      var (pfx, ord) := Strip(fns[n - 1].name);
      if ord.None? then OldK2(fns, n - 1)
      else OldK2(fns, n - 1)[pfx := (fns[n - 1].name, ord.value)]
  }

  /** A new function whose prefix the old dump knows under another name and ordinal. */
  predicate Renumbers(k2: K2Map, f: string) {
    var (pfx, ord) := Strip(f);
    ord.Some? && pfx in k2 && k2[pfx].1 != ord.value && f != k2[pfx].0
  }

  function LineFor(k2: K2Map, f: string): Renumbering
    requires Renumbers(k2, f)
  {
    var (pfx, ord) := Strip(f);
    Renumbering(k2[pfx].0, f, k2[pfx].1, ord.value)
  }

  /** The renumbering lines over the first `n` new functions. */
  function Renumbered(k2: K2Map, fns: seq<Fn>, n: nat): seq<Renumbering>
    requires n <= |fns|
  {
    if n == 0 then []
    else if Renumbers(k2, fns[n - 1].name) then Renumbered(k2, fns, n - 1) + [LineFor(k2, fns[n - 1].name)]
    else Renumbered(k2, fns, n - 1)
  }

  /** Old names the subtraction hides, and new names it hides. */
  function OldDone(k2: K2Map): set<string> { set pfx | pfx in k2 :: k2[pfx].0 }

  predicate NewIsDone(k2: K2Map, name: string) {
    Strip(name).1.Some? && Strip(name).0 in k2
  }

  function RemovedSet(oc: seq<Fn>, nc: seq<Fn>): set<string> {
    Names(oc) - Names(nc) - OldDone(OldK2(oc, |oc|))
  }

  function AddedSet(oc: seq<Fn>, nc: seq<Fn>): set<string> {
    set a | a in Names(nc) - Names(oc) && !NewIsDone(OldK2(oc, |oc|), a)
  }

  /** An old and a new name may be paired: equal arity and a distance within the threshold. */
  predicate Pairable(oc: seq<Fn>, nc: seq<Fn>, r: string, a: string) {
    Params(oc, r) == Params(nc, a) && Lev(r, a) <= Threshold(r)
  }

  function WasOf(rs: seq<Rename>): seq<string> { seq(|rs|, i requires 0 <= i < |rs| => rs[i].was) }
  function NowOf(rs: seq<Rename>): seq<string> { seq(|rs|, i requires 0 <= i < |rs| => rs[i].now) }

  /** No new name that was free when the pair was made is closer. */
  ghost predicate ClosestFree(oc: seq<Fn>, nc: seq<Fn>, m: Rename, taken: seq<string>) {
    forall a :: a in AddedSet(oc, nc) && a !in taken && Params(nc, a) == Params(oc, m.was) ==>
      m.distance <= Lev(m.was, a)
  }

  /**
   * The rename pairs found for the old names `done`: injective on both sides, each within the
   * threshold, each closest among the new names still free when it was made.
   */
  ghost predicate Paired(oc: seq<Fn>, nc: seq<Fn>, rs: seq<Rename>, done: set<string>) {
    && (forall i :: 0 <= i < |rs| ==>
          && rs[i].was in done && rs[i].now in AddedSet(oc, nc)
          && rs[i].distance == Lev(rs[i].was, rs[i].now)
          && Pairable(oc, nc, rs[i].was, rs[i].now))
    && (forall i, j :: 0 <= i < j < |rs| ==> rs[i].was != rs[j].was && rs[i].now != rs[j].now)
    && (forall i :: 0 <= i < |rs| ==> ClosestFree(oc, nc, rs[i], NowOf(rs[..i])))
  }

  /** Nothing pairable was left on the table. */
  ghost predicate NoneLeft(oc: seq<Fn>, nc: seq<Fn>, rs: seq<Rename>, done: set<string>) {
    forall r, a :: r in done && r !in WasOf(rs) && a in AddedSet(oc, nc) && a !in NowOf(rs) ==>
      !Pairable(oc, nc, r, a)
  }

  /** Everything the report of one class promises. */
  ghost predicate Reports(oc: seq<Fn>, nc: seq<Fn>, rep: Report) {
    && rep.renumbered == Renumbered(OldK2(oc, |oc|), nc, |nc|)
    && Paired(oc, nc, rep.renamed, RemovedSet(oc, nc))
    && NoneLeft(oc, nc, rep.renamed, RemovedSet(oc, nc))
    && Ascending(WasOf(rep.renamed)) && Ascending(rep.removed) && Ascending(rep.added)
    && (forall r :: r in rep.removed <==> r in RemovedSet(oc, nc) && r !in WasOf(rep.renamed))
    && (forall a :: a in rep.added <==> a in AddedSet(oc, nc) && a !in NowOf(rep.renamed))
  }

  /** The closest new name still free for `r`, ties broken by whatever order the set is walked in. */
  method Closest(oc: seq<Fn>, nc: seq<Fn>, r: string, added: set<string>, taken: set<string>)
      returns (best: Option<Rename>)
    ensures best.Some? ==>
      && best.value.was == r && best.value.now in added - taken
      && best.value.distance == Lev(r, best.value.now) && Pairable(oc, nc, r, best.value.now)
      && forall a :: a in added - taken && Params(nc, a) == Params(oc, r) ==> best.value.distance <= Lev(r, a)
    ensures best.None? ==> forall a :: a in added - taken ==> !Pairable(oc, nc, r, a)
  {
    best := None;
    var rest := added;
    while rest != {}
      invariant rest <= added
      invariant best.Some? ==>
        && best.value.was == r && best.value.now in added - taken
        && best.value.distance == Lev(r, best.value.now) && Pairable(oc, nc, r, best.value.now)
        && forall a :: a in added - taken && a !in rest && Params(nc, a) == Params(oc, r) ==>
             best.value.distance <= Lev(r, a)
      invariant best.None? ==> forall a :: a in added - taken && a !in rest ==> !Pairable(oc, nc, r, a)
      decreases |rest|
    {
      var a :| a in rest;
      rest := rest - {a};
      if a in taken { continue; }
      if Params(nc, a) != Params(oc, r) { continue; }
      var d := EditDistance(r, a);
      if d <= Threshold(r) {
        if best.None? || d < best.value.distance {
          best := Some(Rename(r, a, d));
        }
      }
    }
  }

  lemma PairedGrows(oc: seq<Fn>, nc: seq<Fn>, rs: seq<Rename>, done: set<string>, m: Rename)
    requires Paired(oc, nc, rs, done)
    requires m.was !in done && m.now in AddedSet(oc, nc) && m.now !in NowOf(rs)
    requires m.distance == Lev(m.was, m.now) && Pairable(oc, nc, m.was, m.now)
    requires ClosestFree(oc, nc, m, NowOf(rs))
    ensures Paired(oc, nc, rs + [m], done + {m.was})
  {
    var ns := rs + [m];
    assert ns[..|rs|] == rs;
    forall i | 0 <= i < |ns| ensures ClosestFree(oc, nc, ns[i], NowOf(ns[..i])) {
      if i < |rs| { assert ns[..i] == rs[..i] && ns[i] == rs[i]; }
    }
    forall i, j | 0 <= i < j < |ns| ensures ns[i].was != ns[j].was && ns[i].now != ns[j].now {
      if j == |rs| { assert NowOf(rs)[i] == rs[i].now; }
    }
  }

  lemma WasNowSnoc(rs: seq<Rename>, m: Rename)
    ensures WasOf(rs + [m]) == WasOf(rs) + [m.was]
    ensures NowOf(rs + [m]) == NowOf(rs) + [m.now]
  {
  }

  /** The greedy matcher: old names in sorted order, new names in any order. */
  method MatchRenames(oc: seq<Fn>, nc: seq<Fn>, removed: set<string>, added: set<string>)
      returns (renamed: seq<Rename>, matchedAdded: set<string>, matchedRemoved: set<string>)
    requires removed == RemovedSet(oc, nc) && added == AddedSet(oc, nc)
    ensures Paired(oc, nc, renamed, removed) && NoneLeft(oc, nc, renamed, removed)
    ensures Ascending(WasOf(renamed))
    ensures forall x :: x in matchedAdded <==> x in NowOf(renamed)
    ensures forall x :: x in matchedRemoved <==> x in WasOf(renamed)
  {
    hide Pairable, RemovedSet, AddedSet;
    var order := SortedNames(removed);
    renamed, matchedAdded, matchedRemoved := [], {}, {};
    ghost var done: set<string> := {};
    var i := 0;
    while i < |order|
      invariant 0 <= i <= |order|
      invariant done == set k | 0 <= k < i :: order[k]
      invariant Paired(oc, nc, renamed, done) && NoneLeft(oc, nc, renamed, done)
      invariant Ascending(WasOf(renamed))
      invariant forall x :: x in matchedAdded <==> x in NowOf(renamed)
      invariant forall x :: x in matchedRemoved <==> x in WasOf(renamed)
    {
      var r := order[i];
      var best := Closest(oc, nc, r, added, matchedAdded);
      LessTotal(r, r);
      assert forall k :: 0 <= k < i ==> Less(order[k], r) && order[k] != r by {
        forall k | 0 <= k < i ensures Less(order[k], r) && order[k] != r { }
      }
      assert r !in done;
      if best.Some? {
        var m := best.value;
        assert ClosestFree(oc, nc, m, NowOf(renamed));
        PairedGrows(oc, nc, renamed, done, m);
        WasNowSnoc(renamed, m);
        forall k | 0 <= k < |renamed| ensures Less(WasOf(renamed)[k], r) {
          assert renamed[k].was in done;
        }
        renamed := renamed + [m];
        matchedAdded := matchedAdded + {m.now};
        matchedRemoved := matchedRemoved + {r};
      }
      done := done + {r};
      i := i + 1;
    }
    assert done == removed by {
      assert forall x :: x in removed ==> x in order;
      assert forall k :: 0 <= k < |order| ==> order[k] in order;
    }
  }

  method IndexOldK2(oc: seq<Fn>) returns (k2: K2Map)
    ensures k2 == OldK2(oc, |oc|)
  {
    k2 := map[];
    var i := 0;
    while i < |oc|
      invariant 0 <= i <= |oc| && k2 == OldK2(oc, i)
    {
      var (pfx, ord) := Strip(oc[i].name);
      if ord.Some? { k2 := k2[pfx := (oc[i].name, ord.value)]; }
      i := i + 1;
    }
  }

  method ListRenumbered(k2: K2Map, nc: seq<Fn>) returns (lines: seq<Renumbering>)
    ensures lines == Renumbered(k2, nc, |nc|)
  {
    lines := [];
    var i := 0;
    while i < |nc|
      invariant 0 <= i <= |nc| && lines == Renumbered(k2, nc, i)
    {
      var f := nc[i].name;
      var (pfx, ord) := Strip(f);
      if ord.Some? && pfx in k2 {
        var (oldName, oldOrd) := k2[pfx];
        if oldOrd != ord.value && f != oldName {
          lines := lines + [Renumbering(oldName, f, oldOrd, ord.value)];
        }
      }
      i := i + 1;
    }
  }

  /** The function lines of the report for one class. */
  method DiffFunctions(oc: seq<Fn>, nc: seq<Fn>) returns (rep: Report)
    ensures Reports(oc, nc, rep)
  {
    var k2 := IndexOldK2(oc);
    var renumbered := ListRenumbered(k2, nc);
    var added := Names(nc) - Names(oc);
    var removed := Names(oc) - Names(nc);
    added := added - set a | a in Names(nc) && NewIsDone(k2, a);
    removed := removed - OldDone(k2);
    assert added == AddedSet(oc, nc);
    var renamed, matchedAdded, matchedRemoved := MatchRenames(oc, nc, removed, added);
    var removedList := SortedNames(removed - matchedRemoved);
    var addedList := SortedNames(added - matchedAdded);
    rep := Report(renumbered, renamed, removedList, addedList);
  }

  // ----- conservation -----

  /** How often a name is reported as gone, and as new. */
  ghost function TimesGone(rep: Report, r: string): nat {
    multiset(rep.removed)[r] + multiset(WasOf(rep.renamed))[r]
  }

  ghost function TimesNew(rep: Report, a: string): nat {
    multiset(rep.added)[a] + multiset(NowOf(rep.renamed))[a]
  }

  function RenumberedTo(xs: seq<Renumbering>): seq<string> { seq(|xs|, i requires 0 <= i < |xs| => xs[i].now) }

  lemma DistinctCount(q: seq<string>, x: string)
    requires forall i, j :: 0 <= i < j < |q| ==> q[i] != q[j]
    ensures multiset(q)[x] == if x in q then 1 else 0
  {
    if q != [] {
      var t := q[..|q| - 1];
      assert q == t + [q[|q| - 1]];
      DistinctCount(t, x);
    }
  }

  /** Every old name that the K2Node subtraction leaves is reported gone exactly once. */
  lemma GoneExactlyOnce(oc: seq<Fn>, nc: seq<Fn>, rep: Report, r: string)
    requires Reports(oc, nc, rep)
    ensures TimesGone(rep, r) == if r in RemovedSet(oc, nc) then 1 else 0
  {
    AscendingIsDistinct(rep.removed, r);
    AscendingIsDistinct(WasOf(rep.renamed), r);
    if r in WasOf(rep.renamed) {
      var i :| 0 <= i < |rep.renamed| && WasOf(rep.renamed)[i] == r;
      assert rep.renamed[i].was in RemovedSet(oc, nc);
    }
  }

  /** Every new name outside the K2Node renumberings is reported new exactly once. */
  lemma NewExactlyOnce(oc: seq<Fn>, nc: seq<Fn>, rep: Report, a: string)
    requires Reports(oc, nc, rep)
    ensures TimesNew(rep, a) == if a in AddedSet(oc, nc) then 1 else 0
  {
    AscendingIsDistinct(rep.added, a);
    forall i, j | 0 <= i < j < |rep.renamed| ensures NowOf(rep.renamed)[i] != NowOf(rep.renamed)[j] {
      assert rep.renamed[i].now != rep.renamed[j].now;
    }
    DistinctCount(NowOf(rep.renamed), a);
    if a in NowOf(rep.renamed) {
      var i :| 0 <= i < |rep.renamed| && NowOf(rep.renamed)[i] == a;
      assert rep.renamed[i].now in AddedSet(oc, nc);
    }
  }

  /** Splitting a K2Node name loses nothing. */
  lemma StripSplits(name: string)
    requires Strip(name).1.Some?
    ensures Strip(name).0 + Strip(name).1.value == name
  {
    var u := LastUnderscore(name);
    assert name[..u + 1] + name[u + 1..] == name;
  }

  lemma {:induction false} OldK2Entries(fns: seq<Fn>, n: nat, pfx: string)
    requires n <= |fns| && pfx in OldK2(fns, n)
    ensures var (was, ord) := OldK2(fns, n)[pfx];
      Strip(was) == (pfx, Some(ord)) && was in Names(fns)
  {
    if Strip(fns[n - 1].name).1.None? || Strip(fns[n - 1].name).0 != pfx { OldK2Entries(fns, n - 1, pfx); }
  }

  lemma {:induction false} RenumberedEntries(k2: K2Map, fns: seq<Fn>, n: nat, x: Renumbering)
    requires n <= |fns|
    ensures x in Renumbered(k2, fns, n)
       <==> exists i :: 0 <= i < n && Renumbers(k2, fns[i].name) && x == LineFor(k2, fns[i].name)
  {
    if n > 0 { RenumberedEntries(k2, fns, n - 1, x); }
  }

  ghost predicate HasFirst(fns: seq<Fn>, n: nat, a: string)
    requires n <= |fns|
  {
    exists i :: 0 <= i < n && fns[i].name == a
  }

  lemma FirstSnoc(fns: seq<Fn>, n: nat, a: string)
    requires 0 < n <= |fns|
    ensures HasFirst(fns, n, a) <==> HasFirst(fns, n - 1, a) || fns[n - 1].name == a
  {
  }

  lemma LineSnoc(k2: K2Map, before: seq<Renumbering>, f: string)
    requires Renumbers(k2, f)
    ensures RenumberedTo(before + [LineFor(k2, f)]) == RenumberedTo(before) + [f]
  {
    hide Strip, Renumbers;
  }

  lemma {:induction false} RenumberedToDistinct(k2: K2Map, fns: seq<Fn>, n: nat, a: string)
    requires n <= |fns| && Dict(fns)
    ensures multiset(RenumberedTo(Renumbered(k2, fns, n)))[a]
         == if HasFirst(fns, n, a) && Renumbers(k2, a) then 1 else 0
  {
    hide Strip, Renumbers, LineFor;
    if n > 0 {
      var before, f := Renumbered(k2, fns, n - 1), fns[n - 1].name;
      RenumberedToDistinct(k2, fns, n - 1, a);
      assert !HasFirst(fns, n - 1, f);
      FirstSnoc(fns, n, a);
      if Renumbers(k2, f) { LineSnoc(k2, before, f); }
    }
  }

  /** A new K2Node name hidden from `added` is a renumbering line, exactly once. */
  lemma HiddenNewIsRenumbered(oc: seq<Fn>, nc: seq<Fn>, rep: Report, a: string)
    requires Reports(oc, nc, rep) && Dict(nc)
    requires a in Names(nc) - Names(oc) && a !in AddedSet(oc, nc)
    ensures multiset(RenumberedTo(rep.renumbered))[a] == 1
  {
    var k2 := OldK2(oc, |oc|);
    var (pfx, ord) := Strip(a);
    OldK2Entries(oc, |oc|, pfx);
    StripSplits(a);
    StripSplits(k2[pfx].0);
    assert Renumbers(k2, a) && HasFirst(nc, |nc|, a);
    RenumberedToDistinct(k2, nc, |nc|, a);
  }

  /** Some new function is a K2Node name with the prefix of `r`. */
  ghost predicate PrefixSurvives(nc: seq<Fn>, r: string) {
    exists i :: 0 <= i < |nc| && Strip(nc[i].name).1.Some? && Strip(nc[i].name).0 == Strip(r).0
  }

  ghost predicate NamedAsOld(rep: Report, r: string) {
    exists x :: x in rep.renumbered && x.was == r
  }

  lemma NamedMeansPrefixSurvives(oc: seq<Fn>, nc: seq<Fn>, rep: Report, r: string)
    requires Reports(oc, nc, rep) && NamedAsOld(rep, r)
    ensures PrefixSurvives(nc, r)
  {
    var k2 := OldK2(oc, |oc|);
    var x :| x in rep.renumbered && x.was == r;
    RenumberedEntries(k2, nc, |nc|, x);
    var i :| 0 <= i < |nc| && Renumbers(k2, nc[i].name) && x == LineFor(k2, nc[i].name);
    OldK2Entries(oc, |oc|, Strip(nc[i].name).0);
  }

  /** The old name recorded for a prefix is the one whose own prefix that is. */
  lemma RecordedUnderOwnPrefix(oc: seq<Fn>, r: string)
    requires r in OldDone(OldK2(oc, |oc|))
    ensures Strip(r).1.Some? && Strip(r).0 in OldK2(oc, |oc|) && OldK2(oc, |oc|)[Strip(r).0].0 == r
  {
    var k2 := OldK2(oc, |oc|);
    var pfx :| pfx in k2 && k2[pfx].0 == r;
    OldK2Entries(oc, |oc|, pfx);
  }

  /** A new name with the prefix of a vanished old one is renumbered from it. */
  lemma NewcomerRenumbers(oc: seq<Fn>, f: string, r: string)
    requires r in OldDone(OldK2(oc, |oc|)) && Strip(f).1.Some? && Strip(f).0 == Strip(r).0 && f != r
    ensures Renumbers(OldK2(oc, |oc|), f) && LineFor(OldK2(oc, |oc|), f).was == r
  {
    hide Strip;
    RecordedUnderOwnPrefix(oc, r);
    OldK2Entries(oc, |oc|, Strip(r).0);
    StripSplits(f);
    StripSplits(r);
  }

  lemma SurvivingPrefixIsNamed(oc: seq<Fn>, nc: seq<Fn>, rep: Report, r: string)
    requires Reports(oc, nc, rep) && PrefixSurvives(nc, r)
    requires r !in Names(nc) && r in OldDone(OldK2(oc, |oc|))
    ensures NamedAsOld(rep, r)
  {
    hide Strip, OldK2, OldDone, Renumbers, LineFor, RemovedSet, AddedSet, Paired, NoneLeft;
    var k2 := OldK2(oc, |oc|);
    var i :| 0 <= i < |nc| && Strip(nc[i].name).1.Some? && Strip(nc[i].name).0 == Strip(r).0;
    var f := nc[i].name;
    assert f in Names(nc);
    NewcomerRenumbers(oc, f, r);
    RenumberedEntries(k2, nc, |nc|, LineFor(k2, f));
  }

  /**
   * Exactly which old names the subtraction loses: a name present only on the old side that is
   * the last of its K2Node prefix is never reported gone, and it is named by a renumbering line
   * if and only if some new function carries the same prefix.
   */
  lemma HiddenOldIsReportedIff(oc: seq<Fn>, nc: seq<Fn>, rep: Report, r: string)
    requires Reports(oc, nc, rep)
    requires r in Names(oc) - Names(nc) && r in OldDone(OldK2(oc, |oc|))
    ensures TimesGone(rep, r) == 0
    ensures NamedAsOld(rep, r) <==> PrefixSurvives(nc, r)
  {
    GoneExactlyOnce(oc, nc, rep, r);
    if NamedAsOld(rep, r) { NamedMeansPrefixSurvives(oc, nc, rep, r); }
    if PrefixSurvives(nc, r) { SurvivingPrefixIsNamed(oc, nc, rep, r); }
  }

  /** What is reported of a class with one K2Node function that is gone. */
  lemma OnlyOneRecorded(r: string, params: nat)
    requires Strip(r).1.Some?
    ensures var oc := [Fn(r, params)]; r in OldDone(OldK2(oc, |oc|)) && RemovedSet(oc, []) == {}
  {
    hide Strip;
    var oc := [Fn(r, params)];
    assert OldK2(oc, 1) == OldK2(oc, 0)[Strip(r).0 := (r, Strip(r).1.value)];
    assert Strip(r).0 in OldK2(oc, 1) && OldK2(oc, 1)[Strip(r).0].0 == r;
    assert Names(oc) == {r};
  }

  lemma FirstLines(oc: seq<Fn>, nc: seq<Fn>, rep: Report)
    requires Reports(oc, nc, rep)
    ensures rep.renamed != [] ==> rep.renamed[0].was in RemovedSet(oc, nc)
    ensures rep.removed != [] ==> rep.removed[0] in RemovedSet(oc, nc)
    ensures rep.added != [] ==> rep.added[0] in AddedSet(oc, nc)
  {
    hide RemovedSet, AddedSet, Pairable, Renumbered, OldK2;
    assert rep.removed != [] ==> rep.removed[0] in rep.removed;
    assert rep.added != [] ==> rep.added[0] in rep.added;
  }

  /**
   * Such losses are silent altogether: a class whose one function carries a K2Node ordinal and is
   * gone in the new dump has the empty report and no other.
   */
  lemma LostWithoutTrace(r: string, params: nat, rep: Report)
    requires Strip(r).1.Some?
    ensures Reports([Fn(r, params)], [], rep) <==> rep == Report([], [], [], [])
  {
    hide Strip, OldK2, OldDone, Pairable;
    var oc := [Fn(r, params)];
    OnlyOneRecorded(r, params);
    assert RemovedSet(oc, []) == {} && AddedSet(oc, []) == {};
    if Reports(oc, [], rep) {
      FirstLines(oc, [], rep);
    }
  }

  /** A name of that kind. */
  lemma SuchNamesExist()
    ensures Strip("K2Node_1") == ("K2Node_", Some("1"))
  {
    hide Strip;
    assert "K2Node_1" == "" + K2NODE + "" + "_" + "1" && "K2Node_" == "" + K2NODE + "" + "_";
    MatchIsStripped("K2Node_1", "", "", "1");
  }
}
