/**
 * `shelf_pack` of tools/client_model/atlas.py: next-fit packing of gutter-expanded
 * cells, taken in order of falling height, on shelves of a fixed canvas width.
 */
module ShelfPacking {
  import opened Results

  const GUTTER: nat := 1

  datatype Size = Size(name: string, w: nat, h: nat) {
    function CellW(): nat { w + 2 * GUTTER }
    function CellH(): nat { h + 2 * GUTTER }
  }

  datatype Point = Point(x: int, y: int)

  /** The open shelf: next free column, top row, and the tallest cell so far. */
  datatype Shelf = Shelf(x: nat, y: nat, rowH: nat) {
    function Bottom(): nat { y + rowH }
  }

  function Max(a: nat, b: nat): nat { if a < b then b else a }

  // ----- the stable sort by falling height -----

  function Insert(c: Size, s: seq<Size>): (r: seq<Size>)
    ensures |r| == |s| + 1
  {
    if s == [] then [c]
    else if s[0].h >= c.h then [s[0]] + Insert(c, s[1..])
    else [c] + s
  }

  function ByHeight(s: seq<Size>): (r: seq<Size>)
    ensures |r| == |s|
  {
    if s == [] then [] else Insert(s[|s| - 1], ByHeight(s[..|s| - 1]))
  }

  ghost predicate Falling(s: seq<Size>) {
    forall i, j :: 0 <= i < j < |s| ==> s[i].h >= s[j].h
  }

  function OfHeight(s: seq<Size>, h: nat): seq<Size>
  {
    if s == [] then []
    else OfHeight(s[..|s| - 1], h) + (if s[|s| - 1].h == h then [s[|s| - 1]] else [])
  }

  lemma OfHeightAppend(s: seq<Size>, t: seq<Size>, h: nat)
    ensures OfHeight(s + t, h) == OfHeight(s, h) + OfHeight(t, h)
  {
    if t == [] {
      assert s + t == s;
    } else {
      assert (s + t)[..|s + t| - 1] == s + t[..|t| - 1];
      OfHeightAppend(s, t[..|t| - 1], h);
    }
  }

  lemma OfHeightNone(s: seq<Size>, h: nat)
    requires forall c :: c in s ==> c.h != h
    ensures OfHeight(s, h) == []
  {
  }

  lemma {:induction false} InsertAdds(c: Size, s: seq<Size>)
    ensures multiset(Insert(c, s)) == multiset(s) + multiset{c}
  {
    if s != [] && s[0].h >= c.h {
      InsertAdds(c, s[1..]);
      assert s == [s[0]] + s[1..];
    }
  }

  lemma FallingCons(d: Size, s: seq<Size>)
    requires Falling(s) && forall x :: x in s ==> d.h >= x.h
    ensures Falling([d] + s)
  {
  }

  lemma {:induction false} InsertKeepsFalling(c: Size, s: seq<Size>)
    requires Falling(s)
    ensures Falling(Insert(c, s))
    ensures multiset(Insert(c, s)) == multiset(s) + multiset{c}
  {
    InsertAdds(c, s);
    if s != [] && s[0].h >= c.h {
      InsertKeepsFalling(c, s[1..]);
      InsertAdds(c, s[1..]);
      var rest := Insert(c, s[1..]);
      hide Falling;
      forall x | x in rest ensures s[0].h >= x.h { StillLower(s, c, rest, x); }
      FallingCons(s[0], rest);
    }
  }

  lemma StillLower(s: seq<Size>, c: Size, rest: seq<Size>, x: Size)
    requires s != [] && Falling(s) && s[0].h >= c.h && x in rest
    requires multiset(rest) == multiset(s[1..]) + multiset{c}
    ensures s[0].h >= x.h
  {
    assert x in multiset(rest);
    if x != c {
      assert x in multiset(s[1..]);
      var k :| 0 <= k < |s[1..]| && s[1..][k] == x;
      assert s[k + 1] == x;
    }
  }

  lemma {:induction false} InsertIsStable(c: Size, s: seq<Size>, h: nat)
    requires Falling(s)
    ensures OfHeight(Insert(c, s), h) == OfHeight(s + [c], h)
  {
    if s != [] && s[0].h >= c.h {
      InsertIsStable(c, s[1..], h);
      OfHeightAppend([s[0]], Insert(c, s[1..]), h);
      assert s + [c] == [s[0]] + (s[1..] + [c]);
      OfHeightAppend([s[0]], s[1..] + [c], h);
    } else {
      assert Insert(c, s) == [c] + s;
      OfHeightAppend([c], s, h);
      OfHeightAppend(s, [c], h);
      if h == c.h { OfHeightNone(s, h); } else { OfHeightNone([c], h); }
    }
  }

  /** Sorting keeps every size, orders by falling height, and keeps ties in listing order. */
  lemma {:induction false} ByHeightIsStableSort(s: seq<Size>)
    ensures Falling(ByHeight(s))
    ensures multiset(ByHeight(s)) == multiset(s)
    ensures forall h: nat :: OfHeight(ByHeight(s), h) == OfHeight(s, h)
  {
    if s != [] {
      var t, c := s[..|s| - 1], s[|s| - 1];
      assert s == t + [c];
      ByHeightIsStableSort(t);
      InsertKeepsFalling(c, ByHeight(t));
      forall h: nat ensures OfHeight(ByHeight(s), h) == OfHeight(s, h) {
        InsertIsStable(c, ByHeight(t), h);
        OfHeightAppend(ByHeight(t), [c], h);
        OfHeightAppend(t, [c], h);
      }
    }
  }

  // ----- the shelf walk -----

  /** Where the next cell goes: on this shelf if it fits, else at the start of a new one. */
  function Wrap(s: Shelf, c: Size, W: nat): Shelf {
    if s.x + c.CellW() > W then Shelf(0, s.Bottom(), 0) else s
  }

  function Put(s: Shelf, c: Size, W: nat): Shelf {
    var t := Wrap(s, c, W);
    Shelf(t.x + c.CellW(), t.y, Max(t.rowH, c.CellH()))
  }

  /** The shelf once the first `n` cells are down. */
  function After(cells: seq<Size>, n: nat, W: nat): Shelf
    requires n <= |cells|
  {
    if n == 0 then Shelf(0, 0, 0) else Put(After(cells, n - 1, W), cells[n - 1], W)
  }

  /** The top-left corner of the gutter cell given to `cells[i]`. */
  function Corner(cells: seq<Size>, i: nat, W: nat): Point
    requires i < |cells|
  {
    var t := Wrap(After(cells, i, W), cells[i], W);
    Point(t.x, t.y)
  }

  function TileCorner(cells: seq<Size>, i: nat, W: nat): Point
    requires i < |cells|
  {
    Point(Corner(cells, i, W).x + GUTTER, Corner(cells, i, W).y + GUTTER)
  }

  /** The dictionary `pos` over the first `n` cells, the last cell of a name winning. */
  function Positions(cells: seq<Size>, n: nat, W: nat): map<string, Point>
    requires n <= |cells|
  {
    if n == 0 then map[]
    else Positions(cells, n - 1, W)[cells[n - 1].name := TileCorner(cells, n - 1, W)]
  }

  function UsedHeight(cells: seq<Size>, W: nat): nat {
    After(cells, |cells|, W).Bottom()
  }

  ghost predicate Fits(sizes: seq<Size>, W: nat) {
    forall i :: 0 <= i < |sizes| ==> sizes[i].CellW() <= W
  }

  lemma SameMembers(s: seq<Size>, t: seq<Size>, i: nat)
    requires multiset(s) == multiset(t) && i < |s|
    ensures s[i] in t
  {
    assert s[i] in multiset(t);
  }

  lemma FitsIsOrderFree(s: seq<Size>, W: nat)
    ensures Fits(s, W) <==> Fits(ByHeight(s), W)
  {
    var t := ByHeight(s);
    ByHeightIsStableSort(s);
    if Fits(t, W) {
      forall i | 0 <= i < |s| ensures s[i].CellW() <= W { SameMembers(s, t, i); }
    }
    if Fits(s, W) {
      forall i | 0 <= i < |t| ensures t[i].CellW() <= W { SameMembers(t, s, i); }
    }
  }

  /** The loop of `shelf_pack`, over cells already in order. */
  method WalkShelves(cell: seq<Size>, canvasW: nat) returns (pos: Option<map<string, Point>>, usedH: nat)
    ensures pos.Some? <==> Fits(cell, canvasW)
    ensures pos.Some? ==> pos.value == Positions(cell, |cell|, canvasW)
    ensures usedH == if pos.Some? then UsedHeight(cell, canvasW) else 0
  {
    var x: nat, y: nat, rowH: nat := 0, 0, 0;
    var placed: map<string, Point> := map[];
    var i := 0;
    while i < |cell|
      invariant 0 <= i <= |cell|
      invariant After(cell, i, canvasW) == Shelf(x, y, rowH)
      invariant placed == Positions(cell, i, canvasW)
      invariant forall k :: 0 <= k < i ==> cell[k].CellW() <= canvasW
    {
      var cw, ch := cell[i].CellW(), cell[i].CellH();
      if cw > canvasW {
        return None, 0;
      }
      if x + cw > canvasW {
        x, y, rowH := 0, y + rowH, 0;
      }
      placed := placed[cell[i].name := Point(x + GUTTER, y + GUTTER)];
      x := x + cw;
      rowH := Max(rowH, ch);
      i := i + 1;
    }
    return Some(placed), y + rowH;
  }

  /** `shelf_pack`; `None` when some cell alone is wider than the canvas. */
  method ShelfPack(sizes: seq<Size>, canvasW: nat) returns (pos: Option<map<string, Point>>, usedH: nat)
    ensures pos.Some? <==> Fits(sizes, canvasW)
    ensures pos.Some? ==> pos.value == Positions(ByHeight(sizes), |sizes|, canvasW)
    ensures usedH == if pos.Some? then UsedHeight(ByHeight(sizes), canvasW) else 0
  {
    FitsIsOrderFree(sizes, canvasW);
    pos, usedH := WalkShelves(ByHeight(sizes), canvasW);
  }

  // ----- where the cells are -----

  /** Two placed cells occupy disjoint rectangles. */
  ghost predicate Apart(p: Point, c: Size, q: Point, d: Size) {
    || p.x + c.CellW() <= q.x || q.x + d.CellW() <= p.x
    || p.y + c.CellH() <= q.y || q.y + d.CellH() <= p.y
  }

  /** A placed cell is above the open shelf's top, or on the open shelf left of its free column. */
  ghost predicate Behind(p: Point, c: Size, s: Shelf) {
    || p.y + c.CellH() <= s.y
    || (p.y == s.y && p.x + c.CellW() <= s.x && c.CellH() <= s.rowH)
  }

  lemma {:induction false} EarlierCellsStayBehind(cells: seq<Size>, i: nat, n: nat, W: nat)
    requires i < n <= |cells|
    ensures Behind(Corner(cells, i, W), cells[i], After(cells, n, W))
  {
    if i < n - 1 { EarlierCellsStayBehind(cells, i, n - 1, W); }
  }

  /** Every cell lies inside the canvas width and the used height. */
  lemma CellsInside(cells: seq<Size>, i: nat, W: nat)
    requires i < |cells| && Fits(cells, W)
    ensures var p := Corner(cells, i, W);
      0 <= p.x && p.x + cells[i].CellW() <= W &&
      0 <= p.y && p.y + cells[i].CellH() <= UsedHeight(cells, W)
  {
    EarlierCellsStayBehind(cells, i, |cells|, W);
  }

  /** No two cells overlap, whatever the sizes. */
  lemma CellsDisjoint(cells: seq<Size>, i: nat, j: nat, W: nat)
    requires i < j < |cells|
    ensures Apart(Corner(cells, i, W), cells[i], Corner(cells, j, W), cells[j])
  {
    EarlierCellsStayBehind(cells, i, j, W);
  }

  ghost predicate Named(cells: seq<Size>, n: nat, name: string)
    requires n <= |cells|
  {
    exists i :: 0 <= i < n && cells[i].name == name
  }

  /** The last of the first `n` cells carrying a name. */
  ghost function LastOf(cells: seq<Size>, n: nat, name: string): (i: nat)
    requires n <= |cells| && Named(cells, n, name)
    ensures i < n && cells[i].name == name
    ensures forall k :: i < k < n ==> cells[k].name != name
  {
    if cells[n - 1].name == name then n - 1 else LastOf(cells, n - 1, name)
  }

  /** `pos` holds exactly the packed names, each at the corner of the last cell of that name. */
  lemma {:induction false} PositionsAreCorners(cells: seq<Size>, n: nat, W: nat, name: string)
    requires n <= |cells|
    ensures name in Positions(cells, n, W) <==> Named(cells, n, name)
    ensures Named(cells, n, name) ==>
      Positions(cells, n, W)[name] == TileCorner(cells, LastOf(cells, n, name), W)
  {
    if n > 0 { PositionsAreCorners(cells, n - 1, W, name); }
  }

  // ----- row by row -----

  /** Cells `f` to `i` are on one shelf, which cell `f` opened. */
  ghost predicate OneShelf(cells: seq<Size>, f: nat, i: nat, W: nat)
    requires f <= i < |cells|
  {
    Corner(cells, f, W).x == 0 && forall k :: f <= k <= i ==> Corner(cells, k, W).y == Corner(cells, i, W).y
  }

  /** `h` is the height of the tallest of the cells `f` to `i`. */
  ghost predicate TallestOf(cells: seq<Size>, f: nat, i: nat, h: int)
    requires f <= i < |cells|
  {
    (forall k :: f <= k <= i ==> cells[k].CellH() <= h) && exists k :: f <= k <= i && cells[k].CellH() == h
  }

  lemma {:induction false} ShelfSoFar(cells: seq<Size>, i: nat, W: nat) returns (f: nat)
    requires i < |cells|
    ensures f <= i && OneShelf(cells, f, i, W) && TallestOf(cells, f, i, After(cells, i + 1, W).rowH)
    ensures var s, c := After(cells, i + 1, W), Corner(cells, i, W); s.x == c.x + cells[i].CellW() && s.y == c.y
  {
    var before := After(cells, i, W);
    if i == 0 || before.x + cells[i].CellW() > W {
      f := i;
      assert cells[f].CellH() == After(cells, i + 1, W).rowH;
    } else {
      f := ShelfSoFar(cells, i - 1, W);
      assert Corner(cells, i, W).y == Corner(cells, i - 1, W).y;
      if k :| f <= k <= i - 1 && cells[k].CellH() == before.rowH {
        assert cells[k].CellH() == After(cells, i + 1, W).rowH || cells[i].CellH() == After(cells, i + 1, W).rowH;
      }
    }
  }

  /**
   * Each further cell goes right beside the one before where it still fits the width, and else to the
   * left edge under the tallest cell of that one's row.
   */
  lemma RowByRow(cells: seq<Size>, i: nat, W: nat) returns (f: nat)
    requires i + 1 < |cells|
    ensures f <= i && OneShelf(cells, f, i, W)
    ensures var p, q := Corner(cells, i, W), Corner(cells, i + 1, W);
      if p.x + cells[i].CellW() + cells[i + 1].CellW() <= W then q == Point(p.x + cells[i].CellW(), p.y)
      else q.x == 0 && TallestOf(cells, f, i, q.y - p.y)
  {
    f := ShelfSoFar(cells, i, W);
    hide OneShelf, TallestOf, After;
  }

  lemma FirstCorner(cells: seq<Size>, W: nat)
    requires cells != []
    ensures Corner(cells, 0, W) == Point(0, 0)
  {
  }

  // ----- the height bound -----

  function Area(cells: seq<Size>): nat
  {
    if cells == [] then 0
    else Area(cells[..|cells| - 1]) + cells[|cells| - 1].CellW() * cells[|cells| - 1].CellH()
  }

  function Tallest(cells: seq<Size>): nat
  {
    if cells == [] then 0
    else Max(Tallest(cells[..|cells| - 1]), cells[|cells| - 1].CellH())
  }

  lemma AreaStep(cells: seq<Size>, n: nat)
    requires 0 < n <= |cells|
    ensures Area(cells[..n]) == Area(cells[..n - 1]) + cells[n - 1].CellW() * cells[n - 1].CellH()
  {
    assert cells[..n][..n - 1] == cells[..n - 1];
  }

  /**
   * The walk's ledger: `closed` is the area on finished shelves, `open` the area on the open
   * one, `first` the area of the open shelf's first cell. Each new shelf is paid for by the
   * shelf it closes together with the cell that did not fit on it.
   */
  ghost predicate Ledger(cells: seq<Size>, n: nat, W: nat, closed: nat, open: nat, first: nat)
    requires 0 < n <= |cells|
  {
    var s := After(cells, n, W);
    && Area(cells[..n]) == closed + open
    && first <= open
    && s.rowH >= cells[n - 1].CellH()
    && s.x * cells[n - 1].CellH() <= open
    && W * s.Bottom() <= W * cells[0].CellH() + 2 * closed + first
  }

  lemma NewShelfLedger(W: nat, x: nat, cw: nat, ch: nat, last: nat,
                       bottom: nat, tall: nat, closed: nat, open: nat, first: nat)
    requires x + cw > W && last >= ch && x * last <= open && first <= open
    requires W * bottom <= W * tall + 2 * closed + first
    ensures W * (bottom + ch) <= W * tall + 2 * (closed + open) + cw * ch
  {
    assert x * ch <= x * last;
    assert W * ch <= (x + cw) * ch == x * ch + cw * ch;
    assert W * (bottom + ch) == W * bottom + W * ch;
  }

  lemma SameShelfLedger(x: nat, cw: nat, ch: nat, last: nat, open: nat)
    requires last >= ch && x * last <= open
    ensures (x + cw) * ch <= open + cw * ch
  {
    assert x * ch <= x * last;
    assert (x + cw) * ch == x * ch + cw * ch;
  }

  lemma {:induction false} LedgerHolds(cells: seq<Size>, n: nat, W: nat)
      returns (closed: nat, open: nat, first: nat)
    requires 0 < n <= |cells| && Falling(cells) && Fits(cells, W)
    ensures Ledger(cells, n, W, closed, open, first)
  {
    var c := cells[n - 1];
    var cw, ch := c.CellW(), c.CellH();
    var own := cw * ch;
    AreaStep(cells, n);
    if n == 1 {
      assert cells[..0] == [];
      assert After(cells, 0, W) == Shelf(0, 0, 0);
      return 0, own, own;
    }
    closed, open, first := LedgerHolds(cells, n - 1, W);
    var s, last := After(cells, n - 1, W), cells[n - 2].CellH();
    if s.x + cw > W {
      NewShelfLedger(W, s.x, cw, ch, last, s.Bottom(), cells[0].CellH(), closed, open, first);
      assert After(cells, n, W) == Shelf(cw, s.Bottom(), ch);
      return closed + open, own, own;
    } else {
      SameShelfLedger(s.x, cw, ch, last, open);
      assert After(cells, n, W) == Shelf(s.x + cw, s.y, s.rowH);
      return closed, open + own, first;
    }
  }

  lemma MulMono(w: nat, a: nat, b: nat)
    requires a <= b
    ensures w * a <= w * b
  {
  }

  lemma FallingHeightBound(cells: seq<Size>, W: nat)
    requires Falling(cells) && Fits(cells, W) && cells != []
    ensures W * UsedHeight(cells, W) <= W * cells[0].CellH() + 2 * Area(cells)
  {
    var closed, open, first := LedgerHolds(cells, |cells|, W);
    assert cells[..|cells|] == cells;
  }

  /**
   * Next-fit by falling height wastes less than half the canvas, up to one tallest row:
   * used height times width is at most twice the cell area plus one row of the tallest cell.
   */
  lemma UsedHeightBound(sizes: seq<Size>, W: nat)
    requires Fits(sizes, W)
    ensures W * UsedHeight(ByHeight(sizes), W) <= W * Tallest(sizes) + 2 * Area(sizes)
  {
    var cells := ByHeight(sizes);
    ByHeightIsStableSort(sizes);
    FitsIsOrderFree(sizes, W);
    AreaOfPermutation(sizes, cells);
    if sizes != [] {
      FallingHeightBound(cells, W);
      SameMembers(cells, sizes, 0);
      TallestIsUpper(sizes, cells[0]);
      MulMono(W, cells[0].CellH(), Tallest(sizes));
    }
  }

  lemma AreaAppend(s: seq<Size>, t: seq<Size>)
    ensures Area(s + t) == Area(s) + Area(t)
  {
    if t == [] {
      assert s + t == s;
    } else {
      assert (s + t)[..|s + t| - 1] == s + t[..|t| - 1];
      AreaAppend(s, t[..|t| - 1]);
    }
  }

  lemma AreaOfOne(c: Size)
    ensures Area([c]) == c.CellW() * c.CellH()
  {
    hide Size.CellW, Size.CellH;
    assert [c][..0] == [];
  }

  lemma AreaWithout(t: seq<Size>, k: nat)
    requires k < |t|
    ensures Area(t) == Area(t[..k] + t[k + 1..]) + t[k].CellW() * t[k].CellH()
  {
    hide Area, Size.CellW, Size.CellH;
    var c := t[k];
    AreaOfOne(c);
    assert t == t[..k] + [c] + t[k + 1..];
    AreaAppend(t[..k], t[k + 1..]);
    AreaAppend(t[..k] + [c], t[k + 1..]);
    AreaAppend(t[..k], [c]);
  }

  /** Taking one element out of two lists with the same elements leaves two such lists. */
  lemma SameWithout(s: seq<Size>, t: seq<Size>) returns (k: nat)
    requires s != [] && multiset(s) == multiset(t)
    ensures k < |t| && t[k] == s[|s| - 1] && multiset(s[..|s| - 1]) == multiset(t[..k] + t[k + 1..])
  {
    var c := s[|s| - 1];
    assert c in multiset(t);
    k :| 0 <= k < |t| && t[k] == c;
    assert s == s[..|s| - 1] + [c];
    assert t == t[..k] + [c] + t[k + 1..];
    assert multiset(s[..|s| - 1]) == multiset(s) - multiset{c};
  }

  lemma {:induction false} AreaOfPermutation(s: seq<Size>, t: seq<Size>)
    requires multiset(s) == multiset(t)
    ensures Area(s) == Area(t)
    decreases |s|
  {
    if s == [] {
      assert |multiset(t)| == 0;
      assert t == [];
    } else {
      var k := SameWithout(s, t);
      AreaOfPermutation(s[..|s| - 1], t[..k] + t[k + 1..]);
      AreaWithout(t, k);
    }
  }

  lemma {:induction false} TallestIsUpper(s: seq<Size>, c: Size)
    requires c in s
    ensures c.CellH() <= Tallest(s)
  {
    var t, d := s[..|s| - 1], s[|s| - 1];
    assert s == t + [d];
    if c != d { TallestIsUpper(t, c); }
  }
}
