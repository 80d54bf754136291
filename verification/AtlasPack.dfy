/**
 * `pack` of tools/client_model/atlas.py: choose a canvas, paste every tile with its
 * clamp-extended gutter in place, and check the cells against each other.
 */
module AtlasPack {
  import opened Results
  import opened Images
  import opened ShelfPacking
  import opened AtlasSampling

  datatype Tile = Tile(name: string, im: Image)

  function SizeOf(t: Tile): Size { Size(t.name, t.im.w, t.im.h) }

  function Sizes(tiles: seq<Tile>): (s: seq<Size>)
    ensures |s| == |tiles| && forall i :: 0 <= i < |s| ==> s[i] == SizeOf(tiles[i])
  {
    seq(|tiles|, i requires 0 <= i < |tiles| => SizeOf(tiles[i]))
  }

  // ----- canvas search -----

  /** The canvas widths tried, smallest first. */
  const CANVASES: seq<nat> := [128, 256, 512, 1024]

  ghost predicate FitsCanvas(sizes: seq<Size>, c: nat) {
    Fits(sizes, c) && UsedHeight(ByHeight(sizes), c) <= c
  }

  datatype Canvases = Canvases(w: nat, h: nat, pos: map<string, Point>)

  /** The least listed height that is enough. */
  method LeastHeight(used: nat, limit: nat) returns (h: nat)
    requires limit in CANVASES && used <= limit
    ensures h in CANVASES && used <= h <= limit
    ensures forall c :: c in CANVASES && c < h ==> c < used
  {
    var j := 0;
    while CANVASES[j] < used
      invariant 0 <= j < |CANVASES| && CANVASES[j] <= limit
      invariant forall i :: 0 <= i < j ==> CANVASES[i] < used
      decreases |CANVASES| - j
    {
      j := j + 1;
    }
    return CANVASES[j];
  }

  /** The first canvas edge on which everything fits. */
  method ChooseCanvas(sizes: seq<Size>) returns (r: Option<Canvases>)
    ensures r.None? <==> forall c :: c in CANVASES ==> !FitsCanvas(sizes, c)
    ensures r.Some? ==>
      && r.value.w in CANVASES && r.value.h in CANVASES
      && FitsCanvas(sizes, r.value.w)
      && (forall c :: c in CANVASES && c < r.value.w ==> !FitsCanvas(sizes, c))
      && UsedHeight(ByHeight(sizes), r.value.w) <= r.value.h <= r.value.w
      && (forall c :: c in CANVASES && c < r.value.h ==> c < UsedHeight(ByHeight(sizes), r.value.w))
      && r.value.pos == Positions(ByHeight(sizes), |sizes|, r.value.w)
  {
    hide UsedHeight, ByHeight, Positions;
    var k := 0;
    while k < |CANVASES|
      invariant 0 <= k <= |CANVASES|
      invariant forall i :: 0 <= i < k ==> !FitsCanvas(sizes, CANVASES[i])
    {
      var W := CANVASES[k];
      var pos, used := ShelfPack(sizes, W);
      if pos.Some? && used <= W {
        assert W in CANVASES && FitsCanvas(sizes, W);
        var h := LeastHeight(used, W);
        return Some(Canvases(W, h, pos.value));
      }
      k := k + 1;
    }
    return None;
  }

  /** Tiles that respect the half-full bound at 1024 never make the packer give up. */
  lemma SmallTilesFit(sizes: seq<Size>)
    requires Fits(sizes, 1024)
    requires 2 * Area(sizes) + 1024 * Tallest(sizes) <= 1024 * 1024
    ensures FitsCanvas(sizes, 1024) && 1024 in CANVASES
  {
    UsedHeightBound(sizes, 1024);
    assert CANVASES[3] == 1024;
  }

  // ----- painting one tile -----

  predicate InCell(r: Rect, i: int, j: int) {
    r.x - 1 <= i <= r.x + r.w && r.y - 1 <= j <= r.y + r.h
  }

  function RectOf(im: Image, x: int, y: int): Rect { Rect(x, y, im.w, im.h) }

  /** Only the cell changed, and (when it is on the canvas) it now shows the picture. */
  ghost predicate Painted(before: Image, after: Image, im: Image, x: int, y: int) {
    var r := RectOf(im, x, y);
    && after.w == before.w && after.h == before.h
    && (forall i, j :: 0 <= i < after.w && 0 <= j < after.h && !InCell(r, i, j) ==>
          At(after, i, j) == At(before, i, j))
    && (CellInside(r, after.w, after.h) ==> Holds(after, im, r))
  }

  /** The picture and its left and right gutter columns. */
  method PaintRows(c: Canvas, im: Image, x: int, y: int)
    requires c.Valid()
    modifies c.px
    ensures forall i, j :: 0 <= i < c.w && 0 <= j < c.h && !InCell(RectOf(im, x, y), i, j) ==>
      c.px[j, i] == old(c.px[j, i])
    ensures forall i, j :: 0 <= i < c.w && 0 <= j < c.h && x - 1 <= i <= x + im.w && y <= j < y + im.h ==>
      c.px[j, i] == ClampAt(im, i - x, j - y)
  {
    c.Paste(im, x, y);
    c.Paste(Part(im, 0, 0, 1, im.h), x - 1, y);
    c.Paste(Part(im, im.w - 1, 0, im.w, im.h), x + im.w, y);
  }

  /** Copies the `n` pixels of one row onto another row. */
  method CopyRow(c: Canvas, x: int, n: nat, from: int, to: int)
    requires c.Valid() && n >= 1 && from != to
    modifies c.px
    ensures forall i, j :: 0 <= i < c.w && 0 <= j < c.h ==>
      c.px[j, i] == if j == to && x <= i < x + n then old(c.Seen(i, from)) else old(c.px[j, i])
  {
    var row := c.Crop(x, from, n, 1);
    c.Paste(row, x, to);
    assert forall k :: 0 <= k < n ==> At(row, k, 0) == old(c.Seen(x + k, from + 0));
  }

  /** The four pastes and copies on their own: which pixel shows what. */
  method PaintCell(c: Canvas, im: Image, x: int, y: int)
    requires c.Valid()
    modifies c.px
    ensures forall i, j :: 0 <= i < c.w && 0 <= j < c.h && !InCell(RectOf(im, x, y), i, j) ==>
      c.px[j, i] == old(c.px[j, i])
    ensures CellInside(RectOf(im, x, y), c.w, c.h) ==>
      forall i, j :: 0 <= i < c.w && 0 <= j < c.h && InCell(RectOf(im, x, y), i, j) ==>
        c.px[j, i] == ClampAt(im, i - x, j - y)
  {
    PaintRows(c, im, x, y);
    CopyRow(c, x - 1, im.w + 2, y, y - 1);
    CopyRow(c, x - 1, im.w + 2, y + im.h - 1, y + im.h);
  }

  /** One tile with its gutter: the rows above and below copy the finished edge rows. */
  method PaintTile(c: Canvas, im: Image, x: int, y: int)
    requires c.Valid()
    modifies c.px
    ensures Painted(old(c.Picture()), c.Picture(), im, x, y)
  {
    hide ClampAt;
    PaintCell(c, im, x, y);
    ghost var r := RectOf(im, x, y);
    if CellInside(r, c.w, c.h) {
      forall i, j | -1 <= i <= im.w && -1 <= j <= im.h ensures c.px[y + j, x + i] == ClampAt(im, i, j) {
        assert InCell(r, x + i, y + j);
      }
    }
  }

  // ----- what the packer promises -----

  /** Tiles that share a name are the same picture; distinct names always qualify. */
  ghost predicate NamesDetermineImages(tiles: seq<Tile>) {
    forall i, j :: 0 <= i < j < |tiles| && tiles[i].name == tiles[j].name ==> tiles[i].im == tiles[j].im
  }

  ghost predicate CellsApart(a: Rect, b: Rect) {
    || a.x + a.w + 1 <= b.x - 1 || b.x + b.w + 1 <= a.x - 1
    || a.y + a.h + 1 <= b.y - 1 || b.y + b.h + 1 <= a.y - 1
  }

  ghost predicate AllApart(rects: map<string, Rect>) {
    forall m, n :: m in rects && n in rects && m != n ==> CellsApart(rects[m], rects[n])
  }

  /** The tile can be found in the atlas under its name. */
  ghost predicate Faithful(atlas: Image, rects: map<string, Rect>, t: Tile) {
    t.name in rects && Holds(atlas, t.im, rects[t.name])
  }

  /** The rectangle recorded for a name once its last listed tile is painted. */
  function RectAt(pos: map<string, Point>, t: Tile): Rect
    requires t.name in pos
  {
    Rect(pos[t.name].x, pos[t.name].y, t.im.w, t.im.h)
  }

  /** `cells` are the tiles' cells, in any order. */
  ghost predicate Arranged(tiles: seq<Tile>, cells: seq<Size>) {
    |cells| == |tiles| && multiset(cells) == multiset(Sizes(tiles))
  }

  lemma NamesArePlaced(tiles: seq<Tile>, cells: seq<Size>, k: nat)
    requires k < |tiles| && Arranged(tiles, cells)
    ensures Named(cells, |cells|, tiles[k].name)
  {
    var sizes := Sizes(tiles);
    SameMembers(sizes, cells, k);
    var i :| 0 <= i < |cells| && cells[i] == sizes[k];
    assert cells[i].name == tiles[k].name;
  }

  /** The cell that `pos` gives a name, when names determine images, has that tile's size. */
  lemma PlacedCell(tiles: seq<Tile>, cells: seq<Size>, k: nat, W: nat) returns (i: nat)
    requires k < |tiles| && NamesDetermineImages(tiles) && Arranged(tiles, cells)
    ensures i < |cells| && cells[i] == SizeOf(tiles[k])
    ensures tiles[k].name in Positions(cells, |cells|, W)
    ensures Positions(cells, |cells|, W)[tiles[k].name] == TileCorner(cells, i, W)
  {
    var sizes := Sizes(tiles);
    NamesArePlaced(tiles, cells, k);
    PositionsAreCorners(cells, |cells|, W, tiles[k].name);
    i := LastOf(cells, |cells|, tiles[k].name);
    SameMembers(cells, sizes, i);
    var m :| 0 <= m < |sizes| && sizes[m] == cells[i];
    SameNameSameImage(tiles, m, k);
  }

  lemma SameNameSameImage(tiles: seq<Tile>, k: nat, l: nat)
    requires NamesDetermineImages(tiles) && k < |tiles| && l < |tiles|
    requires tiles[k].name == tiles[l].name
    ensures tiles[k].im == tiles[l].im
  {
    if k < l { assert tiles[k].im == tiles[l].im; } else if l < k { assert tiles[l].im == tiles[k].im; }
  }

  lemma TileCellInside(tiles: seq<Tile>, cells: seq<Size>, pos: map<string, Point>, k: nat, W: nat, H: nat)
    requires k < |tiles| && NamesDetermineImages(tiles) && Arranged(tiles, cells)
    requires pos == Positions(cells, |cells|, W) && Fits(cells, W) && UsedHeight(cells, W) <= H
    ensures tiles[k].name in pos && CellInside(RectAt(pos, tiles[k]), W, H)
  {
    var i := PlacedCell(tiles, cells, k, W);
    CellsInside(cells, i, W);
  }

  lemma TileCellsApart(tiles: seq<Tile>, cells: seq<Size>, pos: map<string, Point>, k: nat, l: nat, W: nat)
    requires k < |tiles| && l < |tiles| && tiles[k].name != tiles[l].name
    requires NamesDetermineImages(tiles) && Arranged(tiles, cells) && pos == Positions(cells, |cells|, W)
    ensures tiles[k].name in pos && tiles[l].name in pos
    ensures CellsApart(RectAt(pos, tiles[k]), RectAt(pos, tiles[l]))
  {
    var i := PlacedCell(tiles, cells, k, W);
    var j := PlacedCell(tiles, cells, l, W);
    if i < j {
      CellsDisjoint(cells, i, j, W);
    } else {
      assert j < i;
      CellsDisjoint(cells, j, i, W);
    }
  }

  /** The positions give every tile a cell of its own on a `W` by `H` canvas. */
  ghost predicate Clean(tiles: seq<Tile>, pos: map<string, Point>, W: nat, H: nat)
    requires forall k :: 0 <= k < |tiles| ==> tiles[k].name in pos
  {
    && NamesDetermineImages(tiles)
    && (forall k :: 0 <= k < |tiles| ==> CellInside(RectAt(pos, tiles[k]), W, H))
    && (forall k, l :: 0 <= k < |tiles| && 0 <= l < |tiles| && tiles[k].name != tiles[l].name ==>
          CellsApart(RectAt(pos, tiles[k]), RectAt(pos, tiles[l])))
  }

  /** Painting one tile leaves a tile whose cell is apart from it as it was. */
  lemma OthersKept(before: Image, after: Image, im: Image, x: int, y: int, other: Image, r: Rect)
    requires Painted(before, after, im, x, y) && CellsApart(RectOf(im, x, y), r)
    requires Holds(before, other, r)
    ensures Holds(after, other, r)
  {
    forall i, j | -1 <= i <= other.w && -1 <= j <= other.h
      ensures At(after, r.x + i, r.y + j) == ClampAt(other, i, j)
    {
      assert !InCell(RectOf(im, x, y), r.x + i, r.y + j);
    }
  }

  /** What painting the first `i` tiles has established. */
  ghost predicate PaintedUpTo(atlas: Image, tiles: seq<Tile>, pos: map<string, Point>, i: nat)
    requires i <= |tiles| && forall k :: 0 <= k < |tiles| ==> tiles[k].name in pos
  {
    forall k :: 0 <= k < i ==> Holds(atlas, tiles[k].im, RectAt(pos, tiles[k]))
  }

  lemma OneMorePainted(before: Image, after: Image, tiles: seq<Tile>, pos: map<string, Point>, i: nat)
    requires i < |tiles| && forall k :: 0 <= k < |tiles| ==> tiles[k].name in pos
    requires Clean(tiles, pos, before.w, before.h) && PaintedUpTo(before, tiles, pos, i)
    requires Painted(before, after, tiles[i].im, pos[tiles[i].name].x, pos[tiles[i].name].y)
    ensures PaintedUpTo(after, tiles, pos, i + 1)
  {
    forall k | 0 <= k < i + 1 ensures Holds(after, tiles[k].im, RectAt(pos, tiles[k])) {
      if tiles[k].name == tiles[i].name {
        SameNameSameImage(tiles, k, i);
        assert CellInside(RectAt(pos, tiles[i]), before.w, before.h);
      } else {
        assert CellsApart(RectAt(pos, tiles[i]), RectAt(pos, tiles[k]));
        OthersKept(before, after, tiles[i].im, pos[tiles[i].name].x, pos[tiles[i].name].y,
                   tiles[k].im, RectAt(pos, tiles[k]));
      }
    }
  }

  /** The rectangles recorded after the first `i` tiles. */
  function RectsOf(tiles: seq<Tile>, pos: map<string, Point>, i: nat): map<string, Rect>
    requires i <= |tiles| && forall k :: 0 <= k < |tiles| ==> tiles[k].name in pos
  {
    if i == 0 then map[]
    else RectsOf(tiles, pos, i - 1)[tiles[i - 1].name := RectAt(pos, tiles[i - 1])]
  }

  lemma RectsCoverNames(tiles: seq<Tile>, pos: map<string, Point>, i: nat, n: string)
    requires i <= |tiles| && forall k :: 0 <= k < |tiles| ==> tiles[k].name in pos
    ensures n in RectsOf(tiles, pos, i) <==> exists k :: 0 <= k < i && tiles[k].name == n
    ensures n in RectsOf(tiles, pos, i) ==>
      exists k :: 0 <= k < i && tiles[k].name == n && RectsOf(tiles, pos, i)[n] == RectAt(pos, tiles[k])
  {
  }

  lemma RectsAreTileRects(tiles: seq<Tile>, pos: map<string, Point>, k: nat)
    requires k < |tiles| && forall k :: 0 <= k < |tiles| ==> tiles[k].name in pos
    requires NamesDetermineImages(tiles)
    ensures tiles[k].name in RectsOf(tiles, pos, |tiles|)
    ensures RectsOf(tiles, pos, |tiles|)[tiles[k].name] == RectAt(pos, tiles[k])
  {
    var n := tiles[k].name;
    RectsCoverNames(tiles, pos, |tiles|, n);
    var m :| 0 <= m < |tiles| && tiles[m].name == n && RectsOf(tiles, pos, |tiles|)[n] == RectAt(pos, tiles[m]);
    SameNameSameImage(tiles, m, k);
  }

  /** Outside the cells of the first `i` tiles nothing was painted. */
  ghost predicate Untouched(before: Image, after: Image, tiles: seq<Tile>, pos: map<string, Point>, i: nat)
    requires i <= |tiles| && forall k :: 0 <= k < |tiles| ==> tiles[k].name in pos
  {
    && after.w == before.w && after.h == before.h
    && forall x, y :: 0 <= x < after.w && 0 <= y < after.h && OutsideCells(tiles, pos, i, x, y) ==>
         At(after, x, y) == At(before, x, y)
  }

  ghost predicate OutsideCells(tiles: seq<Tile>, pos: map<string, Point>, i: nat, x: int, y: int)
    requires i <= |tiles| && forall k :: 0 <= k < |tiles| ==> tiles[k].name in pos
  {
    forall k :: 0 <= k < i ==> !InCell(RectAt(pos, tiles[k]), x, y)
  }

  lemma OneMoreUntouched(first: Image, before: Image, after: Image, tiles: seq<Tile>, pos: map<string, Point>, i: nat)
    requires i < |tiles| && forall k :: 0 <= k < |tiles| ==> tiles[k].name in pos
    requires Untouched(first, before, tiles, pos, i)
    requires Painted(before, after, tiles[i].im, pos[tiles[i].name].x, pos[tiles[i].name].y)
    ensures Untouched(first, after, tiles, pos, i + 1)
  {
    forall x, y | 0 <= x < after.w && 0 <= y < after.h && OutsideCells(tiles, pos, i + 1, x, y)
      ensures At(after, x, y) == At(first, x, y)
    {
      assert !InCell(RectAt(pos, tiles[i]), x, y);
      assert OutsideCells(tiles, pos, i, x, y);
    }
  }

  /** Paints the listed tiles in order and records their rectangles. */
  method PaintAll(c: Canvas, tiles: seq<Tile>, pos: map<string, Point>) returns (rects: map<string, Rect>)
    requires c.Valid()
    requires forall k :: 0 <= k < |tiles| ==> tiles[k].name in pos
    modifies c.px
    ensures rects == RectsOf(tiles, pos, |tiles|)
    ensures Clean(tiles, pos, c.w, c.h) ==> PaintedUpTo(c.Picture(), tiles, pos, |tiles|)
    ensures Untouched(old(c.Picture()), c.Picture(), tiles, pos, |tiles|)
  {
    hide Painted, Clean, Holds;
    rects := map[];
    var i := 0;
    while i < |tiles|
      invariant 0 <= i <= |tiles|
      invariant rects == RectsOf(tiles, pos, i)
      invariant Clean(tiles, pos, c.w, c.h) ==> PaintedUpTo(c.Picture(), tiles, pos, i)
      invariant Untouched(old(c.Picture()), c.Picture(), tiles, pos, i)
    {
      var p := pos[tiles[i].name];
      ghost var before := c.Picture();
      PaintTile(c, tiles[i].im, p.x, p.y);
      if Clean(tiles, pos, c.w, c.h) {
        OneMorePainted(before, c.Picture(), tiles, pos, i);
      }
      OneMoreUntouched(old(c.Picture()), before, c.Picture(), tiles, pos, i);
      rects := rects[tiles[i].name := RectAt(pos, tiles[i])];
      i := i + 1;
    }
  }

  // ----- the self-check -----

  ghost predicate InCanvas(r: Rect, W: nat, H: nat) {
    r.x + r.w + 1 <= W && r.y + r.h + 1 <= H
  }

  ghost predicate PassesCheck(rects: map<string, Rect>, W: nat, H: nat) {
    AllApart(rects) && forall n :: n in rects ==> InCanvas(rects[n], W, H)
  }

  /** The closing assertions over the recorded cells; the outcome does not depend on their order. */
  method SelfCheck(rects: map<string, Rect>, W: nat, H: nat) returns (ok: bool)
    ensures ok <==> PassesCheck(rects, W, H)
  {
    var rest := rects.Keys;
    while rest != {}
      invariant rest <= rects.Keys
      invariant forall m :: m in rects && m !in rest ==> InCanvas(rects[m], W, H)
      invariant forall m, n :: m in rects && m !in rest && n in rects && n != m ==>
        CellsApart(rects[m], rects[n])
      decreases |rest|
    {
      var m :| m in rest;
      var a := rects[m];
      rest := rest - {m};
      if !(a.x + a.w + 1 <= W && a.y + a.h + 1 <= H) { return false; }
      var later := rest;
      while later != {}
        invariant later <= rest
        invariant forall n :: n in rest && n !in later ==> CellsApart(a, rects[n])
        decreases |later|
      {
        var n :| n in later;
        var b := rects[n];
        if !(a.x + a.w + 1 <= b.x - 1 || b.x + b.w + 1 <= a.x - 1
             || a.y + a.h + 1 <= b.y - 1 || b.y + b.h + 1 <= a.y - 1) {
          return false;
        }
        later := later - {n};
      }
    }
    return true;
  }

  // ----- the whole pack -----

  datatype Outcome =
    | NoTiles
    | DoesNotFit
    | CheckFailed
    | Packed(rects: map<string, Rect>)

  lemma WalkIsClean(tiles: seq<Tile>, cells: seq<Size>, pos: map<string, Point>, W: nat, H: nat)
    requires NamesDetermineImages(tiles) && Arranged(tiles, cells)
    requires pos == Positions(cells, |cells|, W) && Fits(cells, W) && UsedHeight(cells, W) <= H
    requires forall k :: 0 <= k < |tiles| ==> tiles[k].name in pos
    ensures Clean(tiles, pos, W, H)
  {
    forall k | 0 <= k < |tiles| ensures CellInside(RectAt(pos, tiles[k]), W, H) {
      TileCellInside(tiles, cells, pos, k, W, H);
    }
    forall k, l | 0 <= k < |tiles| && 0 <= l < |tiles| && tiles[k].name != tiles[l].name
      ensures CellsApart(RectAt(pos, tiles[k]), RectAt(pos, tiles[l]))
    {
      TileCellsApart(tiles, cells, pos, k, l, W);
    }
  }

  lemma RectsPassCheck(tiles: seq<Tile>, pos: map<string, Point>, W: nat, H: nat)
    requires forall k :: 0 <= k < |tiles| ==> tiles[k].name in pos
    requires Clean(tiles, pos, W, H)
    ensures var rects := RectsOf(tiles, pos, |tiles|);
      AllApart(rects) && forall n :: n in rects ==> InCanvas(rects[n], W, H)
  {
    var rects := RectsOf(tiles, pos, |tiles|);
    forall n | n in rects ensures InCanvas(rects[n], W, H) {
      RectsCoverNames(tiles, pos, |tiles|, n);
    }
    forall m, n | m in rects && n in rects && m != n ensures CellsApart(rects[m], rects[n]) {
      RectsCoverNames(tiles, pos, |tiles|, m);
      RectsCoverNames(tiles, pos, |tiles|, n);
    }
  }

  /** Two pictures cannot both be found under one name. */
  lemma OneNameOnePicture(atlas: Image, rects: map<string, Rect>, s: Tile, t: Tile)
    requires s.name == t.name && Faithful(atlas, rects, s) && Faithful(atlas, rects, t)
    ensures s.im == t.im
  {
    var r := rects[s.name];
    assert |s.im.px| == |t.im.px|;
    forall y | 0 <= y < s.im.h ensures s.im.px[y] == t.im.px[y] {
      forall x | 0 <= x < s.im.w ensures s.im.px[y][x] == t.im.px[y][x] {
        assert At(atlas, r.x + x, r.y + y) == ClampAt(s.im, x, y);
        assert At(atlas, r.x + x, r.y + y) == ClampAt(t.im, x, y);
      }
    }
  }

  /** Outside the recorded cells the picture is opaque black. */
  ghost predicate BlackOutside(im: Image, rects: map<string, Rect>) {
    forall x, y :: 0 <= x < im.w && 0 <= y < im.h && (forall n :: n in rects ==> !InCell(rects[n], x, y)) ==>
      At(im, x, y) == Pixel(0, 0, 0, 255)
  }

  lemma BlackStays(first: Image, im: Image, tiles: seq<Tile>, pos: map<string, Point>)
    requires forall k :: 0 <= k < |tiles| ==> tiles[k].name in pos
    requires NamesDetermineImages(tiles) && Untouched(first, im, tiles, pos, |tiles|)
    requires forall x, y :: 0 <= x < first.w && 0 <= y < first.h ==> At(first, x, y) == Pixel(0, 0, 0, 255)
    ensures BlackOutside(im, RectsOf(tiles, pos, |tiles|))
  {
    var rects := RectsOf(tiles, pos, |tiles|);
    forall x, y | 0 <= x < im.w && 0 <= y < im.h && (forall n :: n in rects ==> !InCell(rects[n], x, y))
      ensures At(im, x, y) == Pixel(0, 0, 0, 255)
    {
      forall k | 0 <= k < |tiles| ensures !InCell(RectAt(pos, tiles[k]), x, y) { RectsAreTileRects(tiles, pos, k); }
      assert OutsideCells(tiles, pos, |tiles|, x, y);
    }
  }

  /** The rectangles are recorded under exactly the tiles' names. */
  ghost predicate NamesTiles(rects: map<string, Rect>, tiles: seq<Tile>) {
    forall n :: n in rects <==> exists k :: 0 <= k < |tiles| && tiles[k].name == n
  }

  lemma RectsNameTiles(tiles: seq<Tile>, pos: map<string, Point>)
    requires forall k :: 0 <= k < |tiles| ==> tiles[k].name in pos
    ensures NamesTiles(RectsOf(tiles, pos, |tiles|), tiles)
  {
    forall n ensures n in RectsOf(tiles, pos, |tiles|) <==> exists k :: 0 <= k < |tiles| && tiles[k].name == n {
      RectsCoverNames(tiles, pos, |tiles|, n);
    }
  }

  ghost predicate AllFaithful(im: Image, rects: map<string, Rect>, tiles: seq<Tile>) {
    forall k :: 0 <= k < |tiles| ==> Faithful(im, rects, tiles[k])
  }

  /** Where names determine pictures, the painted canvas is what is promised. */
  lemma PaintedAsPromised(first: Image, im: Image, tiles: seq<Tile>, cells: seq<Size>, pos: map<string, Point>)
    requires forall k :: 0 <= k < |tiles| ==> tiles[k].name in pos
    requires NamesDetermineImages(tiles) && Arranged(tiles, cells)
    requires pos == Positions(cells, |cells|, im.w) && Fits(cells, im.w) && UsedHeight(cells, im.w) <= im.h
    requires Clean(tiles, pos, im.w, im.h) ==> PaintedUpTo(im, tiles, pos, |tiles|)
    requires Untouched(first, im, tiles, pos, |tiles|)
    requires forall x, y :: 0 <= x < first.w && 0 <= y < first.h ==> At(first, x, y) == Pixel(0, 0, 0, 255)
    ensures var rects := RectsOf(tiles, pos, |tiles|);
      AllFaithful(im, rects, tiles) && PassesCheck(rects, im.w, im.h) && BlackOutside(im, rects)
  {
    hide Untouched, BlackOutside, Holds, Arranged, CellsApart;
    WalkIsClean(tiles, cells, pos, im.w, im.h);
    RectsPassCheck(tiles, pos, im.w, im.h);
    forall k | 0 <= k < |tiles| ensures Faithful(im, RectsOf(tiles, pos, |tiles|), tiles[k]) {
      RectsAreTileRects(tiles, pos, k);
    }
    BlackStays(first, im, tiles, pos);
  }

  lemma FaithfulNames(im: Image, rects: map<string, Rect>, tiles: seq<Tile>)
    requires AllFaithful(im, rects, tiles)
    ensures NamesDetermineImages(tiles)
  {
    forall i, j | 0 <= i < j < |tiles| && tiles[i].name == tiles[j].name ensures tiles[i].im == tiles[j].im {
      OneNameOnePicture(im, rects, tiles[i], tiles[j]);
    }
  }

  lemma AllPlaced(tiles: seq<Tile>, cells: seq<Size>, W: nat)
    requires Arranged(tiles, cells)
    ensures forall k :: 0 <= k < |tiles| ==> tiles[k].name in Positions(cells, |cells|, W)
  {
    forall k | 0 <= k < |tiles| ensures tiles[k].name in Positions(cells, |cells|, W) {
      NamesArePlaced(tiles, cells, k);
      PositionsAreCorners(cells, |cells|, W, tiles[k].name);
    }
  }

  /**
   * `pack`. It gives up exactly when there is nothing to pack or no listed canvas is enough, and
   * the finished atlas shows every tile under its name exactly when names determine pictures
   * (as they do when the names are distinct); then the self-check cannot fail either.
   */
  method Pack(tiles: seq<Tile>) returns (r: Outcome, atlas: Canvas?)
    ensures r.NoTiles? <==> tiles == []
    ensures r.DoesNotFit? <==> tiles != [] && forall c :: c in CANVASES ==> !FitsCanvas(Sizes(tiles), c)
    ensures r.CheckFailed? ==> !NamesDetermineImages(tiles)
    ensures r.Packed? ==>
      && atlas != null && fresh(atlas) && atlas.Valid()
      && atlas.w in CANVASES && atlas.h in CANVASES && atlas.h <= atlas.w
      && AllApart(r.rects)
      && (NamesDetermineImages(tiles) <==> AllFaithful(atlas.Picture(), r.rects, tiles))
      && NamesTiles(r.rects, tiles) && (NamesDetermineImages(tiles) ==> BlackOutside(atlas.Picture(), r.rects))
  {
    hide NamesDetermineImages, AllFaithful, AllApart, InCanvas, BlackOutside, NamesTiles, Untouched, PaintedUpTo, Clean,
      RectsOf, Positions, UsedHeight, ByHeight, Falling, Fits;
    atlas := null;
    if tiles == [] { return NoTiles, null; }
    var search := ChooseCanvas(Sizes(tiles));
    if search.None? { return DoesNotFit, null; }
    var c := search.value;
    ghost var cells := ByHeight(Sizes(tiles));
    ByHeightIsStableSort(Sizes(tiles));
    FitsIsOrderFree(Sizes(tiles), c.w);
    AllPlaced(tiles, cells, c.w);
    atlas := new Canvas(c.w, c.h, OPAQUE_BLACK);
    ghost var blank := atlas.Picture();
    var rects := PaintAll(atlas, tiles, c.pos);
    RectsNameTiles(tiles, c.pos);
    var ok := SelfCheck(rects, c.w, c.h);
    if NamesDetermineImages(tiles) { PaintedAsPromised(blank, atlas.Picture(), tiles, cells, c.pos); }
    if !ok { return CheckFailed, atlas; }
    r := Packed(rects);
    if AllFaithful(atlas.Picture(), rects, tiles) { FaithfulNames(atlas.Picture(), rects, tiles); }
  }
}
