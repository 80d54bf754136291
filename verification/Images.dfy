/**
 * Images as the atlas packer uses them: immutable tiles, and one canvas that is pasted into
 * in place. Coordinates are y-down, `px[y][x]`. Pasting clips to the canvas and cropping pads
 * with blank pixels, as the imaging library does.
 */
module Images {
  import opened Results

  datatype Pixel = Pixel(r: Byte, g: Byte, b: Byte, a: Byte)

  const BLANK := Pixel(0, 0, 0, 0)
  const OPAQUE_BLACK := Pixel(0, 0, 0, 255)

  datatype Raster = Raster(w: nat, h: nat, px: seq<seq<Pixel>>) {
    predicate Valid() {
      && w >= 1 && h >= 1 && |px| == h
      && forall y :: 0 <= y < h ==> |px[y]| == w
    }
  }

  /** A decoded picture: rectangular and at least 1x1. */
  type Image = r: Raster | r.Valid() witness Raster(1, 1, [[Pixel(0, 0, 0, 0)]])

  function At(im: Image, x: int, y: int): Pixel
    requires 0 <= x < im.w && 0 <= y < im.h
  {
    im.px[y][x]
  }

  function Clamp(i: int, n: nat): (r: nat)
    requires n >= 1
    ensures r < n
    ensures 0 <= i < n ==> r == i
    ensures (i < 0 ==> r == 0) && (i >= n ==> r == n - 1)
  {
    if i < 0 then 0 else if i >= n then n - 1 else i
  }

  /** The picture extended by repeating its edge pixels outwards. */
  function ClampAt(im: Image, x: int, y: int): Pixel {
    At(im, Clamp(x, im.w), Clamp(y, im.h))
  }

  /** The part of a picture inside a box, which must lie within the picture. */
  function Part(im: Image, x0: nat, y0: nat, x1: nat, y1: nat): (r: Image)
    requires x0 < x1 <= im.w && y0 < y1 <= im.h
    ensures r.w == x1 - x0 && r.h == y1 - y0
    ensures forall x, y :: 0 <= x < r.w && 0 <= y < r.h ==> At(r, x, y) == At(im, x0 + x, y0 + y)
  {
    Raster(x1 - x0, y1 - y0,
           seq(y1 - y0, y requires 0 <= y < y1 - y0 =>
             seq(x1 - x0, x requires 0 <= x < x1 - x0 => im.px[y0 + y][x0 + x])))
  }

  class Canvas {
    const w: nat
    const h: nat
    const px: array2<Pixel>

    constructor (w: nat, h: nat, fill: Pixel)
      requires w >= 1 && h >= 1
      ensures this.w == w && this.h == h && Valid() && fresh(px)
      ensures forall x, y :: 0 <= x < w && 0 <= y < h ==> px[y, x] == fill
    {
      this.w, this.h := w, h;
      px := new Pixel[h, w]((i, j) => fill);
    }

    predicate Valid() {
      w >= 1 && h >= 1 && px.Length0 == h && px.Length1 == w
    }

    /** What the canvas shows now. */
    function Picture(): (im: Image)
      requires Valid()
      reads px
      ensures im.w == w && im.h == h
      ensures forall x, y :: 0 <= x < w && 0 <= y < h ==> At(im, x, y) == px[y, x]
    {
      Raster(w, h, seq(h, y requires 0 <= y < h && Valid() reads px =>
        seq(w, x requires 0 <= x < w && Valid() && 0 <= y < h reads px => px[y, x])))
    }

    /** The pixel a crop sees at a canvas position: blank outside the canvas. */
    function Seen(x: int, y: int): Pixel
      requires Valid()
      reads px
    {
      if 0 <= x < w && 0 <= y < h then px[y, x] else BLANK
    }

    function CropRow(x0: int, y: int, cw: nat): (row: seq<Pixel>)
      requires Valid()
      reads px
      ensures |row| == cw && forall x :: 0 <= x < cw ==> row[x] == Seen(x0 + x, y)
    {
      seq(cw, x requires 0 <= x < cw && Valid() reads px => Seen(x0 + x, y))
    }

    /** A copy of the box with top-left corner `(x0, y0)`. */
    function Crop(x0: int, y0: int, cw: nat, ch: nat): (im: Image)
      requires Valid() && cw >= 1 && ch >= 1
      reads px
      ensures im.w == cw && im.h == ch
      ensures forall x, y :: 0 <= x < cw && 0 <= y < ch ==> At(im, x, y) == Seen(x0 + x, y0 + y)
    {
      var rows := seq(ch, y requires 0 <= y < ch && Valid() reads px => CropRow(x0, y0 + y, cw));
      assert forall y :: 0 <= y < ch ==> rows[y] == CropRow(x0, y0 + y, cw);
      Raster(cw, ch, rows)
    }

    /** Writes the picture at a position; whatever falls outside the canvas is dropped. */
    method Paste(im: Image, x0: int, y0: int)
      requires Valid()
      modifies px
      ensures forall x, y :: 0 <= x < w && 0 <= y < h ==>
        px[y, x] == if x0 <= x < x0 + im.w && y0 <= y < y0 + im.h
                    then At(im, x - x0, y - y0) else old(px[y, x])
    {
      forall y, x | 0 <= y < h && 0 <= x < w && x0 <= x < x0 + im.w && y0 <= y < y0 + im.h {
        px[y, x] := At(im, x - x0, y - y0);
      }
    }
  }
}
