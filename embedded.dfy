/** The image as a drawing surface for the graphics library: colour conversion, size and clipped drawing. */
module Graphics {
  import opened Frame

  /** The graphics library's 24-bit colour. */
  datatype Rgb888 = Rgb888(r: Byte, g: Byte, b: Byte)

  /** A pixel to draw: a point in signed coordinates and its colour. */
  datatype Pixel = Pixel(x: int, y: int, color: Rgb888)

  datatype Size = Size(width: nat, height: nat)

  /** `From<Rgb888> for Color`: the channels are copied unchanged. */
  function ColorFrom(c: Rgb888): (out: Color)
    ensures Channel(out, 0) == c.r && Channel(out, 1) == c.g && Channel(out, 2) == c.b
  {
    Color(c.r, c.g, c.b)
  }

  /** `OriginDimensions::size`. */
  function ImageSize(): (s: Size)
    ensures s.width * s.height == 64
    ensures s.width == 8
  {
    Size(8, 8)
  }

  /** The bounds test of `draw_iter`. */
  predicate InBounds(p: Pixel)
  {
    0 <= p.x < 8 && 0 <= p.y < 8
  }

  /** Every point inside the reported size is a pixel of the image, at row `y`, column `x`. */
  lemma SizeCoversImage(x: int, y: int, color: Rgb888)
    requires 0 <= x < ImageSize().width && 0 <= y < ImageSize().height
    ensures InBounds(Pixel(x, y, color))
    ensures x + 8 * y < 64
  {
  }

  /** Flat index of an in-bounds pixel: `x + 8 * y`, used as `image[(0, x + 8 * y)]`. */
  function IndexOf(p: Pixel): nat
    requires InBounds(p)
  {
    p.x + 8 * p.y
  }

  /** Does drawing `p` set flat pixel `q`? */
  predicate Hits(p: Pixel, q: nat)
  {
    InBounds(p) && IndexOf(p) == q
  }

  /** One pixel drawn: set when in bounds, ignored otherwise. */
  function Plot(img: Image, p: Pixel): Image
  {
    if InBounds(p) then WithPixel(img, 0, IndexOf(p), ColorFrom(p.color)) else img
  }

  /** The image after drawing `pixels` in order. */
  function DrawAll(img: Image, pixels: seq<Pixel>): Image
    decreases |pixels|
  {
    if pixels == [] then img else Plot(DrawAll(img, pixels[..|pixels| - 1]), pixels[|pixels| - 1])
  }

  /** Drawing the last point of a sequence: the pixel it hits takes its colour, every other pixel keeps
      the value the earlier points gave it. */
  lemma PlotAt(img: Image, p: Pixel, q: nat)
    requires q < 64
    ensures Plot(img, p)[q] == if Hits(p, q) then ColorFrom(p.color) else img[q]
  {
  }

  /** A pixel that no input point hits keeps its value (clipped points hit nothing). */
  lemma {:induction false} DrawAllUntouched(img: Image, pixels: seq<Pixel>, q: nat)
    requires q < 64
    requires forall t :: 0 <= t < |pixels| ==> !Hits(pixels[t], q)
    ensures DrawAll(img, pixels)[q] == img[q]
    decreases |pixels|
  {
    if pixels != [] {
      var n := |pixels| - 1;
      DrawAllUntouched(img, pixels[..n], q);
      PlotAt(DrawAll(img, pixels[..n]), pixels[n], q);
    }
  }

  /** A pixel hit by some input point takes the colour of the LAST point that hits it. */
  lemma {:induction false} DrawAllLastWins(img: Image, pixels: seq<Pixel>, q: nat, t: nat)
    requires q < 64 && t < |pixels| && Hits(pixels[t], q)
    requires forall u :: t < u < |pixels| ==> !Hits(pixels[u], q)
    ensures DrawAll(img, pixels)[q] == ColorFrom(pixels[t].color)
    decreases |pixels|
  {
    var n := |pixels| - 1;
    PlotAt(DrawAll(img, pixels[..n]), pixels[n], q);
    if t < n {
      DrawAllLastWins(img, pixels[..n], q, t);
    }
  }

  /** `DrawTarget::draw_iter`: each in-bounds pixel is written in place; others are clipped. */
  method DrawIter(img: array<Color>, pixels: seq<Pixel>)
    requires img.Length == 64
    modifies img
    ensures img[..] == DrawAll(old(img[..]), pixels)
  {
    ghost var start: Image := img[..];
    var t := 0;
    while t < |pixels|
      invariant 0 <= t <= |pixels|
      invariant img[..] == DrawAll(start, pixels[..t])
    {
      var p := pixels[t];
      if 0 <= p.x < 8 && 0 <= p.y < 8 {
        var index := p.x + p.y * 8;
        SetPixel(img, 0, index, ColorFrom(p.color));
      }
      assert pixels[..t + 1][..t] == pixels[..t];
      t := t + 1;
    }
    assert pixels[..t] == pixels;
  }
}
