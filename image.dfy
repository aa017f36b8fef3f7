/** The frame model: colours, 8x8 images and the 192-byte view of an image. */
module Frame {

  /** One 8-bit colour channel (`u8`). */
  newtype Byte = x: int | 0 <= x < 256

  /** A pixel: three channels laid out R, G, B (the struct is `repr(C)`). */
  datatype Color = Color(r: Byte, g: Byte, b: Byte)

  const RED: Color := Color(255, 0, 0)
  const GREEN: Color := Color(0, 255, 0)
  const BLUE: Color := Color(0, 0, 255)
  /** `Color::default()`: every channel zero. */
  const BLACK: Color := Color(0, 0, 0)

  /** Channel `k` of a pixel in memory order: 0 is red, 1 green, 2 blue. */
  function Channel(c: Color, k: nat): Byte
    requires k < 3
  {
    if k == 0 then c.r else if k == 1 then c.g else c.b
  }

  /** The pixel with channel `k` replaced by `v`. */
  function WithChannel(c: Color, k: nat, v: Byte): Color
    requires k < 3
  {
    if k == 0 then c.(r := v) else if k == 1 then c.(g := v) else c.(b := v)
  }

  lemma ColorConstants(k: nat)
    requires k < 3
    ensures Channel(RED, k) == (if k == 0 then 255 else 0)
    ensures Channel(GREEN, k) == (if k == 1 then 255 else 0)
    ensures Channel(BLUE, k) == (if k == 2 then 255 else 0)
    ensures Channel(BLACK, k) == 0
  {
  }

  /** `Color::gamma_correct`: the byte-wise gamma table, applied to each channel on its own. */
  function GammaCorrect(c: Color, gamma: Byte -> Byte): (g: Color)
    ensures forall k :: 0 <= k < 3 ==> Channel(g, k) == gamma(Channel(c, k))
  {
    Color(gamma(c.r), gamma(c.g), gamma(c.b))
  }

  /** `range_dealer`: the largest byte value not above `x`. */
  function RangeDealer(x: nat): (v: Byte)
    ensures v as nat <= x
    ensures v as nat == x || v == 255
  {
    if x <= 255 then x as Byte else 255
  }

  lemma RangeDealerMonotone(x: nat, y: nat)
    requires x <= y
    ensures RangeDealer(x) <= RangeDealer(y)
  {
  }

  const FRAME_BYTES: nat := 192

  /** An 8x8 image, row-major: pixel `8 * row + col`. */
  type Image = s: seq<Color> | |s| == 64 witness seq(64, _ => Color(0, 0, 0))

  /** `Image::new_solid`. */
  function NewSolid(c: Color): (img: Image)
    ensures forall i :: 0 <= i < 64 ==> img[i] == c
  {
    seq(64, _ => c)
  }

  /** `Image::default()`: a solid image of the default colour. */
  function DefaultImage(): (img: Image)
    ensures forall k :: 0 <= k < 192 ==> ByteAt(img, k) == 0
  {
    NewSolid(BLACK)
  }

  /** `image[(i, j)]`: no check that `j < 8`, only that the flat index is in range. */
  function At(img: Image, i: nat, j: nat): Color
    requires 8 * i + j < 64
  {
    img[8 * i + j]
  }

  /** `Image::row`: the slice of the 8 pixels of row `row`. */
  function Row(img: Image, row: nat): (px: seq<Color>)
    requires row < 8
    ensures |px| == 8
    ensures forall j :: 0 <= j < 8 ==> px[j] == At(img, row, j)
  {
    img[8 * row .. 8 * (row + 1)]
  }

  /** `image[(i, j)] = c` as a value: the image with that one pixel replaced. */
  function WithPixel(img: Image, i: nat, j: nat, c: Color): (out: Image)
    requires 8 * i + j < 64
    ensures At(out, i, j) == c
    ensures forall p :: 0 <= p < 64 && p != 8 * i + j ==> out[p] == img[p]
  {
    img[8 * i + j := c]
  }

  /** `IndexMut`: writes pixel `(i, j)` of an image held in memory. */
  method SetPixel(img: array<Color>, i: nat, j: nat, c: Color)
    requires img.Length == 64 && 8 * i + j < 64
    modifies img
    ensures img[..] == WithPixel(old(img[..]), i, j, c)
  {
    img[8 * i + j] := c;
  }

  /** Byte `k` of the `as_ref` view: channel `k % 3` of pixel `k / 3`. */
  function ByteAt(img: Image, k: nat): Byte
    requires k < 192
  {
    Channel(img[k / 3], k % 3)
  }

  /** The whole 192-byte view (`AsRef<[u8; 192]>`). */
  function AsBytes(img: Image): (bytes: seq<Byte>)
  {
    seq(192, k requires 0 <= k < 192 => ByteAt(img, k))
  }

  /** Reading 192 bytes as 64 pixels of three channels each. */
  function FromBytes(bytes: seq<Byte>): Image
    requires |bytes| == 192
  {
    seq(64, i requires 0 <= i < 64 => Color(bytes[3 * i], bytes[3 * i + 1], bytes[3 * i + 2]))
  }

  /** The byte view is a bijection: reading an image back from its bytes gives the image. */
  lemma FromAsBytes(img: Image)
    ensures |AsBytes(img)| == 192
    ensures FromBytes(AsBytes(img)) == img
  {
    var bytes := AsBytes(img);
    forall i | 0 <= i < 64
      ensures FromBytes(bytes)[i] == img[i]
    {
      assert (3 * i) / 3 == i && (3 * i) % 3 == 0;
      assert (3 * i + 1) / 3 == i && (3 * i + 1) % 3 == 1;
      assert (3 * i + 2) / 3 == i && (3 * i + 2) % 3 == 2;
    }
  }

  /** ... and every 192-byte string is the view of exactly the image read from it. */
  lemma AsFromBytes(bytes: seq<Byte>)
    requires |bytes| == 192
    ensures AsBytes(FromBytes(bytes)) == bytes
  {
    var img := FromBytes(bytes);
    forall k | 0 <= k < 192
      ensures AsBytes(img)[k] == bytes[k]
    {
      var i := k / 3;
      assert k == 3 * i + k % 3;
    }
  }

  /** `image.as_mut()[k] = v` as a value: channel `k % 3` of pixel `k / 3` replaced. */
  function WithByte(img: Image, k: nat, v: Byte): Image
    requires k < 192
  {
    img[k / 3 := WithChannel(img[k / 3], k % 3, v)]
  }

  /** Writing a byte through `as_mut` and reading it back through `as_ref` gives the byte written; every
      other byte of the view, and every other pixel, is unchanged. */
  lemma ByteViewWrite(img: Image, k: nat, v: Byte)
    requires k < 192
    ensures ByteAt(WithByte(img, k, v), k) == v
    ensures forall k' :: 0 <= k' < 192 && k' != k ==> ByteAt(WithByte(img, k, v), k') == ByteAt(img, k')
    ensures AsBytes(WithByte(img, k, v)) == AsBytes(img)[k := v]
    ensures forall p :: 0 <= p < 64 && p != k / 3 ==> WithByte(img, k, v)[p] == img[p]
  {
    var out := WithByte(img, k, v);
    forall k' | 0 <= k' < 192 && k' != k
      ensures ByteAt(out, k') == ByteAt(img, k')
    {
      if k' / 3 == k / 3 {
        assert k' % 3 != k % 3;
      }
    }
    assert AsBytes(out) == AsBytes(img)[k := v];
  }

  /** The byte view agrees with `(row, col)` indexing. */
  lemma ByteViewOfIndex(img: Image, i: nat, j: nat, c: nat)
    requires i < 8 && j < 8 && c < 3
    ensures 3 * (8 * i + j) + c < 192
    ensures ByteAt(img, 3 * (8 * i + j) + c) == Channel(At(img, i, j), c)
  {
    var p := 8 * i + j;
    assert (3 * p + c) / 3 == p && (3 * p + c) % 3 == c;
  }
}
