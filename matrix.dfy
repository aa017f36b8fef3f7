/** The bit-banged driver of the LED matrix's DM163 chip. Every pin write is recorded in a ghost trace;
    the properties of the protocol are statements about that trace. */
module Driver {
  import opened Frame

  /** The driver's output pins: bank select, latch, reset, serial clock, serial data and the eight row lines. */
  datatype Pin = SB | LAT | RST | SCK | SDA | C(line: nat)

  /** One pin driven to a level (`true` is high). */
  datatype Event = Set(pin: Pin, high: bool)

  predicate IsPin(p: Pin)
  {
    p.C? ==> p.line < 8
  }

  // ---------------------------------------------------------------------------------------------
  // The protocol, as traces

  /** `pulse_sck`: a brief high pulse of SCK. */
  function SckPulse(): seq<Event>
  {
    [Set(SCK, false), Set(SCK, true), Set(SCK, false)]
  }

  /** `pulse_lat`: a brief low pulse of LAT. */
  function LatPulse(): seq<Event>
  {
    [Set(LAT, true), Set(LAT, false), Set(LAT, true)]
  }

  /** Bit `k` of `x`: the test `(1 << k) & x != 0` of `send_byte`, stated as the low bit of `x` after `k`
      halvings. */
  function Bit(x: nat, k: nat): bool
  {
    if k == 0 then x % 2 == 1 else Bit(x / 2, k - 1)
  }

  function Pow2(n: nat): nat
  {
    if n == 0 then 1 else 2 * Pow2(n - 1)
  }

  /** The low `n` bits of `x`, most significant first. */
  function BitsMsb(x: nat, n: nat): (bits: seq<bool>)
    ensures |bits| == n
  {
    if n == 0 then [] else BitsMsb(x / 2, n - 1) + [x % 2 == 1]
  }

  /** The bits of a byte, most significant first. */
  function Msb(b: Byte): seq<bool>
  {
    BitsMsb(b as nat, 8)
  }

  /** The value a shift register holds after shifting in `bits` at its low end (the first bit ends up
      most significant). */
  function FromMsb(bits: seq<bool>): nat
  {
    if bits == [] then 0 else 2 * FromMsb(bits[..|bits| - 1]) + (if bits[|bits| - 1] then 1 else 0)
  }

  lemma {:induction false} BitsMsbAt(x: nat, n: nat, k: nat)
    requires k < n
    ensures BitsMsb(x, n)[n - 1 - k] == Bit(x, k)
  {
    if k > 0 {
      BitsMsbAt(x / 2, n - 1, k - 1);
    }
  }

  /** The bit `send_byte` tests at step `counter` is the `7 - counter`-th bit of `Msb`. */
  lemma MsbAt(b: Byte, counter: nat)
    requires counter < 8
    ensures Msb(b)[7 - counter] == Bit(b as nat, counter)
  {
    BitsMsbAt(b as nat, 8, counter);
  }

  lemma {:induction false} FromBitsMsb(x: nat, n: nat)
    requires x < Pow2(n)
    ensures FromMsb(BitsMsb(x, n)) == x
  {
    if n > 0 {
      var pre := BitsMsb(x / 2, n - 1);
      assert (pre + [x % 2 == 1])[..n - 1] == pre;
      FromBitsMsb(x / 2, n - 1);
    }
  }

  /** Eight bits shifted in most significant first rebuild the byte that was sent. */
  lemma MsbRoundTrip(b: Byte)
    ensures |Msb(b)| == 8
    ensures FromMsb(Msb(b)) == b as nat
  {
    assert Pow2(8) == 256;
    FromBitsMsb(b as nat, 8);
  }

  /** One bit: SDA set to it, then an SCK pulse. */
  function BitTrace(x: bool): seq<Event>
  {
    [Set(SDA, x)] + SckPulse()
  }

  /** Bits sent one after the other, first bit first. */
  function BitsTrace(bits: seq<bool>): seq<Event>
  {
    if bits == [] then [] else BitTrace(bits[0]) + BitsTrace(bits[1..])
  }

  lemma {:induction false} BitsTraceAppend(a: seq<bool>, b: seq<bool>)
    ensures BitsTrace(a + b) == BitsTrace(a) + BitsTrace(b)
    decreases |a|
  {
    if a == [] {
      assert a + b == b;
    } else {
      assert (a + b)[1..] == a[1..] + b;
      BitsTraceAppend(a[1..], b);
    }
  }

  /** The first `n` bits of `send_byte`'s output: bits 7 down to `8 - n`. */
  function HighBitsTrace(b: Byte, n: nat): seq<Event>
    requires n <= 8
  {
    if n == 0 then [] else HighBitsTrace(b, n - 1) + BitTrace(Bit(b as nat, 8 - n))
  }

  /** `send_byte`: bits 7 down to 0 of `b`. */
  function ByteTrace(b: Byte): seq<Event>
  {
    HighBitsTrace(b, 8)
  }

  lemma {:induction false} HighBitsTracePrefix(b: Byte, n: nat)
    requires n <= 8
    ensures HighBitsTrace(b, n) == BitsTrace(Msb(b)[..n])
  {
    if n > 0 {
      var m := Msb(b);
      HighBitsTracePrefix(b, n - 1);
      MsbAt(b, 8 - n);
      assert m[..n] == m[..n - 1] + [m[n - 1]];
      BitsTraceAppend(m[..n - 1], [m[n - 1]]);
      assert [m[n - 1]][1..] == [];
    }
  }

  /** `send_byte` sends the bits of the byte most significant first. */
  lemma ByteTraceMsb(b: Byte)
    ensures ByteTrace(b) == BitsTrace(Msb(b))
  {
    HighBitsTracePrefix(b, 8);
    assert Msb(b)[..8] == Msb(b);
  }

  /** The bits of a byte sequence, each byte most significant bit first. */
  function BitsOf(bytes: seq<Byte>): seq<bool>
  {
    if bytes == [] then [] else Msb(bytes[0]) + BitsOf(bytes[1..])
  }

  lemma {:induction false} BitsOfAppend(a: seq<Byte>, b: seq<Byte>)
    ensures BitsOf(a + b) == BitsOf(a) + BitsOf(b)
    decreases |a|
  {
    if a == [] {
      assert a + b == b;
    } else {
      assert (a + b)[1..] == a[1..] + b;
      BitsOfAppend(a[1..], b);
    }
  }

  /** `deactivate_rows`: the eight row lines driven low in order. */
  function Deactivation(): seq<Event>
  {
    [Set(C(0), false), Set(C(1), false), Set(C(2), false), Set(C(3), false),
     Set(C(4), false), Set(C(5), false), Set(C(6), false), Set(C(7), false)]
  }

  /** Write `k` of `deactivate_rows` drives row line `k` low. */
  lemma DeactivationAt()
    ensures |Deactivation()| == 8
    ensures forall k :: 0 <= k < 8 ==> Deactivation()[k] == Set(C(k), false)
  {
    var d := Deactivation();
    forall k | 0 <= k < 8
      ensures d[k] == Set(C(k), false)
    {
      if k == 0 {
      } else if k == 1 {
      } else if k == 2 {
      } else if k == 3 {
      } else if k == 4 {
      } else if k == 5 {
      } else if k == 6 {
      } else {
      }
    }
  }

  /** What `send_row` emits for the `i`-th pixel it sends: gamma-corrected blue, green, red, with the
      rows switched off right after the blue byte of the pixel sent fifth (`i == 4`). */
  function PixelTrace(c: Color, i: nat, gamma: Byte -> Byte): seq<Event>
  {
    var g := GammaCorrect(c, gamma);
    ByteTrace(g.b) + (if i == 4 then Deactivation() else []) + ByteTrace(g.g) + ByteTrace(g.r)
  }

  /** The first `n` pixels `send_row` sends: `pixels` in reverse order. */
  function SentPixels(pixels: seq<Color>, n: nat, gamma: Byte -> Byte): seq<Event>
    requires n <= |pixels|
    decreases n, 0
  {
    if n == 0 then [] else ThroughPixel(pixels, n - 1, gamma)
  }

  /** What `send_row` has emitted once the `k`-th pixel it sends (`pixels[|pixels| - 1 - k]`) is out. */
  function ThroughPixel(pixels: seq<Color>, k: nat, gamma: Byte -> Byte): seq<Event>
    requires k < |pixels|
    decreases k, 1
  {
    SentPixels(pixels, k, gamma) + PixelTrace(pixels[|pixels| - 1 - k], k, gamma)
  }

  /** `send_row(row, pixels)`: all pixels, a LAT pulse, then row line `row` high. */
  function RowTrace(row: nat, pixels: seq<Color>, gamma: Byte -> Byte): seq<Event>
  {
    SentPixels(pixels, |pixels|, gamma) + LatPulse() + [Set(C(row), true)]
  }

  /** `n` SCK pulses, the loop of `init_bank0`. */
  function Pulses(n: nat): seq<Event>
  {
    if n == 0 then [] else Pulses(n - 1) + SckPulse()
  }

  /** The number of one-bits `init_bank0` shifts: 6 bits for each of the 24 channels. */
  const BANK0_BITS: nat := 144

  /** `init_bank0`: SB low, SDA high, 144 SCK pulses, a LAT pulse, SB high again. */
  function Bank0Trace(): seq<Event>
  {
    [Set(SB, false), Set(SDA, true)] + Pulses(BANK0_BITS) + LatPulse() + [Set(SB, true)]
  }

  /** The rows of the matrix. */
  const ROWS: nat := 8

  /** `display_image`: the first `n` rows of an image, in row order. */
  function FrameTrace(img: Image, n: nat, gamma: Byte -> Byte): seq<Event>
    requires n <= 8
    decreases n, 0
  {
    if n == 0 then [] else ThroughRow(img, n - 1, gamma)
  }

  /** What `display_image` has emitted once row `k` is out. */
  function ThroughRow(img: Image, k: nat, gamma: Byte -> Byte): seq<Event>
    requires k < 8
    decreases k, 1
  {
    FrameTrace(img, k, gamma) + RowTrace(k, Row(img, k), gamma)
  }

  /** The pin writes `Matrix::new` does when it configures the pins: SB and LAT high, all others low. */
  function PowerOnTrace(): seq<Event>
  {
    [Set(SB, true), Set(LAT, true), Set(RST, false), Set(SCK, false), Set(SDA, false)] + Deactivation()
  }

  // ---------------------------------------------------------------------------------------------
  // The bytes of a row, and the bits the chip shifts in

  /** The three bytes `send_row` sends for one pixel: gamma-corrected blue, green, red. */
  function PixelBytes(c: Color, gamma: Byte -> Byte): seq<Byte>
  {
    var g := GammaCorrect(c, gamma);
    [g.b, g.g, g.r]
  }

  /** The bytes of the first `n` pixels `send_row` sends. */
  function SentBytes(pixels: seq<Color>, n: nat, gamma: Byte -> Byte): (bytes: seq<Byte>)
    requires n <= |pixels|
    ensures |bytes| == 3 * n
  {
    if n == 0 then [] else SentBytes(pixels, n - 1, gamma) + PixelBytes(pixels[|pixels| - n], gamma)
  }

  /** The bytes of a whole row in sending order. */
  function RowBytes(pixels: seq<Color>, gamma: Byte -> Byte): (bytes: seq<Byte>)
    ensures |bytes| == 3 * |pixels|
  {
    SentBytes(pixels, |pixels|, gamma)
  }

  lemma {:induction false} SentBytesAt(pixels: seq<Color>, n: nat, gamma: Byte -> Byte, i: nat, c: nat)
    requires i < n <= |pixels| && c < 3
    ensures SentBytes(pixels, n, gamma)[3 * i + c] == Channel(GammaCorrect(pixels[|pixels| - 1 - i], gamma), 2 - c)
  {
    if i < n - 1 {
      SentBytesAt(pixels, n - 1, gamma, i, c);
    }
  }

  /** Byte `3 * i + c` of a row is channel `2 - c` (blue, green, red) of the gamma-corrected `i`-th pixel
      from the end: the pixels go out in reverse order, each as B, G, R. */
  lemma RowBytesAt(pixels: seq<Color>, gamma: Byte -> Byte, i: nat, c: nat)
    requires i < |pixels| && c < 3
    ensures 3 * i + c < |RowBytes(pixels, gamma)|
    ensures RowBytes(pixels, gamma)[3 * i + c] == Channel(GammaCorrect(pixels[|pixels| - 1 - i], gamma), 2 - c)
  {
    SentBytesAt(pixels, |pixels|, gamma, i, c);
  }

  /** The levels of SDA and SCK seen by the chip. */
  datatype Wire = Wire(sda: bool, sck: bool)

  function Step(w: Wire, e: Event): Wire
  {
    if e.pin == SDA then w.(sda := e.high) else if e.pin == SCK then w.(sck := e.high) else w
  }

  /** A rising edge of SCK shifts the current SDA level into the chip. */
  function Latched(w: Wire, e: Event): seq<bool>
  {
    if e.pin == SCK && e.high && !w.sck then [w.sda] else []
  }

  /** The bits the chip shifts in while a trace is played from wire state `w`. */
  function Shifted(t: seq<Event>, w: Wire): seq<bool>
    decreases |t|
  {
    if t == [] then [] else Latched(w, t[0]) + Shifted(t[1..], Step(w, t[0]))
  }

  /** The wire state after a trace. */
  function Settle(t: seq<Event>, w: Wire): Wire
    decreases |t|
  {
    if t == [] then w else Settle(t[1..], Step(w, t[0]))
  }

  lemma {:induction false} ShiftedAppend(t: seq<Event>, u: seq<Event>, w: Wire)
    ensures Shifted(t + u, w) == Shifted(t, w) + Shifted(u, Settle(t, w))
    ensures Settle(t + u, w) == Settle(u, Settle(t, w))
    decreases |t|
  {
    if t == [] {
      assert t + u == u;
    } else {
      assert (t + u)[0] == t[0];
      assert (t + u)[1..] == t[1..] + u;
      ShiftedAppend(t[1..], u, Step(w, t[0]));
    }
  }

  /** Writes to pins other than SDA and SCK are invisible to the shift register. */
  lemma {:induction false} QuietShifted(t: seq<Event>, w: Wire)
    requires forall k :: 0 <= k < |t| ==> t[k].pin != SDA && t[k].pin != SCK
    ensures Shifted(t, w) == [] && Settle(t, w) == w
    decreases |t|
  {
    if t != [] {
      QuietShifted(t[1..], Step(w, t[0]));
    }
  }

  lemma BitShifted(x: bool, w: Wire)
    ensures Shifted(BitTrace(x), w) == [x]
    ensures Settle(BitTrace(x), w) == Wire(x, false)
  {
    var t := BitTrace(x);
    var w1 := Step(w, t[0]);
    var w2 := Step(w1, t[1]);
    var w3 := Step(w2, t[2]);
    assert t[1..][1..][1..][1..] == [];
    assert Shifted(t[1..][1..][1..], w3) == [];
    assert Shifted(t[1..][1..], w2) == [x];
  }

  /** Whatever the wire state before them, the bits sent are exactly the bits the chip shifts in. */
  lemma {:induction false} BitsShifted(bits: seq<bool>, w: Wire)
    ensures Shifted(BitsTrace(bits), w) == bits
    decreases |bits|
  {
    if bits != [] {
      ShiftedAppend(BitTrace(bits[0]), BitsTrace(bits[1..]), w);
      BitShifted(bits[0], w);
      BitsShifted(bits[1..], Settle(BitTrace(bits[0]), w));
      assert bits == [bits[0]] + bits[1..];
    }
  }

  /** `send_byte` shifts the eight bits of the byte into the chip, most significant first. */
  lemma ByteShifted(b: Byte, w: Wire)
    ensures Shifted(ByteTrace(b), w) == Msb(b)
  {
    ByteTraceMsb(b);
    BitsShifted(Msb(b), w);
  }

  /** The trace of a bit sequence drives only SDA and SCK. */
  lemma {:induction false} BitsTraceOnWire(bits: seq<bool>)
    ensures forall k :: 0 <= k < |BitsTrace(bits)| ==>
      BitsTrace(bits)[k].pin == SDA || BitsTrace(bits)[k].pin == SCK
    decreases |bits|
  {
    if bits != [] {
      BitsTraceOnWire(bits[1..]);
    }
  }

  /** Switching the rows off shifts nothing into the chip and leaves the wire as it was. */
  lemma DeactivationShifted(w: Wire)
    ensures Shifted(Deactivation(), w) == [] && Settle(Deactivation(), w) == w
  {
    DeactivationAt();
    QuietShifted(Deactivation(), w);
  }

  lemma BitsOfTriple(x: Byte, y: Byte, z: Byte)
    ensures BitsOf([x, y, z]) == Msb(x) + Msb(y) + Msb(z)
  {
    var bytes := [x, y, z];
    assert bytes[1..] == [y, z] && bytes[1..][1..] == [z] && bytes[1..][1..][1..] == [];
    assert BitsOf([z]) == Msb(z);
    assert BitsOf([y, z]) == Msb(y) + Msb(z);
  }

  /** One pixel of `send_row` shifts its three gamma-corrected bytes; the row writes in between are
      invisible to the shift register. */
  lemma PixelShifted(c: Color, i: nat, gamma: Byte -> Byte, w: Wire)
    ensures Shifted(PixelTrace(c, i, gamma), w) == BitsOf(PixelBytes(c, gamma))
  {
    var g := GammaCorrect(c, gamma);
    var b := ByteTrace(g.b);
    var d: seq<Event> := if i == 4 then Deactivation() else [];
    var gr := ByteTrace(g.g);
    var rr := ByteTrace(g.r);
    assert PixelTrace(c, i, gamma) == b + d + gr + rr;
    ShiftedAppend(b, d, w);
    ByteShifted(g.b, w);
    if i == 4 {
      DeactivationShifted(Settle(b, w));
    }
    assert Shifted(b + d, w) == Msb(g.b);
    ShiftedAppend(b + d, gr, w);
    ByteShifted(g.g, Settle(b + d, w));
    assert Shifted(b + d + gr, w) == Msb(g.b) + Msb(g.g);
    ShiftedAppend(b + d + gr, rr, w);
    ByteShifted(g.r, Settle(b + d + gr, w));
    BitsOfTriple(g.b, g.g, g.r);
  }

  /** One more pixel: its three bytes follow the bits of the pixels before it. */
  lemma SentShiftedStep(pixels: seq<Color>, n: nat, gamma: Byte -> Byte, w: Wire)
    requires 0 < n <= |pixels|
    requires Shifted(SentPixels(pixels, n - 1, gamma), w) == BitsOf(SentBytes(pixels, n - 1, gamma))
    ensures Shifted(SentPixels(pixels, n, gamma), w) == BitsOf(SentBytes(pixels, n, gamma))
  {
    var c := pixels[|pixels| - n];
    var before := SentPixels(pixels, n - 1, gamma);
    var pixel := PixelTrace(c, n - 1, gamma);
    var bytes := SentBytes(pixels, n - 1, gamma);
    var tail := PixelBytes(c, gamma);
    assert SentPixels(pixels, n, gamma) == before + pixel;
    assert SentBytes(pixels, n, gamma) == bytes + tail;
    PixelShifted(c, n - 1, gamma, Settle(before, w));
    ShiftedAppend(before, pixel, w);
    BitsOfAppend(bytes, tail);
    assert Shifted(before + pixel, w) == BitsOf(bytes + tail);
  }

  lemma {:induction false} SentShifted(pixels: seq<Color>, n: nat, gamma: Byte -> Byte, w: Wire)
    requires n <= |pixels|
    ensures Shifted(SentPixels(pixels, n, gamma), w) == BitsOf(SentBytes(pixels, n, gamma))
  {
    if n > 0 {
      SentShifted(pixels, n - 1, gamma, w);
      SentShiftedStep(pixels, n, gamma, w);
    } else {
      assert SentPixels(pixels, n, gamma) == [] && SentBytes(pixels, n, gamma) == [];
    }
  }

  /** Whatever the wire state before it, `send_row` shifts into the chip exactly the bits of the row
      bytes: the latch pulse and the row switch shift nothing. */
  lemma RowShifted(row: nat, pixels: seq<Color>, gamma: Byte -> Byte, w: Wire)
    ensures Shifted(RowTrace(row, pixels, gamma), w) == BitsOf(RowBytes(pixels, gamma))
  {
    var sent := SentPixels(pixels, |pixels|, gamma);
    assert RowTrace(row, pixels, gamma) == sent + LatPulse() + [Set(C(row), true)];
    ShiftedAppend(sent + LatPulse(), [Set(C(row), true)], w);
    ShiftedAppend(sent, LatPulse(), w);
    LatShifted(Settle(sent, w));
    QuietEvent(Set(C(row), true), Settle(sent + LatPulse(), w));
    SentShifted(pixels, |pixels|, gamma, w);
  }

  /** How many times `e` occurs in `t`. */
  function Count(t: seq<Event>, e: Event): nat
  {
    if t == [] then 0 else (if t[0] == e then 1 else 0) + Count(t[1..], e)
  }

  lemma {:induction false} CountAppend(a: seq<Event>, b: seq<Event>, e: Event)
    ensures Count(a + b, e) == Count(a, e) + Count(b, e)
    decreases |a|
  {
    if a == [] {
      assert a + b == b;
    } else {
      assert (a + b)[1..] == a[1..] + b;
      CountAppend(a[1..], b, e);
    }
  }

  lemma {:induction false} CountAbsent(t: seq<Event>, e: Event)
    requires e !in t
    ensures Count(t, e) == 0
    decreases |t|
  {
    if t != [] {
      assert t[0] != e;
      CountAbsent(t[1..], e);
    }
  }

  /** Sending a byte never drives a row line. */
  lemma ByteTraceNoRow(x: Byte, e: Event)
    requires e.pin.C?
    ensures Count(ByteTrace(x), e) == 0
  {
    ByteTraceMsb(x);
    BitsTraceOnWire(Msb(x));
    assert e !in ByteTrace(x);
    CountAbsent(ByteTrace(x), e);
  }

  /** An event found at exactly one position of a trace occurs in it once. */
  lemma {:induction false} CountOnce(t: seq<Event>, e: Event, j: nat)
    requires j < |t| && t[j] == e
    requires forall k :: 0 <= k < |t| && k != j ==> t[k] != e
    ensures Count(t, e) == 1
    decreases |t|
  {
    if j == 0 {
      forall i | 0 <= i < |t[1..]|
        ensures t[1..][i] != e
      {
        assert t[1..][i] == t[i + 1];
      }
      CountAbsent(t[1..], e);
    } else {
      CountOnce(t[1..], e, j - 1);
    }
  }

  /** `deactivate_rows` drives each row line low once. */
  lemma DeactivationCount(j: nat)
    requires j < 8
    ensures Count(Deactivation(), Set(C(j), false)) == 1
  {
    DeactivationAt();
    CountOnce(Deactivation(), Set(C(j), false), j);
  }

  /** A row line is driven low once by the pixel sent fifth, and by no other pixel. */
  lemma PixelDeactivations(c: Color, i: nat, gamma: Byte -> Byte, j: nat)
    requires j < 8
    ensures Count(PixelTrace(c, i, gamma), Set(C(j), false)) == if i == 4 then 1 else 0
  {
    var g := GammaCorrect(c, gamma);
    var e := Set(C(j), false);
    var b := ByteTrace(g.b);
    var d: seq<Event> := if i == 4 then Deactivation() else [];
    var gr := ByteTrace(g.g);
    var rr := ByteTrace(g.r);
    assert PixelTrace(c, i, gamma) == b + d + gr + rr;
    CountAppend(b + d + gr, rr, e);
    CountAppend(b + d, gr, e);
    CountAppend(b, d, e);
    ByteTraceNoRow(g.b, e);
    ByteTraceNoRow(g.g, e);
    ByteTraceNoRow(g.r, e);
    if i == 4 {
      DeactivationCount(j);
    }
  }

  lemma {:induction false} SentDeactivations(pixels: seq<Color>, n: nat, gamma: Byte -> Byte, j: nat)
    requires n <= |pixels| && j < 8
    ensures Count(SentPixels(pixels, n, gamma), Set(C(j), false)) == if n >= 5 then 1 else 0
  {
    if n > 0 {
      var before := SentPixels(pixels, n - 1, gamma);
      var last := PixelTrace(pixels[|pixels| - n], n - 1, gamma);
      assert SentPixels(pixels, n, gamma) == before + last;
      assert (n >= 5) == (n - 1 >= 5 || n - 1 == 4);
      CountAppend(before, last, Set(C(j), false));
      SentDeactivations(pixels, n - 1, gamma, j);
      PixelDeactivations(pixels[|pixels| - n], n - 1, gamma, j);
    }
  }

  /** `send_row` drives every row line low exactly once when the row has at least five pixels (an 8-pixel
      row always does), and never otherwise. */
  lemma RowDeactivatesOnce(row: nat, pixels: seq<Color>, gamma: Byte -> Byte, j: nat)
    requires j < 8
    ensures Count(RowTrace(row, pixels, gamma), Set(C(j), false)) == if |pixels| >= 5 then 1 else 0
  {
    var e := Set(C(j), false);
    var sent := SentPixels(pixels, |pixels|, gamma);
    CountAppend(sent + LatPulse(), [Set(C(row), true)], e);
    CountAppend(sent, LatPulse(), e);
    CountAbsent(LatPulse(), e);
    CountAbsent([Set(C(row), true)], e);
    SentDeactivations(pixels, |pixels|, gamma, j);
  }

  /** `send_row` ends with row line `row` switched on, after the latch pulse. */
  lemma RowEndsActive(row: nat, pixels: seq<Color>, gamma: Byte -> Byte)
    ensures |RowTrace(row, pixels, gamma)| >= 4
    ensures RowTrace(row, pixels, gamma)[|RowTrace(row, pixels, gamma)| - 1] == Set(C(row), true)
    ensures RowTrace(row, pixels, gamma)[|RowTrace(row, pixels, gamma)| - 4..|RowTrace(row, pixels, gamma)| - 1] == LatPulse()
  {
  }

  // ---------------------------------------------------------------------------------------------
  // Where the row switch-off falls in the byte stream

  /** `send_byte` applied to each byte in turn: the bits of every byte, most significant first. */
  function BytesTrace(bytes: seq<Byte>): seq<Event>
  {
    BitsTrace(BitsOf(bytes))
  }

  lemma BytesTraceAppend(a: seq<Byte>, b: seq<Byte>)
    ensures BytesTrace(a + b) == BytesTrace(a) + BytesTrace(b)
  {
    BitsOfAppend(a, b);
    BitsTraceAppend(BitsOf(a), BitsOf(b));
  }

  /** One byte is what `send_byte` emits for it. */
  lemma BytesTraceOne(x: Byte)
    ensures BytesTrace([x]) == ByteTrace(x)
  {
    ByteTraceMsb(x);
    var m := Msb(x);
    assert [x][1..] == [];
    assert BitsOf([x]) == m + BitsOf([x][1..]);
    assert m + [] == m;
  }

  /** The three bytes of one pixel, one after the other. */
  lemma PixelBytesTrace(c: Color, gamma: Byte -> Byte)
    ensures BytesTrace(PixelBytes(c, gamma))
         == ByteTrace(GammaCorrect(c, gamma).b) + ByteTrace(GammaCorrect(c, gamma).g) + ByteTrace(GammaCorrect(c, gamma).r)
  {
    var g := GammaCorrect(c, gamma);
    assert PixelBytes(c, gamma) == [g.b] + [g.g] + [g.r];
    BytesTraceAppend([g.b] + [g.g], [g.r]);
    BytesTraceAppend([g.b], [g.g]);
    BytesTraceOne(g.b);
    BytesTraceOne(g.g);
    BytesTraceOne(g.r);
  }

  /** A pixel other than the fifth is its three bytes. */
  lemma QuietPixel(sb: seq<Byte>, c: Color, i: nat, gamma: Byte -> Byte)
    requires i != 4
    ensures BytesTrace(sb) + PixelTrace(c, i, gamma) == BytesTrace(sb + PixelBytes(c, gamma))
  {
    PixelBytesTrace(c, gamma);
    BytesTraceAppend(sb, PixelBytes(c, gamma));
  }

  /** The fifth pixel: after the 12 bytes before it and its blue byte, the rows are switched off. */
  lemma FifthPixel(sb: seq<Byte>, c: Color, gamma: Byte -> Byte)
    requires |sb| == 12
    ensures BytesTrace(sb) + PixelTrace(c, 4, gamma)
         == BytesTrace((sb + PixelBytes(c, gamma))[..13]) + Deactivation() + BytesTrace((sb + PixelBytes(c, gamma))[13..])
  {
    var g := GammaCorrect(c, gamma);
    var bytes := sb + PixelBytes(c, gamma);
    assert bytes[..13] == sb + [g.b];
    assert bytes[13..] == [g.g] + [g.r];
    BytesTraceAppend(sb, [g.b]);
    BytesTraceAppend([g.g], [g.r]);
    BytesTraceOne(g.b);
    BytesTraceOne(g.g);
    BytesTraceOne(g.r);
  }

  /** A pixel after the fifth extends the bytes after the switch-off. */
  lemma LaterPixel(sb: seq<Byte>, c: Color, i: nat, gamma: Byte -> Byte)
    requires |sb| >= 13 && i != 4
    ensures BytesTrace(sb[..13]) + Deactivation() + BytesTrace(sb[13..]) + PixelTrace(c, i, gamma)
         == BytesTrace((sb + PixelBytes(c, gamma))[..13]) + Deactivation() + BytesTrace((sb + PixelBytes(c, gamma))[13..])
  {
    var px := PixelBytes(c, gamma);
    assert (sb + px)[..13] == sb[..13];
    assert (sb + px)[13..] == sb[13..] + px;
    QuietPixel(sb[13..], c, i, gamma);
  }

  /** The first `n` pixels `send_row` sends are their bytes sent one by one; from the fifth pixel on, the
      rows are switched off right after the 13th byte, the blue byte of the fifth pixel. */
  lemma {:induction false} SentPixelsBytes(pixels: seq<Color>, n: nat, gamma: Byte -> Byte)
    requires n <= |pixels|
    ensures n < 5 ==> SentPixels(pixels, n, gamma) == BytesTrace(SentBytes(pixels, n, gamma))
    ensures n >= 5 ==> SentPixels(pixels, n, gamma)
                       == BytesTrace(SentBytes(pixels, n, gamma)[..13]) + Deactivation()
                          + BytesTrace(SentBytes(pixels, n, gamma)[13..])
  {
    if n == 0 {
      assert SentPixels(pixels, n, gamma) == [] && SentBytes(pixels, n, gamma) == [];
    } else {
      SentPixelsBytes(pixels, n - 1, gamma);
      var c := pixels[|pixels| - n];
      var sb := SentBytes(pixels, n - 1, gamma);
      assert SentPixels(pixels, n, gamma) == SentPixels(pixels, n - 1, gamma) + PixelTrace(c, n - 1, gamma);
      assert SentBytes(pixels, n, gamma) == sb + PixelBytes(c, gamma);
      if n - 1 < 4 {
        QuietPixel(sb, c, n - 1, gamma);
      } else if n - 1 == 4 {
        FifthPixel(sb, c, gamma);
      } else {
        LaterPixel(sb, c, n - 1, gamma);
      }
    }
  }

  /** `send_row` is the row's bytes sent one by one, with the rows switched off right after the 13th byte
      (the blue byte of the fifth pixel sent) when the row has at least five pixels, then the latch pulse
      and row line `row` switched on. */
  lemma RowTraceBytes(row: nat, pixels: seq<Color>, gamma: Byte -> Byte)
    ensures |pixels| >= 5 ==> RowTrace(row, pixels, gamma)
                              == BytesTrace(RowBytes(pixels, gamma)[..13]) + Deactivation()
                                 + BytesTrace(RowBytes(pixels, gamma)[13..]) + LatPulse() + [Set(C(row), true)]
    ensures |pixels| < 5 ==> RowTrace(row, pixels, gamma)
                             == BytesTrace(RowBytes(pixels, gamma)) + LatPulse() + [Set(C(row), true)]
  {
    SentPixelsBytes(pixels, |pixels|, gamma);
  }

  /** One SCK pulse shifts the current SDA level and leaves SCK low. */
  lemma SckShifted(w: Wire)
    ensures Shifted(SckPulse(), w) == [w.sda]
    ensures Settle(SckPulse(), w) == w.(sck := false)
  {
    var t := SckPulse();
    var w1 := Step(w, t[0]);
    var w2 := Step(w1, t[1]);
    assert t[1..][1..][1..] == [];
    assert Shifted(t[1..][1..], w2) == [];
    assert Shifted(t[1..], w1) == [w.sda];
  }

  /** A LAT pulse shifts nothing and leaves the wire as it was. */
  lemma LatShifted(w: Wire)
    ensures Shifted(LatPulse(), w) == [] && Settle(LatPulse(), w) == w
  {
    var t := LatPulse();
    assert t[1..][1..][1..] == [];
  }

  /** `init_bank0` shifts `n` copies of the SDA level for `n` SCK pulses. */
  lemma {:induction false} PulsesShifted(n: nat, w: Wire)
    ensures Shifted(Pulses(n), w) == seq(n, _ => w.sda)
    ensures Settle(Pulses(n), w).sda == w.sda
    decreases n
  {
    if n > 0 {
      assert Pulses(n) == Pulses(n - 1) + SckPulse();
      ShiftedAppend(Pulses(n - 1), SckPulse(), w);
      PulsesShifted(n - 1, w);
      SckShifted(Settle(Pulses(n - 1), w));
      assert seq(n - 1, _ => w.sda) + [w.sda] == seq(n, _ => w.sda);
    }
  }

  /** A write to a pin other than SDA and SCK shifts nothing and leaves the wire as it was. */
  lemma QuietEvent(e: Event, w: Wire)
    requires e.pin != SDA && e.pin != SCK
    ensures Shifted([e], w) == [] && Settle([e], w) == w
  {
    assert [e][1..] == [];
  }

  /** SDA driven high, then `n` pulses, a LAT pulse and a write to SB: `n` one-bits. */
  lemma {:induction false} OnesShifted(n: nat, w: Wire)
    ensures Shifted([Set(SB, false), Set(SDA, true)] + Pulses(n) + LatPulse() + [Set(SB, true)], w) == seq(n, _ => true)
  {
    var head := [Set(SB, false), Set(SDA, true)];
    assert head == [Set(SB, false)] + [Set(SDA, true)];
    ShiftedAppend([Set(SB, false)], [Set(SDA, true)], w);
    QuietEvent(Set(SB, false), w);
    var w1 := Settle(head, w);
    assert Shifted(head, w) == [] && w1.sda by {
      assert [Set(SDA, true)][1..] == [];
    }
    ShiftedAppend(head, Pulses(n), w);
    PulsesShifted(n, w1);
    var w2 := Settle(head + Pulses(n), w);
    ShiftedAppend(head + Pulses(n), LatPulse(), w);
    LatShifted(w2);
    ShiftedAppend(head + Pulses(n) + LatPulse(), [Set(SB, true)], w);
    QuietEvent(Set(SB, true), Settle(head + Pulses(n) + LatPulse(), w));
  }

  /** `init_bank0` shifts 144 one-bits into the chip, whatever the wire state before it. */
  lemma Bank0Shifted(w: Wire)
    ensures Shifted(Bank0Trace(), w) == seq(BANK0_BITS, _ => true)
  {
    OnesShifted(BANK0_BITS, w);
  }

  // ---------------------------------------------------------------------------------------------
  // The driver

  /** The levels of the eight row lines `c0` to `c7`. */
  datatype Rows = Rows(c0: bool, c1: bool, c2: bool, c3: bool, c4: bool, c5: bool, c6: bool, c7: bool)

  /** The levels of the thirteen output pins of `Matrix`: the five control pins and the row lines. */
  datatype Levels = Levels(sb: bool, lat: bool, rst: bool, sck: bool, sda: bool, rows: Rows)

  /** Every row line low. */
  const ROWS_OFF: Rows := Rows(false, false, false, false, false, false, false, false)

  /** Every pin low: the levels before the first write. */
  function AllLow(): Levels
  {
    Levels(false, false, false, false, false, ROWS_OFF)
  }

  /** Row line `j` (`c<j>`); there is none beyond 7. */
  function Line(r: Rows, j: nat): bool
  {
    if j == 0 then r.c0 else if j == 1 then r.c1 else if j == 2 then r.c2 else if j == 3 then r.c3
    else if j == 4 then r.c4 else if j == 5 then r.c5 else if j == 6 then r.c6 else if j == 7 then r.c7
    else false
  }

  /** The row lines with line `j` driven to `v`. */
  function WithLine(r: Rows, j: nat, v: bool): Rows
  {
    Rows(if j == 0 then v else r.c0, if j == 1 then v else r.c1, if j == 2 then v else r.c2,
         if j == 3 then v else r.c3, if j == 4 then v else r.c4, if j == 5 then v else r.c5,
         if j == 6 then v else r.c6, if j == 7 then v else r.c7)
  }

  /** Driving line `j` changes line `j` and no other. */
  lemma LineWithLine(r: Rows, j: nat, v: bool, k: nat)
    requires j < 8
    ensures Line(WithLine(r, j, v), k) == if k == j then v else Line(r, k)
  {
  }

  /** The row lines with only line `row` high. */
  function OnlyRow(row: nat): (lines: Rows)
    requires row < 8
    ensures forall j :: 0 <= j < 8 ==> Line(lines, j) == (j == row)
  {
    WithLine(ROWS_OFF, row, true)
  }

  /** The level of pin `p`. */
  function Level(l: Levels, p: Pin): bool
  {
    match p
    case SB => l.sb
    case LAT => l.lat
    case RST => l.rst
    case SCK => l.sck
    case SDA => l.sda
    case C(j) => Line(l.rows, j)
  }

  /** The levels after pin `p` is driven to `v`. */
  function Drive(l: Levels, p: Pin, v: bool): Levels
  {
    match p
    case SB => l.(sb := v)
    case LAT => l.(lat := v)
    case RST => l.(rst := v)
    case SCK => l.(sck := v)
    case SDA => l.(sda := v)
    case C(j) => l.(rows := WithLine(l.rows, j, v))
  }

  /** Driving a pin sets that pin and no other. */
  lemma DriveLevel(l: Levels, p: Pin, v: bool, q: Pin)
    requires IsPin(p)
    ensures Level(Drive(l, p, v), q) == if q == p then v else Level(l, q)
  {
    if p.C? && q.C? {
      LineWithLine(l.rows, p.line, v, q.line);
    }
  }

  /** The levels after `send_row` has sent its `i`-th pixel `c`: SDA holds bit 0 of the gamma-corrected red
      byte, SCK is low, and the rows are off if this was the fifth pixel. */
  function PixelLevels(l: Levels, c: Color, i: nat, gamma: Byte -> Byte): Levels
  {
    l.(sda := Bit(GammaCorrect(c, gamma).r as nat, 0)).(sck := false).(rows := if i == 4 then ROWS_OFF else l.rows)
  }

  /** The levels after the first `n` pixels `send_row` sends. */
  function PixelsLevels(l: Levels, pixels: seq<Color>, n: nat, gamma: Byte -> Byte): Levels
    requires n <= |pixels|
  {
    if n == 0 then l else PixelLevels(PixelsLevels(l, pixels, n - 1, gamma), pixels[|pixels| - n], n - 1, gamma)
  }

  /** After `n > 0` pixels only SDA, SCK and the rows have moved: SDA holds the last bit of the last pixel
      sent, SCK is low, and the rows are all off from the fifth pixel on. */
  lemma {:induction false} PixelsLevelsAfter(l: Levels, pixels: seq<Color>, n: nat, gamma: Byte -> Byte)
    requires 0 < n <= |pixels|
    ensures PixelsLevels(l, pixels, n, gamma)
         == l.(sda := Bit(GammaCorrect(pixels[|pixels| - n], gamma).r as nat, 0)).(sck := false)
             .(rows := if n >= 5 then ROWS_OFF else l.rows)
  {
    if n > 1 {
      PixelsLevelsAfter(l, pixels, n - 1, gamma);
    }
  }

  /** The levels after `send_row(row, pixels)`: those after the pixels, LAT high after its pulse, row line
      `row` high. */
  function RowLevels(l: Levels, row: nat, pixels: seq<Color>, gamma: Byte -> Byte): Levels
  {
    var p := PixelsLevels(l, pixels, |pixels|, gamma);
    p.(lat := true).(rows := WithLine(p.rows, row, true))
  }

  /** After a row of at least five pixels, the row sent is the only active one: the previous row was
      switched off. SB and RST are untouched, LAT is high, and SCK is low once a bit was sent. */
  lemma RowLevelsActive(l: Levels, row: nat, pixels: seq<Color>, gamma: Byte -> Byte)
    requires row < 8
    ensures RowLevels(l, row, pixels, gamma).sb == l.sb && RowLevels(l, row, pixels, gamma).rst == l.rst
    ensures RowLevels(l, row, pixels, gamma).lat && Line(RowLevels(l, row, pixels, gamma).rows, row)
    ensures |pixels| > 0 ==> !RowLevels(l, row, pixels, gamma).sck
    ensures |pixels| >= 5 ==> RowLevels(l, row, pixels, gamma).rows == OnlyRow(row)
  {
    if |pixels| > 0 {
      PixelsLevelsAfter(l, pixels, |pixels|, gamma);
    }
    LineWithLine(PixelsLevels(l, pixels, |pixels|, gamma).rows, row, true, row);
  }

  /** The levels after the first `n` rows of `display_image`. */
  function FrameLevels(l: Levels, img: Image, n: nat, gamma: Byte -> Byte): Levels
    requires n <= 8
  {
    if n == 0 then l else RowLevels(FrameLevels(l, img, n - 1, gamma), n - 1, Row(img, n - 1), gamma)
  }

  lemma {:induction false} FrameLevelsKeep(l: Levels, img: Image, n: nat, gamma: Byte -> Byte)
    requires n <= 8
    ensures FrameLevels(l, img, n, gamma).sb == l.sb && FrameLevels(l, img, n, gamma).rst == l.rst
  {
    if n > 0 {
      FrameLevelsKeep(l, img, n - 1, gamma);
      RowLevelsActive(FrameLevels(l, img, n - 1, gamma), n - 1, Row(img, n - 1), gamma);
    }
  }

  /** After a whole image, row 7 is the only active row, LAT is high, SCK low, SDA holds the last bit of
      pixel (7, 0), the last one sent, and SB and RST are as before. */
  lemma FrameLevelsEnd(l: Levels, img: Image, gamma: Byte -> Byte)
    ensures FrameLevels(l, img, 8, gamma)
         == l.(sda := Bit(GammaCorrect(img[56], gamma).r as nat, 0)).(sck := false).(lat := true).(rows := OnlyRow(7))
  {
    var before := FrameLevels(l, img, 7, gamma);
    FrameLevelsKeep(l, img, 7, gamma);
    PixelsLevelsAfter(before, Row(img, 7), 8, gamma);
    assert Row(img, 7)[0] == img[56];
  }

  // Regrouping traces: the driver's methods append writes one at a time, the protocol functions group
  // them by step.

  lemma AppendAssoc(a: seq<Event>, b: seq<Event>, c: seq<Event>)
    ensures a + b + c == a + (b + c)
  {
  }

  lemma Snoc3(t: seq<Event>, e0: Event, e1: Event, e2: Event)
    ensures t + [e0] + [e1] + [e2] == t + [e0, e1, e2]
  {
  }

  lemma Snoc5(t: seq<Event>, e0: Event, e1: Event, e2: Event, e3: Event, e4: Event)
    ensures t + [e0] + [e1] + [e2] + [e3] + [e4] == t + [e0, e1, e2, e3, e4]
  {
  }

  lemma Snoc8(t: seq<Event>, e0: Event, e1: Event, e2: Event, e3: Event, e4: Event, e5: Event, e6: Event, e7: Event)
    ensures t + [e0] + [e1] + [e2] + [e3] + [e4] + [e5] + [e6] + [e7] == t + [e0, e1, e2, e3, e4, e5, e6, e7]
  {
  }

  lemma SentPixelsStep(t: seq<Event>, pixels: seq<Color>, n: nat, gamma: Byte -> Byte)
    requires n < |pixels|
    ensures t + SentPixels(pixels, n, gamma) + PixelTrace(pixels[|pixels| - 1 - n], n, gamma)
         == t + SentPixels(pixels, n + 1, gamma)
  {
    AppendAssoc(t, SentPixels(pixels, n, gamma), PixelTrace(pixels[|pixels| - 1 - n], n, gamma));
  }

  lemma HighBitsTraceStep(t: seq<Event>, b: Byte, n: nat)
    requires n < 8
    ensures t + HighBitsTrace(b, n) + BitTrace(Bit(b as nat, 7 - n)) == t + HighBitsTrace(b, n + 1)
  {
    AppendAssoc(t, HighBitsTrace(b, n), BitTrace(Bit(b as nat, 7 - n)));
  }

  lemma PulsesStep(t: seq<Event>, n: nat)
    ensures t + Pulses(n) + SckPulse() == t + Pulses(n + 1)
  {
    AppendAssoc(t, Pulses(n), SckPulse());
  }

  lemma FrameTraceStep(t: seq<Event>, img: Image, n: nat, gamma: Byte -> Byte)
    requires n < 8
    ensures t + FrameTrace(img, n, gamma) + RowTrace(n, Row(img, n), gamma) == t + FrameTrace(img, n + 1, gamma)
  {
    AppendAssoc(t, FrameTrace(img, n, gamma), RowTrace(n, Row(img, n), gamma));
  }

  class Matrix {
    /** The struct's thirteen output pins (`sb`, `lat`, `rst`, `sck`, `sda`, `c0` to `c7`), as levels. */
    var pins: Levels
    /** Every pin write so far, in order. */
    ghost var trace: seq<Event>
    /** The gamma table of `gamma.rs`, which is not part of this model. */
    const gamma: Byte -> Byte

    /** `Matrix::new`: every pin configured as an output in its initial state (SB and LAT high, all
        others low); after the power-on delay RST is raised and bank 0 initialised. */
    constructor (gamma: Byte -> Byte)
      ensures this.gamma == gamma
      ensures trace == PowerOnTrace() + [Set(RST, true)] + Bank0Trace()
      ensures pins == Levels(true, true, true, false, true, ROWS_OFF)
    {
      pins := AllLow();
      trace := [];
      this.gamma := gamma;
      new;
      Configure();
      assert trace == PowerOnTrace();
      SetPin(RST, true);
      InitBank0();
    }

    /** The pin configuration of `Matrix::new`, one pin after the other in field order. */
    method Configure()
      modifies this
      ensures trace == old(trace) + PowerOnTrace()
      ensures pins == Levels(true, true, false, false, false, ROWS_OFF)
    {
      SetPin(SB, true);
      SetPin(LAT, true);
      SetPin(RST, false);
      SetPin(SCK, false);
      SetPin(SDA, false);
      DeactivateRows();
      Snoc5(old(trace), Set(SB, true), Set(LAT, true), Set(RST, false), Set(SCK, false), Set(SDA, false));
      AppendAssoc(old(trace), [Set(SB, true), Set(LAT, true), Set(RST, false), Set(SCK, false), Set(SDA, false)], Deactivation());
    }

    /** `set_state` on one pin; every other pin keeps its level. */
    method SetPin(p: Pin, v: bool)
      requires IsPin(p)
      modifies this
      ensures pins == Drive(old(pins), p, v) && trace == old(trace) + [Set(p, v)]
      ensures forall q: Pin :: Level(pins, q) == if q == p then v else Level(old(pins), q)
    {
      forall q: Pin
        ensures Level(Drive(pins, p, v), q) == if q == p then v else Level(pins, q)
      {
        DriveLevel(pins, p, v, q);
      }
      pins := Drive(pins, p, v);
      trace := trace + [Set(p, v)];
    }

    /** `pulse_sck`: ends with SCK low after one high. */
    method PulseSck()
      modifies this
      ensures pins == old(pins).(sck := false) && trace == old(trace) + SckPulse()
    {
      SetPin(SCK, false);
      SetPin(SCK, true);
      SetPin(SCK, false);
      Snoc3(old(trace), Set(SCK, false), Set(SCK, true), Set(SCK, false));
    }

    /** `pulse_lat`: ends with LAT high after one low. */
    method PulseLat()
      modifies this
      ensures pins == old(pins).(lat := true) && trace == old(trace) + LatPulse()
    {
      SetPin(LAT, true);
      SetPin(LAT, false);
      SetPin(LAT, true);
      Snoc3(old(trace), Set(LAT, true), Set(LAT, false), Set(LAT, true));
    }

    /** `row`: drive row line `row`; any other row number is unreachable in the source. */
    method SetRow(row: nat, state: bool)
      requires row < 8
      modifies this
      ensures pins == old(pins).(rows := WithLine(old(pins).rows, row, state)) && trace == old(trace) + [Set(C(row), state)]
    {
      SetPin(C(row), state);
    }

    /** One bit of `send_byte`: SDA set to it, then an SCK pulse. */
    method SendBit(x: bool)
      modifies this
      ensures pins == old(pins).(sda := x).(sck := false) && trace == old(trace) + BitTrace(x)
    {
      SetPin(SDA, x);
      PulseSck();
      AppendAssoc(old(trace), [Set(SDA, x)], SckPulse());
    }

    /** `send_byte`: SDA set to each bit from bit 7 down to bit 0, with an SCK pulse after each. */
    method SendByte(pixel: Byte)
      modifies this
      ensures trace == old(trace) + ByteTrace(pixel)
      ensures pins == old(pins).(sda := Bit(pixel as nat, 0)).(sck := false)
    {
      for counter: nat := 8 downto 0
        invariant trace == old(trace) + HighBitsTrace(pixel, 8 - counter)
        invariant pins == if counter == 8 then old(pins) else old(pins).(sda := Bit(pixel as nat, counter)).(sck := false)
      {
        SendBit(Bit(pixel as nat, counter));
        HighBitsTraceStep(old(trace), pixel, 7 - counter);
      }
    }

    /** `deactivate_rows`: all eight row lines driven low. */
    method DeactivateRows()
      modifies this
      ensures pins == old(pins).(rows := ROWS_OFF)
      ensures trace == old(trace) + Deactivation()
    {
      SetRow(0, false);
      SetRow(1, false);
      SetRow(2, false);
      SetRow(3, false);
      SetRow(4, false);
      SetRow(5, false);
      SetRow(6, false);
      SetRow(7, false);
      Snoc8(old(trace), Set(C(0), false), Set(C(1), false), Set(C(2), false), Set(C(3), false),
            Set(C(4), false), Set(C(5), false), Set(C(6), false), Set(C(7), false));
    }

    /** The body of `send_row`'s loop for its `i`-th pixel, `pixels[|pixels| - 1 - i]`: gamma-corrected
        blue, then, for the fifth pixel, all rows switched off, then green and red. */
    method SendPixel(pixels: seq<Color>, i: nat, ghost t0: seq<Event>)
      requires i < |pixels| && trace == t0 + SentPixels(pixels, i, gamma)
      modifies this
      ensures trace == t0 + SentPixels(pixels, i + 1, gamma)
      ensures pins == PixelLevels(old(pins), pixels[|pixels| - 1 - i], i, gamma)
    {
      var colorAux := GammaCorrect(pixels[|pixels| - 1 - i], gamma);
      ghost var d: seq<Event> := if i == 4 then Deactivation() else [];
      SendByte(colorAux.b);
      ghost var t1 := trace;
      if i == 4 {
        DeactivateRows();
      }
      assert trace == t1 + d;
      SendByte(colorAux.g);
      SendByte(colorAux.r);
      ghost var t := old(trace);
      ghost var b := ByteTrace(colorAux.b);
      AppendAssoc(t, b, d);
      AppendAssoc(t, b + d, ByteTrace(colorAux.g));
      AppendAssoc(t, b + d + ByteTrace(colorAux.g), ByteTrace(colorAux.r));
      SentPixelsStep(t0, pixels, i, gamma);
    }

    /** The loop of `send_row`: the pixels from last to first. */
    method SendPixels(pixels: seq<Color>)
      modifies this
      ensures trace == old(trace) + SentPixels(pixels, |pixels|, gamma)
      ensures pins == PixelsLevels(old(pins), pixels, |pixels|, gamma)
    {
      var i := 0;
      while i < |pixels|
        invariant i <= |pixels|
        invariant trace == old(trace) + SentPixels(pixels, i, gamma)
        invariant pins == PixelsLevels(old(pins), pixels, i, gamma)
      {
        SendPixel(pixels, i, old(trace));
        i := i + 1;
      }
    }

    /** `send_row`: the row's pixels in reverse order, each as gamma-corrected B, G, R, with the rows
        switched off after the fifth pixel's blue byte; then a LAT pulse and row `row` switched on. */
    method SendRow(row: nat, pixels: seq<Color>)
      requires row < 8
      modifies this
      ensures trace == old(trace) + RowTrace(row, pixels, gamma)
      ensures pins == RowLevels(old(pins), row, pixels, gamma)
    {
      SendPixels(pixels);
      PulseLat();
      SetRow(row, true);
      AppendAssoc(old(trace), SentPixels(pixels, |pixels|, gamma), LatPulse());
      AppendAssoc(old(trace), SentPixels(pixels, |pixels|, gamma) + LatPulse(), [Set(C(row), true)]);
    }

    /** `n` SCK pulses with SDA left as it is. */
    method Pulse(n: nat)
      modifies this
      ensures trace == old(trace) + Pulses(n)
      ensures pins == if n == 0 then old(pins) else old(pins).(sck := false)
    {
      var k := 0;
      while k < n
        invariant 0 <= k <= n
        invariant trace == old(trace) + Pulses(k)
        invariant pins == if k == 0 then old(pins) else old(pins).(sck := false)
      {
        PulseSck();
        PulsesStep(old(trace), k);
        k := k + 1;
      }
    }

    /** `init_bank0`: 144 one-bits shifted with SB low, a LAT pulse, SB restored high. */
    method InitBank0()
      modifies this
      ensures trace == old(trace) + Bank0Trace()
      ensures pins == old(pins).(sb := true).(sda := true).(sck := false).(lat := true)
    {
      SetPin(SB, false);
      SetPin(SDA, true);
      Pulse(BANK0_BITS);
      PulseLat();
      SetPin(SB, true);
      var head := [Set(SB, false), Set(SDA, true)];
      assert old(trace) + [Set(SB, false)] + [Set(SDA, true)] == old(trace) + head;
      AppendAssoc(old(trace), head, Pulses(BANK0_BITS));
      AppendAssoc(old(trace), head + Pulses(BANK0_BITS), LatPulse());
      AppendAssoc(old(trace), head + Pulses(BANK0_BITS) + LatPulse(), [Set(SB, true)]);
    }

    /** `display_image`: rows 0 to 7 sent in order. */
    method DisplayImage(image: Image)
      modifies this
      ensures trace == old(trace) + FrameTrace(image, ROWS, gamma)
      ensures pins == FrameLevels(old(pins), image, ROWS, gamma)
    {
      SendRows(image, ROWS);
    }

    /** The loop of `display_image`, over its first `n` rows. */
    method SendRows(image: Image, n: nat)
      requires n <= 8
      modifies this
      ensures trace == old(trace) + FrameTrace(image, n, gamma)
      ensures pins == FrameLevels(old(pins), image, n, gamma)
    {
      var i := 0;
      while i < n
        invariant i <= n
        invariant trace == old(trace) + FrameTrace(image, i, gamma)
        invariant pins == FrameLevels(old(pins), image, i, gamma)
      {
        SendRow(i, Row(image, i));
        FrameTraceStep(old(trace), image, i, gamma);
        i := i + 1;
      }
    }
  }
}
