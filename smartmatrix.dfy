/// The simulator's SmartMatrix layers: a double-buffered RGB background
/// layer, a double-buffered indexed overlay layer, a scrolling text layer,
/// and the matrix object that records the brightness. Rendering the
/// buffers to a window is not modelled.
module SmartMatrix {
  import opened Arduino
  import opened Wrappers
  import Arith

  type uint8 = x: int | 0 <= x < 256

  /** Conversion of an int to `uint8_t` (modulo 256). */
  function ToUint8(v: int): (r: uint8)
    ensures 0 <= v < 256 ==> r == v
    ensures (v - r) % 256 == 0
  {
    v % 256
  }

  /** Conversion of an int to `int16_t` (modulo 65536, two's complement). */
  function ToInt16(v: int): (r: int)
    ensures -32768 <= r < 32768
    ensures -32768 <= v < 32768 ==> r == v
    ensures (v - r) % 65536 == 0
  {
    (v + 32768) % 65536 - 32768
  }

  datatype Rgb24 = Rgb24(red: uint8, green: uint8, blue: uint8)

  const Black: Rgb24 := Rgb24(0, 0, 0)
  const White: Rgb24 := Rgb24(255, 255, 255)

  const PanelWidth: int := 64
  const PanelHeight: int := 64

  datatype ScrollMode = WrapForward | WrapForwardFromLeft | Stopped | Off | BounceForward | BounceReverse

  // ---------------------------------------------------------------------
  // Buffers as values
  // ---------------------------------------------------------------------

  /** Byte `j` (0 red, 1 green, 2 blue) of a colour. */
  function Channel(c: Rgb24, j: int): uint8
  {
    if j == 0 then c.red else if j == 1 then c.green else c.blue
  }

  predicate InPanel(x: int, y: int, width: int, height: int)
  {
    0 <= x < width && 0 <= y < height
  }

  /** A pixel inside a width-by-height panel has its three bytes inside the
      first width*height*3 bytes. */
  lemma PixelInside(x: int, y: int, width: int, height: int)
    requires InPanel(x, y, width, height)
    ensures 0 <= (y * width + x) * 3 && (y * width + x) * 3 + 3 <= width * height * 3
  {
    var row, panel := y * width, width * height;
    Arith.MulNonNeg(y, width);
    Arith.MulNonNeg(height - (y + 1), width);
    assert (height - (y + 1)) * width == panel - row - width;
  }

  function SetRgb(buf: seq<uint8>, idx: int, c: Rgb24): seq<uint8>
    requires 0 <= idx && idx + 3 <= |buf|
  {
    buf[idx := c.red][idx + 1 := c.green][idx + 2 := c.blue]
  }

  /** Background `drawPixel`: outside the panel nothing changes; inside,
      the three bytes of pixel (x, y) take the colour (`PaintedRgbInside`). */
  function PaintedRgb(buf: seq<uint8>, width: int, height: int, x: int, y: int, c: Rgb24): (r: seq<uint8>)
    requires 0 <= width && 0 <= height && width * height * 3 <= |buf|
    ensures |r| == |buf|
    ensures !InPanel(x, y, width, height) ==> r == buf
  {
    if InPanel(x, y, width, height) then
      PixelInside(x, y, width, height);
      SetRgb(buf, (y * width + x) * 3, c)
    else buf
  }

  /** Inside the panel, exactly the three bytes of pixel (x, y), at offset
      (y * width + x) * 3, take the colour's red, green and blue. */
  lemma PaintedRgbInside(buf: seq<uint8>, width: int, height: int, x: int, y: int, c: Rgb24)
    requires 0 <= width && 0 <= height && width * height * 3 <= |buf|
    requires InPanel(x, y, width, height)
    ensures var r := PaintedRgb(buf, width, height, x, y, c);
            var idx := (y * width + x) * 3;
            && 0 <= idx && idx + 3 <= width * height * 3
            && r[idx] == c.red && r[idx + 1] == c.green && r[idx + 2] == c.blue
            && forall k :: 0 <= k < |buf| && !(idx <= k < idx + 3) ==> r[k] == buf[k]
  {
    PixelInside(x, y, width, height);
  }

  /** The background buffer after the first `n` pixels are filled, one
      pixel at a time, as `fillScreen`'s loop does. */
  function FilledRgb(buf: seq<uint8>, n: nat, c: Rgb24): (r: seq<uint8>)
    requires n * 3 <= |buf|
    ensures |r| == |buf|
  {
    if n == 0 then buf else SetRgb(FilledRgb(buf, n - 1, c), (n - 1) * 3, c)
  }

  /** After filling `n` pixels every byte of those pixels carries its
      channel of the colour and every later byte is untouched. */
  lemma {:induction false} FilledRgbShape(buf: seq<uint8>, n: nat, c: Rgb24)
    requires n * 3 <= |buf|
    ensures forall k :: 0 <= k < |buf| ==>
              FilledRgb(buf, n, c)[k] == if k < n * 3 then Channel(c, k % 3) else buf[k]
  {
    if n > 0 {
      FilledRgbShape(buf, n - 1, c);
    }
  }

  /** Filling the whole panel with black leaves every byte zero. */
  lemma FilledBlackIsZero(buf: seq<uint8>, n: nat)
    requires n * 3 == |buf|
    ensures FilledRgb(buf, n, Black) == seq(|buf|, k => 0)
  {
    FilledRgbShape(buf, n, Black);
  }

  /** Two different pixels of the panel have different offsets. */
  lemma PixelOffsetsDiffer(x: int, y: int, x2: int, y2: int, width: int, height: int)
    requires InPanel(x, y, width, height) && InPanel(x2, y2, width, height)
    requires x != x2 || y != y2
    ensures y * width + x != y2 * width + x2
  {
    if y < y2 {
      Arith.MulAtLeastDivisor(y2 - y, width);
      assert y2 * width - y * width == (y2 - y) * width;
    } else if y2 < y {
      Arith.MulAtLeastDivisor(y - y2, width);
      assert y * width - y2 * width == (y - y2) * width;
    }
  }

  /** One `drawPixel` call a frame makes: where, and in which colour. */
  datatype PixelCall = PixelCall(x: int, y: int, color: Rgb24)

  /** The background buffer after the calls, made in order. */
  function PaintedAll(buf: seq<uint8>, width: int, height: int, calls: seq<PixelCall>): (r: seq<uint8>)
    requires 0 <= width && 0 <= height && width * height * 3 <= |buf|
    ensures |r| == |buf|
    decreases |calls|
  {
    if calls == [] then buf
    else
      var c := calls[|calls| - 1];
      PaintedRgb(PaintedAll(buf, width, height, calls[..|calls| - 1]), width, height, c.x, c.y, c.color)
  }

  /** The colour of the last call that targets pixel (x, y), if any. */
  function LastColorAt(calls: seq<PixelCall>, x: int, y: int): (r: Option<Rgb24>)
    ensures r.None? <==> forall i :: 0 <= i < |calls| ==> !(calls[i].x == x && calls[i].y == y)
    ensures r.Some? ==> exists i :: 0 <= i < |calls| && calls[i] == PixelCall(x, y, r.value)
                                    && forall j :: i < j < |calls| ==> !(calls[j].x == x && calls[j].y == y)
    decreases |calls|
  {
    if calls == [] then None
    else
      var c := calls[|calls| - 1];
      if c.x == x && c.y == y then Some(c.color)
      else
        var p := calls[..|calls| - 1];
        var r := LastColorAt(p, x, y);
        assert r.Some? ==> exists i :: 0 <= i < |calls| && calls[i] == PixelCall(x, y, r.value)
                                       && forall j :: i < j < |calls| ==> !(calls[j].x == x && calls[j].y == y) by {
          if r.Some? {
            var i :| 0 <= i < |p| && p[i] == PixelCall(x, y, r.value)
                     && forall j :: i < j < |p| ==> !(p[j].x == x && p[j].y == y);
            assert calls[i] == p[i];
            forall j | i < j < |calls| ensures !(calls[j].x == x && calls[j].y == y) {
              if j < |p| { assert calls[j] == p[j]; }
            }
          }
        }
        assert r.None? ==> forall i :: 0 <= i < |calls| ==> !(calls[i].x == x && calls[i].y == y) by {
          if r.None? {
            forall i | 0 <= i < |calls| ensures !(calls[i].x == x && calls[i].y == y) {
              if i < |p| { assert calls[i] == p[i]; }
            }
          }
        }
        r
  }

  /** After the calls, each pixel of the panel holds the colour of the last
      call that targets it, or its old bytes when no call does. */
  lemma {:induction false} PaintedAllPixel(buf: seq<uint8>, width: int, height: int, calls: seq<PixelCall>,
                                           x: int, y: int)
    requires 0 <= width && 0 <= height && width * height * 3 <= |buf|
    requires InPanel(x, y, width, height)
    ensures var r := PaintedAll(buf, width, height, calls);
            var idx := (y * width + x) * 3;
            && 0 <= idx && idx + 3 <= |buf|
            && match LastColorAt(calls, x, y)
               case None => r[idx] == buf[idx] && r[idx + 1] == buf[idx + 1] && r[idx + 2] == buf[idx + 2]
               case Some(c) => r[idx] == c.red && r[idx + 1] == c.green && r[idx + 2] == c.blue
    decreases |calls|
  {
    PixelInside(x, y, width, height);
    if calls != [] {
      var c := calls[|calls| - 1];
      var p := calls[..|calls| - 1];
      PaintedAllPixel(buf, width, height, p, x, y);
      var before := PaintedAll(buf, width, height, p);
      if c.x == x && c.y == y {
        PaintedRgbInside(before, width, height, x, y, c.color);
      } else {
        assert LastColorAt(calls, x, y) == LastColorAt(p, x, y);
        if InPanel(c.x, c.y, width, height) {
          PaintedRgbInside(before, width, height, c.x, c.y, c.color);
          PixelOffsetsDiffer(x, y, c.x, c.y, width, height);
        }
      }
    }
  }

  /** `memcpy(dst, src, n)`: the first `n` bytes come from `src`. */
  function Copied(dst: seq<uint8>, src: seq<uint8>, n: nat): (r: seq<uint8>)
    requires n <= |dst| && n <= |src|
    ensures |r| == |dst|
    ensures r[..n] == src[..n] && r[n..] == dst[n..]
  {
    src[..n] + dst[n..]
  }

  /** Indexed `drawPixel`: one entry of the index buffer, if inside. */
  function PaintedIndex(buf: seq<uint8>, width: int, height: int, x: int, y: int, v: uint8): (r: seq<uint8>)
    requires 0 <= width && 0 <= height && width * height <= |buf|
    ensures |r| == |buf|
    ensures !InPanel(x, y, width, height) ==> r == buf
    ensures InPanel(x, y, width, height) ==>
              0 <= y * width + x < width * height
              && r == buf[y * width + x := v]
  {
    if InPanel(x, y, width, height) then
      PixelInside(x, y, width, height);
      buf[y * width + x := v]
    else buf
  }

  /** `memset(buf, v, n)`. */
  function Filled(buf: seq<uint8>, n: nat, v: uint8): (r: seq<uint8>)
    requires n <= |buf|
    ensures |r| == |buf|
    ensures forall k :: 0 <= k < n ==> r[k] == v
    ensures r[n..] == buf[n..]
  {
    seq(n, k => v) + buf[n..]
  }

  // ---------------------------------------------------------------------
  // Text
  // ---------------------------------------------------------------------

  /** The characters a C string holds: everything before the first NUL. */
  function CString(s: string): (r: string)
    ensures r <= s && '\0' !in r
    ensures |r| < |s| ==> s[|r|] == '\0'
  {
    if s == [] || s[0] == '\0' then [] else [s[0]] + CString(s[1..])
  }

  const TextCapacity: nat := 255

  /** What `start` leaves in the 256-byte text array: at most 255
      characters of the given C string. */
  function ScrollText(t: string): (r: string)
    ensures |r| <= TextCapacity
    ensures r <= CString(t)
    ensures |CString(t)| <= TextCapacity ==> r == CString(t)
    ensures |CString(t)| > TextCapacity ==> r == CString(t)[..TextCapacity]
  {
    var s := CString(t);
    s[..Min(|s|, TextCapacity)]
  }

  // ---------------------------------------------------------------------
  // Layers
  // ---------------------------------------------------------------------

  /** The background layer draws into the back buffer and copies it to the
      display buffer on `swapBuffers`. */
  class BackgroundLayer {
    var width: int
    var height: int
    const backBuffer: array<uint8>
    const displayBuffer: array<uint8>

    ghost predicate Valid()
      reads this
    {
      0 <= width && 0 <= height
      && width * height * 3 <= backBuffer.Length
      && backBuffer.Length == displayBuffer.Length
      && backBuffer != displayBuffer
    }

    constructor ()
      ensures Valid() && fresh(backBuffer) && fresh(displayBuffer)
      ensures width == PanelWidth && height == PanelHeight
      ensures backBuffer.Length == PanelWidth * PanelHeight * 3
    {
      width, height := PanelWidth, PanelHeight;
      backBuffer := new uint8[PanelWidth * PanelHeight * 3];
      displayBuffer := new uint8[PanelWidth * PanelHeight * 3];
    }

    method DrawPixel(x: int, y: int, color: Rgb24)
      requires Valid()
      modifies backBuffer
      ensures backBuffer[..] == PaintedRgb(old(backBuffer[..]), width, height, x, y, color)
    {
      if x >= 0 && x < width && y >= 0 && y < height {
        var idx := (y * width + x) * 3;
        PixelInside(x, y, width, height);
        backBuffer[idx] := color.red;
        backBuffer[idx + 1] := color.green;
        backBuffer[idx + 2] := color.blue;
      }
    }

    method FillScreen(color: Rgb24)
      requires Valid()
      modifies backBuffer
      ensures backBuffer[..] == FilledRgb(old(backBuffer[..]), width * height, color)
    {
      var n := width * height;
      var i := 0;
      while i < n
        invariant 0 <= i <= n
        invariant backBuffer[..] == FilledRgb(old(backBuffer[..]), i, color)
      {
        backBuffer[i * 3] := color.red;
        backBuffer[i * 3 + 1] := color.green;
        backBuffer[i * 3 + 2] := color.blue;
        i := i + 1;
      }
    }

    method SwapBuffers()
      requires Valid()
      modifies displayBuffer
      ensures displayBuffer[..] == Copied(old(displayBuffer[..]), backBuffer[..], width * height * 3)
    {
      var n := width * height * 3;
      forall k | 0 <= k < n {
        displayBuffer[k] := backBuffer[k];
      }
      assert displayBuffer[..] == Copied(old(displayBuffer[..]), backBuffer[..], n);
    }
  }

  /** The indexed layer: a byte per pixel naming one of 256 colours, drawn
      into a back buffer and copied to the index buffer on `swapBuffers`. */
  class IndexedLayer {
    var width: int
    var height: int
    var colors: seq<Rgb24>
    const indexBuffer: array<uint8>
    const backBuffer: array<uint8>

    ghost predicate Valid()
      reads this
    {
      0 <= width && 0 <= height && |colors| == 256
      && width * height <= backBuffer.Length
      && backBuffer.Length == indexBuffer.Length
      && backBuffer != indexBuffer
    }

    constructor ()
      ensures Valid() && fresh(backBuffer) && fresh(indexBuffer)
      ensures width == PanelWidth && height == PanelHeight
      ensures backBuffer.Length == PanelWidth * PanelHeight
    {
      width, height := PanelWidth, PanelHeight;
      colors := seq(256, _ => Black);
      indexBuffer := new uint8[PanelWidth * PanelHeight];
      backBuffer := new uint8[PanelWidth * PanelHeight];
    }

    method SetIndexedColor(index: uint8, color: Rgb24)
      requires Valid()
      modifies this
      ensures Valid()
      ensures colors == old(colors)[index := color]
      ensures width == old(width) && height == old(height)
    {
      colors := colors[index := color];
    }

    method DrawPixel(x: int, y: int, index: uint8)
      requires Valid()
      modifies backBuffer
      ensures backBuffer[..] == PaintedIndex(old(backBuffer[..]), width, height, x, y, index)
    {
      if x >= 0 && x < width && y >= 0 && y < height {
        PixelInside(x, y, width, height);
        backBuffer[y * width + x] := index;
      }
    }

    method FillScreen(index: uint8)
      requires Valid()
      modifies backBuffer
      ensures backBuffer[..] == Filled(old(backBuffer[..]), width * height, index)
    {
      var n := width * height;
      forall k | 0 <= k < n {
        backBuffer[k] := index;
      }
      assert backBuffer[..] == Filled(old(backBuffer[..]), n, index);
    }

    method SwapBuffers()
      requires Valid()
      modifies indexBuffer
      ensures indexBuffer[..] == Copied(old(indexBuffer[..]), backBuffer[..], width * height)
    {
      var n := width * height;
      forall k | 0 <= k < n {
        indexBuffer[k] := backBuffer[k];
      }
      assert indexBuffer[..] == Copied(old(indexBuffer[..]), backBuffer[..], n);
    }
  }

  /** The scrolling text layer used for the status overlay. */
  class ScrollingLayer {
    var text: string
    var color: Rgb24
    var mode: ScrollMode
    var scrollCount: int
    var active: bool
    var startTime: nat

    ghost predicate Valid()
      reads this
    {
      |text| <= TextCapacity && active == (text != [])
    }

    constructor ()
      ensures Valid()
      ensures text == [] && !active && color == White && mode == WrapForward
      ensures scrollCount == -1 && startTime == 0
    {
      text, color, mode := [], White, WrapForward;
      scrollCount, active, startTime := -1, false, 0;
    }

    method SetColor(c: Rgb24)
      modifies this
      ensures color == c
      ensures text == old(text) && active == old(active) && mode == old(mode)
      ensures scrollCount == old(scrollCount) && startTime == old(startTime)
    {
      color := c;
    }

    method SetMode(m: ScrollMode)
      modifies this
      ensures mode == m
      ensures text == old(text) && active == old(active) && color == old(color)
      ensures scrollCount == old(scrollCount) && startTime == old(startTime)
    {
      mode := m;
    }

    /** `start(t, count)`: copy at most 255 characters and become active iff
        something was copied. `startedAt` is the clock reading the layer takes. */
    method Start(t: string, count: int, startedAt: nat)
      modifies this
      ensures Valid()
      ensures text == ScrollText(t) && active == (text != [])
      ensures scrollCount == count && startTime == startedAt
      ensures color == old(color) && mode == old(mode)
    {
      text := ScrollText(t);
      scrollCount := count;
      active := |text| > 0;
      startTime := startedAt;
    }

    method Stop()
      modifies this
      ensures Valid()
      ensures !active && text == []
      ensures color == old(color) && mode == old(mode)
      ensures scrollCount == old(scrollCount) && startTime == old(startTime)
    {
      active := false;
      text := [];
    }
  }

  /** `rotationDegrees::rotation270`. */
  const Rotation270: int := 270

  /** The matrix object; `globalBrightness` and `globalRotation` are the
      simulator's globals `g_brightness` and `g_rotation` that the renderer
      reads. */
  class Matrix {
    var brightness: int
    var globalBrightness: int
    var rotation: int
    var globalRotation: int

    constructor ()
      ensures brightness == 255 && globalBrightness == 255
      ensures rotation == 0 && globalRotation == 0
    {
      brightness, globalBrightness, rotation, globalRotation := 255, 255, 0, 0;
    }

    /** `setBrightness(uint8_t b)`: the value, converted to a byte, is
        recorded in both places. */
    method SetBrightness(b: int)
      modifies this
      ensures brightness == ToUint8(b) && globalBrightness == ToUint8(b)
      ensures rotation == old(rotation) && globalRotation == old(globalRotation)
    {
      brightness := ToUint8(b);
      globalBrightness := ToUint8(b);
    }

    /** `setRotation(r)`: the angle is recorded in both places. */
    method SetRotation(r: int)
      modifies this
      ensures rotation == r && globalRotation == r
      ensures brightness == old(brightness) && globalBrightness == old(globalBrightness)
    {
      rotation := r;
      globalRotation := r;
    }
  }
}
