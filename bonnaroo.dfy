/// The Bonnaroo sketch: its globals and function-local statics become the
/// fields of one `Sketch` object, which owns the matrix, its three layers,
/// the GIF decoder, the IR receiver and the file catalog. Each function of
/// the sketch is a method proved against the control-state functions of
/// module Playback, and states what it does to the layers.
module Bonnaroo {
  import opened Arduino
  import opened Wrappers
  import opened IRremote
  import opened Remote
  import opened GifDecoderMock
  import opened SmartMatrix
  import opened FilenameFunctions
  import opened Playback

  /** `GIF_DIRECTORY`. */
  const GifDirectory: string := "/gifs/"
  /** What `wrap_enumerateGIFFiles` reports when the card is not used. */
  const NoSdFileCount: int := 4

  /** Bytes in a background buffer (64 * 64 pixels, 3 bytes each) and
      entries in an indexed buffer (one per pixel). */
  const BackgroundBytes: int := PanelWidth * PanelHeight * 3
  const IndexedEntries: int := PanelWidth * PanelHeight

  /** The overlay band that `writeDebugScreen` paints: rows 0-5, all 64
      columns, in colour index 1. */
  const BannerRows: int := 6
  const OverlayColorIndex: uint8 := 1

  // ---------------------------------------------------------------------
  // The overlay band
  // ---------------------------------------------------------------------

  /** An index buffer whose first `n` entries are 1 and the rest 0. */
  function BannerPrefix(n: nat): (r: seq<uint8>)
    ensures |r| == IndexedEntries
  {
    seq(IndexedEntries, k => if k < n then 1 else 0)
  }

  /** The index buffer `writeDebugScreen` leaves: the band of the top six
      rows in index 1, everything else 0. */
  function Banner(): seq<uint8>
  {
    BannerPrefix(BannerRows * PanelWidth)
  }

  lemma BannerPrefixStep(n: nat)
    requires n < IndexedEntries
    ensures BannerPrefix(n)[n := 1] == BannerPrefix(n + 1)
  {
  }

  /** The band covers exactly the pixels (col, row) with row < 6. */
  lemma BannerCoversTopRows(row: int, col: int)
    requires 0 <= row < PanelHeight && 0 <= col < PanelWidth
    ensures 0 <= row * PanelWidth + col < IndexedEntries
    ensures Banner()[row * PanelWidth + col] == (if row < BannerRows then 1 else 0)
  {
    PixelInside(col, row, PanelWidth, PanelHeight);
    if row < BannerRows {
      assert row * PanelWidth + col < (row + 1) * PanelWidth <= BannerRows * PanelWidth;
    } else {
      assert row * PanelWidth >= BannerRows * PanelWidth;
    }
  }

  // ---------------------------------------------------------------------
  // Bitmaps
  // ---------------------------------------------------------------------

  /** `gimp64x64bitmap`: a header and RGB bytes, row by row. */
  datatype Bitmap = Bitmap(width: nat, height: nat, bytesPerPixel: nat, pixelData: seq<uint8>)

  /** The pixel data covers every pixel the header announces. */
  predicate BitmapOk(bm: Bitmap)
  {
    bm.width * bm.height * 3 <= |bm.pixelData|
  }

  /** A `gimp64x64bitmap` as the sketch's built-in images are: 64x64 with
      a pixel for every position (`Bitmap64Size` shows it is `BitmapOk`). */
  predicate Bitmap64(bm: Bitmap)
  {
    bm.width == PanelWidth && bm.height == PanelHeight && BackgroundBytes <= |bm.pixelData|
  }

  /** The colour of pixel (column j, row i). */
  function PixelOf(bm: Bitmap, i: nat, j: nat): Rgb24
    requires BitmapOk(bm) && i < bm.height && j < bm.width
  {
    PixelInside(j, i, bm.width, bm.height);
    var p := (i * bm.width + j) * 3;
    Rgb24(bm.pixelData[p], bm.pixelData[p + 1], bm.pixelData[p + 2])
  }

  /** The back buffer after `drawBitmap64` has drawn the first `cols`
      pixels of row `i`; pixel (j, i) goes to (x + j, y + i), taken as
      `int16_t` like the callee's parameters. */
  function BitmapRowPainted(buf: seq<uint8>, x: int, y: int, bm: Bitmap, i: nat, cols: nat): (r: seq<uint8>)
    requires |buf| == BackgroundBytes && BitmapOk(bm) && i < bm.height && cols <= bm.width
    ensures |r| == |buf|
    decreases cols
  {
    if cols == 0 then buf
    else
      PaintedRgb(BitmapRowPainted(buf, x, y, bm, i, cols - 1), PanelWidth, PanelHeight,
                 ToInt16(x + (cols - 1)), ToInt16(y + i), PixelOf(bm, i, cols - 1))
  }

  /** The back buffer after the first `rows` rows of the bitmap. */
  function BitmapRowsPainted(buf: seq<uint8>, x: int, y: int, bm: Bitmap, rows: nat): (r: seq<uint8>)
    requires |buf| == BackgroundBytes && BitmapOk(bm) && rows <= bm.height
    ensures |r| == |buf|
    decreases rows
  {
    if rows == 0 then buf
    else BitmapRowPainted(BitmapRowsPainted(buf, x, y, bm, rows - 1), x, y, bm, rows - 1, bm.width)
  }

  /** Drawing row `i` of a 64-wide bitmap at the origin (x, y) = (0, 0)
      copies exactly that row's bytes into the back buffer: byte `k` is
      the bitmap's byte once the pixel holding it has been drawn, and the
      old byte otherwise. */
  lemma {:induction false} BitmapRowAtOrigin(buf: seq<uint8>, x: int, y: int, bm: Bitmap, i: nat, cols: nat, k: int)
    requires x == 0 && y == 0
    requires |buf| == BackgroundBytes && BitmapOk(bm)
    requires bm.width == PanelWidth && bm.height == PanelHeight && i < bm.height && cols <= bm.width
    requires 0 <= k < BackgroundBytes
    ensures BitmapRowPainted(buf, x, y, bm, i, cols)[k]
            == if i * 192 <= k < i * 192 + cols * 3 then bm.pixelData[k] else buf[k]
    decreases cols
  {
    if cols > 0 {
      var j := cols - 1;
      BitmapRowAtOrigin(buf, x, y, bm, i, j, k);
      assert ToInt16(x + j) == j && ToInt16(y + i) == i;
      PaintedRgbInside(BitmapRowPainted(buf, x, y, bm, i, j), PanelWidth, PanelHeight, j, i, PixelOf(bm, i, j));
      assert (i * 64 + j) * 3 == i * 192 + j * 3;
    }
  }

  /** Drawing the first `rows` rows at the origin copies the first
      `rows * 192` bytes of the bitmap and keeps the rest of the buffer. */
  lemma {:induction false} BitmapRowsAtOrigin(buf: seq<uint8>, x: int, y: int, bm: Bitmap, rows: nat, k: int)
    requires x == 0 && y == 0
    requires |buf| == BackgroundBytes && BitmapOk(bm)
    requires bm.width == PanelWidth && bm.height == PanelHeight && rows <= bm.height
    requires 0 <= k < BackgroundBytes
    ensures BitmapRowsPainted(buf, x, y, bm, rows)[k] == if k < rows * 192 then bm.pixelData[k] else buf[k]
    decreases rows
  {
    if rows > 0 {
      BitmapRowsAtOrigin(buf, x, y, bm, rows - 1, k);
      BitmapRowAtOrigin(BitmapRowsPainted(buf, x, y, bm, rows - 1), x, y, bm, rows - 1, bm.width, k);
    }
  }

  /** Byte strings that agree at every index are equal. */
  lemma SameBytes(a: seq<uint8>, b: seq<uint8>)
    requires |a| == |b| && forall k | 0 <= k < |a| :: a[k] == b[k]
    ensures a == b
  {
  }

  /** Byte by byte: after a 64x64 bitmap is drawn at the origin, every
      byte of the back buffer is the bitmap's byte at the same offset. */
  lemma BitmapPanelBytes(buf: seq<uint8>, x: int, y: int, bm: Bitmap)
    requires x == 0 && y == 0
    requires |buf| == BackgroundBytes && Bitmap64(bm)
    ensures BitmapOk(bm)
    ensures forall k {:trigger BitmapRowsPainted(buf, x, y, bm, bm.height)[k]} ::
              0 <= k < BackgroundBytes ==> BitmapRowsPainted(buf, x, y, bm, bm.height)[k] == bm.pixelData[k]
  {
    Bitmap64Size(bm);
    forall k | 0 <= k < BackgroundBytes
      ensures BitmapRowsPainted(buf, x, y, bm, bm.height)[k] == bm.pixelData[k]
    {
      BitmapRowsAtOrigin(buf, x, y, bm, bm.height, k);
    }
  }

  /** A 64x64 bitmap covers its header's pixels, a panel's worth of bytes. */
  lemma Bitmap64Size(bm: Bitmap)
    requires Bitmap64(bm)
    ensures BitmapOk(bm) && bm.height * 192 == BackgroundBytes
  {
  }

  /** A 64x64 bitmap drawn at the origin fills the whole back buffer with
      its pixel bytes, as `drawImageNoSD` relies on. */
  lemma BitmapAtOriginFillsPanel(buf: seq<uint8>, x: int, y: int, bm: Bitmap)
    requires x == 0 && y == 0
    requires |buf| == BackgroundBytes && Bitmap64(bm)
    ensures BitmapOk(bm)
    ensures BitmapRowsPainted(buf, x, y, bm, bm.height) == bm.pixelData[..BackgroundBytes]
  {
    Bitmap64Size(bm);
    BitmapPanelBytes(buf, x, y, bm);
    SameBytes(BitmapRowsPainted(buf, x, y, bm, bm.height), bm.pixelData[..BackgroundBytes]);
  }

  /** The code the receiver will hand out next, if any. */
  function Pending(queue: seq<IRRawDataType>): Option<IRRawDataType>
  {
    if queue == [] then None else Some(queue[0])
  }

  /** How `setup` ends: running, or halted on one of its fatal conditions
      (the source spins forever in `while(1)` there). */
  datatype SetupOutcome = Running | NoSdCard | NoGifsDirectory | EmptyGifsDirectory

  /** What `wrap_enumerateGIFFiles(GIF_DIRECTORY, true)` reports: 4 when
      the card is not used; otherwise -1 when the directory does not open
      and its number of animation files when it does. */
  function FileCount(useSd: bool, vol: Volume): (r: int)
    ensures r >= -1
    ensures !useSd ==> r == NoSdFileCount
    ensures useSd ==> (r < 0 <==> GifDirectory !in vol.dirs)
  {
    if !useSd then NoSdFileCount
    else if GifDirectory !in vol.dirs then -1
    else |AnimationFiles(vol.dirs[GifDirectory])|
  }

  /** How `setup` ends, given whether the card started and the file count. */
  function SetupEnd(useSd: bool, sdOk: bool, count: int): (r: SetupOutcome)
    ensures r == Running <==> (!useSd || sdOk) && count > 0
  {
    if useSd && !sdOk then NoSdCard
    else if count < 0 then NoGifsDirectory
    else if count == 0 then EmptyGifsDirectory
    else Running
  }

  /** The text `setup` leaves on the overlay. */
  function SetupMessage(useSd: bool, sdOk: bool, count: int): (r: string)
    ensures useSd && SetupEnd(useSd, sdOk, count) == Running ==>
              |r| > 6 && r[..6] == "Found "
              && (forall k :: 0 <= k < |r| - 6 ==> IsDigit(r[6..][k])) && DecimalValue(r[6..]) == count
  {
    match SetupEnd(useSd, sdOk, count)
    case NoSdCard => "No SD card"
    case NoGifsDirectory => "No gifs directory"
    case EmptyGifsDirectory => "Empty gifs directory"
    case Running => if useSd then "Found " + IntToDecimal(count) else "POWER: ON"
  }

  /** Without the card, setup always runs on and keeps "POWER: ON"; with
      it, setup runs on exactly when the card starts and the directory
      lists an animation file, and then reports how many, in decimal. */
  lemma SetupOutcomes(useSd: bool, sdOk: bool, vol: Volume)
    ensures !useSd ==> SetupEnd(useSd, sdOk, FileCount(useSd, vol)) == Running
                       && SetupMessage(useSd, sdOk, FileCount(useSd, vol)) == "POWER: ON"
    ensures useSd ==>
              (SetupEnd(useSd, sdOk, FileCount(useSd, vol)) == Running
               <==> sdOk && GifDirectory in vol.dirs
                    && exists name :: name in vol.dirs[GifDirectory] && IsAnimationFile(name))
    ensures useSd && SetupEnd(useSd, sdOk, FileCount(useSd, vol)) == Running ==>
              var n := |AnimationFiles(vol.dirs[GifDirectory])|;
              var msg := SetupMessage(useSd, sdOk, FileCount(useSd, vol));
              msg[..6] == "Found " && DecimalValue(msg[6..]) == n
  {
    if useSd && sdOk && GifDirectory in vol.dirs {
      var listing := vol.dirs[GifDirectory];
      var found := AnimationFiles(listing);
      if exists name :: name in listing && IsAnimationFile(name) {
        var name :| name in listing && IsAnimationFile(name);
        AnimationFilesComplete(listing, name);
      }
      if found != [] {
        AnimationFilesSound(listing, 0);
        var msg := "Found " + IntToDecimal(|found|);
        assert msg[6..] == IntToDecimal(|found|);
        DecimalRoundTrip(|found|);
      }
    }
  }

  class Sketch {
    // Globals and function-local statics of the sketch.
    var brightness: int
    var curImageIdx: int
    var numFiles: int
    var isFirstFrame: bool
    var lastAcceptedIRTimestamp: nat
    var lastDebugWriteTime: nat
    var allowDebugClear: bool
    /** Statics of `drawImageWithSD`. */
    var lastFrameDisplayTime: nat
    var currentFrameDelay: nat
    var startOk: bool
    /** Statics of `displayGIFFromMemoryById`. */
    var memLastFrameDisplayTime: nat
    var memCurrentFrameDelay: nat

    /** `use_sd`: play GIFs from the card, or the built-in images. */
    const useSd: bool
    const brat: Bitmap
    const pikachu: Bitmap
    /** `gifsSizeList[0]`: the size of the GIF compiled into the sketch. */
    const memoryGifSize: int

    const matrix: Matrix
    const backgroundLayer: BackgroundLayer
    const indexedLayer: IndexedLayer
    const scrollingLayer: ScrollingLayer
    const decoder: GifDecoder
    const irReceiver: IRrecv
    const catalog: Catalog

    function Controls(): Controls
      reads this
    {
      Playback.Controls(brightness, curImageIdx, numFiles, isFirstFrame,
                        lastAcceptedIRTimestamp, lastDebugWriteTime, allowDebugClear)
    }

    function SdTimers(): FrameTimers
      reads this
    {
      FrameTimers(lastFrameDisplayTime, currentFrameDelay, startOk)
    }

    function MemoryTimers(): MemTimers
      reads this
    {
      MemTimers(memLastFrameDisplayTime, memCurrentFrameDelay)
    }

    /** Everything a tick of `loop()` reads and writes, as one value. */
    function Tick(): TickState
      reads this, decoder
    {
      TickState(Controls(), SdTimers(), MemoryTimers(), decoder.State())
    }

    /** The owned objects are well formed and the layers have the panel's
        64x64 geometry (a predicate that does not read the sketch's own
        fields). */
    ghost predicate LayersValid()
      reads backgroundLayer, indexedLayer, scrollingLayer, decoder, irReceiver
    {
      && backgroundLayer.Valid() && indexedLayer.Valid() && scrollingLayer.Valid()
      && decoder.Valid() && irReceiver.Valid()
      && backgroundLayer.width == PanelWidth && backgroundLayer.height == PanelHeight
      && backgroundLayer.backBuffer.Length == BackgroundBytes
      && indexedLayer.width == PanelWidth && indexedLayer.height == PanelHeight
      && indexedLayer.backBuffer.Length == IndexedEntries
      && backgroundLayer.backBuffer != indexedLayer.backBuffer
      && backgroundLayer.backBuffer != indexedLayer.indexBuffer
      && backgroundLayer.displayBuffer != indexedLayer.backBuffer
      && backgroundLayer.displayBuffer != indexedLayer.indexBuffer
    }

    ghost predicate Valid()
      reads this, backgroundLayer, indexedLayer, scrollingLayer, decoder, irReceiver
    {
      LayersValid() && Bitmap64(brat) && Bitmap64(pikachu) && ControlsOk(Controls())
    }

    /** The clock reading `now` is not earlier than any stored stamp. */
    predicate ClockAt(now: nat)
      reads this
    {
      StampsBefore(Controls(), now) && lastFrameDisplayTime <= now && memLastFrameDisplayTime <= now
    }

    /** The overlay written with `text`: the band in the indexed layer,
        drawn and swapped, and the text in the scrolling layer. */
    predicate OverlayShows(text: string)
      reads indexedLayer, indexedLayer.backBuffer, indexedLayer.indexBuffer, scrollingLayer
    {
      && indexedLayer.backBuffer[..] == Banner() && indexedLayer.indexBuffer[..] == Banner()
      && |indexedLayer.colors| == 256 && indexedLayer.colors[OverlayColorIndex] == Black
      && scrollingLayer.text == ScrollText(text) && scrollingLayer.active == (ScrollText(text) != [])
      && scrollingLayer.scrollCount == -1
    }

    /** The overlay cleared: an empty index buffer and no text. */
    predicate OverlayCleared()
      reads indexedLayer, indexedLayer.backBuffer, indexedLayer.indexBuffer, scrollingLayer
    {
      && indexedLayer.backBuffer[..] == BannerPrefix(0) && indexedLayer.indexBuffer[..] == BannerPrefix(0)
      && scrollingLayer.text == [] && !scrollingLayer.active
    }

    /** The background layer's two buffers. */
    function Background(): Screen
      reads backgroundLayer, backgroundLayer.backBuffer, backgroundLayer.displayBuffer
    {
      Screen(backgroundLayer.backBuffer[..], backgroundLayer.displayBuffer[..])
    }

    /** The background cleared to black, in both buffers. */
    predicate BackgroundBlank()
      reads backgroundLayer, backgroundLayer.backBuffer, backgroundLayer.displayBuffer
    {
      var blank := BlankScreen();
      backgroundLayer.backBuffer[..] == blank.back && backgroundLayer.displayBuffer[..] == blank.display
    }

    /** The static initialisers of the sketch and its objects. */
    constructor (useSd: bool, brat: Bitmap, pikachu: Bitmap, memoryGifSize: int)
      requires Bitmap64(brat) && Bitmap64(pikachu)
      ensures Valid() && ClockAt(0)
      ensures Controls() == InitialControls && SdTimers() == InitialTimers && MemoryTimers() == MemTimers(0, 0)
      ensures this.useSd == useSd && this.memoryGifSize == memoryGifSize
      ensures decoder.State() == Initial && irReceiver.inputQueue == [] && catalog.numberOfFiles == 0
    {
      brightness, curImageIdx, numFiles, isFirstFrame := InitialBrightness, 0, 0, true;
      lastAcceptedIRTimestamp, lastDebugWriteTime, allowDebugClear := 0, 0, true;
      lastFrameDisplayTime, currentFrameDelay, startOk := 0, 0, true;
      memLastFrameDisplayTime, memCurrentFrameDelay := 0, 0;
      this.useSd, this.brat, this.pikachu, this.memoryGifSize := useSd, brat, pikachu, memoryGifSize;
      matrix := new Matrix();
      backgroundLayer := new BackgroundLayer();
      indexedLayer := new IndexedLayer();
      scrollingLayer := new ScrollingLayer();
      decoder := new GifDecoder();
      irReceiver := new IRrecv();
      catalog := new Catalog();
    }

    // -------------------------------------------------------------------
    // Overlay
    // -------------------------------------------------------------------

    method MaybeClearDebugScreen(now: nat)
      requires Valid() && ClockAt(now)
      modifies this, indexedLayer.backBuffer, indexedLayer.indexBuffer, scrollingLayer
      ensures Valid() && ClockAt(now)
      ensures Controls() == DebugCleared(old(Controls()), now)
      ensures SdTimers() == old(SdTimers()) && MemoryTimers() == old(MemoryTimers())
      ensures ShouldClearDebug(old(Controls()), now) ==> OverlayCleared()
      ensures !ShouldClearDebug(old(Controls()), now) ==>
                unchanged(indexedLayer.backBuffer, indexedLayer.indexBuffer, scrollingLayer)
    {
      if !allowDebugClear {
        return;
      }
      if !(lastDebugWriteTime > 0 && now - lastDebugWriteTime > DebugClearMs) {
        return;
      }
      indexedLayer.FillScreen(0);
      indexedLayer.SwapBuffers();
      scrollingLayer.Start("", -1, now);
      lastDebugWriteTime := 0;
    }

    /** The nested loops of `writeDebugScreen`: index 1 into rows 0-5, all
        64 columns, of a cleared back buffer. */
    method DrawOverlayBand()
      requires indexedLayer.Valid() && indexedLayer.width == PanelWidth && indexedLayer.height == PanelHeight
      requires indexedLayer.backBuffer[..] == BannerPrefix(0)
      modifies indexedLayer.backBuffer
      ensures indexedLayer.backBuffer[..] == Banner()
    {
      var row := 0;
      while row < BannerRows
        invariant 0 <= row <= BannerRows
        invariant indexedLayer.backBuffer[..] == BannerPrefix(row * PanelWidth)
      {
        var col := 0;
        while col < PanelWidth
          invariant 0 <= col <= PanelWidth
          invariant indexedLayer.backBuffer[..] == BannerPrefix(row * PanelWidth + col)
        {
          indexedLayer.DrawPixel(col, row, OverlayColorIndex);
          BannerPrefixStep(row * PanelWidth + col);
          col := col + 1;
        }
        row := row + 1;
      }
    }

    method WriteDebugScreen(text: string, now: nat, allowClear: bool)
      requires Valid() && ClockAt(now)
      modifies this, indexedLayer, indexedLayer.backBuffer, indexedLayer.indexBuffer, scrollingLayer
      ensures Valid() && ClockAt(now)
      ensures Controls() == DebugWritten(old(Controls()), now, allowClear)
      ensures SdTimers() == old(SdTimers()) && MemoryTimers() == old(MemoryTimers())
      ensures OverlayShows(text)
      ensures scrollingLayer.mode == old(scrollingLayer.mode) && scrollingLayer.color == old(scrollingLayer.color)
    {
      indexedLayer.FillScreen(0);
      assert indexedLayer.backBuffer[..] == BannerPrefix(0);
      indexedLayer.SetIndexedColor(OverlayColorIndex, Black);
      DrawOverlayBand();
      indexedLayer.SwapBuffers();
      assert indexedLayer.indexBuffer[..] == indexedLayer.backBuffer[..];
      scrollingLayer.Start(text, -1, now);
      // The source sets the clear flag first; the drawing does not read it.
      allowDebugClear, lastDebugWriteTime := allowClear, now;
    }

    // -------------------------------------------------------------------
    // Brightness and image index
    // -------------------------------------------------------------------

    method AdjustBrightness(amount: int)
      requires Valid()
      modifies this, matrix
      ensures Valid()
      ensures Controls() == old(Controls()).(brightness := AdjustedBrightness(old(brightness), amount))
      ensures SdTimers() == old(SdTimers()) && MemoryTimers() == old(MemoryTimers())
      ensures matrix.brightness == brightness && matrix.globalBrightness == brightness
      ensures matrix.rotation == old(matrix.rotation) && matrix.globalRotation == old(matrix.globalRotation)
    {
      var next := brightness + amount;
      if amount < 0 {
        brightness := Max(0, next);
      } else {
        brightness := Min(MaxBrightness, next);
      }
      matrix.SetBrightness(brightness);
    }

    /** Paint the whole background black and show it. */
    method ClearBackground()
      requires Valid()
      modifies backgroundLayer.backBuffer, backgroundLayer.displayBuffer
      ensures BackgroundBlank()
    {
      backgroundLayer.FillScreen(Black);
      FilledBlackIsZero(old(backgroundLayer.backBuffer[..]), PanelWidth * PanelHeight);
      backgroundLayer.SwapBuffers();
      assert backgroundLayer.displayBuffer[..] == backgroundLayer.backBuffer[..];
    }

    method ChangeImageIdx(amount: int)
      requires Valid()
      modifies this, backgroundLayer.backBuffer, backgroundLayer.displayBuffer
      ensures Valid()
      ensures Controls() == old(Controls()).(curImageIdx := WrappedIndex(old(curImageIdx), amount, numFiles),
                                             isFirstFrame := true)
      ensures SdTimers() == old(SdTimers()) && MemoryTimers() == old(MemoryTimers())
      ensures BackgroundBlank()
    {
      var idx := curImageIdx + amount;
      // Wrap around on overflow.
      if idx < 0 {
        idx := numFiles - 1;
      } else if idx >= numFiles {
        idx := 0;
      }
      // The clears do not read the index, so it is stored with the flag.
      ClearBackground();
      ClearBackground();
      curImageIdx, isFirstFrame := idx, true;
    }


    // -------------------------------------------------------------------
    // Remote input
    // -------------------------------------------------------------------

    /** VolUp and VolDown: the brightness stepped by `amount`, then the new
        level written on the overlay as "BRT: <level>". */
    method PressBrightness(amount: int, now: nat)
      requires Valid() && ClockAt(now)
      modifies this, matrix, indexedLayer, indexedLayer.backBuffer, indexedLayer.indexBuffer, scrollingLayer
      ensures Valid() && ClockAt(now)
      ensures var p := old(Controls()).(brightness := AdjustedBrightness(old(brightness), amount));
              Controls() == DebugWritten(p, now, true)
      ensures OverlayShows("BRT: " + IntToDecimal(brightness))
      ensures SdTimers() == old(SdTimers()) && MemoryTimers() == old(MemoryTimers())
      ensures matrix.brightness == brightness && matrix.globalBrightness == brightness
      ensures matrix.rotation == old(matrix.rotation) && matrix.globalRotation == old(matrix.globalRotation)
    {
      AdjustBrightness(amount);
      WriteDebugScreen("BRT: " + IntToDecimal(brightness), now, true);
    }

    /** The `switch` of `HandleIRInputs` and the overlay write after it,
        for an accepted button whose name `validatePressAndGetName`
        produced. (The switch is on the raw code; the codes are distinct,
        so it is a switch on the button.) */
    method DispatchButton(b: Button, buttonName: string, now: nat)
      requires Valid() && ClockAt(now) && buttonName == Name(b)
      modifies this, matrix, indexedLayer, indexedLayer.backBuffer, indexedLayer.indexBuffer, scrollingLayer,
               backgroundLayer.backBuffer, backgroundLayer.displayBuffer
      ensures Valid() && ClockAt(now)
      ensures var (p, text) := Pressed(old(Controls()), b);
              && Controls() == (if text != [] then DebugWritten(p, now, true) else p)
              && (text != [] ==> OverlayShows(text))
              && (text == [] ==> unchanged(indexedLayer, indexedLayer.backBuffer, indexedLayer.indexBuffer, scrollingLayer))
      ensures SdTimers() == old(SdTimers()) && MemoryTimers() == old(MemoryTimers())
      ensures MovesItem(b) ==> BackgroundBlank()
      ensures !MovesItem(b) ==> unchanged(backgroundLayer.backBuffer, backgroundLayer.displayBuffer)
      ensures StepsBrightness(b) ==> matrix.brightness == brightness && matrix.globalBrightness == brightness
      ensures !StepsBrightness(b) ==> unchanged(matrix)
      ensures matrix.rotation == old(matrix.rotation) && matrix.globalRotation == old(matrix.globalRotation)
    {
      // The switch fills the overlay buffer, which is written only when
      // non-empty: with the new level, with nothing, or with the name.
      if StepsBrightness(b) {
        PressBrightness(if b == VolUp then BrightnessStep else -BrightnessStep, now);
      } else if MovesItem(b) {
        ChangeImageIdx(if b == Right then 1 else -1);
      } else if |buttonName| > 0 {
        WriteDebugScreen(buttonName, now, true);
      }
    }

    /** An accepted press: the cooldown stamp, the button's effect, and
        the receiver resumed. The source stamps before the switch; nothing
        in the switch reads the stamp, so the model stamps after it. */
    method AcceptButton(b: Button, buttonName: string, now: nat)
      requires Valid() && ClockAt(now) && buttonName == Name(b)
      modifies this, matrix, indexedLayer, indexedLayer.backBuffer, indexedLayer.indexBuffer, scrollingLayer,
               backgroundLayer.backBuffer, backgroundLayer.displayBuffer, irReceiver
      ensures Valid() && ClockAt(now)
      ensures var (p, text) := Pressed(old(Controls()), b);
              && Controls() == (if text != [] then DebugWritten(p, now, true) else p).(lastAccepted := now)
              && (text != [] ==> OverlayShows(text))
              && (text == [] ==> unchanged(indexedLayer, indexedLayer.backBuffer, indexedLayer.indexBuffer, scrollingLayer))
      ensures irReceiver.inputQueue == old(irReceiver.inputQueue) && irReceiver.delivered == old(irReceiver.delivered)
      ensures irReceiver.resumeCount == old(irReceiver.resumeCount) + 1
      ensures SdTimers() == old(SdTimers()) && MemoryTimers() == old(MemoryTimers())
      ensures MovesItem(b) ==> BackgroundBlank()
      ensures !MovesItem(b) ==> unchanged(backgroundLayer.backBuffer, backgroundLayer.displayBuffer)
      ensures StepsBrightness(b) ==> matrix.brightness == brightness
      ensures !StepsBrightness(b) ==> unchanged(matrix)
      ensures matrix.rotation == old(matrix.rotation) && matrix.globalRotation == old(matrix.globalRotation)
    {
      DispatchButton(b, buttonName, now);
      lastAcceptedIRTimestamp := now;
      irReceiver.Resume();
    }

    /** The part of `HandleIRInputs` after the receiver delivered
        `received`: an unknown code is thrown away (and the receiver
        resumed), a known one is ignored during the cooldown, and otherwise
        stamped, dispatched and followed by a resume. */
    method HandleReceived(received: IRRawDataType, now: nat)
      requires Valid() && ClockAt(now)
      modifies this, matrix, indexedLayer, indexedLayer.backBuffer, indexedLayer.indexBuffer, scrollingLayer,
               backgroundLayer.backBuffer, backgroundLayer.displayBuffer, irReceiver
      ensures Valid() && ClockAt(now)
      ensures var (s, out) := HandledInput(old(Controls()), Some(received), now);
              && Controls() == s
              && irReceiver.inputQueue == old(irReceiver.inputQueue)
              && irReceiver.delivered == old(irReceiver.delivered)
              && irReceiver.resumeCount == old(irReceiver.resumeCount) + (if Resumes(out) then 1 else 0)
              && (out.Accepted? && out.overlay != [] ==> OverlayShows(out.overlay))
              && (!(out.Accepted? && out.overlay != []) ==>
                    unchanged(indexedLayer, indexedLayer.backBuffer, indexedLayer.indexBuffer, scrollingLayer))
              && (out.Accepted? && MovesItem(out.button) ==> BackgroundBlank())
              && (!(out.Accepted? && MovesItem(out.button)) ==>
                    unchanged(backgroundLayer.backBuffer, backgroundLayer.displayBuffer))
              && (out.Accepted? && StepsBrightness(out.button) ==> matrix.brightness == brightness)
              && (!(out.Accepted? && StepsBrightness(out.button)) ==> unchanged(matrix))
      ensures SdTimers() == old(SdTimers()) && MemoryTimers() == old(MemoryTimers())
      ensures matrix.rotation == old(matrix.rotation) && matrix.globalRotation == old(matrix.globalRotation)
    {
      ghost var s := Controls();
      var (valid, buttonName) := ValidatePressAndGetName(received, "");
      if !valid {
        assert HandledInput(s, Some(received), now) == (s, Discarded);
        irReceiver.Resume();
        return;
      }
      var b := ButtonOf(received).value;
      if lastAcceptedIRTimestamp > 0 && now - lastAcceptedIRTimestamp < CooldownMs {
        assert HandledInput(s, Some(received), now) == (s, CooledDown);
        return;
      }
      ghost var (p, text) := Pressed(s, b);
      assert HandledInput(s, Some(received), now)
             == ((if text != [] then DebugWritten(p, now, true) else p).(lastAccepted := now), Accepted(b, text));
      AcceptButton(b, buttonName, now);
    }

    /** `HandleIRInputs(now)`: proved against `HandledInput` on the code the
        receiver has pending. The receiver is resumed after an unknown code
        and after an accepted one, not during the cooldown. */
    method HandleIRInputs(now: nat)
      requires Valid() && ClockAt(now)
      modifies this, matrix, indexedLayer, indexedLayer.backBuffer, indexedLayer.indexBuffer, scrollingLayer,
               backgroundLayer.backBuffer, backgroundLayer.displayBuffer, irReceiver
      ensures Valid() && ClockAt(now)
      ensures var (s, out) := HandledInput(old(Controls()), Pending(old(irReceiver.inputQueue)), now);
              && Controls() == s
              && irReceiver.inputQueue == (if out.NoInput? then old(irReceiver.inputQueue) else old(irReceiver.inputQueue)[1..])
              && irReceiver.resumeCount == old(irReceiver.resumeCount) + (if Resumes(out) then 1 else 0)
              && (out.Accepted? && out.overlay != [] ==> OverlayShows(out.overlay))
              && (!(out.Accepted? && out.overlay != []) ==>
                    unchanged(indexedLayer, indexedLayer.backBuffer, indexedLayer.indexBuffer, scrollingLayer))
              && (out.Accepted? && MovesItem(out.button) ==> BackgroundBlank())
              && (!(out.Accepted? && MovesItem(out.button)) ==>
                    unchanged(backgroundLayer.backBuffer, backgroundLayer.displayBuffer))
              && (out.Accepted? && StepsBrightness(out.button) ==> matrix.brightness == brightness)
              && (!(out.Accepted? && StepsBrightness(out.button)) ==> unchanged(matrix))
      ensures SdTimers() == old(SdTimers()) && MemoryTimers() == old(MemoryTimers())
      ensures matrix.rotation == old(matrix.rotation) && matrix.globalRotation == old(matrix.globalRotation)
    {
      var decoded := irReceiver.Decode();
      if !decoded {
        return;
      }
      HandleReceived(irReceiver.decodedRawData, now);
    }

    // -------------------------------------------------------------------
    // Built-in images
    // -------------------------------------------------------------------

    /** The inner loop of `drawBitmap64`: row `i` of the bitmap. */
    method DrawBitmapRow(x: int, y: int, bm: Bitmap, i: nat)
      requires backgroundLayer.Valid() && backgroundLayer.width == PanelWidth && backgroundLayer.height == PanelHeight
      requires backgroundLayer.backBuffer.Length == BackgroundBytes
      requires BitmapOk(bm) && i < bm.height
      modifies backgroundLayer.backBuffer
      ensures backgroundLayer.backBuffer[..]
              == BitmapRowPainted(old(backgroundLayer.backBuffer[..]), x, y, bm, i, bm.width)
    {
      ghost var rowStart := backgroundLayer.backBuffer[..];
      var j := 0;
      while j < bm.width
        invariant 0 <= j <= bm.width
        invariant backgroundLayer.backBuffer[..] == BitmapRowPainted(rowStart, x, y, bm, i, j)
      {
        PixelInside(j, i, bm.width, bm.height);
        var p := (i * bm.width + j) * 3;
        var pixel := Rgb24(bm.pixelData[p], bm.pixelData[p + 1], bm.pixelData[p + 2]);
        assert pixel == PixelOf(bm, i, j);
        backgroundLayer.DrawPixel(ToInt16(x + j), ToInt16(y + i), pixel);
        j := j + 1;
      }
    }

    /** `drawBitmap64(x, y, bitmap)`: every pixel of the bitmap, row by row,
        into the background's back buffer at (x + j, y + i). */
    method DrawBitmap64(x: int, y: int, bm: Bitmap)
      requires backgroundLayer.Valid() && backgroundLayer.width == PanelWidth && backgroundLayer.height == PanelHeight
      requires backgroundLayer.backBuffer.Length == BackgroundBytes
      requires BitmapOk(bm)
      modifies backgroundLayer.backBuffer
      ensures backgroundLayer.backBuffer[..]
              == BitmapRowsPainted(old(backgroundLayer.backBuffer[..]), x, y, bm, bm.height)
    {
      ghost var start := backgroundLayer.backBuffer[..];
      var i := 0;
      while i < bm.height
        invariant 0 <= i <= bm.height
        invariant backgroundLayer.backBuffer[..] == BitmapRowsPainted(start, x, y, bm, i)
      {
        DrawBitmapRow(x, y, bm, i);
        i := i + 1;
      }
    }

    /** `drawBitmap64(0, 0, bitmap)` on a 64x64 bitmap: the back buffer
        holds exactly its pixel bytes. */
    method DrawBitmapAtOrigin(bm: Bitmap)
      requires backgroundLayer.Valid() && backgroundLayer.width == PanelWidth && backgroundLayer.height == PanelHeight
      requires backgroundLayer.backBuffer.Length == BackgroundBytes
      requires Bitmap64(bm)
      modifies backgroundLayer.backBuffer
      ensures backgroundLayer.backBuffer[..] == bm.pixelData[..BackgroundBytes]
    {
      var x, y := 0, 0;
      ghost var before := backgroundLayer.backBuffer[..];
      Bitmap64Size(bm);
      DrawBitmap64(x, y, bm);
      BitmapAtOriginFillsPanel(before, x, y, bm);
    }

    /** A 64x64 bitmap drawn at the origin and swapped: both background
        buffers hold exactly its pixel bytes. */
    method ShowBitmap(bm: Bitmap)
      requires backgroundLayer.Valid() && backgroundLayer.width == PanelWidth && backgroundLayer.height == PanelHeight
      requires backgroundLayer.backBuffer.Length == BackgroundBytes
      requires Bitmap64(bm)
      modifies backgroundLayer.backBuffer, backgroundLayer.displayBuffer
      ensures backgroundLayer.backBuffer[..] == bm.pixelData[..BackgroundBytes]
      ensures backgroundLayer.displayBuffer[..] == bm.pixelData[..BackgroundBytes]
    {
      DrawBitmapAtOrigin(bm);
      backgroundLayer.SwapBuffers();
      assert backgroundLayer.displayBuffer[..] == backgroundLayer.backBuffer[..];
    }

    /** `displayGIFFromMemoryById(id, now)`: proved against `MemTick` and
        `MemScreen`; `calls` are the frame's `drawPixel` calls. The source
        ignores `id` and always plays the first built-in GIF. */
    method DisplayGIFFromMemoryById(id: int, now: nat, stb: StbResult, calls: seq<PixelCall>)
      requires Valid() && ClockAt(now)
      modifies this, decoder, indexedLayer, indexedLayer.backBuffer, indexedLayer.indexBuffer, scrollingLayer,
               backgroundLayer.backBuffer, backgroundLayer.displayBuffer
      ensures Valid() && ClockAt(now)
      ensures Background() == MemScreen(old(MemoryTimers()), old(isFirstFrame), now, old(decoder.State()),
                                        memoryGifSize, stb, old(Background()), calls)
      ensures var r := MemTick(old(MemoryTimers()), old(isFirstFrame), now, old(decoder.State()), memoryGifSize, stb);
              && MemoryTimers() == r.timers && decoder.State() == r.decoder
              && Controls() == (if r.badFrame then DebugWritten(old(Controls()), now, true) else old(Controls()))
              && (r.badFrame ==> OverlayShows("Bad frame"))
              && (!r.badFrame ==> unchanged(indexedLayer, indexedLayer.backBuffer, indexedLayer.indexBuffer, scrollingLayer))
      ensures SdTimers() == old(SdTimers())
    {
      if !(now - memLastFrameDisplayTime > memCurrentFrameDelay) {
        return;
      }
      ghost var d := decoder.State();
      var started := 0;
      if isFirstFrame {
        started := decoder.StartDecodingFromMemory(memoryGifSize, stb);
        if started < 0 {
          WriteDebugScreen("Bad frame", now, true);
          memLastFrameDisplayTime := 0;
        }
      }
      assert (decoder.State(), started) == (if old(isFirstFrame) then StartedFromMemory(d, memoryGifSize, stb) else (d, 0));
      MemDecodeStep(now, started < 0, calls);
    }

    /** The decode half of `displayGIFFromMemoryById`, after the start (if
        any); `badStart` says whether the start already wrote "Bad frame". */
    method MemDecodeStep(now: nat, badStart: bool, calls: seq<PixelCall>)
      requires Valid() && ClockAt(now)
      requires badStart ==> OverlayShows("Bad frame") && lastDebugWriteTime == now && allowDebugClear
      modifies this, decoder, indexedLayer, indexedLayer.backBuffer, indexedLayer.indexBuffer, scrollingLayer,
               backgroundLayer.backBuffer, backgroundLayer.displayBuffer
      ensures Valid() && ClockAt(now)
      ensures Background() == DecodedFrameScreen(old(decoder.State()), old(Background()), calls)
      ensures var (d2, result) := Decoded(old(decoder.State()));
              && decoder.State() == d2
              && MemoryTimers() == (if result < 0 then MemTimers(0, 0) else MemTimers(now, d2.currentDelay))
              && var bad := result < 0 || badStart;
                 && Controls() == (if bad then DebugWritten(old(Controls()), now, true) else old(Controls()))
                 && (bad ==> OverlayShows("Bad frame"))
                 && (!bad ==> unchanged(indexedLayer, indexedLayer.backBuffer, indexedLayer.indexBuffer, scrollingLayer))
      ensures SdTimers() == old(SdTimers())
    {
      var result := decoder.DecodeFrame(backgroundLayer, calls);
      // The source stores the frame time and delay, then overwrites them
      // after writing "Bad frame" when the decode failed.
      if result < 0 {
        WriteDebugScreen("Bad frame", now, true);
        memLastFrameDisplayTime, memCurrentFrameDelay := 0, 0;
      } else {
        memLastFrameDisplayTime, memCurrentFrameDelay := now, decoder.GetFrameDelayMs();
      }
    }

    /** `drawImageNoSD(now)`: index 1 and 2 show the built-in bitmaps,
        index 3 plays the built-in GIF, anything else is a black screen. */
    method DrawImageNoSD(now: nat, stb: StbResult, calls: seq<PixelCall>)
      requires Valid() && ClockAt(now)
      modifies this, decoder, indexedLayer, indexedLayer.backBuffer, indexedLayer.indexBuffer, scrollingLayer,
               backgroundLayer.backBuffer, backgroundLayer.displayBuffer
      ensures Valid() && ClockAt(now)
      ensures old(curImageIdx) == 1 ==>
                backgroundLayer.backBuffer[..] == brat.pixelData[..BackgroundBytes]
                && backgroundLayer.displayBuffer[..] == brat.pixelData[..BackgroundBytes]
      ensures old(curImageIdx) == 2 ==>
                backgroundLayer.backBuffer[..] == pikachu.pixelData[..BackgroundBytes]
                && backgroundLayer.displayBuffer[..] == pikachu.pixelData[..BackgroundBytes]
      ensures old(curImageIdx) == 3 ==>
                var r := MemTick(old(MemoryTimers()), old(isFirstFrame), now, old(decoder.State()), memoryGifSize, stb);
                && MemoryTimers() == r.timers && decoder.State() == r.decoder
                && Controls() == (if r.badFrame then DebugWritten(old(Controls()), now, true) else old(Controls()))
                && (r.badFrame ==> OverlayShows("Bad frame"))
                && (!r.badFrame ==> unchanged(indexedLayer, indexedLayer.backBuffer, indexedLayer.indexBuffer, scrollingLayer))
                && Background() == MemScreen(old(MemoryTimers()), old(isFirstFrame), now, old(decoder.State()),
                                             memoryGifSize, stb, old(Background()), calls)
      ensures !(1 <= old(curImageIdx) <= 3) ==> BackgroundBlank()
      ensures old(curImageIdx) != 3 ==>
                Controls() == old(Controls()) && MemoryTimers() == old(MemoryTimers())
                && decoder.State() == old(decoder.State())
                && unchanged(indexedLayer, indexedLayer.backBuffer, indexedLayer.indexBuffer, scrollingLayer)
      ensures SdTimers() == old(SdTimers())
    {
      if curImageIdx == 1 {
        ShowBitmap(brat);
      } else if curImageIdx == 2 {
        ShowBitmap(pikachu);
      } else if curImageIdx == 3 {
        DisplayGIFFromMemoryById(0, now, stb, calls);
      } else {
        ClearBackground();
      }
    }

    // -------------------------------------------------------------------
    // Playback from the SD card
    // -------------------------------------------------------------------

    /** The first part of `drawImageWithSD` for a newly selected item:
        open the item's file, show its name (`nameText`, what the name
        buffer receives) or "Fail", and reset the statics so that the first
        frame is due at once. */
    method OpenSelectedItem(now: nat, vol: Volume, staleBuffer: string, nameText: string)
      requires Valid() && ClockAt(now)
      modifies this, catalog, indexedLayer, indexedLayer.backBuffer, indexedLayer.indexBuffer, scrollingLayer
      ensures Valid() && ClockAt(now)
      ensures Controls() == DebugWritten(old(Controls()), now, true)
      ensures SdTimers() == InitialTimers && MemoryTimers() == old(MemoryTimers())
      ensures var path := FilenameByIndex(vol, GifDirectory, old(catalog.numberOfFiles), old(curImageIdx), staleBuffer);
              && catalog.openFile == (if path in vol.files then Some(path) else None)
              && OverlayShows(if path in vol.files then nameText else "Fail")
      ensures catalog.numberOfFiles == old(catalog.numberOfFiles)
    {
      var ok, path := catalog.OpenGifFilenameByIndex(vol, GifDirectory, curImageIdx, staleBuffer);
      // The source resets the statics last; the overlay write does not
      // read them.
      lastFrameDisplayTime, currentFrameDelay, startOk := 0, 0, true;
      // The source writes "Fail" on one branch and the name on the other.
      var text := if ok then nameText else "Fail";
      WriteDebugScreen(text, now, true);
    }

    /** The restart of `drawImageWithSD`: a black background, then
        `startDecoding` on the open file. */
    method RestartDecoding(file: FileSource, stb: StbResult) returns (started: int)
      requires Valid()
      modifies decoder, backgroundLayer.backBuffer, backgroundLayer.displayBuffer
      ensures Valid()
      ensures (decoder.State(), started) == StartedFromFile(old(decoder.State()), file, stb)
      ensures BackgroundBlank()
    {
      ClearBackground();
      started := decoder.StartDecodingFromFile(file, stb);
    }

    /** The decode step of `drawImageWithSD`: one frame drawn with
        `calls`, and the statics set from its result (`SdDecodeStep`). */
    method DecodeAndRecord(now: nat, calls: seq<PixelCall>)
      requires Valid() && ClockAt(now)
      modifies this, decoder, backgroundLayer.backBuffer, backgroundLayer.displayBuffer
      ensures Valid() && ClockAt(now)
      ensures var r := SdDecodeStep(now, old(decoder.State()));
              SdTimers() == r.timers && decoder.State() == r.decoder
      ensures Background() == DecodedFrameScreen(old(decoder.State()), old(Background()), calls)
      ensures Controls() == old(Controls()) && MemoryTimers() == old(MemoryTimers())
    {
      var result := decoder.DecodeFrame(backgroundLayer, calls);
      // The source stores the frame time and delay, then overwrites them
      // (and clears `start_ok`) when the decode failed.
      if result < 0 {
        lastFrameDisplayTime, currentFrameDelay, startOk := 0, 0, false;
      } else {
        lastFrameDisplayTime, currentFrameDelay, startOk := now, decoder.GetFrameDelayMs(), true;
      }
    }

    /** The frame half of `drawImageWithSD`, after the statics were reset
        for a new item: proved against `SdFrameStep` and `SdFrameScreen`. */
    method SdFrameTick(now: nat, file: FileSource, stb: StbResult, calls: seq<PixelCall>)
      requires Valid() && ClockAt(now)
      modifies this, decoder, backgroundLayer.backBuffer, backgroundLayer.displayBuffer
      ensures Valid() && ClockAt(now)
      ensures var r := SdFrameStep(old(SdTimers()), old(isFirstFrame), now, old(decoder.State()), file, stb);
              SdTimers() == r.timers && decoder.State() == r.decoder
      ensures Background() == SdFrameScreen(old(SdTimers()), old(isFirstFrame), now, old(decoder.State()),
                                            file, stb, old(Background()), calls)
      ensures Controls() == old(Controls()) && MemoryTimers() == old(MemoryTimers())
    {
      if !(now - lastFrameDisplayTime > currentFrameDelay) {
        return;
      }
      if isFirstFrame || !startOk {
        var started := RestartDecoding(file, stb);
        if started < 0 {
          lastFrameDisplayTime := 0;
          startOk := false;
          return;
        }
      }
      DecodeAndRecord(now, calls);
    }

    /** `drawImageWithSD(now)`: proved against `SdTick` and `SdTickScreen`.
        `vol` is the card, `staleBuffer` what the callee's path buffer held
        before, `nameText` what the name buffer receives, `file` and `stb`
        what the open file and the image library give the decoder, and
        `calls` the frame's `drawPixel` calls. */
    method DrawImageWithSD(now: nat, vol: Volume, staleBuffer: string, nameText: string,
                           file: FileSource, stb: StbResult, calls: seq<PixelCall>)
      requires Valid() && ClockAt(now)
      modifies this, decoder, catalog, indexedLayer, indexedLayer.backBuffer, indexedLayer.indexBuffer, scrollingLayer,
               backgroundLayer.backBuffer, backgroundLayer.displayBuffer
      ensures Valid() && ClockAt(now)
      ensures var r := SdTick(old(SdTimers()), old(isFirstFrame), now, old(decoder.State()), file, stb);
              SdTimers() == r.timers && decoder.State() == r.decoder
      ensures Background() == SdTickScreen(old(SdTimers()), old(isFirstFrame), now, old(decoder.State()),
                                           file, stb, old(Background()), calls)
      ensures Controls() == (if old(isFirstFrame) then DebugWritten(old(Controls()), now, true) else old(Controls()))
      ensures MemoryTimers() == old(MemoryTimers())
      ensures old(isFirstFrame) ==>
                var path := FilenameByIndex(vol, GifDirectory, old(catalog.numberOfFiles), old(curImageIdx), staleBuffer);
                && catalog.openFile == (if path in vol.files then Some(path) else None)
                && OverlayShows(if path in vol.files then nameText else "Fail")
      ensures !old(isFirstFrame) ==>
                unchanged(catalog, indexedLayer, indexedLayer.backBuffer, indexedLayer.indexBuffer, scrollingLayer)
    {
      if isFirstFrame {
        OpenSelectedItem(now, vol, staleBuffer, nameText);
      }
      SdFrameTick(now, file, stb, calls);
    }

    // -------------------------------------------------------------------
    // Setup
    // -------------------------------------------------------------------

    /** `wrap_enumerateGIFFiles(directoryName, displayFilenames)`: the
        catalog's enumeration when the card is used, 4 otherwise (the
        listing printed to the serial port is not modelled). */
    method WrapEnumerateGIFFiles(vol: Volume, dir: string) returns (n: int)
      modifies catalog
      ensures useSd && dir !in vol.dirs ==> n == -1 && catalog.numberOfFiles == 0
      ensures useSd && dir in vol.dirs ==> n == catalog.numberOfFiles == |AnimationFiles(vol.dirs[dir])|
      ensures !useSd ==> n == NoSdFileCount && unchanged(catalog)
      ensures catalog.openFile == old(catalog.openFile)
    {
      if useSd {
        n := catalog.EnumerateGIFFiles(vol, dir);
        return;
      }
      return NoSdFileCount;
    }

    /** The start of `setup`: rotation, the decoder's screen and file
        callbacks, and the brightness. */
    method ConfigureDevices()
      requires Valid()
      modifies matrix, decoder
      ensures Valid()
      ensures matrix.rotation == Rotation270 && matrix.globalRotation == Rotation270
      ensures matrix.brightness == ToUint8(brightness) && matrix.globalBrightness == ToUint8(brightness)
      ensures decoder.State() == old(decoder.State()).(callbacks := AllCallbacks)
    {
      matrix.SetRotation(Rotation270);
      decoder.SetScreenCallbacks(true, true, true);
      decoder.SetFileCallbacks(true, true, true);
      matrix.SetBrightness(brightness);
    }

    /** The display part of `setup`, up to "POWER: ON": rotation, the
        decoder's callbacks, the brightness, a black background, the
        text layer's mode and colour, and the first overlay. */
    method PrepareDisplay(now: nat)
      requires Valid() && ClockAt(now)
      modifies this, matrix, decoder, indexedLayer, indexedLayer.backBuffer, indexedLayer.indexBuffer, scrollingLayer,
               backgroundLayer.backBuffer, backgroundLayer.displayBuffer
      ensures Valid() && ClockAt(now)
      ensures Controls() == DebugWritten(old(Controls()), now, true)
      ensures SdTimers() == old(SdTimers()) && MemoryTimers() == old(MemoryTimers())
      ensures matrix.rotation == Rotation270 && matrix.globalRotation == Rotation270
      ensures matrix.brightness == ToUint8(brightness) && matrix.globalBrightness == ToUint8(brightness)
      ensures decoder.State() == old(decoder.State()).(callbacks := AllCallbacks)
      ensures BackgroundBlank()
      ensures scrollingLayer.mode == WrapForward && scrollingLayer.color == White
      ensures OverlayShows("POWER: ON")
    {
      ConfigureDevices();
      ClearBackground();
      scrollingLayer.SetMode(WrapForward);
      scrollingLayer.SetColor(White);
      WriteDebugScreen("POWER: ON", now, true);
    }

    /** The end of `setup`, once the count is stored and is worth
        reporting: the message for a missing or empty directory, or the
        count when the card is used. */
    method ReportCount(now: nat, sdOk: bool)
      requires Valid() && ClockAt(now) && !(useSd && !sdOk)
      requires useSd || numFiles <= 0
      modifies this, indexedLayer, indexedLayer.backBuffer, indexedLayer.indexBuffer, scrollingLayer
      ensures Valid() && ClockAt(now)
      ensures OverlayShows(SetupMessage(useSd, sdOk, numFiles))
      ensures Controls() == DebugWritten(old(Controls()), now, true)
      ensures SdTimers() == old(SdTimers()) && MemoryTimers() == old(MemoryTimers())
      ensures scrollingLayer.mode == old(scrollingLayer.mode) && scrollingLayer.color == old(scrollingLayer.color)
    {
      var msg: string;
      if numFiles < 0 {
        msg := "No gifs directory";
      } else if numFiles == 0 {
        msg := "Empty gifs directory";
      } else {
        msg := "Found " + IntToDecimal(numFiles);
      }
      assert msg == SetupMessage(useSd, sdOk, numFiles);
      WriteDebugScreen(msg, now, true);
    }

    /** The second half of `setup` once the card is known to work (or is
        not used): count the animations, store the count and report it. */
    method CountFiles(now: nat, sdOk: bool, vol: Volume) returns (outcome: SetupOutcome)
      requires Valid() && ClockAt(now) && !(useSd && !sdOk) && curImageIdx == 0
      requires OverlayShows("POWER: ON")
      modifies this, catalog, indexedLayer, indexedLayer.backBuffer, indexedLayer.indexBuffer, scrollingLayer
      ensures Valid() && ClockAt(now)
      ensures outcome == SetupEnd(useSd, sdOk, FileCount(useSd, vol))
      ensures OverlayShows(SetupMessage(useSd, sdOk, FileCount(useSd, vol)))
      ensures Controls() == (if outcome == Running && !useSd then old(Controls())
                             else DebugWritten(old(Controls()), now, true)).(numFiles := FileCount(useSd, vol))
      ensures SdTimers() == old(SdTimers()) && MemoryTimers() == old(MemoryTimers())
      ensures scrollingLayer.mode == old(scrollingLayer.mode) && scrollingLayer.color == old(scrollingLayer.color)
      ensures useSd && GifDirectory in vol.dirs ==> catalog.numberOfFiles == FileCount(useSd, vol)
    {
      var n := WrapEnumerateGIFFiles(vol, GifDirectory);
      numFiles := n;
      assert n == FileCount(useSd, vol);
      if useSd || numFiles <= 0 {
        ReportCount(now, sdOk);
      } else {
        assert SetupMessage(useSd, sdOk, n) == "POWER: ON";
      }
      outcome := if numFiles < 0 then NoGifsDirectory else if numFiles == 0 then EmptyGifsDirectory else Running;
    }

    /** `setup()`: where the source halts in `while(1)` the model returns
        the reason. `sdOk` is what `initSDCard` reports; `vol` is the card.
        The overlay ends on the message `SetupMessage` names, and the file
        count is stored unless the card failed. */
    method Setup(now: nat, sdOk: bool, vol: Volume) returns (outcome: SetupOutcome)
      requires Valid() && ClockAt(now) && curImageIdx == 0
      modifies this, matrix, decoder, catalog, indexedLayer, indexedLayer.backBuffer, indexedLayer.indexBuffer,
               scrollingLayer, backgroundLayer.backBuffer, backgroundLayer.displayBuffer
      ensures Valid() && ClockAt(now)
      ensures outcome == SetupEnd(useSd, sdOk, FileCount(useSd, vol))
      ensures OverlayShows(SetupMessage(useSd, sdOk, FileCount(useSd, vol)))
      ensures Controls() == DebugWritten(old(Controls()), now, true)
                              .(numFiles := if outcome == NoSdCard then old(numFiles) else FileCount(useSd, vol))
      ensures SdTimers() == old(SdTimers()) && MemoryTimers() == old(MemoryTimers())
      ensures matrix.rotation == Rotation270 && matrix.globalRotation == Rotation270 && matrix.brightness == ToUint8(brightness)
      ensures decoder.State() == old(decoder.State()).(callbacks := AllCallbacks)
      ensures BackgroundBlank()
      ensures scrollingLayer.mode == WrapForward && scrollingLayer.color == White
      ensures useSd && outcome != NoSdCard && GifDirectory in vol.dirs ==> catalog.numberOfFiles == FileCount(useSd, vol)
    {
      PrepareDisplay(now);
      outcome := CardSetup(now, sdOk, vol);
    }

    /** The card half of `setup()`, after "POWER: ON" is up: a card that
        fails to start ends it with "No SD card"; otherwise the files are
        counted and reported. */
    method CardSetup(now: nat, sdOk: bool, vol: Volume) returns (outcome: SetupOutcome)
      requires Valid() && ClockAt(now) && curImageIdx == 0
      requires OverlayShows("POWER: ON") && lastDebugWriteTime == now && allowDebugClear
      modifies this, catalog, indexedLayer, indexedLayer.backBuffer, indexedLayer.indexBuffer, scrollingLayer
      ensures Valid() && ClockAt(now)
      ensures outcome == SetupEnd(useSd, sdOk, FileCount(useSd, vol))
      ensures OverlayShows(SetupMessage(useSd, sdOk, FileCount(useSd, vol)))
      ensures Controls() == old(Controls()).(numFiles := if outcome == NoSdCard then old(numFiles) else FileCount(useSd, vol))
      ensures SdTimers() == old(SdTimers()) && MemoryTimers() == old(MemoryTimers())
      ensures scrollingLayer.mode == old(scrollingLayer.mode) && scrollingLayer.color == old(scrollingLayer.color)
      ensures useSd && outcome != NoSdCard && GifDirectory in vol.dirs ==> catalog.numberOfFiles == FileCount(useSd, vol)
    {
      if useSd && !sdOk {
        scrollingLayer.Start("No SD card", -1, now);
        return NoSdCard;
      }
      outcome := CountFiles(now, sdOk, vol);
    }

    // -------------------------------------------------------------------
    // The main loop
    // -------------------------------------------------------------------

    /** The drawing call of `loop()`, with the card or without it. */
    method DrawImage(now: nat, vol: Volume, staleBuffer: string, nameText: string,
                     file: FileSource, stb: StbResult, memStb: StbResult, calls: seq<PixelCall>)
      requires Valid() && ClockAt(now)
      modifies this, decoder, catalog, indexedLayer, indexedLayer.backBuffer, indexedLayer.indexBuffer, scrollingLayer,
               backgroundLayer.backBuffer, backgroundLayer.displayBuffer
      ensures Valid() && ClockAt(now)
      ensures Tick() == Drawn(old(Tick()), useSd, now, memoryGifSize, memStb, file, stb)
      ensures useSd ==> Background() == SdTickScreen(old(SdTimers()), old(isFirstFrame), now, old(decoder.State()),
                                                     file, stb, old(Background()), calls)
      ensures !useSd && old(curImageIdx) == MemoryGifItem ==>
                Background() == MemScreen(old(MemoryTimers()), old(isFirstFrame), now, old(decoder.State()),
                                          memoryGifSize, memStb, old(Background()), calls)
      ensures !useSd && old(curImageIdx) == 1 ==>
                backgroundLayer.backBuffer[..] == brat.pixelData[..BackgroundBytes]
                && backgroundLayer.displayBuffer[..] == brat.pixelData[..BackgroundBytes]
      ensures !useSd && old(curImageIdx) == 2 ==>
                backgroundLayer.backBuffer[..] == pikachu.pixelData[..BackgroundBytes]
                && backgroundLayer.displayBuffer[..] == pikachu.pixelData[..BackgroundBytes]
      ensures !useSd && !(1 <= old(curImageIdx) <= MemoryGifItem) ==> BackgroundBlank()
      ensures !useSd ==>
                var badFrame := old(curImageIdx) == MemoryGifItem
                                && MemTick(old(MemoryTimers()), old(isFirstFrame), now, old(decoder.State()),
                                           memoryGifSize, memStb).badFrame;
                && (badFrame ==> OverlayShows("Bad frame"))
                && (!badFrame ==> unchanged(indexedLayer, indexedLayer.backBuffer, indexedLayer.indexBuffer, scrollingLayer))
      ensures useSd && old(isFirstFrame) ==>
                var path := FilenameByIndex(vol, GifDirectory, old(catalog.numberOfFiles), old(curImageIdx), staleBuffer);
                && catalog.openFile == (if path in vol.files then Some(path) else None)
                && OverlayShows(if path in vol.files then nameText else "Fail")
      ensures useSd && !old(isFirstFrame) ==>
                unchanged(indexedLayer, indexedLayer.backBuffer, indexedLayer.indexBuffer, scrollingLayer)
      ensures !(useSd && old(isFirstFrame)) ==> unchanged(catalog)
    {
      if !useSd {
        DrawImageNoSD(now, memStb, calls);
      } else {
        DrawImageWithSD(now, vol, staleBuffer, nameText, file, stb, calls);
      }
    }

    /** The first two calls of `loop()`: an expired overlay cleared, then
        the pending code handled. */
    method ClearAndHandleInput(now: nat)
      requires Valid() && ClockAt(now)
      modifies this, matrix, indexedLayer, indexedLayer.backBuffer, indexedLayer.indexBuffer, scrollingLayer,
               backgroundLayer.backBuffer, backgroundLayer.displayBuffer, irReceiver
      ensures Valid() && ClockAt(now)
      ensures var (s, out) := HandledInput(DebugCleared(old(Controls()), now), Pending(old(irReceiver.inputQueue)), now);
              && Controls() == s
              && irReceiver.inputQueue == (if out.NoInput? then old(irReceiver.inputQueue) else old(irReceiver.inputQueue)[1..])
              && irReceiver.resumeCount == old(irReceiver.resumeCount) + (if Resumes(out) then 1 else 0)
      ensures var (s, out) := HandledInput(DebugCleared(old(Controls()), now), Pending(old(irReceiver.inputQueue)), now);
              var shown := out.Accepted? && out.overlay != [];
              && (shown ==> OverlayShows(out.overlay))
              && (!shown && ShouldClearDebug(old(Controls()), now) ==> OverlayCleared())
              && (!shown && !ShouldClearDebug(old(Controls()), now) ==>
                    unchanged(indexedLayer.backBuffer, indexedLayer.indexBuffer, scrollingLayer))
              && (out.Accepted? && MovesItem(out.button) ==> BackgroundBlank())
              && (!(out.Accepted? && MovesItem(out.button)) ==>
                    unchanged(backgroundLayer.backBuffer, backgroundLayer.displayBuffer))
              && (out.Accepted? && StepsBrightness(out.button) ==> matrix.brightness == brightness)
              && (!(out.Accepted? && StepsBrightness(out.button)) ==> unchanged(matrix))
      ensures SdTimers() == old(SdTimers()) && MemoryTimers() == old(MemoryTimers())
      ensures matrix.rotation == old(matrix.rotation) && matrix.globalRotation == old(matrix.globalRotation)
    {
      MaybeClearDebugScreen(now);
      HandleIRInputs(now);
    }

    /** The last statement of `loop()`: the first-frame flag goes down and
        nothing else of the tick state changes. */
    method LowerFirstFrameFlag(now: nat)
      requires Valid() && ClockAt(now)
      modifies this
      ensures Valid() && ClockAt(now)
      ensures Tick() == old(Tick()).(controls := old(Controls()).(isFirstFrame := false))
    {
      isFirstFrame := false;
    }

    /** `loop()` at the clock reading `now`: proved against `LoopTick` on
        the code the receiver has pending. The card, the name buffer and
        the decoder's inputs are the parameters of `DrawImageWithSD`;
        `memStb` is what the image library makes of the built-in GIF and
        `calls` the `drawPixel` calls of the frame either player draws. */
    method Loop(now: nat, vol: Volume, staleBuffer: string, nameText: string,
                file: FileSource, stb: StbResult, memStb: StbResult, calls: seq<PixelCall>)
      requires Valid() && ClockAt(now)
      modifies this, matrix, decoder, catalog, irReceiver, indexedLayer, indexedLayer.backBuffer,
               indexedLayer.indexBuffer, scrollingLayer, backgroundLayer.backBuffer, backgroundLayer.displayBuffer
      ensures Valid() && ClockAt(now)
      ensures var (st, out) := LoopTick(old(Tick()), Pending(old(irReceiver.inputQueue)), now, useSd,
                                        memoryGifSize, memStb, file, stb);
              && Tick() == st
              && irReceiver.inputQueue == (if out.NoInput? then old(irReceiver.inputQueue) else old(irReceiver.inputQueue)[1..])
              && irReceiver.resumeCount == old(irReceiver.resumeCount) + (if Resumes(out) then 1 else 0)
    {
      ClearAndHandleInput(now);
      DrawImage(now, vol, staleBuffer, nameText, file, stb, memStb, calls);
      LowerFirstFrameFlag(now);
    }
  }
}
