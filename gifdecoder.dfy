/// The simulator's GIF decoder: a frame counter and a per-frame delay
/// over a GIF that is decoded all at once, and the screen callbacks it
/// runs for each frame. The pixel decoding itself (the image library),
/// the floating-point fit-to-panel scaling that chooses a frame's pixels
/// and the optional sleep after a frame are collaborators that are not
/// modelled: what the image library returns, what the file callbacks
/// report and which pixels a frame draws are parameters.
module GifDecoderMock {
  import opened Wrappers
  import opened SmartMatrix
  import Arith

  /** What the file-size and read-block callbacks report for the open file. */
  datatype FileSource = FileSource(size: int, bytesRead: int)

  /** What the image library returns for a buffer: nothing, or one delay
      (in milliseconds) per decoded frame. */
  datatype StbResult = StbFailed | StbLoaded(delays: seq<int>)

  /** Which of the decoder's callback pointers are set: the three screen
      callbacks and the three file callbacks the file variant depends on. */
  datatype Callbacks = Callbacks(screenClear: bool, updateScreen: bool, drawPixel: bool,
                                 fileSize: bool, fileSeek: bool, fileReadBlock: bool)

  const NoCallbacks: Callbacks := Callbacks(false, false, false, false, false, false)
  const AllCallbacks: Callbacks := Callbacks(true, true, true, true, true, true)

  /** The decoder's fields. `hasFrames` and `hasGifData` stand for the
      `frames` and `gifData` pointers being non-null; `frameDelays` is the
      `frameDelays` pointer. */
  datatype DecoderState = DecoderState(
    callbacks: Callbacks,
    hasGifData: bool,
    gifDataSize: int,
    hasFrames: bool,
    frameDelays: Option<seq<int>>,
    frameCount: nat,
    currentFrame: nat,
    currentDelay: int,
    fromMemory: bool,
    memorySize: int)

  const DefaultDelayMs: int := 100
  const MinDelayMs: int := 10

  /** The state a fresh decoder starts in. */
  const Initial: DecoderState :=
    DecoderState(NoCallbacks, false, 0, false, None, 0, 0, DefaultDelayMs, false, 0)

  /** What the decoder keeps true: one delay per frame, the frame counter
      inside the animation, and a usable delay. */
  ghost predicate Inv(d: DecoderState)
  {
    && (d.frameDelays.Some? ==> |d.frameDelays.value| == d.frameCount)
    && (d.hasFrames ==> d.frameDelays.Some?)
    && (d.hasGifData ==> d.hasFrames)
    && (d.hasFrames && d.frameCount > 0 ==> d.currentFrame < d.frameCount)
    && d.currentDelay >= MinDelayMs
  }

  predicate FileCallbacksSet(d: DecoderState)
  {
    d.callbacks.fileSize && d.callbacks.fileSeek && d.callbacks.fileReadBlock
  }

  predicate ScreenCallbacksSet(d: DecoderState)
  {
    d.callbacks.screenClear && d.callbacks.updateScreen && d.callbacks.drawPixel
  }

  /** A frame delay under 10 ms is replaced by the 100 ms default. */
  function EffectiveDelay(delay: int): (r: int)
    ensures r >= MinDelayMs
    ensures delay >= MinDelayMs ==> r == delay
    ensures delay < MinDelayMs ==> r == DefaultDelayMs
  {
    if delay < MinDelayMs then DefaultDelayMs else delay
  }

  /** `cleanup`: the three buffers are released, nothing else changes. */
  function Cleaned(d: DecoderState): (r: DecoderState)
    ensures !r.hasFrames && r.frameDelays == None && !r.hasGifData
    ensures r.(hasFrames := d.hasFrames, frameDelays := d.frameDelays, hasGifData := d.hasGifData) == d
  {
    d.(hasFrames := false, frameDelays := None, hasGifData := false)
  }

  /** Releasing the buffers a second time changes nothing. */
  lemma CleanedIdempotent(d: DecoderState)
    ensures Cleaned(Cleaned(d)) == Cleaned(d)
    ensures Inv(d) ==> Inv(Cleaned(d))
  {
  }

  /** `startDecoding()`: read the whole open file through the callbacks and
      decode it. */
  function StartedFromFile(d: DecoderState, file: FileSource, stb: StbResult): (r: (DecoderState, int))
    requires Inv(d)
    ensures Inv(r.0)
    ensures r.1 == 0 || r.1 == -1
    ensures r.1 == -1 <==> !FileCallbacksSet(d) || file.size <= 0
                           || file.bytesRead != file.size || stb.StbFailed?
    ensures r.1 == 0 ==> r.0.hasFrames && r.0.hasGifData && r.0.currentFrame == 0
                         && r.0.frameDelays == Some(stb.delays) && r.0.frameCount == |stb.delays|
    ensures r.1 == -1 ==> !r.0.hasFrames && r.0.frameDelays == None && !r.0.hasGifData
    ensures r.0.currentDelay == d.currentDelay && r.0.callbacks == d.callbacks
  {
    var c := Cleaned(d);
    if !FileCallbacksSet(c) then (c, -1)
    else if file.size <= 0 then (c.(gifDataSize := file.size), -1)
    else if file.bytesRead != file.size then (c.(gifDataSize := file.size), -1)
    else match stb
      case StbFailed => (c.(gifDataSize := file.size), -1)
      case StbLoaded(delays) =>
        (c.(gifDataSize := file.size, hasGifData := true, hasFrames := true,
            frameDelays := Some(delays), frameCount := |delays|, currentFrame := 0), 0)
  }

  /** `startDecoding(buffer, bufferSize)`: decode a GIF held in memory. */
  function StartedFromMemory(d: DecoderState, bufferSize: int, stb: StbResult): (r: (DecoderState, int))
    requires Inv(d)
    ensures Inv(r.0)
    ensures r.1 == 0 || r.1 == -1
    ensures r.1 == -1 <==> stb.StbFailed?
    ensures r.1 == 0 ==> r.0.hasFrames && r.0.currentFrame == 0
                         && r.0.frameDelays == Some(stb.delays) && r.0.frameCount == |stb.delays|
    ensures r.1 == -1 ==> !r.0.hasFrames && r.0.frameDelays == None
    ensures !r.0.hasGifData && r.0.fromMemory && r.0.memorySize == bufferSize
    ensures r.0.currentDelay == d.currentDelay && r.0.callbacks == d.callbacks
  {
    var c := Cleaned(d).(memorySize := bufferSize, fromMemory := true);
    match stb
    case StbFailed => (c, -1)
    case StbLoaded(delays) =>
      (c.(hasFrames := true, frameDelays := Some(delays), frameCount := |delays|, currentFrame := 0), 0)
  }

  /** `decodeFrame`: -1 and no change without frames; otherwise the delay
      of the frame just drawn is recorded, the counter moves on modulo the
      frame count, and -1 signals that it wrapped back to the first frame. */
  function Decoded(d: DecoderState): (r: (DecoderState, int))
    requires Inv(d)
    ensures Inv(r.0)
    ensures !d.hasFrames || d.frameCount == 0 ==> r == (d, -1)
    ensures d.hasFrames && d.frameCount > 0 ==>
              && r.0 == d.(currentFrame := r.0.currentFrame, currentDelay := r.0.currentDelay)
              && r.0.currentFrame == (d.currentFrame + 1) % d.frameCount
              && (r.1 == -1 <==> r.0.currentFrame == 0)
              && (r.1 == 0 || r.1 == -1)
              && r.0.currentDelay == EffectiveDelay(d.frameDelays.value[d.currentFrame])
  {
    if !d.hasFrames || d.frameCount == 0 then (d, -1)
    else
      var delay := if d.frameDelays.Some? && d.currentFrame < d.frameCount
                   then EffectiveDelay(d.frameDelays.value[d.currentFrame])
                   else d.currentDelay;
      var next := d.currentFrame + 1;
      if next >= d.frameCount then (d.(currentDelay := delay, currentFrame := 0), -1)
      else (d.(currentDelay := delay, currentFrame := next), 0)
  }

  /** The back and display buffers of the layer the screen callbacks draw on. */
  datatype Screen = Screen(back: seq<uint8>, display: seq<uint8>)

  /** What `decodeFrame`'s screen callbacks do to a width-by-height layer:
      nothing without frames; otherwise the installed ones, in order, clear
      the back buffer to black, make the frame's `drawPixel` calls and copy
      the back buffer to the display buffer. `calls` are the calls the
      fit-to-panel loop makes for the current frame. */
  function DecodedScreen(d: DecoderState, s: Screen, width: int, height: int, calls: seq<PixelCall>): (r: Screen)
    requires 0 <= width && 0 <= height && width * height * 3 <= |s.back| && |s.back| == |s.display|
    ensures |r.back| == |s.back| && |r.display| == |s.display|
    ensures !d.hasFrames || d.frameCount == 0 ==> r == s
    ensures d.hasFrames && d.frameCount > 0 && !d.callbacks.updateScreen ==> r.display == s.display
    ensures d.hasFrames && d.frameCount > 0 && d.callbacks.updateScreen ==>
              r.display[..width * height * 3] == r.back[..width * height * 3]
              && r.display[width * height * 3..] == s.display[width * height * 3..]
    ensures !d.callbacks.screenClear && !d.callbacks.drawPixel ==> r.back == s.back
  {
    if !d.hasFrames || d.frameCount == 0 then s
    else
      var cleared := if d.callbacks.screenClear then FilledRgb(s.back, width * height, Black) else s.back;
      var drawn := if d.callbacks.drawPixel then PaintedAll(cleared, width, height, calls) else cleared;
      Screen(drawn, if d.callbacks.updateScreen then Copied(s.display, drawn, width * height * 3) else s.display)
  }

  /** With all three screen callbacks installed, a decoded frame replaces
      whatever the layer showed: both buffers hold the frame's calls
      painted over black (`PaintedAllPixel` gives each pixel). */
  lemma DecodedScreenShowsFrame(d: DecoderState, s: Screen, width: int, height: int, calls: seq<PixelCall>)
    requires 0 <= width && 0 <= height && |s.back| == width * height * 3 && |s.display| == |s.back|
    requires d.hasFrames && d.frameCount > 0 && ScreenCallbacksSet(d)
    ensures var f := PaintedAll(seq(|s.back|, k => 0), width, height, calls);
            DecodedScreen(d, s, width, height, calls) == Screen(f, f)
  {
    FilledBlackIsZero(s.back, width * height);
  }

  /** The decoder after `k` calls of `decodeFrame`. */
  function DecodedTimes(d: DecoderState, k: nat): (r: DecoderState)
    requires Inv(d)
    ensures Inv(r)
    decreases k
  {
    if k == 0 then d else Decoded(DecodedTimes(d, k - 1)).0
  }

  /** Over any number of calls the frame counter is the starting frame plus
      the number of calls, modulo the frame count; the frames themselves
      are not touched. */
  lemma {:induction false} DecodedTimesCounts(d: DecoderState, k: nat)
    requires Inv(d) && d.hasFrames && d.frameCount > 0
    ensures DecodedTimes(d, k).currentFrame == (d.currentFrame + k) % d.frameCount
    ensures DecodedTimes(d, k).hasFrames && DecodedTimes(d, k).frameCount == d.frameCount
    decreases k
  {
    if k == 0 {
      Arith.DivModUnique(d.currentFrame, d.frameCount, 0, d.currentFrame);
    } else {
      var e := DecodedTimes(d, k - 1);
      DecodedTimesCounts(d, k - 1);
      DecodedStep(e, d.currentFrame + (k - 1));
      assert DecodedTimes(d, k) == Decoded(e).0;
    }
  }

  /** One call on a counter that stands at `a` modulo the frame count
      moves it to `a + 1` modulo the frame count. */
  lemma DecodedStep(e: DecoderState, a: nat)
    requires Inv(e) && e.hasFrames && e.frameCount > 0
    requires e.currentFrame == a % e.frameCount
    ensures Decoded(e).0.currentFrame == (a + 1) % e.frameCount
    ensures Decoded(e).0.hasFrames && Decoded(e).0.frameCount == e.frameCount
  {
    Arith.ModSucc(a, e.frameCount);
  }

  /** Starting from the first frame, the `k`-th call (counting from 0)
      reports the end of the loop exactly when it draws the last frame. */
  lemma LoopEndReportedAt(d: DecoderState, k: nat)
    requires Inv(d) && d.hasFrames && d.frameCount > 0 && d.currentFrame == 0
    requires k < d.frameCount
    ensures Decoded(DecodedTimes(d, k)).1 == (if k == d.frameCount - 1 then -1 else 0)
  {
    var n := d.frameCount;
    DecodedTimesCounts(d, k);
    DecodedTimesCounts(d, k + 1);
    assert DecodedTimes(d, k + 1) == Decoded(DecodedTimes(d, k)).0;
    if k + 1 < n {
      Arith.DivModUnique(k + 1, n, 0, k + 1);
    } else {
      Arith.DivModUnique(k + 1, n, 1, 0);
    }
  }

  /** A full loop of the animation brings the counter back to the first frame. */
  lemma FullLoopReturnsToStart(d: DecoderState)
    requires Inv(d) && d.hasFrames && d.frameCount > 0 && d.currentFrame == 0
    ensures DecodedTimes(d, d.frameCount).currentFrame == 0
  {
    DecodedTimesCounts(d, d.frameCount);
    Arith.DivModUnique(d.frameCount, d.frameCount, 1, 0);
  }

  /** The GifDecoder object: its fields are updated in place by the start,
      decode and cleanup operations. */
  class GifDecoder {
    var callbacks: Callbacks
    var hasGifData: bool
    var gifDataSize: int
    var hasFrames: bool
    var frameDelays: Option<seq<int>>
    var frameCount: nat
    var currentFrame: nat
    var currentDelay: int
    var fromMemory: bool
    var memorySize: int

    function State(): DecoderState
      reads this
    {
      DecoderState(callbacks,
                   hasGifData, gifDataSize, hasFrames, frameDelays, frameCount,
                   currentFrame, currentDelay, fromMemory, memorySize)
    }

    ghost predicate Valid()
      reads this
    {
      Inv(State())
    }

    constructor ()
      ensures State() == Initial && Valid()
    {
      callbacks := NoCallbacks;
      hasGifData, gifDataSize := false, 0;
      hasFrames, frameDelays, frameCount := false, None, 0;
      currentFrame, currentDelay := 0, DefaultDelayMs;
      fromMemory, memorySize := false, 0;
    }

    /** The three screen-callback setters (clear, update, draw pixel);
        `true` means a callback was installed. */
    method SetScreenCallbacks(clear: bool, update: bool, draw: bool)
      requires Valid()
      modifies this
      ensures Valid()
      ensures State() == old(State()).(callbacks := old(callbacks).(screenClear := clear, updateScreen := update,
                                                                      drawPixel := draw))
    {
      callbacks := callbacks.(screenClear := clear, updateScreen := update, drawPixel := draw);
    }

    /** The three file-callback setters the file variant depends on
        (size, seek, read-block); `true` means a callback was installed. */
    method SetFileCallbacks(size: bool, seek: bool, readBlock: bool)
      requires Valid()
      modifies this
      ensures Valid()
      ensures State() == old(State()).(callbacks := old(callbacks).(fileSize := size, fileSeek := seek,
                                                                      fileReadBlock := readBlock))
    {
      callbacks := callbacks.(fileSize := size, fileSeek := seek, fileReadBlock := readBlock);
    }

    method Cleanup()
      requires Valid()
      modifies this
      ensures Valid()
      ensures State() == Cleaned(old(State()))
    {
      if hasFrames {
        hasFrames := false;
      }
      if frameDelays.Some? {
        frameDelays := None;
      }
      if hasGifData {
        hasGifData := false;
      }
    }

    method StartDecodingFromFile(file: FileSource, stb: StbResult) returns (r: int)
      requires Valid()
      modifies this
      ensures Valid()
      ensures (State(), r) == StartedFromFile(old(State()), file, stb)
    {
      Cleanup();
      if !callbacks.fileSize || !callbacks.fileSeek || !callbacks.fileReadBlock {
        return -1;
      }
      gifDataSize := file.size;
      if gifDataSize <= 0 {
        return -1;
      }
      hasGifData := true;
      if file.bytesRead != gifDataSize {
        hasGifData := false;
        return -1;
      }
      match stb {
        case StbFailed =>
          hasGifData := false;
          return -1;
        case StbLoaded(delays) =>
          hasFrames, frameDelays, frameCount := true, Some(delays), |delays|;
      }
      currentFrame := 0;
      return 0;
    }

    method StartDecodingFromMemory(bufferSize: int, stb: StbResult) returns (r: int)
      requires Valid()
      modifies this
      ensures Valid()
      ensures (State(), r) == StartedFromMemory(old(State()), bufferSize, stb)
    {
      Cleanup();
      memorySize := bufferSize;
      fromMemory := true;
      match stb {
        case StbFailed =>
          return -1;
        case StbLoaded(delays) =>
          hasFrames, frameDelays, frameCount := true, Some(delays), |delays|;
      }
      currentFrame := 0;
      return 0;
    }

    /** The drawing loop of `decodeFrame`: `screen` is the layer the
        `drawPixel` callback draws on, `calls` the frame's calls. */
    method DrawFrame(screen: BackgroundLayer, calls: seq<PixelCall>)
      requires screen.Valid()
      modifies screen.backBuffer
      ensures screen.backBuffer[..] == PaintedAll(old(screen.backBuffer[..]), screen.width, screen.height, calls)
    {
      for i := 0 to |calls|
        invariant screen.backBuffer[..] == PaintedAll(old(screen.backBuffer[..]), screen.width, screen.height, calls[..i])
      {
        screen.DrawPixel(calls[i].x, calls[i].y, calls[i].color);
        assert calls[..i + 1][..i] == calls[..i];
      }
      assert calls[..|calls|] == calls;
    }

    /** `decodeFrame`: the screen callbacks run on `screen`, the layer they
        draw on, with `calls` the current frame's `drawPixel` calls. */
    method DecodeFrame(screen: BackgroundLayer, calls: seq<PixelCall>) returns (r: int)
      requires Valid() && screen.Valid()
      modifies this, screen.backBuffer, screen.displayBuffer
      ensures Valid()
      ensures (State(), r) == Decoded(old(State()))
      ensures Screen(screen.backBuffer[..], screen.displayBuffer[..])
              == DecodedScreen(old(State()), Screen(old(screen.backBuffer[..]), old(screen.displayBuffer[..])),
                               screen.width, screen.height, calls)
    {
      if !hasFrames || frameCount == 0 {
        return -1;
      }
      RunScreenCallbacks(screen, calls);
      r := AdvanceFrame();
    }

    /** The drawing half of `decodeFrame` on a decoder with frames: the
        installed screen callbacks, in the source's order. */
    method RunScreenCallbacks(screen: BackgroundLayer, calls: seq<PixelCall>)
      requires Valid() && screen.Valid() && hasFrames && frameCount > 0
      modifies screen.backBuffer, screen.displayBuffer
      ensures Screen(screen.backBuffer[..], screen.displayBuffer[..])
              == DecodedScreen(State(), Screen(old(screen.backBuffer[..]), old(screen.displayBuffer[..])),
                               screen.width, screen.height, calls)
    {
      if callbacks.screenClear {
        screen.FillScreen(Black);
      }
      if callbacks.drawPixel {
        DrawFrame(screen, calls);
      }
      if callbacks.updateScreen {
        screen.SwapBuffers();
      }
    }

    /** The bookkeeping half of `decodeFrame` on a decoder with frames:
        record the frame's delay and move to the next frame. */
    method AdvanceFrame() returns (r: int)
      requires Valid() && hasFrames && frameCount > 0
      modifies this
      ensures Valid()
      ensures (State(), r) == Decoded(old(State()))
    {
      if frameDelays.Some? && currentFrame < frameCount {
        currentDelay := frameDelays.value[currentFrame];
        if currentDelay < MinDelayMs {
          currentDelay := DefaultDelayMs;
        }
      }
      currentFrame := currentFrame + 1;
      if currentFrame >= frameCount {
        currentFrame := 0;
        return -1;
      }
      return 0;
    }

    /** `getFrameDelay_ms`: the delay recorded by the last decoded frame. */
    function GetFrameDelayMs(): (r: int)
      reads this
      requires Valid()
      ensures r >= MinDelayMs
      ensures r == currentDelay
    {
      currentDelay
    }
  }
}
