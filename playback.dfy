/// The sketch's control state as values, and what each part of a tick of
/// `loop()` does to it: the overlay timer, the remote-input dispatcher
/// with its cooldown, brightness and image-index navigation, and the two
/// frame schedulers (GIF from the SD card, GIF from memory). The sketch
/// object in module Bonnaroo is proved against these functions.
///
/// Time is a `millis()` reading in milliseconds; it only moves forward,
/// so each function is given a `now` no earlier than the stored stamps.
module Playback {
  import opened Arduino
  import opened Wrappers
  import opened IRremote
  import opened Remote
  import opened GifDecoderMock
  import opened SmartMatrix
  import Arith

  const MaxBrightness: int := 180
  const InitialBrightness: int := 26
  const BrightnessStep: int := 26
  const CooldownMs: int := 400
  const DebugClearMs: int := 3000

  // ---------------------------------------------------------------------
  // Brightness
  // ---------------------------------------------------------------------

  /** `adjustBrightness(amount)`: the step is added to the brightness; a
      negative step that would go below 0 stops at 0, and any other step
      that would go above `max_brightness` stops there. */
  function AdjustedBrightness(b: int, amount: int): (r: int)
    ensures 0 <= b <= MaxBrightness ==> 0 <= r <= MaxBrightness
    ensures 0 <= b + amount <= MaxBrightness ==> r == b + amount
    ensures amount < 0 && b + amount < 0 ==> r == 0
    ensures amount < 0 && b + amount >= 0 ==> r == b + amount
    ensures amount >= 0 && b + amount > MaxBrightness ==> r == MaxBrightness
    ensures amount >= 0 && b + amount <= MaxBrightness ==> r == b + amount
    ensures amount < 0 ==> (b >= 0 ==> r <= b) && (r == b + amount || r == 0)
    ensures amount >= 0 ==> (b <= MaxBrightness ==> r >= b) && (r == b + amount || r == MaxBrightness)
    ensures amount == BrightnessStep && b >= MaxBrightness - BrightnessStep ==> r == MaxBrightness
    ensures amount == -BrightnessStep && b <= BrightnessStep ==> r == 0
  {
    var next := b + amount;
    if amount < 0 then Max(0, next) else Min(MaxBrightness, next)
  }

  /** Brightness after a run of adjustments, applied in order. */
  function BrightnessAfter(b: int, amounts: seq<int>): int
    decreases |amounts|
  {
    if amounts == [] then b else BrightnessAfter(AdjustedBrightness(b, amounts[0]), amounts[1..])
  }

  /** No run of adjustments, of any sign or size, takes the brightness out
      of [0, max_brightness]. */
  lemma {:induction false} BrightnessAfterInRange(b: int, amounts: seq<int>)
    requires 0 <= b <= MaxBrightness
    ensures 0 <= BrightnessAfter(b, amounts) <= MaxBrightness
    decreases |amounts|
  {
    if amounts != [] {
      BrightnessAfterInRange(AdjustedBrightness(b, amounts[0]), amounts[1..]);
    }
  }

  // ---------------------------------------------------------------------
  // Image index
  // ---------------------------------------------------------------------

  /** `change_image_idx(amount)`: below 0 wraps to the last image, at or
      past the count wraps to the first. */
  function WrappedIndex(idx: int, amount: int, numFiles: int): (r: int)
    ensures numFiles > 0 ==> 0 <= r < numFiles
    ensures 0 <= idx + amount < numFiles ==> r == idx + amount
  {
    var next := idx + amount;
    if next < 0 then numFiles - 1 else if next >= numFiles then 0 else next
  }

  /** A single step left or right from an index in range is the step taken
      modulo the number of files: left from 0 is the last image, right from
      the last is the first. */
  lemma WrappedIndexStepIsModular(idx: int, amount: int, numFiles: int)
    requires 0 <= idx < numFiles && (amount == 1 || amount == -1)
    ensures WrappedIndex(idx, amount, numFiles) == (idx + amount) % numFiles
    ensures idx == 0 && amount == -1 ==> WrappedIndex(idx, amount, numFiles) == numFiles - 1
    ensures idx == numFiles - 1 && amount == 1 ==> WrappedIndex(idx, amount, numFiles) == 0
  {
    var next := idx + amount;
    if next < 0 {
      Arith.DivModUnique(next, numFiles, -1, numFiles - 1);
    } else if next >= numFiles {
      Arith.DivModUnique(next, numFiles, 1, 0);
    } else {
      Arith.DivModUnique(next, numFiles, 0, next);
    }
  }

  /** The index after a run of steps, applied in order. */
  function IndexAfter(idx: int, amounts: seq<int>, numFiles: int): int
    decreases |amounts|
  {
    if amounts == [] then idx else IndexAfter(WrappedIndex(idx, amounts[0], numFiles), amounts[1..], numFiles)
  }

  /** Any run of Left/Right presses leaves the index in [0, num_files)
      when it started there. */
  lemma {:induction false} IndexAfterInRange(idx: int, amounts: seq<int>, numFiles: int)
    requires 0 <= idx < numFiles
    ensures 0 <= IndexAfter(idx, amounts, numFiles) < numFiles
    decreases |amounts|
  {
    if amounts != [] {
      IndexAfterInRange(WrappedIndex(idx, amounts[0], numFiles), amounts[1..], numFiles);
    }
  }

  // ---------------------------------------------------------------------
  // Control state
  // ---------------------------------------------------------------------

  /** The sketch's globals and statics that the control path reads and
      writes. A stamp of 0 means "never" (or "cleared"). */
  datatype Controls = Controls(
    brightness: int,
    curImageIdx: int,
    numFiles: int,
    isFirstFrame: bool,
    lastAccepted: nat,
    lastDebugWrite: nat,
    allowDebugClear: bool)

  /** The values the globals hold when the sketch starts. */
  const InitialControls: Controls := Controls(InitialBrightness, 0, 0, true, 0, 0, true)

  /** What the sketch keeps true between ticks once setup has counted the
      files. */
  predicate ControlsOk(s: Controls)
  {
    0 <= s.brightness <= MaxBrightness && (s.numFiles > 0 ==> 0 <= s.curImageIdx < s.numFiles)
  }

  /** The clock has not run backwards past a stored stamp. */
  predicate StampsBefore(s: Controls, now: nat)
  {
    s.lastAccepted <= now && s.lastDebugWrite <= now
  }

  // ---------------------------------------------------------------------
  // Overlay timer
  // ---------------------------------------------------------------------

  /** The control-state part of `writeDebugScreen(text, now, allow_clear)`. */
  function DebugWritten(s: Controls, now: nat, allowClear: bool): (r: Controls)
    ensures r.lastDebugWrite == now && r.allowDebugClear == allowClear
    ensures r.(lastDebugWrite := s.lastDebugWrite, allowDebugClear := s.allowDebugClear) == s
  {
    s.(lastDebugWrite := now, allowDebugClear := allowClear)
  }

  /** The condition under which `maybeClearDebugScreen` clears the overlay. */
  predicate ShouldClearDebug(s: Controls, now: nat)
    requires s.lastDebugWrite <= now
    ensures ShouldClearDebug(s, now) ==> s.allowDebugClear && now > DebugClearMs
  {
    s.allowDebugClear && s.lastDebugWrite > 0 && now - s.lastDebugWrite > DebugClearMs
  }

  /** The control-state part of `maybeClearDebugScreen(now)`: a clear resets
      the write stamp to 0 and changes nothing else. */
  function DebugCleared(s: Controls, now: nat): (r: Controls)
    requires s.lastDebugWrite <= now
    ensures ShouldClearDebug(s, now) ==> r == s.(lastDebugWrite := 0)
    ensures !ShouldClearDebug(s, now) ==> r == s
  {
    if ShouldClearDebug(s, now) then s.(lastDebugWrite := 0) else s
  }

  /** Once cleared, the overlay is not cleared again, at this tick or any
      later one, until something is written. */
  lemma DebugClearedOnce(s: Controls, now: nat, later: nat)
    requires s.lastDebugWrite <= now <= later
    requires ShouldClearDebug(s, now)
    ensures !ShouldClearDebug(DebugCleared(s, now), later)
    ensures DebugCleared(DebugCleared(s, now), later) == DebugCleared(s, now)
  {
  }

  /** An overlay written at a non-zero time `w` with auto-clear on is
      cleared exactly at the ticks later than `w + 3000`. */
  lemma DebugExpiry(s: Controls, w: nat, now: nat)
    requires w > 0 && w <= now
    ensures ShouldClearDebug(DebugWritten(s, w, true), now) <==> now > w + DebugClearMs
    ensures !ShouldClearDebug(DebugWritten(s, w, false), now)
  {
  }

  /** An overlay written at time 0 is never cleared: 0 is the "cleared"
      mark. */
  lemma DebugWrittenAtZeroStays(s: Controls, now: nat)
    ensures !ShouldClearDebug(DebugWritten(s, 0, true), now)
  {
  }

  // ---------------------------------------------------------------------
  // Remote input
  // ---------------------------------------------------------------------

  /** How `HandleIRInputs` ended: nothing pending; an unknown code thrown
      away (the receiver resumes); a known code ignored during the
      cooldown (the receiver is NOT resumed); or a button accepted, with
      the overlay text it writes ("" writes none). */
  datatype InputOutcome = NoInput | Discarded | CooledDown | Accepted(button: Button, overlay: string)

  /** The outcomes after which the source calls `IrReceiver.resume()`. */
  predicate Resumes(o: InputOutcome)
  {
    o.Discarded? || o.Accepted?
  }

  /** The cooldown check: accepted when nothing was accepted yet (stamp 0)
      or at least 400 ms went by since the last acceptance. */
  predicate CooldownAllows(last: nat, now: nat)
    requires last <= now
    ensures CooldownAllows(last, now) <==> last == 0 || now >= last + CooldownMs
  {
    !(last > 0 && now - last < CooldownMs)
  }

  /** The buttons that step the brightness. */
  predicate StepsBrightness(b: Button)
  {
    b == VolUp || b == VolDown
  }

  /** The buttons that move to another item. */
  predicate MovesItem(b: Button)
  {
    b == Left || b == Right
  }

  /** The state change and overlay of each accepted button. */
  function Pressed(s: Controls, b: Button): (r: (Controls, string))
    ensures StepsBrightness(b) ==>
              var amount := if b == VolUp then BrightnessStep else -BrightnessStep;
              r.0 == s.(brightness := AdjustedBrightness(s.brightness, amount))
              && r.1 == "BRT: " + IntToDecimal(r.0.brightness)
    ensures MovesItem(b) ==>
              var amount := if b == Right then 1 else -1;
              r.0 == s.(curImageIdx := WrappedIndex(s.curImageIdx, amount, s.numFiles), isFirstFrame := true)
              && r.1 == ""
    ensures !StepsBrightness(b) && !MovesItem(b) ==> r == (s, Name(b))
  {
    match b
    case VolDown =>
      var s' := s.(brightness := AdjustedBrightness(s.brightness, -BrightnessStep));
      (s', "BRT: " + IntToDecimal(s'.brightness))
    case VolUp =>
      var s' := s.(brightness := AdjustedBrightness(s.brightness, BrightnessStep));
      (s', "BRT: " + IntToDecimal(s'.brightness))
    case Left => (s.(curImageIdx := WrappedIndex(s.curImageIdx, -1, s.numFiles), isFirstFrame := true), "")
    case Right => (s.(curImageIdx := WrappedIndex(s.curImageIdx, 1, s.numFiles), isFirstFrame := true), "")
    case _ => (s, Name(b))
  }

  /** The control-state part of `HandleIRInputs(now)`, given the code the
      receiver has pending, if any. */
  function HandledInput(s: Controls, pending: Option<IRRawDataType>, now: nat): (r: (Controls, InputOutcome))
    requires StampsBefore(s, now)
    ensures pending.None? ==> r == (s, NoInput)
    ensures pending.Some? && pending.value !in KnownCodes ==> r == (s, Discarded)
    ensures pending.Some? && pending.value in KnownCodes ==>
              (r.1.Accepted? <==> CooldownAllows(s.lastAccepted, now))
    ensures !r.1.Accepted? ==> r.0 == s
    ensures r.1.Accepted? ==>
              && pending.Some? && CodeOf(r.1.button) == pending.value
              && r.0.lastAccepted == now
              && var (p, text) := Pressed(s, r.1.button);
                 r.1.overlay == text
                 && r.0 == (if text != [] then DebugWritten(p, now, true) else p).(lastAccepted := now)
    ensures r.0.numFiles == s.numFiles && StampsBefore(r.0, now)
    ensures ControlsOk(s) ==> ControlsOk(r.0)
  {
    match pending
    case None => (s, NoInput)
    case Some(code) =>
      match ButtonOf(code)
      case None => (s, Discarded)
      case Some(b) =>
        if !CooldownAllows(s.lastAccepted, now) then (s, CooledDown)
        else
          var (p, text) := Pressed(s.(lastAccepted := now), b);
          (if text != [] then DebugWritten(p, now, true) else p, Accepted(b, text))
  }

  /** Only an accepted press moves the cooldown stamp; in particular an
      unknown code never starts a cooldown. */
  lemma OnlyAcceptanceStamps(s: Controls, pending: Option<IRRawDataType>, now: nat)
    requires StampsBefore(s, now)
    ensures HandledInput(s, pending, now).0.lastAccepted != s.lastAccepted ==> HandledInput(s, pending, now).1.Accepted?
    ensures pending.Some? && pending.value !in KnownCodes ==>
              HandledInput(s, pending, now).0.lastAccepted == s.lastAccepted
  {
  }

  /** Volume presses change only the brightness (and the stamps); Left and
      Right change only the index and write no overlay; every other button
      shows its name and changes nothing else. */
  lemma AcceptedButtonEffects(s: Controls, b: Button, now: nat)
    requires StampsBefore(s, now) && CooldownAllows(s.lastAccepted, now)
    ensures var (r, o) := HandledInput(s, Some(CodeOf(b)), now);
            && o == Accepted(b, Pressed(s, b).1)
            && (StepsBrightness(b) ==>
                  r.curImageIdx == s.curImageIdx && r.isFirstFrame == s.isFirstFrame
                  && o.overlay == "BRT: " + IntToDecimal(r.brightness) && r.lastDebugWrite == now)
            && (MovesItem(b) ==>
                  r.brightness == s.brightness && o.overlay == ""
                  && r.lastDebugWrite == s.lastDebugWrite && r.allowDebugClear == s.allowDebugClear)
            && (!StepsBrightness(b) && !MovesItem(b) ==>
                  r == s.(lastAccepted := now, lastDebugWrite := now, allowDebugClear := true)
                  && o.overlay == Name(b))
  {
    ButtonOfCodeOf(b);
    assert "BRT: " + IntToDecimal(AdjustedBrightness(s.brightness, BrightnessStep)) != [];
  }

  /** Two volume-up presses less than 400 ms apart: the second is ignored;
      one 400 ms or more after the first acceptance goes through. The
      first press is at 1000 ms, after setup's one-second start-up delay. */
  lemma CooldownScenario(s: Controls)
    requires s.brightness == InitialBrightness && s.lastAccepted == 0 && s.lastDebugWrite <= 1000
    ensures var (s1, o1) := HandledInput(s, Some(CodeOf(VolUp)), 1000);
            var (s2, o2) := HandledInput(s1, Some(CodeOf(VolUp)), 1100);
            var (s3, o3) := HandledInput(s2, Some(CodeOf(VolUp)), 1401);
            && o1.Accepted? && s1.brightness == 52
            && o2 == CooledDown && s2 == s1
            && o3.Accepted? && s3.brightness == 78
  {
    assert CodeOf(VolUp) in KnownCodes;
  }

  /** An unknown code followed 50 ms later by a known one: the known one is
      accepted, since the unknown code started no cooldown. */
  lemma UnknownThenKnownScenario(s: Controls, code: IRRawDataType)
    requires s.lastAccepted == 0 && s.lastDebugWrite <= 1000 && code !in KnownCodes
    ensures var (s1, o1) := HandledInput(s, Some(code), 1000);
            var (s2, o2) := HandledInput(s1, Some(CodeOf(VolUp)), 1050);
            o1 == Discarded && o2.Accepted?
  {
    assert CodeOf(VolUp) in KnownCodes;
  }

  /** A press accepted at time 0 stores 0, which reads as "never", so it
      starts no cooldown: a second press 100 ms later is accepted too. */
  lemma AcceptedAtZeroStartsNoCooldown(s: Controls)
    requires s.lastAccepted == 0 && s.lastDebugWrite == 0
    ensures var (s1, o1) := HandledInput(s, Some(CodeOf(VolUp)), 0);
            var (s2, o2) := HandledInput(s1, Some(CodeOf(VolUp)), 100);
            o1.Accepted? && s1.lastAccepted == 0 && o2.Accepted?
  {
    assert CodeOf(VolUp) in KnownCodes;
  }

  // ---------------------------------------------------------------------
  // Frame scheduling
  // ---------------------------------------------------------------------

  /** The statics of `drawImageWithSD`. */
  datatype FrameTimers = FrameTimers(lastFrameDisplayTime: nat, currentFrameDelay: nat, startOk: bool)

  const InitialTimers: FrameTimers := FrameTimers(0, 0, true)

  /** A frame is due once more than the current delay has gone by since the
      last one. */
  predicate FrameDue(last: nat, delay: nat, now: nat)
    requires last <= now
    ensures FrameDue(last, delay, now) <==> now > last + delay
  {
    now - last > delay
  }

  /** What one call of `drawImageWithSD` does to the driver's statics and
      the decoder, whether it restarted decoding (clearing the background
      first) and whether `decodeFrame` found a frame to draw. `file` and
      `stb` are what the open file and the image library give the decoder. */
  datatype SdTickResult = SdTickResult(timers: FrameTimers, decoder: DecoderState, restarted: bool, drewFrame: bool)

  /** `decodeFrame` draws when the decoder holds at least one frame. */
  predicate HasFrame(d: DecoderState)
  {
    d.hasFrames && d.frameCount > 0
  }

  /** The decode step shared by both branches of the due case. */
  function SdDecodeStep(now: nat, d: DecoderState): (r: SdTickResult)
    requires Inv(d)
    ensures Inv(r.decoder) && !r.restarted
    ensures r.decoder == Decoded(d).0 && r.drewFrame == HasFrame(d)
    ensures Decoded(d).1 < 0 ==> r.timers == FrameTimers(0, 0, false)
    ensures Decoded(d).1 >= 0 ==> r.timers == FrameTimers(now, Decoded(d).0.currentDelay, true)
  {
    var (d2, result) := Decoded(d);
    if result < 0 then SdTickResult(FrameTimers(0, 0, false), d2, false, HasFrame(d))
    else SdTickResult(FrameTimers(now, d2.currentDelay, true), d2, false, HasFrame(d))
  }

  /** The frame work of `drawImageWithSD` once the statics are settled:
      nothing unless a frame is due; then a (re)start of decoding when the
      item is new or the last start failed, and a decoded frame. */
  function SdFrameStep(t: FrameTimers, isFirstFrame: bool, now: nat, d: DecoderState,
                       file: FileSource, stb: StbResult): (r: SdTickResult)
    requires Inv(d) && t.lastFrameDisplayTime <= now
    ensures Inv(r.decoder) && r.timers.lastFrameDisplayTime <= now
  {
    if !FrameDue(t.lastFrameDisplayTime, t.currentFrameDelay, now) then SdTickResult(t, d, false, false)
    else if isFirstFrame || !t.startOk then
      var (d1, started) := StartedFromFile(d, file, stb);
      if started < 0 then SdTickResult(t.(lastFrameDisplayTime := 0, startOk := false), d1, true, false)
      else SdDecodeStep(now, d1).(restarted := true)
    else SdDecodeStep(now, d)
  }

  /** One call of `drawImageWithSD`: a newly selected item first resets the
      statics so that its first frame is due at once. */
  function SdTick(t: FrameTimers, isFirstFrame: bool, now: nat, d: DecoderState,
                  file: FileSource, stb: StbResult): (r: SdTickResult)
    requires Inv(d) && t.lastFrameDisplayTime <= now
    ensures Inv(r.decoder) && r.timers.lastFrameDisplayTime <= now
  {
    SdFrameStep(if isFirstFrame then InitialTimers else t, isFirstFrame, now, d, file, stb)
  }

  /** A tick that is not due leaves the decoder alone; a newly selected
      item (any tick after time 0) is due and restarts decoding. */
  lemma SdTickWhenDue(t: FrameTimers, isFirstFrame: bool, now: nat, d: DecoderState,
                      file: FileSource, stb: StbResult)
    requires Inv(d) && t.lastFrameDisplayTime <= now
    ensures !isFirstFrame && !FrameDue(t.lastFrameDisplayTime, t.currentFrameDelay, now) ==>
              SdTick(t, isFirstFrame, now, d, file, stb) == SdTickResult(t, d, false, false)
    ensures isFirstFrame && now > 0 ==> SdTick(t, isFirstFrame, now, d, file, stb).restarted
  {
  }

  /** For all inputs: a due tick that has to (re)start decoding and whose
      `startDecoding` fails zeroes the frame stamp and clears `start_ok`,
      keeps the delay, and draws nothing. */
  lemma SdFailedStartResets(t: FrameTimers, isFirstFrame: bool, now: nat, d: DecoderState,
                            file: FileSource, stb: StbResult)
    requires Inv(d) && t.lastFrameDisplayTime <= now
    requires var t1 := if isFirstFrame then InitialTimers else t;
             FrameDue(t1.lastFrameDisplayTime, t1.currentFrameDelay, now) && (isFirstFrame || !t1.startOk)
    requires StartedFromFile(d, file, stb).1 < 0
    ensures var r := SdTick(t, isFirstFrame, now, d, file, stb);
            var t1 := if isFirstFrame then InitialTimers else t;
            && r.restarted && !r.drewFrame
            && r.timers == t1.(lastFrameDisplayTime := 0, startOk := false)
            && r.decoder == StartedFromFile(d, file, stb).0
  {
  }

  /** A due tick fails when its (re)start of decoding fails or its
      `decodeFrame` reports an error or the end of the loop. */
  predicate SdTickFails(t: FrameTimers, isFirstFrame: bool, now: nat, d: DecoderState,
                        file: FileSource, stb: StbResult)
    requires Inv(d) && t.lastFrameDisplayTime <= now
  {
    var t1 := if isFirstFrame then InitialTimers else t;
    && FrameDue(t1.lastFrameDisplayTime, t1.currentFrameDelay, now)
    && if isFirstFrame || !t1.startOk then
         var (d1, started) := StartedFromFile(d, file, stb);
         started < 0 || Decoded(d1).1 < 0
       else Decoded(d).1 < 0
  }

  /** A due tick leaves `start_ok` cleared exactly when it failed, and a
      failure zeroes the frame stamp, so the next tick that is due (every
      tick after the remembered delay) starts decoding again rather than
      moving to another item. */
  lemma SdFailureRetries(t: FrameTimers, isFirstFrame: bool, now: nat, d: DecoderState,
                         file: FileSource, stb: StbResult, later: nat, file2: FileSource, stb2: StbResult)
    requires Inv(d) && t.lastFrameDisplayTime <= now
    ensures var r := SdTick(t, isFirstFrame, now, d, file, stb);
            var t1 := if isFirstFrame then InitialTimers else t;
            FrameDue(t1.lastFrameDisplayTime, t1.currentFrameDelay, now) ==>
              (SdTickFails(t, isFirstFrame, now, d, file, stb) <==> !r.timers.startOk)
    ensures var r := SdTick(t, isFirstFrame, now, d, file, stb);
            SdTickFails(t, isFirstFrame, now, d, file, stb) ==>
              && r.timers.lastFrameDisplayTime == 0
              && (later > r.timers.currentFrameDelay ==> SdTick(r.timers, false, later, r.decoder, file2, stb2).restarted)
  {
    var t1 := if isFirstFrame then InitialTimers else t;
    if FrameDue(t1.lastFrameDisplayTime, t1.currentFrameDelay, now) && (isFirstFrame || !t1.startOk) {
      var (d1, started) := StartedFromFile(d, file, stb);
      if started >= 0 {
        assert SdTick(t, isFirstFrame, now, d, file, stb).timers == SdDecodeStep(now, d1).timers;
      }
    }
  }

  /** A start that fails once and succeeds on the retry: the second tick
      calls the start again and plays the first frame of the animation. */
  lemma SdRetryScenario(d: DecoderState, file: FileSource, delays: seq<int>, now: nat, later: nat)
    requires Inv(d) && FileCallbacksSet(d) && file.size > 0 && file.bytesRead == file.size
    requires |delays| > 1 && 0 < now < later
    ensures var r1 := SdTick(InitialTimers, true, now, d, file, StbFailed);
            var r2 := SdTick(r1.timers, false, later, r1.decoder, file, StbLoaded(delays));
            && r1.restarted && !r1.timers.startOk
            && r2.restarted && r2.timers.startOk && r2.timers.lastFrameDisplayTime == later
            && r2.decoder.hasFrames && r2.decoder.currentFrame == 1
            && r2.timers.currentFrameDelay == EffectiveDelay(delays[0])
  {
    var r1 := SdTick(InitialTimers, true, now, d, file, StbFailed);
    assert r1.timers.currentFrameDelay == 0;
    var (d1, started) := StartedFromFile(r1.decoder, file, StbLoaded(delays));
    assert started == 0;
    Arith.DivModUnique(1, |delays|, 0, 1);
  }

  // ---------------------------------------------------------------------
  // The background layer
  // ---------------------------------------------------------------------

  /** The sketch's background layer: 64 by 64 pixels of three bytes. */
  const ScreenBytes: int := PanelWidth * PanelHeight * 3

  predicate ScreenFits(s: Screen)
  {
    |s.back| == ScreenBytes && |s.display| == ScreenBytes
  }

  /** Both buffers black, as `fillScreen(COLOR_BLACK)` and `swapBuffers()` leave them. */
  function BlankScreen(): (r: Screen)
    ensures ScreenFits(r)
  {
    Screen(seq(ScreenBytes, k => 0), seq(ScreenBytes, k => 0))
  }

  /** Both buffers showing a frame's `drawPixel` calls over black. */
  function FrameScreen(calls: seq<PixelCall>): (r: Screen)
    ensures ScreenFits(r) && r.display == r.back
  {
    var f := PaintedAll(seq(ScreenBytes, k => 0), PanelWidth, PanelHeight, calls);
    Screen(f, f)
  }

  /** What `decodeFrame` does to the sketch's background layer: nothing
      without a frame, and the frame when the sketch's three screen
      callbacks are installed. */
  function DecodedFrameScreen(d: DecoderState, s: Screen, calls: seq<PixelCall>): (r: Screen)
    requires ScreenFits(s)
    ensures ScreenFits(r)
    ensures !HasFrame(d) ==> r == s
    ensures HasFrame(d) && ScreenCallbacksSet(d) ==> r == FrameScreen(calls)
  {
    var r := DecodedScreen(d, s, PanelWidth, PanelHeight, calls);
    assert HasFrame(d) && ScreenCallbacksSet(d) ==> r == FrameScreen(calls) by {
      if HasFrame(d) && ScreenCallbacksSet(d) {
        DecodedScreenShowsFrame(d, s, PanelWidth, PanelHeight, calls);
      }
    }
    r
  }

  /** The background layer after the frame part of `drawImageWithSD`
      (`SdFrameStep`): untouched when nothing is due, black after a
      (re)start, and the frame when one is drawn with the sketch's
      callbacks installed. `calls` are the frame's `drawPixel` calls. */
  function SdFrameScreen(t: FrameTimers, isFirstFrame: bool, now: nat, d: DecoderState,
                         file: FileSource, stb: StbResult, s: Screen, calls: seq<PixelCall>): (r: Screen)
    requires Inv(d) && t.lastFrameDisplayTime <= now && ScreenFits(s)
    ensures ScreenFits(r)
    ensures var x := SdFrameStep(t, isFirstFrame, now, d, file, stb);
            && (!x.restarted && !x.drewFrame ==> r == s)
            && (x.restarted && !x.drewFrame ==> r == BlankScreen())
            && (x.drewFrame && ScreenCallbacksSet(d) ==> r == FrameScreen(calls))
  {
    if !FrameDue(t.lastFrameDisplayTime, t.currentFrameDelay, now) then s
    else if isFirstFrame || !t.startOk then
      var (d1, started) := StartedFromFile(d, file, stb);
      if started < 0 then BlankScreen() else DecodedFrameScreen(d1, BlankScreen(), calls)
    else DecodedFrameScreen(d, s, calls)
  }

  /** The background layer after one call of `drawImageWithSD` (`SdTick`). */
  function SdTickScreen(t: FrameTimers, isFirstFrame: bool, now: nat, d: DecoderState,
                        file: FileSource, stb: StbResult, s: Screen, calls: seq<PixelCall>): (r: Screen)
    requires Inv(d) && t.lastFrameDisplayTime <= now && ScreenFits(s)
    ensures ScreenFits(r)
    ensures var x := SdTick(t, isFirstFrame, now, d, file, stb);
            && (!x.restarted && !x.drewFrame ==> r == s)
            && (x.restarted && !x.drewFrame ==> r == BlankScreen())
            && (x.drewFrame && ScreenCallbacksSet(d) ==> r == FrameScreen(calls))
  {
    SdFrameScreen(if isFirstFrame then InitialTimers else t, isFirstFrame, now, d, file, stb, s, calls)
  }

  /** The statics of `displayGIFFromMemoryById`. */
  datatype MemTimers = MemTimers(lastFrameDisplayTime: nat, currentFrameDelay: nat)

  /** What one call of `displayGIFFromMemoryById` does; `badFrame` says
      whether it wrote "Bad frame" to the overlay. */
  datatype MemTickResult = MemTickResult(timers: MemTimers, decoder: DecoderState, badFrame: bool, drewFrame: bool)

  function MemTick(t: MemTimers, isFirstFrame: bool, now: nat, d: DecoderState,
                   bufferSize: int, stb: StbResult): (r: MemTickResult)
    requires Inv(d) && t.lastFrameDisplayTime <= now
    ensures Inv(r.decoder) && r.timers.lastFrameDisplayTime <= now
    ensures !FrameDue(t.lastFrameDisplayTime, t.currentFrameDelay, now) ==> r == MemTickResult(t, d, false, false)
    ensures FrameDue(t.lastFrameDisplayTime, t.currentFrameDelay, now) ==>
              var d1 := if isFirstFrame then StartedFromMemory(d, bufferSize, stb).0 else d;
              && r.decoder == Decoded(d1).0 && r.drewFrame == HasFrame(d1)
              && (Decoded(d1).1 < 0 <==> !HasFrame(d1) || r.decoder.currentFrame == 0)
              && (Decoded(d1).1 < 0 ==> r.timers == MemTimers(0, 0) && r.badFrame)
              && (Decoded(d1).1 >= 0 ==> r.timers == MemTimers(now, r.decoder.currentDelay))
              && (Decoded(d1).1 >= 0 ==> (r.badFrame <==> isFirstFrame && stb.StbFailed?))
  {
    if !FrameDue(t.lastFrameDisplayTime, t.currentFrameDelay, now) then MemTickResult(t, d, false, false)
    else
      var (d1, started) := if isFirstFrame then StartedFromMemory(d, bufferSize, stb) else (d, 0);
      var (d2, result) := Decoded(d1);
      if result < 0 then MemTickResult(MemTimers(0, 0), d2, true, HasFrame(d1))
      else MemTickResult(MemTimers(now, d2.currentDelay), d2, started < 0, HasFrame(d1))
  }

  /** The background layer after one call of `displayGIFFromMemoryById`
      (`MemTick`): untouched unless a frame is drawn, and the frame when
      one is drawn with the sketch's callbacks installed. */
  function MemScreen(t: MemTimers, isFirstFrame: bool, now: nat, d: DecoderState,
                     bufferSize: int, stb: StbResult, s: Screen, calls: seq<PixelCall>): (r: Screen)
    requires Inv(d) && t.lastFrameDisplayTime <= now && ScreenFits(s)
    ensures ScreenFits(r)
    ensures var x := MemTick(t, isFirstFrame, now, d, bufferSize, stb);
            && (!x.drewFrame ==> r == s)
            && (x.drewFrame && ScreenCallbacksSet(d) ==> r == FrameScreen(calls))
  {
    if !FrameDue(t.lastFrameDisplayTime, t.currentFrameDelay, now) then s
    else
      var d1 := if isFirstFrame then StartedFromMemory(d, bufferSize, stb).0 else d;
      DecodedFrameScreen(d1, s, calls)
  }

  /** The in-memory variant keeps going on a failed start: it still calls
      `decodeFrame`, which finds no frames, so the failure resets the
      timers and the next tick is due at once. */
  lemma MemFailedStartResets(t: MemTimers, now: nat, d: DecoderState, bufferSize: int)
    requires Inv(d) && t.lastFrameDisplayTime <= now
    requires FrameDue(t.lastFrameDisplayTime, t.currentFrameDelay, now)
    ensures MemTick(t, true, now, d, bufferSize, StbFailed).timers == MemTimers(0, 0)
    ensures MemTick(t, true, now, d, bufferSize, StbFailed).badFrame
  {
  }

  // ---------------------------------------------------------------------
  // One tick of loop()
  // ---------------------------------------------------------------------

  /** Everything one tick of `loop()` reads and writes, as values: the
      control state, the statics of both frame drivers and the decoder. */
  datatype TickState = TickState(controls: Controls, sd: FrameTimers, mem: MemTimers, decoder: DecoderState)

  /** A tick may run at `now`: the decoder is well formed and no stored
      stamp is later than `now`. */
  ghost predicate TickReady(st: TickState, now: nat)
  {
    && Inv(st.decoder) && StampsBefore(st.controls, now)
    && st.sd.lastFrameDisplayTime <= now && st.mem.lastFrameDisplayTime <= now
  }

  /** The built-in item that plays the GIF compiled into the sketch. */
  const MemoryGifItem: int := 3

  /** The drawing part of a tick: `drawImageWithSD` with the card (which
      writes the item's name or "Fail" for a new item), `drawImageNoSD`
      without it (only the built-in GIF changes any state). */
  function Drawn(st: TickState, useSd: bool, now: nat, memSize: int, memStb: StbResult,
                 file: FileSource, stb: StbResult): (r: TickState)
    requires TickReady(st, now)
    ensures TickReady(r, now)
    ensures r.controls.(lastDebugWrite := st.controls.lastDebugWrite, allowDebugClear := st.controls.allowDebugClear)
            == st.controls
    ensures useSd ==> r.mem == st.mem
    ensures !useSd ==> r.sd == st.sd
    ensures !useSd && st.controls.curImageIdx != MemoryGifItem ==> r == st
  {
    var s := st.controls;
    if useSd then
      var t := SdTick(st.sd, s.isFirstFrame, now, st.decoder, file, stb);
      TickState(if s.isFirstFrame then DebugWritten(s, now, true) else s, t.timers, st.mem, t.decoder)
    else if s.curImageIdx == MemoryGifItem then
      var m := MemTick(st.mem, s.isFirstFrame, now, st.decoder, memSize, memStb);
      TickState(if m.badFrame then DebugWritten(s, now, true) else s, st.sd, m.timers, m.decoder)
    else st
  }

  /** One tick of `loop()` at `now`, given the code the receiver has
      pending: clear an expired overlay, handle the input, draw, and mark
      the first frame of the item as shown. */
  function LoopTick(st: TickState, pending: Option<IRRawDataType>, now: nat, useSd: bool,
                    memSize: int, memStb: StbResult, file: FileSource, stb: StbResult): (r: (TickState, InputOutcome))
    requires TickReady(st, now)
    ensures TickReady(r.0, now) && !r.0.controls.isFirstFrame
    ensures r.0.controls.numFiles == st.controls.numFiles
    ensures ControlsOk(st.controls) ==> ControlsOk(r.0.controls)
    ensures r.1 == HandledInput(DebugCleared(st.controls, now), pending, now).1
  {
    var (s, out) := HandledInput(DebugCleared(st.controls, now), pending, now);
    var d := Drawn(st.(controls := s), useSd, now, memSize, memStb, file, stb);
    (d.(controls := d.controls.(isFirstFrame := false)), out)
  }

  /** A Right press accepted on the card moves to the next item, shows its
      name and starts it at once: after the tick either its first frame
      was decoded at `now` or the start failed and will be retried. */
  lemma RightPressStartsNextItem(st: TickState, now: nat, file: FileSource, stb: StbResult,
                                 memSize: int, memStb: StbResult)
    requires TickReady(st, now) && now > 0
    requires CooldownAllows(st.controls.lastAccepted, now)
    ensures var (r, out) := LoopTick(st, Some(CodeOf(Right)), now, true, memSize, memStb, file, stb);
            && out == Accepted(Right, "")
            && r.controls.curImageIdx == WrappedIndex(st.controls.curImageIdx, 1, st.controls.numFiles)
            && r.controls.lastAccepted == now && r.controls.lastDebugWrite == now
            && (r.sd.startOk ==> r.sd.lastFrameDisplayTime == now)
            && (!r.sd.startOk ==> r.sd.lastFrameDisplayTime == 0)
  {
    var s1 := DebugCleared(st.controls, now);
    AcceptedButtonEffects(s1, Right, now);
    var (s, out) := HandledInput(s1, Some(CodeOf(Right)), now);
    assert s.isFirstFrame;
    SdTickWhenDue(st.sd, true, now, st.decoder, file, stb);
  }

  /** Without the card, a tick with no input on a still image (a bitmap or
      the black screen) only lets the overlay expire. */
  lemma StillImageTickIsQuiet(st: TickState, now: nat, file: FileSource, stb: StbResult,
                              memSize: int, memStb: StbResult)
    requires TickReady(st, now) && st.controls.curImageIdx != MemoryGifItem
    ensures LoopTick(st, None, now, false, memSize, memStb, file, stb).0
            == st.(controls := DebugCleared(st.controls, now).(isFirstFrame := false))
  {
  }

  /** On the card, a tick with no input that comes before the current
      frame's delay has run out changes nothing but the overlay timer and
      the first-frame flag: the decoder is left alone. */
  lemma SdTickBeforeDelayIsQuiet(st: TickState, now: nat, file: FileSource, stb: StbResult,
                                 memSize: int, memStb: StbResult)
    requires TickReady(st, now) && !st.controls.isFirstFrame
    requires !FrameDue(st.sd.lastFrameDisplayTime, st.sd.currentFrameDelay, now)
    ensures LoopTick(st, None, now, true, memSize, memStb, file, stb).0
            == st.(controls := DebugCleared(st.controls, now))
  {
    SdTickWhenDue(st.sd, false, now, st.decoder, file, stb);
  }
}
