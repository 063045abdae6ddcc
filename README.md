# Bonnaroo LED sketch — a Dafny model

This project models the Bonnaroo LED-panel sketch as it runs under its desktop
simulator. The sketch drives a 64×64 RGB matrix with three layers:

- a background layer that shows a still bitmap or the frames of an animated GIF;
- an indexed overlay band across the top six rows;
- a scrolling text layer that shows status messages ("POWER: ON", "BRT: 52", a button name).

A remote control steers the sketch. Volume up and down change the brightness in
steps of 26, up to 180. Left and right move through the images and wrap around at
the ends. Any other known button shows its name. A 400 ms cooldown separates two
accepted presses. A status message written with auto-clear allowed disappears
once it has been on screen for more than 3000 ms.

With an SD card, the sketch plays every animation file in `/gifs/`. Without one,
it has four built-in items:

- item 0: a black screen;
- items 1 and 2: two 64×64 bitmaps;
- item 3: a GIF held in memory.

The model has one module per part of the program:

| module | file | what it models |
|---|---|---|
| `Arduino` | arduino.dfy | the `min`/`max`/`constrain`/`map` helpers and the `String` class of the simulator's Arduino layer |
| `IRremote` | irremote.dfy | the keyboard-fed IR receiver: a queue of raw codes, `decode` and `resume` |
| `Remote` | remote.dfy | the 21 button codes and `validatePressAndGetName` |
| `GifDecoderMock` | gifdecoder.dfy | the simulator's GIF decoder: callbacks, `startDecoding` from file or memory, `decodeFrame`, frame delays |
| `SmartMatrix` | smartmatrix.dfy | the background, indexed and scrolling layers and the matrix (brightness, rotation) |
| `FilenameFunctions` | filenames.dfy | filtering animation files, counting them, the n-th file name, opening it |
| `Playback` | playback.dfy | the sketch's control state as values: brightness, index, overlay timer, the input dispatcher with its cooldown, both frame schedulers, one whole `loop()` tick |
| `Bonnaroo` | bonnaroo.dfy | the sketch itself: a `Sketch` class whose fields are the sketch's globals and function-level statics, with `setup()`, `loop()` and every routine they call |
| `Simulator` | simulator.dfy | the simulator's `main`: the base-path derivation, the command-line loop with `atoi`, and the key-to-code table |

The sketch's methods change state in place, so they are imperative Dafny on a
class. Each is proved against a pure function: the control and playback
steps against module `Playback`, the bitmap and overlay loops against
`Bonnaroo.BitmapRowsPainted` and `Bonnaroo.Banner`, and the setup steps against
`FilenameFunctions.AnimationFiles`, `Bonnaroo.FileCount` and `Bonnaroo.SetupEnd`. The sketch's
control state is read back as the values `Controls()`, `SdTimers()`,
`MemoryTimers()` and `Tick()`. `Sketch.Loop` is proved equal to `Playback.LoopTick`,
and the properties of a whole tick are lemmas about `LoopTick`.

Time is `millis()` as a natural number, passed in as `now`. Every stamp the
sketch keeps is no later than `now`. Several things the sketch cannot see are
parameters of the model:

- what the SD card holds is a `Volume` (directory listings and existing paths);
- whether `initSDCard` succeeds is `sdOk`;
- what the decoder reads from a file is a `FileSource`;
- whether `stb_image` decodes the bytes is an `StbResult`;
- what the three-argument `openGifFilenameByIndex` call leaves in `name_buf` is `nameText`.

### Where the code and its documented design differ

The model follows the code in each of these cases.

- A press rejected by the cooldown returns before `IrReceiver.resume()` (Bonnaroo.cpp:329-332). Only accepted and unknown codes are followed by `resume`.
- Left and Right change the image but write no status message, because `debug_buf` stays empty (Bonnaroo.cpp:347-352, 360-362).
- The timestamp 0 doubles as "never":
  - a press accepted at `now == 0` starts no cooldown (`Playback.AcceptedAtZeroStartsNoCooldown`);
  - a message written at `now == 0` is never cleared automatically (`Playback.DebugWrittenAtZeroStays`).
- `change_image_idx` wraps only by one step: an index below 0 becomes `num_files - 1` and an index past the end becomes 0. A step of more than one is therefore not a modulo (`Playback.WrappedIndex`; `Playback.WrappedIndexStepIsModular` covers the steps of ±1 the sketch makes).
- `displayGIFFromMemoryById` ignores its `id` and always plays the first built-in GIF (Bonnaroo.cpp:385).
- In the in-memory player, a failed `startDecoding` writes "Bad frame" but still calls `decodeFrame`. That call fails too, so the timers reset to 0 (`Playback.MemFailedStartResets`).
- The mock `decodeFrame` returns -1 after the last frame of every pass (GifDecoder.h:252-257, `GifDecoderMock.LoopEndReportedAt`). The in-memory player reads that as an error (Bonnaroo.cpp:396-401): it writes "Bad frame" and resets its timers at the end of every pass (`Playback.MemTick`). The SD player likewise restarts decoding its file after every pass (`Playback.SdDecodeStep`).
- In the SD player, the first frame is not due when `now == 0` and the timers are 0, because the test is a strict `now - last > delay` (`Playback.SdTickWhenDue` states the case `now > 0`).
- The `while(1);` halts in `setup()` are modelled as the outcomes `NoSdCard`, `NoGifsDirectory` and `EmptyGifsDirectory` of `Bonnaroo.Sketch.Setup`.

## Model

| member | source | states |
|---|---|---|
| Arduino.Min | simulator/mocks/Arduino.h:57-60 | the result is one of the arguments and no greater than either |
| Arduino.Max | simulator/mocks/Arduino.h:62-65 | the result is one of the arguments and no smaller than either |
| Arduino.Constrain | simulator/mocks/Arduino.h:67-72 | inside [a, b] the value is kept; below a the result is a; above b (and not below a) it is b |
| Arduino.TruncDiv | simulator/mocks/Arduino.h:74-76 | `/` on `long` truncates toward zero; `TruncDivIsCDivision` proves the remainder it leaves is smaller than the divisor and has the dividend's sign |
| Arduino.TruncDivIsCDivision | simulator/mocks/Arduino.h:74-76 | the modelled `/` of `long` is C division: the quotient rounds toward zero and the remainder has the dividend's sign and is smaller than the divisor |
| Arduino.TruncDivExact | simulator/mocks/Arduino.h:74-76 | an exact multiple divides back to its factor under C division |
| Arduino.Map | simulator/mocks/Arduino.h:74-76 | `map` sends `in_min` to `out_min` and `in_max` to `out_max` |
| Arduino.Upper | simulator/mocks/Arduino.h:108-110 | same length; no lower-case letter remains; every other character is kept |
| Arduino.Lower | simulator/mocks/Arduino.h:112-114 | same length; no upper-case letter remains; every other character is kept |
| Arduino.UpperIdempotent | simulator/mocks/Arduino.h:108-110 | upper-casing twice equals upper-casing once |
| Arduino.EndsWith | simulator/mocks/Arduino.h:116-120 | true exactly when some tail of the string equals the suffix |
| Arduino.LastIndexFrom | simulator/mocks/Arduino.h:122-125 | the result is an occurrence at or below the start position, and no later position up to it holds one; -1 when none |
| Arduino.LastIndexOf | simulator/mocks/Arduino.h:122-125 | -1 exactly when the substring occurs nowhere; otherwise the last position where it occurs |
| Arduino.Removed | simulator/mocks/Arduino.h:127-131 | an index past the end keeps the text; otherwise the text before the index is kept and the length drops by `count`, or by the rest when fewer characters remain |
| Arduino.RemovedShape | simulator/mocks/Arduino.h:127-131 | an index past the end changes nothing; otherwise the part before the index is kept and `count` characters (or the rest) are dropped |
| Arduino.NatToDecimal | simulator/mocks/Arduino.h:98 | a non-empty string of decimal digits with no leading zero |
| Arduino.IntToDecimal | simulator/mocks/Arduino.h:98 | `String(int)`: a minus sign comes first exactly when the value is negative; the rest is digits with no leading zero whose decimal value is the magnitude |
| Arduino.DecimalRoundTrip | simulator/mocks/Arduino.h:98 | reading back the digits of `String(n)` gives n |
| Arduino.ArduinoString.ToUpperCase | simulator/mocks/Arduino.h:108-110 | the loop leaves the upper-cased old text |
| Arduino.ArduinoString.ToLowerCase | simulator/mocks/Arduino.h:112-114 | the loop leaves the lower-cased old text |
| Arduino.ArduinoString.Remove | simulator/mocks/Arduino.h:127-131 | the text becomes the old text with the characters removed |
| IRremote.IRrecv.constructor | simulator/mocks/IRremote.hpp:30-32 | an empty queue and a zero raw-data field |
| IRremote.IRrecv.InjectCode | simulator/mocks/IRremote.hpp:41-44 | the code is appended to the queue; every code injected is either delivered or still queued, in order |
| IRremote.IRrecv.Decode | simulator/mocks/IRremote.hpp:47-56 | true exactly when the queue was non-empty; then the raw data is the oldest code and it leaves the queue; otherwise nothing changes |
| IRremote.IRrecv.Resume | simulator/mocks/IRremote.hpp:58-60 | the queue and the raw data are unchanged |
| Remote.ButtonOf | simulator/build/Bonnaroo.cpp:150-170 | a code names a button exactly when it is one of the 21 known codes, and then it is that button's code |
| Remote.CodeOf | simulator/build/Bonnaroo.cpp:150-170 | every button code carries the remote's address 0xBF00 in its low 16 bits |
| Remote.ButtonOfCodeOf | simulator/build/Bonnaroo.cpp:150-170 | the 21 codes are distinct: every button's code maps back to that button |
| Remote.Name | simulator/build/Bonnaroo.cpp:209-279 | every button has a non-empty name, so the message write after the switch always happens for a named button |
| Remote.ValidatePressAndGetName | simulator/build/Bonnaroo.cpp:209-279 | true exactly for the known codes; then the buffer gains that button's name; otherwise it gains "Unknown Button!" |
| GifDecoderMock.EffectiveDelay | simulator/mocks/GifDecoder.h:247-250 | a frame delay of 10 ms or more is kept and a shorter one becomes the 100 ms default, so the delay used is never below 10 ms |
| GifDecoderMock.Cleaned | simulator/mocks/GifDecoder.h:94-107 | the frames, the delays and the file data are released and nothing else changes |
| GifDecoderMock.CleanedIdempotent | simulator/mocks/GifDecoder.h:94-107 | cleaning twice is cleaning once, and cleaning keeps the decoder's invariant |
| GifDecoderMock.StartedFromFile | simulator/mocks/GifDecoder.h:120-165 | -1 exactly when a file callback is missing, the size is not positive, the read is short or stb fails; on success the frames and their delays are loaded from frame 0; on failure nothing is held |
| GifDecoderMock.StartedFromMemory | simulator/mocks/GifDecoder.h:168-191 | -1 exactly when stb fails; on success the frames are loaded from frame 0; the decoder is marked as reading from memory |
| GifDecoderMock.Decoded | simulator/mocks/GifDecoder.h:194-264 | without frames the call returns -1 and changes nothing; otherwise it advances one frame cyclically and reports the loop's end on the last frame |
| GifDecoderMock.DecodedStep | simulator/mocks/GifDecoder.h:246-264 | one more frame from position a modulo the count is position a + 1 modulo the count, with the frames kept |
| GifDecoderMock.DecodedTimesCounts | simulator/mocks/GifDecoder.h:246-264 | after k frames the position is the start plus k, modulo the frame count |
| GifDecoderMock.LoopEndReportedAt | simulator/mocks/GifDecoder.h:252-264 | the end of the loop is reported on exactly the last frame of a pass |
| GifDecoderMock.FullLoopReturnsToStart | simulator/mocks/GifDecoder.h:246-264 | a whole pass returns the decoder to frame 0 |
| GifDecoderMock.DecodedScreen | simulator/mocks/GifDecoder.h:194-244 | without frames the screen is untouched; otherwise the back buffer is cleared when the clear callback is set and painted when the draw callback is set, and with the update callback the shown panel bytes become the back buffer's while the rest of the display is kept; without it the display is kept |
| GifDecoderMock.DecodedScreenShowsFrame | simulator/mocks/GifDecoder.h:194-244 | with all three screen callbacks set and a whole-panel buffer, a frame leaves both buffers equal to the frame's pixel calls painted over black |
| GifDecoderMock.GifDecoder.constructor | simulator/mocks/GifDecoder.h:67-88 | the initial state: no callbacks, no frames, a 100 ms delay |
| GifDecoderMock.GifDecoder.SetScreenCallbacks | simulator/mocks/GifDecoder.h:110-112 | the three screen callbacks are recorded and nothing else changes |
| GifDecoderMock.GifDecoder.SetFileCallbacks | simulator/mocks/GifDecoder.h:113-117 | the file callbacks are recorded and nothing else changes |
| GifDecoderMock.GifDecoder.Cleanup | simulator/mocks/GifDecoder.h:94-107 | the state becomes `Cleaned` of the old state |
| GifDecoderMock.GifDecoder.StartDecodingFromFile | simulator/mocks/GifDecoder.h:120-165 | state and result are `StartedFromFile` of the old state |
| GifDecoderMock.GifDecoder.StartDecodingFromMemory | simulator/mocks/GifDecoder.h:168-191 | state and result are `StartedFromMemory` of the old state |
| GifDecoderMock.GifDecoder.DecodeFrame | simulator/mocks/GifDecoder.h:194-264 | state and result are `Decoded` of the old state, and the two screen buffers become `DecodedScreen` of the old ones |
| GifDecoderMock.GifDecoder.RunScreenCallbacks | simulator/mocks/GifDecoder.h:199-244 | clear, draw and update run each when its callback is set, leaving the buffers at `DecodedScreen` |
| GifDecoderMock.GifDecoder.DrawFrame | simulator/mocks/GifDecoder.h:219-238 | the drawing loop leaves the back buffer with the frame's pixel calls painted in order |
| GifDecoderMock.GifDecoder.AdvanceFrame | simulator/mocks/GifDecoder.h:246-264 | the delay is taken and the frame advances as `Decoded` says |
| GifDecoderMock.GifDecoder.GetFrameDelayMs | simulator/mocks/GifDecoder.h:266-268 | the delay reported is the decoder's current delay, which is never below 10 ms |
| SmartMatrix.ToInt16 | simulator/mocks/SmartMatrix.h:79 | the conversion to `int16_t` lands in [-32768, 32767], differs from the input by a multiple of 65536 (two's-complement wrap-around), and keeps every value already in range |
| SmartMatrix.ToUint8 | simulator/mocks/SmartMatrix.h:233-236 | the conversion to `uint8_t` keeps values in [0, 255] and otherwise differs from the value by a multiple of 256 |
| SmartMatrix.PixelInside | simulator/mocks/SmartMatrix.h:79-86 | a pixel inside the panel addresses three bytes inside the buffer |
| SmartMatrix.PaintedRgb | simulator/mocks/SmartMatrix.h:79-86 | same length; a pixel outside the panel leaves the buffer unchanged |
| SmartMatrix.PaintedRgbInside | simulator/mocks/SmartMatrix.h:79-86 | a pixel inside the panel sets exactly its three bytes to the colour and keeps every other byte |
| SmartMatrix.FilledRgb | simulator/mocks/SmartMatrix.h:88-94 | same length as the buffer |
| SmartMatrix.FilledRgbShape | simulator/mocks/SmartMatrix.h:88-94 | every pixel of the filled area holds the colour's three channels in order |
| SmartMatrix.FilledBlackIsZero | simulator/mocks/SmartMatrix.h:88-94 | filling the whole buffer with black zeroes every byte |
| SmartMatrix.PixelOffsetsDiffer | simulator/mocks/SmartMatrix.h:79-86 | two distinct pixels inside the panel have distinct byte offsets |
| SmartMatrix.PaintedAll | simulator/mocks/SmartMatrix.h:79-86 | painting a run of pixel calls keeps the buffer length |
| SmartMatrix.LastColorAt | simulator/mocks/SmartMatrix.h:79-86 | none exactly when no call targets the pixel; otherwise the colour of a call on that pixel that no later call overrides |
| SmartMatrix.PaintedAllPixel | simulator/mocks/SmartMatrix.h:79-86 | after a run of pixel calls, each panel pixel holds the colour of the last call that targeted it, or its old bytes when none did |
| SmartMatrix.Copied | simulator/mocks/SmartMatrix.h:96-98 | `memcpy`: the first n bytes come from the source and the rest of the destination is kept |
| SmartMatrix.PaintedIndex | simulator/mocks/SmartMatrix.h:186-190 | inside the panel exactly one entry changes to the index; outside nothing changes |
| SmartMatrix.Filled | simulator/mocks/SmartMatrix.h:192-194 | `memset`: the first n entries hold the value and the rest is kept |
| SmartMatrix.CString | simulator/mocks/SmartMatrix.h:133-135 | the text up to, and without, its first NUL |
| SmartMatrix.ScrollText | simulator/mocks/SmartMatrix.h:133-135 | `strncpy` into a 256-byte buffer: a text longer than 255 characters keeps exactly its first 255, and a shorter one is kept whole |
| SmartMatrix.BackgroundLayer.constructor | simulator/mocks/SmartMatrix.h:73-77 | a 64×64 layer with buffers of 3 bytes per pixel |
| SmartMatrix.BackgroundLayer.DrawPixel | simulator/mocks/SmartMatrix.h:79-86 | the back buffer becomes `PaintedRgb` of the old one |
| SmartMatrix.BackgroundLayer.FillScreen | simulator/mocks/SmartMatrix.h:88-94 | the loop leaves the back buffer filled with the colour |
| SmartMatrix.BackgroundLayer.SwapBuffers | simulator/mocks/SmartMatrix.h:96-98 | the display buffer becomes a copy of the back buffer |
| SmartMatrix.IndexedLayer.constructor | simulator/mocks/SmartMatrix.h:165-175 | a 64×64 layer with buffers of one byte per pixel |
| SmartMatrix.IndexedLayer.SetIndexedColor | simulator/mocks/SmartMatrix.h:182-184 | exactly that palette entry changes |
| SmartMatrix.IndexedLayer.DrawPixel | simulator/mocks/SmartMatrix.h:186-190 | the back buffer becomes `PaintedIndex` of the old one |
| SmartMatrix.IndexedLayer.FillScreen | simulator/mocks/SmartMatrix.h:192-194 | the back buffer becomes `Filled` with the index |
| SmartMatrix.IndexedLayer.SwapBuffers | simulator/mocks/SmartMatrix.h:196-198 | the shown buffer becomes a copy of the back buffer |
| SmartMatrix.ScrollingLayer.constructor | simulator/mocks/SmartMatrix.h:116-119 | white, wrap-forward, inactive, count -1 |
| SmartMatrix.ScrollingLayer.SetColor | simulator/mocks/SmartMatrix.h:121-123 | only the colour changes |
| SmartMatrix.ScrollingLayer.SetMode | simulator/mocks/SmartMatrix.h:125-127 | only the mode changes |
| SmartMatrix.ScrollingLayer.Start | simulator/mocks/SmartMatrix.h:133-144 | the text is `ScrollText` of the argument; the layer is active exactly when the text is non-empty; the count and start time are recorded |
| SmartMatrix.ScrollingLayer.Stop | simulator/mocks/SmartMatrix.h:146-149 | inactive with empty text; nothing else changes |
| SmartMatrix.Matrix.constructor | simulator/mocks/SmartMatrix.h:210-211 | brightness 255 and rotation 0 in the member fields; the globals `g_brightness` and `g_rotation` start at the same values (SmartMatrix.h:268-269) |
| SmartMatrix.Matrix.SetBrightness | simulator/mocks/SmartMatrix.h:233-236 | both brightness fields (member and `g_brightness`) take the value truncated to `uint8_t`; both rotation fields are kept |
| SmartMatrix.Matrix.SetRotation | simulator/mocks/SmartMatrix.h:238-241 | the rotation member and the global `g_rotation` both take the angle; the brightness fields are kept |
| FilenameFunctions.AnimationFileCaseInsensitive | FilenameFunctions.cpp:51-70 | whether a name is an animation file does not depend on letter case |
| FilenameFunctions.IsAnimationFile | FilenameFunctions.cpp:51-70 | an animation file name has at least the four characters of ".gif" and does not start with '_', '~' or '.' |
| FilenameFunctions.AnimationFileExamples | FilenameFunctions.cpp:51-70 | ".gif" names in any case qualify; names starting with '_', '~' or '.' do not; neither do other extensions, nor names too short for the extension |
| FilenameFunctions.AnimationFiles | FilenameFunctions.cpp:73-105 | there are no more animation files than entries in the listing |
| FilenameFunctions.AnimationFilesSound | FilenameFunctions.cpp:73-105 | every file counted is an animation file and comes from the listing |
| FilenameFunctions.AnimationFilesComplete | FilenameFunctions.cpp:73-105 | every animation file of the listing is counted |
| FilenameFunctions.AnimationFilesPrefix | FilenameFunctions.cpp:73-105 | what a prefix of the listing counts is a prefix of the full count |
| FilenameFunctions.AnimationFilesStep | FilenameFunctions.cpp:83-101 | one more entry adds itself exactly when it is an animation file |
| FilenameFunctions.PathFor | FilenameFunctions.cpp:127-138 | the directory, a single `/` and the name; `PathForShape` states the shape and `PathForTrailingSlash` the case of a directory already ending in `/` |
| FilenameFunctions.PathForShape | FilenameFunctions.cpp:127-138 | the path starts with the directory and ends with the name, with a '/' just before the name and at most one character added between them |
| FilenameFunctions.PathForTrailingSlash | FilenameFunctions.cpp:127-138 | a directory ending in '/' is joined to the name directly |
| FilenameFunctions.ScanFinds | FilenameFunctions.cpp:108-146 | when the scan stops, it has passed some animation file exactly when the listing has one, and the last one it passed is the index-th, or the last one when the index is past the end |
| FilenameFunctions.FilenameByIndex | FilenameFunctions.cpp:108-146 | an index out of range or a missing directory leaves the buffer as it was |
| FilenameFunctions.FilenameByIndexAfterEnumeration | FilenameFunctions.cpp:108-146 | after a count, an index below it names the directory plus the index-th animation file |
| FilenameFunctions.Catalog.constructor | FilenameFunctions.cpp:14 | no files counted and no file open |
| FilenameFunctions.Catalog.EnumerateGIFFiles | FilenameFunctions.cpp:73-105 | -1 for a missing directory; otherwise the number of animation files, which is also recorded |
| FilenameFunctions.Catalog.GetGIFFilenameByIndex | FilenameFunctions.cpp:108-146 | the path is `FilenameByIndex` of the volume, the count and the index |
| FilenameFunctions.Catalog.OpenGifFilenameByIndex | FilenameFunctions.cpp:148-167 | true exactly when the chosen path exists; then that file is open, otherwise none |
| Playback.AdjustedBrightness | simulator/build/Bonnaroo.cpp:281-289 | the step is added when the sum stays in [0, 180]; a negative step that would go below 0 gives 0, any other step that would pass 180 gives 180; a value in [0, 180] stays there |
| Playback.BrightnessAfterInRange | simulator/build/Bonnaroo.cpp:281-289 | no run of presses takes the brightness out of [0, 180] |
| Playback.WrappedIndex | simulator/build/Bonnaroo.cpp:294-302 | with files present the index is always valid, and a step that stays in range is taken exactly |
| Playback.WrappedIndexStepIsModular | simulator/build/Bonnaroo.cpp:294-302 | a step of ±1 from a valid index is addition modulo the file count: left from 0 gives the last item and right from the last gives 0 |
| Playback.IndexAfterInRange | simulator/build/Bonnaroo.cpp:294-302 | no run of steps takes a valid index out of range |
| Playback.DebugWritten | simulator/build/Bonnaroo.cpp:194-207 | only the write stamp (set to now) and the auto-clear flag change |
| Playback.DebugCleared | simulator/build/Bonnaroo.cpp:174-190 | when the message is due to clear, its stamp goes to 0; otherwise nothing changes |
| Playback.ShouldClearDebug | simulator/build/Bonnaroo.cpp:174-190 | a clear is due only with auto-clear allowed and more than 3000 ms after time 0 |
| Playback.DebugClearedOnce | simulator/build/Bonnaroo.cpp:174-190 | once cleared, a message is not cleared again at any later time |
| Playback.DebugExpiry | simulator/build/Bonnaroo.cpp:174-207 | a message written at w with auto-clear is due exactly after w + 3000 ms; one written without auto-clear never is |
| Playback.DebugWrittenAtZeroStays | simulator/build/Bonnaroo.cpp:181 | a message stamped 0 is never cleared automatically |
| Playback.Pressed | simulator/build/Bonnaroo.cpp:336-358 | volume buttons change only the brightness and show "BRT: " and the new value; Left and Right change only the index (and restart playback) and show nothing; any other button shows its name |
| Playback.HandledInput | simulator/build/Bonnaroo.cpp:310-364 | no input and unknown codes change nothing; a known code is accepted exactly when the cooldown allows; only an acceptance stamps the time; the file count and the index bound are kept |
| Playback.OnlyAcceptanceStamps | simulator/build/Bonnaroo.cpp:322-333 | the cooldown stamp moves only on an acceptance, and an unknown code is discarded |
| Playback.CooldownAllows | simulator/build/Bonnaroo.cpp:329-332 | a press passes exactly when no press was accepted yet (stamp 0) or 400 ms or more went by since the last one |
| Playback.AcceptedButtonEffects | simulator/build/Bonnaroo.cpp:329-361 | a known press the cooldown allows is accepted and has exactly the effect of `Pressed` with the stamp set to now |
| Playback.CooldownScenario | simulator/build/Bonnaroo.cpp:329-332 | starting at the initial brightness, a volume-up press is accepted (52), a second one 100 ms later is rejected and changes nothing, and a third 401 ms after the first is accepted (78) |
| Playback.UnknownThenKnownScenario | simulator/build/Bonnaroo.cpp:323-333 | an unknown code does not start a cooldown, so a known press right after it is accepted |
| Playback.AcceptedAtZeroStartsNoCooldown | simulator/build/Bonnaroo.cpp:329-333 | a press accepted at time 0 leaves the stamp at 0, so a press 100 ms later is also accepted |
| Playback.SdDecodeStep | simulator/build/Bonnaroo.cpp:463-474 | a frame is decoded; a failure clears both timers and asks for a restart, and a success records now and the frame's delay |
| Playback.FrameDue | simulator/build/Bonnaroo.cpp:453 | a frame is due exactly when more than the delay has gone by since the last one |
| Playback.SdFrameStep | simulator/build/Bonnaroo.cpp:453-475 | the decoder keeps its invariant and the frame stamp is never later than now |
| Playback.SdTick | simulator/build/Bonnaroo.cpp:428-476 | the same for the whole SD tick, including the first-frame reset |
| Playback.SdTickWhenDue | simulator/build/Bonnaroo.cpp:435-462 | before the delay has passed (and not on a first frame) nothing changes; a first frame after time 0 always restarts decoding |
| Playback.SdFailureRetries | simulator/build/Bonnaroo.cpp:453-474 | on a due tick the start flag goes down exactly when the start or the frame failed; then the frame stamp is 0, and the next tick past the remembered delay restarts decoding |
| Playback.SdFailedStartResets | simulator/build/Bonnaroo.cpp:453-461 | a failed start on a due tick asks for a restart, draws nothing, clears the frame stamp and the start flag, and leaves the decoder as the failed start left it |
| Playback.SdRetryScenario | simulator/build/Bonnaroo.cpp:435-475 | a failed first start is retried on the next tick and then plays |
| Playback.DecodedFrameScreen | simulator/mocks/GifDecoder.h:194-244 | without a frame the background is kept; with a frame and all screen callbacks set it shows exactly that frame's pixel calls over black |
| Playback.SdFrameScreen | simulator/build/Bonnaroo.cpp:452-475 | a tick that neither restarts nor draws keeps the background; a restart without a frame leaves it black; a drawn frame is what the screen shows |
| Playback.SdTickScreen | simulator/build/Bonnaroo.cpp:428-476 | the same for the whole SD tick |
| Playback.MemTick | simulator/build/Bonnaroo.cpp:377-403 | not due: nothing changes. Due: the decoder (restarted from memory on a first frame) decodes one frame; decoding fails exactly when there is no frame or the pass wraps to frame 0, and then both timers are reset and "Bad frame" is written; otherwise the timers record now and the frame's delay, and "Bad frame" is written exactly when a first-frame start failed. The decoder keeps its invariant and the stamp is never later than now |
| Playback.MemFailedStartResets | simulator/build/Bonnaroo.cpp:384-401 | a failed in-memory start still decodes, fails, shows "Bad frame" and resets both timers |
| Playback.MemScreen | simulator/build/Bonnaroo.cpp:377-403 | a tick of the in-memory player that draws no frame keeps the background; one that draws shows exactly that frame |
| Playback.Drawn | simulator/build/Bonnaroo.cpp:405-476 | the draw step touches only the overlay stamp and flag among the controls; the SD path keeps the memory timers and the built-in path keeps the SD timers; a built-in still image changes nothing |
| Playback.LoopTick | simulator/build/Bonnaroo.cpp:570-583 | after a tick the first-frame flag is down, the file count and the index bound are kept, stamps are not after now, and the input outcome is that of the dispatcher after the overlay check |
| Playback.RightPressStartsNextItem | simulator/build/Bonnaroo.cpp:350-475 | with an SD card, an accepted Right moves to the next item, opens it in the same tick and shows its name; a successful start stamps the frame at now, a failed one leaves 0 |
| Playback.StillImageTickIsQuiet | simulator/build/Bonnaroo.cpp:405-418 | without an SD card, on a still item and with no input, a tick changes only the overlay timer and the first-frame flag |
| Playback.SdTickBeforeDelayIsQuiet | simulator/build/Bonnaroo.cpp:570-583 | with an SD card and no input, a tick before the frame delay has passed changes only the overlay timer |
| Bonnaroo.BannerPrefixStep | simulator/build/Bonnaroo.cpp:198-202 | painting one more band pixel extends the band by that pixel |
| Bonnaroo.BannerCoversTopRows | simulator/build/Bonnaroo.cpp:196-202 | after a message, the overlay holds index 1 on exactly the top six rows and 0 elsewhere |
| Bonnaroo.BitmapRowsAtOrigin | simulator/build/Bonnaroo.cpp:366-375 | drawing the first rows of a 64×64 bitmap at the origin copies their bytes into the background |
| Bonnaroo.BitmapPanelBytes | simulator/build/Bonnaroo.cpp:366-375 | after a whole 64×64 bitmap is drawn at the origin, every background byte is the bitmap's byte at the same offset |
| Bonnaroo.BitmapAtOriginFillsPanel | simulator/build/Bonnaroo.cpp:366-375 | drawing a whole 64×64 bitmap at the origin makes the background equal to its pixel data |
| Bonnaroo.FileCount | simulator/build/Bonnaroo.cpp:132-137 | 4 without the card; with it, negative exactly when the directory is missing; never below -1 |
| Bonnaroo.SetupEnd | simulator/build/Bonnaroo.cpp:532-561 | setup runs on exactly when the card is not used or starts, and the count is positive |
| Bonnaroo.SetupMessage | simulator/build/Bonnaroo.cpp:532-561 | when setup runs on with the card, the message is "Found " followed by the count in decimal |
| Bonnaroo.SetupOutcomes | simulator/build/Bonnaroo.cpp:532-561 | without an SD card setup always runs; with one it halts on a missing card, a missing directory or an empty directory, and otherwise runs with at least one file |
| Bonnaroo.Sketch.constructor | simulator/build/Bonnaroo.cpp:291-293 | the file count, the index and the first-frame flag start at 0, 0 and true, and the other globals and function statics at their declared initial values |
| Bonnaroo.Sketch.MaybeClearDebugScreen | simulator/build/Bonnaroo.cpp:174-190 | the controls become `DebugCleared`; when due, the overlay and the scrolling text are cleared; otherwise nothing changes |
| Bonnaroo.Sketch.DrawOverlayBand | simulator/build/Bonnaroo.cpp:196-202 | the two loops leave the overlay's back buffer equal to the six-row band |
| Bonnaroo.Sketch.WriteDebugScreen | simulator/build/Bonnaroo.cpp:194-207 | the controls become `DebugWritten`; the band and the text are shown |
| Bonnaroo.Sketch.AdjustBrightness | simulator/build/Bonnaroo.cpp:281-289 | the brightness becomes `AdjustedBrightness` and the matrix shows it |
| Bonnaroo.Sketch.ClearBackground | simulator/build/Bonnaroo.cpp:303-306 | the background shows black |
| Bonnaroo.Sketch.ChangeImageIdx | simulator/build/Bonnaroo.cpp:294-308 | the index becomes `WrappedIndex`, playback restarts, and the background is black |
| Bonnaroo.Sketch.PressBrightness | simulator/build/Bonnaroo.cpp:337-346 | the brightness becomes `AdjustedBrightness`, the matrix shows it, and "BRT: " with the new value is shown |
| Bonnaroo.Sketch.DispatchButton | simulator/build/Bonnaroo.cpp:336-361 | the controls and the message are those of `Pressed` |
| Bonnaroo.Sketch.AcceptButton | simulator/build/Bonnaroo.cpp:333-363 | `Pressed` applies, the cooldown stamp is now, and the receiver resumes once |
| Bonnaroo.Sketch.HandleReceived | simulator/build/Bonnaroo.cpp:322-363 | the controls follow `HandledInput`, and the receiver resumes exactly when the outcome calls for it |
| Bonnaroo.Sketch.HandleIRInputs | simulator/build/Bonnaroo.cpp:310-364 | the controls follow `HandledInput` of the oldest queued code; that code leaves the queue |
| Bonnaroo.Sketch.DrawBitmapRow | simulator/build/Bonnaroo.cpp:368-373 | the inner loop paints one bitmap row |
| Bonnaroo.Sketch.DrawBitmap64 | simulator/build/Bonnaroo.cpp:366-375 | the outer loop paints every row of the bitmap |
| Bonnaroo.Sketch.DrawBitmapAtOrigin | simulator/build/Bonnaroo.cpp:411-417 | at the origin the background becomes the bitmap's pixel data |
| Bonnaroo.Sketch.ShowBitmap | simulator/build/Bonnaroo.cpp:411-418 | the bitmap is drawn and then shown |
| Bonnaroo.Sketch.DisplayGIFFromMemoryById | simulator/build/Bonnaroo.cpp:377-403 | timers, decoder and "Bad frame" messages follow `MemTick`, and the background follows `MemScreen` |
| Bonnaroo.Sketch.MemDecodeStep | simulator/build/Bonnaroo.cpp:390-401 | a frame is decoded onto the background as `DecodedFrameScreen` says, and the timers are recorded, or reset on failure with "Bad frame" |
| Bonnaroo.Sketch.DrawImageNoSD | simulator/build/Bonnaroo.cpp:405-426 | items 1 and 2 show their bitmaps; item 3 plays the in-memory GIF onto the background; any other item shows black |
| Bonnaroo.Sketch.OpenSelectedItem | simulator/build/Bonnaroo.cpp:435-450 | the selected file is opened; its name or "Fail" is shown; the timers reset |
| Bonnaroo.Sketch.RestartDecoding | simulator/build/Bonnaroo.cpp:454-457 | the background goes black and decoding restarts from the file |
| Bonnaroo.Sketch.DecodeAndRecord | simulator/build/Bonnaroo.cpp:463-474 | follows `SdDecodeStep`, and the background becomes `DecodedFrameScreen` of the old one |
| Bonnaroo.Sketch.SdFrameTick | simulator/build/Bonnaroo.cpp:452-475 | follows `SdFrameStep`, and the background follows `SdFrameScreen` |
| Bonnaroo.Sketch.DrawImageWithSD | simulator/build/Bonnaroo.cpp:428-476 | follows `SdTick`, after opening the selected file on a first frame, and the background follows `SdTickScreen` |
| Bonnaroo.Sketch.WrapEnumerateGIFFiles | simulator/build/Bonnaroo.cpp:132-137 | with an SD card, the count of animation files, stored in the catalog, or -1 with the stored count set to 0 when the directory is missing; without one, 4 and the catalog unchanged |
| Bonnaroo.Sketch.ConfigureDevices | simulator/build/Bonnaroo.cpp:481-506 | the panel is rotated 270 degrees, the decoder gets all its screen and file callbacks, and the brightness is applied |
| Bonnaroo.Sketch.PrepareDisplay | simulator/build/Bonnaroo.cpp:481-526 | the above, plus a black background, white wrap-forward text and "POWER: ON" |
| Bonnaroo.Sketch.ReportCount | simulator/build/Bonnaroo.cpp:541-561 | the overlay shows the message setup ends with: no directory, empty directory, or "Found n" |
| Bonnaroo.Sketch.CountFiles | simulator/build/Bonnaroo.cpp:540-561 | the outcome and the message follow the file count, which is recorded |
| Bonnaroo.Sketch.CardSetup | simulator/build/Bonnaroo.cpp:529-561 | a card that fails to start ends setup with "No SD card" and no count; otherwise the outcome and the message follow the file count |
| Bonnaroo.Sketch.Setup | simulator/build/Bonnaroo.cpp:480-567 | the outcome is `SetupEnd` of the card state and the file count, and the overlay shows `SetupMessage` |
| Bonnaroo.Sketch.DrawImage | simulator/build/Bonnaroo.cpp:575-579 | the tick state becomes `Drawn` of the old one. With the card, the background follows `SdTickScreen`, and a first frame opens the selected file and shows its name or "Fail". Without it, items 1 and 2 show their bitmaps, item 3 follows `MemScreen` and shows "Bad frame" when `MemTick` reports one, and any other item is black. The overlay and the catalog change only in those cases |
| Bonnaroo.Sketch.ClearAndHandleInput | simulator/build/Bonnaroo.cpp:572-574 | the controls follow `HandledInput` applied after `DebugCleared`, and the oldest queued code leaves the queue. An accepted press with a message shows it; otherwise an expired overlay is cleared and a live one kept. Left or Right blanks the background and a volume press sets the matrix brightness; otherwise both are kept |
| Bonnaroo.Sketch.LowerFirstFrameFlag | simulator/build/Bonnaroo.cpp:582 | the first-frame flag goes down and the rest of the tick state is kept |
| Bonnaroo.Sketch.Loop | simulator/build/Bonnaroo.cpp:570-583 | the tick state becomes `LoopTick` of the old one and the oldest queued code; the receiver resumes exactly when the outcome calls for it |
| Simulator.SpaceRun | simulator/main.cpp:301 | the length of the leading whitespace run of the `--scale` value |
| Simulator.DigitRun | simulator/main.cpp:301 | the length of the leading digit run |
| Simulator.Atoi | simulator/main.cpp:301 | only text whose number starts with '-' reads as negative |
| Simulator.AtoiRoundTrip | simulator/main.cpp:301 | `atoi` of a number's decimal form gives the number back |
| Simulator.AtoiOfNonNumeric | simulator/main.cpp:301 | `atoi` of text that does not start with a number is 0 |
| Simulator.ClampedScale | simulator/main.cpp:302-303 | the scale is clamped to [1, 20] and kept when already inside |
| Simulator.ParseFrom | simulator/main.cpp:295-309 | a run keeps the scale in [1, 20] when it started there, and its gap is the starting one or 0 |
| Simulator.ParseArgs | simulator/main.cpp:295-309 | the loop's result equals the recursive reading of the arguments from position 1 |
| Simulator.ParsedSettingsInRange | simulator/main.cpp:295-309 | a run's scale is in [1, 20] and its gap is the default or 0 |
| Simulator.ParsedBasePathOrigin | simulator/main.cpp:295-309 | a run's base path is the derived one or the word after some "--base-path" |
| Simulator.UsageIgnoresLaterArguments | simulator/main.cpp:297-300 | once help is requested, later arguments do not matter |
| Simulator.TrailingValueFlagIgnored | simulator/main.cpp:300-307 | "--scale" or "--base-path" given last, without a value, changes nothing |
| Simulator.CommandLineExamples | simulator/main.cpp:295-309 | a non-numeric scale becomes 1, 50 becomes 20, flags combine, and "-h" anywhere shows usage |
| Simulator.BeforeLastSlash | simulator/main.cpp:274-276 | none exactly when there is no '/'; otherwise the text before the last '/' |
| Simulator.BeforeLastSlashOf | simulator/main.cpp:274-276 | the part before a final "/name" with no '/' in the name |
| Simulator.BasePathFor | simulator/main.cpp:270-292 | the base path is never empty |
| Simulator.DeriveBasePath | simulator/main.cpp:270-292 | the reassignments compute `BasePathFor` of the program path |
| Simulator.BasePathStripsThreeParts | simulator/main.cpp:270-287 | "project/sim/build/exe" gives "project" |
| Simulator.BasePathFallback | simulator/main.cpp:289-292 | a program path with fewer than three '/' falls back to "../.." |
| Simulator.ParseCommandLine | simulator/main.cpp:270-309 | the settings come from the defaults and the derived base path; a run's scale is in [1, 20] |
| Simulator.KeyCodesMatchButtons | simulator/main.cpp:350-445 | each mapped key injects its button's code; Q injects 0xFFFFFFFF, which no button has; unmapped keys inject nothing |
| Simulator.DigitKeyCode | simulator/main.cpp:395-434 | each digit key, on either keyboard row, injects the code of its digit button |
| Simulator.KeyCode | simulator/main.cpp:350-445 | a key yields the code 0 exactly when it is unmapped |
| Simulator.HandleKeyDown | simulator/main.cpp:350-445 | a mapped key appends its code to the receiver's queue; the simulator keeps running unless the key is Q |

## Left out

- Rendering, SDL windows, the event loop's threads and the receiver's mutex: the model is single-threaded and the pixels stop at the layer buffers.
- Which pixels a frame draws is a parameter (`calls`, the frame's `drawPixel` calls in order). The nearest-neighbour scaling in `decodeFrame` uses floating point and the alpha test reads stb's pixel data, so neither is modelled. The decoder's screen callbacks (Bonnaroo.cpp:120-130) and their effect on the background are modelled.
- Bonnaroo.Sketch.Loop: its contract states the tick state and the receiver only. The layers after a tick are stated one level down: the overlay, brightness and background after the input step by `Bonnaroo.Sketch.ClearAndHandleInput`, and the background and overlay after the draw step by `Bonnaroo.Sketch.DrawImage`. Composing the two into one contract for the whole tick is not done.
- `millis()` is a natural number that does not wrap; the 32-bit unsigned differences `now - last` in the source are compared without wrap-around.
- `Serial` output and `printf` logging are left out, because they change no state.
- The scrolling font and `setFont` are left out, because the font only affects pixels.
- `initSDCard` is the parameter `sdOk`. The SD card's contents are a `Volume`: a map from directory to listing plus a set of existing paths.
- The ESP32 `#if` branches and the hardware macros are left out, because the simulator build does not compile them.
- Buffer sizes of `name_buf[63]`, `button_name[16]`, `debug_buf[300]` and the `strcat` calls are left out. Messages are strings of any length; overflow is not modelled.
- Bonnaroo.Sketch.OpenSelectedItem: the sketch calls `openGifFilenameByIndex` with three arguments, but the two-argument version in FilenameFunctions.cpp:148-167 does not fill `name_buf`. The shown name is therefore the parameter `nameText`, and it is not tied to the path opened.
- Bonnaroo.Sketch.Setup: the `while(1);` halts are the returned outcomes rather than a non-terminating loop. The `delay(1000)` and `IrReceiver.begin` change no modelled state.
- Bonnaroo.Sketch.DisplayGIFFromMemoryById: the `id` argument is accepted and ignored, as in the source.
- Bonnaroo.BitmapAtOriginFillsPanel: the bitmap lemmas cover drawing at the origin, the only position the sketch uses. Other positions are modelled by `BitmapRowsPainted`, but no lemma describes them.
- Arduino.Map: the product `(x - in_min) * (out_max - out_min)` is computed on unbounded integers. A product too large for a C `long` is not modelled; in C that overflow is undefined. The sketch itself never calls `map`.
- Simulator.AtoiRoundTrip: `atoi` is modelled without `int` overflow. A value too large for 32 bits is read as its exact value, whereas C leaves that case undefined.
- `chooseRandomGIFFilename` and `random` are left out, because the sketch never calls them.
- `micros`, `delayMicroseconds`, `randomSeed` and the matrix's refresh-rate calls are left out, because the sketch uses none of them in a way that changes modelled state.
