# autorogue: a Dafny model of the frame pipeline, the beep and the activity logic

autorogue is an Android app that watches the back camera and runs a TensorFlow
Lite classifier over the frames to detect leaf roll. When the classifier is
confident, it plays a beep. This project models the parts of the app that are
logic rather than platform plumbing, and proves what they do.

- **YUV_420_888 to NV21 repack** (`YuvConversion`, from `YuvToRgbConverter.kt`).
  - Luma rows are copied from `row * yRowStride`.
  - Chroma samples are interleaved V before U, both read at
    `row * uvRowStride` with plane 1's stride.
  - Output goes through a cursor into a zeroed array of
    `ySize + uvSize * 2` bytes.
  - The method works on a Dafny `array` and is proved against the function
    `Nv21`, which gives the whole output array.
  - The lemmas then give every byte of `Nv21`:
    - `LumaSample`, `ChromaSampleV` and `ChromaSampleU` for the copied bytes;
    - `TrailingBytesZero` for the zero tail;
    - `Readable`, `ReadableIffAllRows` and `ReadableWhenLastRowsFit` for when
      the ByteBuffer calls succeed;
    - `StridesIgnored` for what the repack does not look at.
  - The RenderScript conversion after the repack is an opaque function of the
    NV21 bytes, written into a `Bitmap` object.
- **Frame analyzer** (`CameraAnalysis`, from `CameraPreview.kt` and `MainViewModel.kt`).
  - A class with the fields `lastFrameTime` and `rgbBuffer` and an `Analyze`
    method covering:
    - the interval-based drop rule;
    - reallocation of the bitmap only on a change of dimensions;
    - conversion, preprocessing and inference, with failures as `None`;
    - the label (> 0.5) and the beep decision (> 0.75 and enabled);
    - publication to the view model;
    - one `close` per frame.
  - `AcceptedTimes` and its lemma describe the pacing over any sequence of
    frame timestamps.
- **Beep player** (`BeepAudio`, from `BeepPlayer.kt`).
  - The sample count is 13230 and the fade-out length is 2646.
  - The fade-out envelope, the truncation and the `Short` conversion of each
    sample are modelled.
  - The loop that fills the sample array is a method.
  - The player holds one nullable `AudioTrack`; a ghost history of every track
    it created shows that at most one of them is ever unreleased.
- **Activity** (`Activity`, from `MainActivity.kt`).
  - The GPU-probe / NNAPI fallback decision and the `Interpreter.Options` it
    configures.
  - `interpreterReady`, and the gating of the camera pipeline on the
    permission and readiness flags.
  - The `beepStreamId` bookkeeping around `SoundPool` in `onStop`.
  - The older analyzer of `MainActivity.kt`, which beeps through `SoundPool`
    with no enable flag.

Inputs that come from the platform are parameters of the model:
- the clock;
- the sine values;
- the outcome of each foreign call;
- the stream id `SoundPool` answers;
- the model file.

Three behaviours of the code differ from what a reader of the app might
expect. The model keeps the code's behaviour:
- **The first frame.** The pacer does not accept it unconditionally.
  `lastFrameTime` starts at 0, so the first frame is processed only when the
  clock reads at least `frameInterval` (`CameraAnalysis.Accepts`).
- **Chroma strides.** The chroma planes are not read with their own strides.
  Plane 1's row stride is used for both, and the pixel stride is taken to be 1
  (`YuvConversion.StridesIgnored`).
- **Allocation.** The repack allocates a new NV21 array on every frame. Only
  the bitmap is reused.

## Model

| member | source | states |
|---|---|---|
| YuvConversion.Yuv420888ToNv21 | app/src/main/java/com/example/autorogue_v0/YuvToRgbConverter.kt:31-62 | returns an array exactly when every buffer `position`/`get` succeeds (`Readable`), and then its contents are `Nv21(image)`: luma rows, V/U pairs, zero tail |
| YuvConversion.CopyLumaPlane | app/src/main/java/com/example/autorogue_v0/YuvToRgbConverter.kt:45-51 | the luma loop succeeds iff every luma row can be read; the cursor ends at `height * width`, the bytes before it are the luma rows without their stride padding, and the bytes after it are untouched |
| YuvConversion.InterleaveChromaPlanes | app/src/main/java/com/example/autorogue_v0/YuvToRgbConverter.kt:52-60 | the chroma loop succeeds iff every chroma row can be read in both planes; the cursor advances by `2 * (height/2) * (width/2)`, the new bytes are the interleaved chroma rows, and the bytes after the cursor are untouched |
| YuvConversion.RepackChromaRow | app/src/main/java/com/example/autorogue_v0/YuvToRgbConverter.kt:53-59 | one chroma row: both buffers are positioned at `row * uvRowStride` with plane 1's stride, and the row is written V first; fails iff that row cannot be read |
| YuvConversion.InterleaveChromaRow | app/src/main/java/com/example/autorogue_v0/YuvToRgbConverter.kt:56-59 | the inner loop appends `width/2` pairs (V byte, then U byte) read by consecutive relative `get()`s, advancing the cursor by 2 per column |
| YuvConversion.BulkGet | app/src/main/java/com/example/autorogue_v0/YuvToRgbConverter.kt:48-49 | `get(nv21, pos, width)` copies `width` consecutive buffer bytes to the cursor and leaves the rest of the array unchanged |
| YuvConversion.Nv21SizeIsSourceSize | app/src/main/java/com/example/autorogue_v0/YuvToRgbConverter.kt:34-36 | the allocated length is `width*height + (width*height/4)*2`, with integer division |
| YuvConversion.CursorEndFits | app/src/main/java/com/example/autorogue_v0/YuvToRgbConverter.kt:36 | the cursor's final value `w*h + 2*(h/2)*(w/2)` never exceeds the array length, and equals it when width and height are even |
| YuvConversion.QuarterRoundsDown | app/src/main/java/com/example/autorogue_v0/YuvToRgbConverter.kt:35 | `(h/2)*(w/2)` is at most `w*h/4`, with equality for even sides |
| YuvConversion.LumaSample | app/src/main/java/com/example/autorogue_v0/YuvToRgbConverter.kt:47-51 | for `row < h`, `col < w`: output byte `row*w + col` is Y byte `row*yRowStride + col`; padding bytes are never copied |
| YuvConversion.ChromaSampleV | app/src/main/java/com/example/autorogue_v0/YuvToRgbConverter.kt:53-57 | for `row < h/2`, `col < w/2`: output byte `w*h + 2*(row*(w/2)+col)` is V byte `row*uvRowStride + col`, with plane 1's stride |
| YuvConversion.ChromaSampleU | app/src/main/java/com/example/autorogue_v0/YuvToRgbConverter.kt:54-58 | the byte right after it is U byte `row*uvRowStride + col`: V always precedes U |
| YuvConversion.TrailingBytesZero | app/src/main/java/com/example/autorogue_v0/YuvToRgbConverter.kt:36 | every byte from the cursor's final position to the end of the array keeps its initial 0 |
| YuvConversion.ReadableIffAllRows | app/src/main/java/com/example/autorogue_v0/YuvToRgbConverter.kt:47-60 | the repack succeeds iff every luma row and every chroma row (in both chroma planes) lies within its buffer |
| YuvConversion.ReadableWhenLastRowsFit | app/src/main/java/com/example/autorogue_v0/YuvToRgbConverter.kt:48-49 | the buffer-length condition: Y needs `(h-1)*yRowStride + w` bytes and each chroma plane `(h/2-1)*uvRowStride + w/2` bytes (nothing when there are no rows) |
| YuvConversion.StridesIgnored | app/src/main/java/com/example/autorogue_v0/YuvToRgbConverter.kt:42-43 | plane 2's row stride and all pixel strides do not affect the result: chroma is read as if packed with plane 1's stride |
| YuvConversion.LumaRowsAt | app/src/main/java/com/example/autorogue_v0/YuvToRgbConverter.kt:47-51 | byte `row*w + col` of the copied luma rows comes from `row*yRowStride + col` of the Y buffer |
| YuvConversion.ChromaRowsAt | app/src/main/java/com/example/autorogue_v0/YuvToRgbConverter.kt:53-59 | bytes `2*(row*(w/2)+col)` and the next one of the chroma rows are V then U at `row*uvRowStride + col` |
| YuvConversion.InterleaveAt | app/src/main/java/com/example/autorogue_v0/YuvToRgbConverter.kt:56-59 | position `2k` of an interleaved run is the first plane's byte `start+k`, position `2k+1` the second plane's |
| YuvConversion.ChromaRowsExtend | app/src/main/java/com/example/autorogue_v0/YuvToRgbConverter.kt:53-59 | each pass of the chroma loop appends exactly its row's pairs |
| YuvConversion.Nv21Assembled | app/src/main/java/com/example/autorogue_v0/YuvToRgbConverter.kt:36-61 | a full-length array holding the luma rows then the chroma rows, and zeros after them, is the repack's result |
| YuvConversion.OffsetIsProduct | app/src/main/java/com/example/autorogue_v0/YuvToRgbConverter.kt:48 | a row start reached by adding the stride `row` times is `row * stride` |
| YuvConversion.YuvToRgbConverter.YuvToRgb | app/src/main/java/com/example/autorogue_v0/YuvToRgbConverter.kt:19-28 | fails, leaving the bitmap untouched, iff the repack throws; otherwise the bitmap's pixels are the intrinsic applied to the NV21 bytes |
| YuvConversion.Bitmap.constructor | app/src/main/java/com/example/autorogue_v0/CameraPreview.kt:77-81 | `createBitmap(w, h)` gives a bitmap with those dimensions and all pixels 0 |
| BeepAudio.FadeOutCount | app/src/main/java/com/example/autorogue_v0/BeepPlayer.kt:19 | `(0.2 * n).toInt()` is `n / 5` rounded down |
| BeepAudio.BeepSizes | app/src/main/java/com/example/autorogue_v0/BeepPlayer.kt:16-19 | `numSamples == 300*44100/1000 == 13230` and `fadeOutSamples == 2646` |
| BeepAudio.Amplitude | app/src/main/java/com/example/autorogue_v0/BeepPlayer.kt:24-28 | the gain lies in (0, 1] for every sample index, and is exactly 1 before the fade-out |
| BeepAudio.FadeStartsAtFullGain | app/src/main/java/com/example/autorogue_v0/BeepPlayer.kt:24-26 | the first fade-out sample has gain 1 |
| BeepAudio.FadeStrictlyDecreasing | app/src/main/java/com/example/autorogue_v0/BeepPlayer.kt:24-26 | within the fade-out the gain `(n - i)/fade` strictly decreases, ending at `1/fade` |
| BeepAudio.TruncateToInt | app/src/main/java/com/example/autorogue_v0/BeepPlayer.kt:30 | `toInt()` rounds toward zero: the result is the integer part, with the sign of the value |
| BeepAudio.ToShort | app/src/main/java/com/example/autorogue_v0/BeepPlayer.kt:30 | `toShort()` keeps the value modulo 65536, and keeps it unchanged when it already fits |
| BeepAudio.SampleNeverWraps | app/src/main/java/com/example/autorogue_v0/BeepPlayer.kt:30 | for a sine value in [-1, 1], `Short.MAX_VALUE * amplitude * sine` fits in a Short, so the sample is its truncation, within ±32767 |
| BeepAudio.SamplesAt | app/src/main/java/com/example/autorogue_v0/BeepPlayer.kt:22-31 | samples before the fade-out are the full-scale sine; fade-out samples are scaled by `(n - i)/fade` |
| BeepAudio.Samples | app/src/main/java/com/example/autorogue_v0/BeepPlayer.kt:20 | the sample buffer has `numSamples` entries |
| BeepAudio.FillSamples | app/src/main/java/com/example/autorogue_v0/BeepPlayer.kt:20-31 | the loop writes every index `0 .. numSamples-1` of a new array with its sample |
| BeepAudio.BeepTrackConfig | app/src/main/java/com/example/autorogue_v0/BeepPlayer.kt:33-40 | the track is 44100 Hz, mono, 16-bit PCM, with a buffer of `13230 * 2` bytes |
| BeepAudio.BeepPlayer.StopBeep | app/src/main/java/com/example/autorogue_v0/BeepPlayer.kt:45-49 | leaves `audioTrack` null and the previous track released; with no track it changes nothing, so a second call is harmless |
| BeepAudio.BeepPlayer.PlayBeep | app/src/main/java/com/example/autorogue_v0/BeepPlayer.kt:13-43 | releases the previous track first; afterwards `audioTrack` is a new, playing track configured as above, holding exactly the 13230 samples, and the player's invariant (every other track released) holds |
| BeepAudio.BeepPlayer.AtMostOneLive | app/src/main/java/com/example/autorogue_v0/BeepPlayer.kt:10-15 | under the player's invariant the unreleased tracks are exactly the held one: at most one track is ever live |
| BeepAudio.BeepPlayer.constructor | app/src/main/java/com/example/autorogue_v0/BeepPlayer.kt:10 | a new player holds no track |
| CameraAnalysis.Accepts | app/src/main/java/com/example/autorogue_v0/CameraPreview.kt:62-70 | with `lastFrameTime` at its initial 0, the first frame is processed iff `currentTime >= frameInterval` |
| CameraAnalysis.AcceptedTimesSpaced | app/src/main/java/com/example/autorogue_v0/CameraPreview.kt:66-70 | for any sequence of frame times, processed frames are at least `frameInterval` apart (the first one from `lastFrameTime`), and each is one of the frames that arrived |
| CameraAnalysis.Label | app/src/main/java/com/example/autorogue_v0/CameraPreview.kt:96 | "Leaf roll detected" iff confidence > 0.5, "No leaf roll detected" iff not |
| CameraAnalysis.ShouldBeep | app/src/main/java/com/example/autorogue_v0/CameraPreview.kt:97 | a beep needs the enable flag, and a beep always comes with the positive label |
| CameraAnalysis.ViewModel.constructor | app/src/main/java/com/example/autorogue_v0/MainViewModel.kt:10-12 | the sink starts as "Waiting for input...", 0 and beep disabled |
| CameraAnalysis.ImageProxy.Close | app/src/main/java/com/example/autorogue_v0/CameraPreview.kt:67 | closing a frame is counted once per call |
| CameraAnalysis.FrameAnalyzer.constructor | app/src/main/java/com/example/autorogue_v0/CameraPreview.kt:61-62 | the analyzer starts with no bitmap and `lastFrameTime == 0` |
| CameraAnalysis.FrameAnalyzer.EnsureBuffer | app/src/main/java/com/example/autorogue_v0/CameraPreview.kt:73-82 | afterwards the bitmap has the frame's dimensions; it is the same object unless it was missing or sized differently, in which case it is new and all zero |
| CameraAnalysis.FrameAnalyzer.Process | app/src/main/java/com/example/autorogue_v0/CameraPreview.kt:85-106 | the bitmap holds the converted frame when the repack succeeds and is untouched when it fails; publishes iff conversion, preprocessing and inference all succeed; then the sink holds exactly (label, confidence) and a fresh track is playing, with the previous one released, iff the confidence is above 0.75 and beeps are enabled; otherwise the sink, the player and its held track are untouched |
| CameraAnalysis.FrameAnalyzer.Analyze | app/src/main/java/com/example/autorogue_v0/CameraPreview.kt:64-111 | the frame is closed exactly once; it is dropped iff `currentTime - lastFrameTime < frameInterval`, and then the sink, the player and the bitmap, with its pixels, are untouched; otherwise `lastFrameTime` becomes `currentTime`, the bitmap rule above applies, the bitmap holds the converted frame when the repack succeeds (its old pixels, or zeros if new, when it fails) and the outcome, sink and beep are Process's |
| Activity.IsGpuDelegateAvailable | app/src/main/java/com/example/autorogue_v0/MainActivity.kt:102-113 | true iff the probe delegate is created and closed; false iff that throws an Exception or NoClassDefFoundError; any other Error escapes |
| Activity.ChosenBackend | app/src/main/java/com/example/autorogue_v0/MainActivity.kt:210-220 | the GPU backend iff the probe succeeds and the second delegate is created; NNAPI in every other case |
| Activity.ConfigureBackend | app/src/main/java/com/example/autorogue_v0/MainActivity.kt:209-220 | either adds exactly the GPU delegate or turns NNAPI on, following ChosenBackend, and never lets an error escape |
| Activity.MainActivity.constructor | app/src/main/java/com/example/autorogue_v0/MainActivity.kt:72-94 | the activity starts with `beepStreamId == 0`, no permission, not ready and no interpreter |
| Activity.MainActivity.InitializeInterpreter | app/src/main/java/com/example/autorogue_v0/MainActivity.kt:205-227 | becomes ready with an interpreter on the chosen backend iff the model loads and `Interpreter(model, options)` returns; otherwise readiness and the interpreter stay as they were |
| Activity.MainActivity.PreviewHasInterpreter | app/src/main/java/com/example/autorogue_v0/MainActivity.kt:145 | whenever the camera pipeline is composed, the lateinit interpreter has been assigned |
| Activity.MainActivity.UpdateBeepStreamId | app/src/main/java/com/example/autorogue_v0/MainActivity.kt:97-99 | records the stream id and changes nothing else |
| Activity.MainActivity.CheckCameraPermission | app/src/main/java/com/example/autorogue_v0/MainActivity.kt:255-265 | a granted permission is recorded; otherwise the flag is left for the request's answer |
| Activity.MainActivity.OnPermissionResult | app/src/main/java/com/example/autorogue_v0/MainActivity.kt:267-270 | the permission flag becomes the answer |
| Activity.MainActivity.OnStop | app/src/main/java/com/example/autorogue_v0/MainActivity.kt:286-295 | a non-zero stream id is stopped; afterwards `beepStreamId == 0` always, and the pool is auto-paused |
| Activity.MainActivity.OnStart | app/src/main/java/com/example/autorogue_v0/MainActivity.kt:297-300 | the pool is resumed |
| Activity.LegacyAnalyzer.constructor | app/src/main/java/com/example/autorogue_v0/MainActivity.kt:81 | the older analyzer paces frames at 300 ms and starts with no bitmap and `lastFrameTime == 0` |
| Activity.LegacyAnalyzer.Process | app/src/main/java/com/example/autorogue_v0/MainActivity.kt:360-386 | as for the newer analyzer (bitmap, publication, sink), except that it plays through SoundPool iff confidence > 0.75, with no enable flag, and records the returned stream id in the activity; the activity's readiness, interpreter and permission flags, the pool's stop list and auto-pause flag, and the beep switch never change |
| Activity.LegacyAnalyzer.Analyze | app/src/main/java/com/example/autorogue_v0/MainActivity.kt:339-387 | the same drop, bitmap (pixels included) and close rules as the newer analyzer, with its SoundPool beep; a dropped frame leaves the activity, the pool, the sink and the bitmap untouched; no frame changes the activity's readiness, interpreter or permission flags or the pool's stop list and auto-pause flag |

## Left out

- RenderScript `yuvToRgb` transform (`YuvToRgbConverter.kt:21-27`): a foreign call whose transform is not visible. It is the opaque `intrinsic` function.
- TFLite preprocessing and `Interpreter.run`: library code working on floats. They are the opaque `preprocess` and `infer` functions, returning `None` when they throw. This covers the crop/pad and resize to 224×298 and `NormalizeOp(0, 255)` at `MainActivity.kt:126-130`.
- Sine values (`Math.sin` at `BeepPlayer.kt:30`): floating-point numerics. They are the player's `tone` parameter. The products around them are exact reals.
- Playback by AudioTrack and SoundPool: platform audio. Only the calls made and the track states are modelled.
- Coroutines, executors, `withContext(Dispatchers.Main)`, dispatcher cancellation and executor shutdown in `onDestroy` (`MainActivity.kt:279-284`): concurrency. Each launched block is run to its end inside the call that launches it. So the model cannot show a later frame replacing `rgbBuffer` while an earlier frame's coroutine still uses it. The `soundPool.release()` of `onDestroy` is left out with them.
- CameraX binding, PreviewView, Compose UI, `Toast`, the permission request dialog and the memory mapping of the model file: I/O and UI. The permission answer and the model bytes are parameters.
- `initializeSoundPool` (`MainActivity.kt:229-242`): platform set-up. The sound id it loads is a constructor parameter of the activity.
- The duplicate declarations in `MainActivity.kt`:
  - `MainViewModel` (61-64) is the same class without `beepEnabled`. The older analyzer uses the one view model class and ignores that field.
  - The converter (424-473) is the same code as `YuvToRgbConverter.kt` and is modelled once.
- `Greeting` and `GreetingPreview`: UI only.
- YuvConversion.Yuv420888ToNv21: does not model Kotlin's 32-bit `Int` overflow of `width * height` or `row * rowStride`, because integers here are unbounded and camera frame sizes are far from the limit.
- YuvConversion.Yuv420888ToNv21: does not model the mid-row exception.
  - In the source, a buffer call that fails throws part-way through a row.
  - The model checks each row's reads before the row.
  - The partially filled array is discarded either way, so the outcome is the same.
- YuvConversion.Yuv420888ToNv21: the source's write order is not recorded as a trace. Instead the contracts of CopyLumaPlane and InterleaveChromaPlanes give the bytes before the cursor and leave every byte after it untouched. That covers "each output byte is written once, in ascending order", but only as a statement about contents.
- CameraAnalysis.Accepts: does not model overflow of Kotlin's `Long` subtraction, because timestamps are wall-clock milliseconds.
- CameraAnalysis.Label, CameraAnalysis.ShouldBeep: confidence is a real, not a 32-bit float. NaN, which compares false with everything and so gives the negative label and no beep, is not represented.
- CameraAnalysis.FrameAnalyzer.Process: treats every failure of conversion, preprocessing or inference as a caught `Exception`. In the source an `Error` escapes the `catch`, and only the `finally` close still happens.
- YuvConversion.Bitmap.constructor: requires positive dimensions, because the platform throws for empty ones. Camera frames always have positive dimensions.
- BeepAudio.FadeOutCount: computes with the exact 0.2, not the nearest double. The model proves 2646 for 13230 samples with the exact value (`BeepSizes`). That the double product also truncates to 2646 is argued by hand and not proved: the nearest double to 0.2 times 13230 rounds to 2646.0.
- BeepAudio.AudioTrack: construction is taken to succeed. A platform failure to create the track is not modelled.
