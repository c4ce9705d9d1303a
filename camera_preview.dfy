/** CameraPreview.kt: the image analyzer attached to the camera. It paces the
    frames, keeps one RGB bitmap sized to the frames, runs conversion,
    preprocessing and inference, decides the label and the beep, publishes to
    the MainViewModel sink and closes every frame. */
module CameraAnalysis {
  import opened Wrappers
  import opened YuvConversion
  import opened BeepAudio

  const PositiveLabel: string := "Leaf roll detected"
  const NegativeLabel: string := "No leaf roll detected"
  const WaitingLabel: string := "Waiting for input..."

  // ---------------------------------------------------------------------------
  // Decisions

  /** The drop test `currentTime - lastFrameTime < frameInterval` fails: the
      frame is processed. Since `lastFrameTime` starts at 0, the first frame
      is processed exactly when the clock has reached `frameInterval`. */
  predicate Accepts(lastFrameTime: int, currentTime: int, frameInterval: int): (r: bool)
    ensures lastFrameTime == 0 ==> (r <==> currentTime >= frameInterval)
  {
    !(currentTime - lastFrameTime < frameInterval)
  }

  /** The timestamps of the frames the analyzer processes when frames arrive
      at `times` and the last processed frame was at `lastFrameTime`. */
  function AcceptedTimes(lastFrameTime: int, times: seq<int>, frameInterval: int): seq<int>
    decreases |times|
  {
    if times == [] then []
    else if Accepts(lastFrameTime, times[0], frameInterval) then
      [times[0]] + AcceptedTimes(times[0], times[1..], frameInterval)
    else
      AcceptedTimes(lastFrameTime, times[1..], frameInterval)
  }

  /** Processed frames are at least `frameInterval` apart, and the first one
      is at least `frameInterval` after `lastFrameTime`; every one of them
      arrived. */
  lemma {:induction false} AcceptedTimesSpaced(lastFrameTime: int, times: seq<int>, frameInterval: int)
    ensures var r := AcceptedTimes(lastFrameTime, times, frameInterval);
      && (|r| > 0 ==> r[0] - lastFrameTime >= frameInterval)
      && (forall k :: 0 < k < |r| ==> r[k] - r[k - 1] >= frameInterval)
      && (forall t :: t in r ==> t in times)
    decreases |times|
  {
    if times != [] {
      var rest := times[1..];
      if Accepts(lastFrameTime, times[0], frameInterval) {
        AcceptedTimesSpaced(times[0], rest, frameInterval);
      } else {
        AcceptedTimesSpaced(lastFrameTime, rest, frameInterval);
      }
      assert forall t :: t in rest ==> t in times;
    }
  }

  /** The bitmap is reallocated when there is none or its dimensions differ
      from the frame's. */
  predicate NeedsRealloc(buffer: Bitmap?, width: nat, height: nat)
  {
    buffer == null || buffer.width != width || buffer.height != height
  }

  /** The text published for a confidence: positive exactly above 0.5. */
  function Label(confidence: real): (r: string)
    ensures r == PositiveLabel <==> confidence > 0.5
    ensures r == NegativeLabel <==> confidence <= 0.5
  {
    if confidence > 0.5 then PositiveLabel else NegativeLabel
  }

  /** A beep is played above 0.75 when the user enabled it; a beep therefore
      always comes with the positive label. */
  predicate ShouldBeep(confidence: real, beepEnabled: bool): (r: bool)
    ensures r ==> Label(confidence) == PositiveLabel
    ensures !beepEnabled ==> !r
  {
    confidence > 0.75 && beepEnabled
  }

  // ---------------------------------------------------------------------------
  // Collaborators

  /** MainViewModel: the state the UI shows. */
  class ViewModel {
    var inferenceResult: string
    var confidenceLevel: real
    var beepEnabled: bool

    constructor ()
      ensures inferenceResult == WaitingLabel && confidenceLevel == 0.0 && !beepEnabled
    {
      inferenceResult := WaitingLabel;
      confidenceLevel := 0.0;
      beepEnabled := false;
    }
  }

  /** A camera frame handed to the analyzer, which must close it. */
  class ImageProxy {
    const image: YuvImage
    var closeCount: nat

    constructor (image: YuvImage)
      ensures this.image == image && closeCount == 0
    {
      this.image := image;
      closeCount := 0;
    }

    method Close()
      modifies this
      ensures closeCount == old(closeCount) + 1
    {
      closeCount := closeCount + 1;
    }
  }

  /** What one call of `analyze` did with its frame. */
  datatype Outcome =
    | Dropped
    | Failed
    | Published(text: string, confidence: real, beeped: bool)

  /** The pipeline after conversion: preprocessing the bitmap's pixels into a
      tensor, then inference to the single output confidence. `None` when
      either throws. */
  function Classify(preprocess: (seq<int>, nat, nat) -> Option<seq<real>>,
                    infer: seq<real> -> Option<real>,
                    pixels: seq<int>, width: nat, height: nat): Option<real>
  {
    match preprocess(pixels, width, height)
    case None => None
    case Some(tensor) => infer(tensor)
  }

  /** The confidence inference gives for a frame converted into a bitmap of
      its own size; `None` when conversion, preprocessing or inference
      throws. */
  function Confidence(converter: YuvToRgbConverter,
                      preprocess: (seq<int>, nat, nat) -> Option<seq<real>>,
                      infer: seq<real> -> Option<real>,
                      image: YuvImage): Option<real>
  {
    if !Readable(image) then None
    else Classify(preprocess, infer, converter.Converted(image, image.width, image.height),
                  image.width, image.height)
  }

  // ---------------------------------------------------------------------------
  // The analyzer

  /** The anonymous `ImageAnalysis.Analyzer` of CameraPreview. */
  class FrameAnalyzer {
    const viewModel: ViewModel
    const converter: YuvToRgbConverter
    /** `TensorImage.fromBitmap` followed by `imageProcessor.process`. */
    const preprocess: (seq<int>, nat, nat) -> Option<seq<real>>
    /** `tfliteInterpreter.run`, giving `output[0][0]`. */
    const infer: seq<real> -> Option<real>
    const frameInterval: int
    const beepPlayer: BeepPlayer

    var rgbBuffer: Bitmap?
    var lastFrameTime: int

    constructor (viewModel: ViewModel, converter: YuvToRgbConverter,
                 preprocess: (seq<int>, nat, nat) -> Option<seq<real>>,
                 infer: seq<real> -> Option<real>,
                 frameInterval: int, beepPlayer: BeepPlayer)
      ensures this.viewModel == viewModel && this.converter == converter
      ensures this.preprocess == preprocess && this.infer == infer
      ensures this.frameInterval == frameInterval && this.beepPlayer == beepPlayer
      ensures rgbBuffer == null && lastFrameTime == 0
    {
      this.viewModel := viewModel;
      this.converter := converter;
      this.preprocess := preprocess;
      this.infer := infer;
      this.frameInterval := frameInterval;
      this.beepPlayer := beepPlayer;
      rgbBuffer := null;
      lastFrameTime := 0;
    }

    /** Makes `rgbBuffer` a bitmap of the frame's dimensions, allocating a new
        one only when there is none or the old one has other dimensions. */
    method EnsureBuffer(width: nat, height: nat)
      requires width > 0 && height > 0
      modifies this
      ensures rgbBuffer != null && rgbBuffer.width == width && rgbBuffer.height == height
      ensures !NeedsRealloc(old(rgbBuffer), width, height) ==> rgbBuffer == old(rgbBuffer)
      ensures NeedsRealloc(old(rgbBuffer), width, height) ==>
        fresh(rgbBuffer) && rgbBuffer.pixels == seq(width * height, _ => 0)
      ensures lastFrameTime == old(lastFrameTime)
    {
      if rgbBuffer == null || rgbBuffer.width != width || rgbBuffer.height != height {
        rgbBuffer := new Bitmap(width, height);
      }
    }

    /** The body of the launched coroutine, up to its `finally`: conversion
        into `rgbBuffer`, preprocessing, inference, the beep and the
        publication. A thrown exception ends it with the sink untouched. */
    method Process(image: YuvImage) returns (outcome: Outcome)
      requires rgbBuffer != null && rgbBuffer.width == image.width && rgbBuffer.height == image.height
      requires beepPlayer.Valid()
      modifies rgbBuffer, viewModel, beepPlayer, beepPlayer.audioTrack
      ensures !outcome.Dropped?
      ensures Readable(image) ==> rgbBuffer.pixels == converter.Converted(image, image.width, image.height)
      ensures !Readable(image) ==> unchanged(rgbBuffer)
      ensures outcome.Published? <==> Confidence(converter, preprocess, infer, image).Some?
      ensures outcome.Published? ==>
        && outcome.confidence == Confidence(converter, preprocess, infer, image).value
        && outcome.text == Label(outcome.confidence)
        && outcome.beeped == ShouldBeep(outcome.confidence, old(viewModel.beepEnabled))
        && viewModel.inferenceResult == outcome.text
        && viewModel.confidenceLevel == outcome.confidence
      ensures !outcome.Published? ==>
        && viewModel.inferenceResult == old(viewModel.inferenceResult)
        && viewModel.confidenceLevel == old(viewModel.confidenceLevel)
      ensures viewModel.beepEnabled == old(viewModel.beepEnabled)
      ensures beepPlayer.Valid()
      ensures outcome.Published? && outcome.beeped ==>
        && beepPlayer.audioTrack != null && fresh(beepPlayer.audioTrack)
        && beepPlayer.audioTrack.state == Playing
        && beepPlayer.tracks == old(beepPlayer.tracks) + [beepPlayer.audioTrack]
      ensures outcome.Published? && outcome.beeped && old(beepPlayer.audioTrack) != null ==>
        old(beepPlayer.audioTrack).state == Released
      ensures !(outcome.Published? && outcome.beeped) ==>
        beepPlayer.audioTrack == old(beepPlayer.audioTrack) && beepPlayer.tracks == old(beepPlayer.tracks)
      ensures !(outcome.Published? && outcome.beeped) && old(beepPlayer.audioTrack) != null ==>
        unchanged(old(beepPlayer.audioTrack))
    {
      var converted := converter.YuvToRgb(image, rgbBuffer);
      if !converted {
        return Failed;
      }
      var confidence := Classify(preprocess, infer, rgbBuffer.pixels, rgbBuffer.width, rgbBuffer.height);
      if confidence.None? {
        return Failed;
      }
      var resultText := Label(confidence.value);
      var beeped := confidence.value > 0.75 && viewModel.beepEnabled;
      if beeped {
        beepPlayer.PlayBeep();
      }
      viewModel.inferenceResult := resultText;
      viewModel.confidenceLevel := confidence.value;
      outcome := Published(resultText, confidence.value, beeped);
    }

    /** `analyze(imageProxy)` at clock `currentTime`, with the launched
        coroutine run to its end. */
    method Analyze(frame: ImageProxy, currentTime: int) returns (outcome: Outcome)
      requires frame.image.width > 0 && frame.image.height > 0
      requires beepPlayer.Valid()
      modifies this, frame, rgbBuffer, viewModel, beepPlayer, beepPlayer.audioTrack
      ensures frame.closeCount == old(frame.closeCount) + 1
      ensures outcome.Dropped? <==> !Accepts(old(lastFrameTime), currentTime, frameInterval)
      ensures outcome.Dropped? ==> lastFrameTime == old(lastFrameTime) && rgbBuffer == old(rgbBuffer)
      ensures outcome.Dropped? ==> unchanged(viewModel) && unchanged(beepPlayer)
      ensures outcome.Dropped? && old(rgbBuffer) != null ==> unchanged(old(rgbBuffer))
      ensures !outcome.Dropped? ==> lastFrameTime == currentTime
      ensures !outcome.Dropped? ==>
        rgbBuffer != null && rgbBuffer.width == frame.image.width && rgbBuffer.height == frame.image.height
      ensures !outcome.Dropped? ==>
        (NeedsRealloc(old(rgbBuffer), frame.image.width, frame.image.height) ==> fresh(rgbBuffer))
      ensures !outcome.Dropped? ==>
        (!NeedsRealloc(old(rgbBuffer), frame.image.width, frame.image.height) ==> rgbBuffer == old(rgbBuffer))
      ensures !outcome.Dropped? && Readable(frame.image) ==>
        rgbBuffer.pixels == converter.Converted(frame.image, frame.image.width, frame.image.height)
      ensures !outcome.Dropped? && !Readable(frame.image) ==>
        (NeedsRealloc(old(rgbBuffer), frame.image.width, frame.image.height) ==>
          rgbBuffer.pixels == seq(frame.image.width * frame.image.height, _ => 0))
      ensures !outcome.Dropped? && !Readable(frame.image) ==>
        (!NeedsRealloc(old(rgbBuffer), frame.image.width, frame.image.height) ==>
          rgbBuffer.pixels == old(rgbBuffer.pixels))
      ensures !outcome.Dropped? ==> (outcome.Published? <==> Confidence(converter, preprocess, infer, frame.image).Some?)
      ensures outcome.Published? ==>
        && outcome.confidence == Confidence(converter, preprocess, infer, frame.image).value
        && outcome.text == Label(outcome.confidence)
        && outcome.beeped == ShouldBeep(outcome.confidence, old(viewModel.beepEnabled))
        && viewModel.inferenceResult == outcome.text
        && viewModel.confidenceLevel == outcome.confidence
      ensures !outcome.Published? ==>
        && viewModel.inferenceResult == old(viewModel.inferenceResult)
        && viewModel.confidenceLevel == old(viewModel.confidenceLevel)
      ensures viewModel.beepEnabled == old(viewModel.beepEnabled)
      ensures beepPlayer.Valid()
      ensures outcome.Published? && outcome.beeped ==>
        && beepPlayer.audioTrack != null && fresh(beepPlayer.audioTrack)
        && beepPlayer.audioTrack.state == Playing
        && beepPlayer.tracks == old(beepPlayer.tracks) + [beepPlayer.audioTrack]
      ensures outcome.Published? && outcome.beeped && old(beepPlayer.audioTrack) != null ==>
        old(beepPlayer.audioTrack).state == Released
      ensures !(outcome.Published? && outcome.beeped) ==>
        beepPlayer.audioTrack == old(beepPlayer.audioTrack) && beepPlayer.tracks == old(beepPlayer.tracks)
      ensures !(outcome.Published? && outcome.beeped) && old(beepPlayer.audioTrack) != null ==>
        unchanged(old(beepPlayer.audioTrack))
    {
      if currentTime - lastFrameTime < frameInterval {
        frame.Close();
        return Dropped;
      }
      lastFrameTime := currentTime;
      EnsureBuffer(frame.image.width, frame.image.height);
      outcome := Process(frame.image);
      frame.Close();
    }
  }
}
