/** MainActivity.kt: the choice of the interpreter's backend, the readiness
    flag that gates the camera pipeline, the beep stream bookkeeping around
    SoundPool, and the older analyzer that beeps through SoundPool. */
module Activity {
  import opened Wrappers
  import opened YuvConversion
  import opened CameraAnalysis

  /** What a JVM call can throw, as far as the catch clauses here tell apart. */
  datatype Throwable =
    | Exception           // any java.lang.Exception
    | NoClassDefFoundError
    | OtherError          // any other java.lang.Error, such as UnsatisfiedLinkError

  /** How a foreign call went: it returned, or it threw. */
  datatype Attempt = Succeeds | Fails(thrown: Throwable)

  /** The result of a Kotlin function that may throw past its caller. */
  datatype Completion<T> = Returned(value: T) | Threw(thrown: Throwable)

  // ---------------------------------------------------------------------------
  // Backend choice

  /** `GpuDelegateHelper.isGpuDelegateAvailable`, where `probe` is how
      constructing and closing a GPU delegate went. An Exception or a
      NoClassDefFoundError gives false; any other Error escapes. */
  function IsGpuDelegateAvailable(probe: Attempt): (r: Completion<bool>)
    ensures r == Returned(true) <==> probe == Succeeds
    ensures r == Returned(false) <==> probe in {Fails(Exception), Fails(NoClassDefFoundError)}
    ensures r.Threw? <==> probe == Fails(OtherError)
    ensures r.Threw? ==> r.thrown == OtherError
  {
    match probe
    case Succeeds => Returned(true)
    case Fails(NoClassDefFoundError) => Returned(false)
    case Fails(Exception) => Returned(false)
    case Fails(OtherError) => Threw(OtherError)
  }

  datatype Delegate = GpuDelegate

  /** `Interpreter.Options`: the delegates added and the NNAPI switch. */
  class InterpreterOptions {
    var delegates: seq<Delegate>
    var useNnapi: bool

    constructor ()
      ensures delegates == [] && !useNnapi
    {
      delegates := [];
      useNnapi := false;
    }

    method AddDelegate(delegate: Delegate)
      modifies this
      ensures delegates == old(delegates) + [delegate] && useNnapi == old(useNnapi)
    {
      delegates := delegates + [delegate];
    }

    method SetUseNnapi(useNnapi: bool)
      modifies this
      ensures this.useNnapi == useNnapi && delegates == old(delegates)
    {
      this.useNnapi := useNnapi;
    }
  }

  datatype Backend = Gpu | Nnapi

  /** The backend the interpreter gets, when the availability probe goes as
      `probe` and constructing the delegate to install goes as `creation`:
      the GPU exactly when both succeed, NNAPI otherwise. */
  function ChosenBackend(probe: Attempt, creation: Attempt): (b: Backend)
    ensures b == Gpu <==> probe == Succeeds && creation == Succeeds
  {
    match IsGpuDelegateAvailable(probe)
    case Threw(_) => Nnapi
    case Returned(available) => if available && creation == Succeeds then Gpu else Nnapi
  }

  /** The `try`/`catch (e: Throwable)` of `initializeInterpreterOnInferenceThread`:
      adds a GPU delegate if one is available and can be created, and turns
      NNAPI on otherwise. Nothing it meets escapes. */
  method ConfigureBackend(options: InterpreterOptions, probe: Attempt, creation: Attempt)
    modifies options
    ensures ChosenBackend(probe, creation) == Gpu ==>
      options.delegates == old(options.delegates) + [GpuDelegate] && options.useNnapi == old(options.useNnapi)
    ensures ChosenBackend(probe, creation) == Nnapi ==>
      options.delegates == old(options.delegates) && options.useNnapi
  {
    var available := IsGpuDelegateAvailable(probe);
    if available.Threw? {
      options.SetUseNnapi(true);
      return;
    }
    if available.value {
      if creation.Fails? {
        options.SetUseNnapi(true);
        return;
      }
      options.AddDelegate(GpuDelegate);
    } else {
      options.SetUseNnapi(true);
    }
  }

  /** An interpreter built from a model file and the options it was given. */
  datatype Interpreter = Interpreter(model: seq<Byte>, delegates: seq<Delegate>, useNnapi: bool)

  // ---------------------------------------------------------------------------
  // Sound

  /** `SoundPool`: the sounds it was asked to play with the stream ids it
      answered, the streams stopped, and whether it is auto-paused. */
  class SoundPool {
    var played: seq<(int, int)>
    var stopped: seq<int>
    var autoPaused: bool

    constructor ()
      ensures played == [] && stopped == [] && !autoPaused
    {
      played := [];
      stopped := [];
      autoPaused := false;
    }

    /** `play(soundId, ...)`; `streamId` is the id the platform answers, 0
        when it could not play. */
    method Play(soundId: int, streamId: int) returns (id: int)
      modifies this
      ensures id == streamId && played == old(played) + [(soundId, streamId)]
      ensures stopped == old(stopped) && autoPaused == old(autoPaused)
    {
      played := played + [(soundId, streamId)];
      id := streamId;
    }

    method Stop(streamId: int)
      modifies this
      ensures stopped == old(stopped) + [streamId]
      ensures played == old(played) && autoPaused == old(autoPaused)
    {
      stopped := stopped + [streamId];
    }

    method AutoPause()
      modifies this
      ensures autoPaused && played == old(played) && stopped == old(stopped)
    {
      autoPaused := true;
    }

    method AutoResume()
      modifies this
      ensures !autoPaused && played == old(played) && stopped == old(stopped)
    {
      autoPaused := false;
    }
  }

  // ---------------------------------------------------------------------------
  // The activity

  /** The part of `MainActivity` that is not UI: the lateinit interpreter, the
      two flags that gate the camera pipeline and the beep stream id. */
  class MainActivity {
    /** `frameInterval`: at most one frame every 300 ms. */
    const FrameInterval: int := 300
    const soundPool: SoundPool
    const beepSoundId: int
    var beepStreamId: int
    var cameraPermissionGranted: bool
    var interpreterReady: bool
    /** The lateinit `tfliteInterpreter`; `None` until it is assigned. */
    var tfliteInterpreter: Option<Interpreter>

    /** The interpreter is ready only once it has been assigned. */
    ghost predicate Valid()
      reads this
    {
      interpreterReady ==> tfliteInterpreter.Some?
    }

    /** The fields as `onCreate` leaves them before the background work
        completes; `beepSoundId` is the id `soundPool.load` answered. */
    constructor (soundPool: SoundPool, beepSoundId: int)
      ensures Valid()
      ensures this.soundPool == soundPool && this.beepSoundId == beepSoundId
      ensures beepStreamId == 0 && !cameraPermissionGranted && !interpreterReady
      ensures tfliteInterpreter == None
    {
      this.soundPool := soundPool;
      this.beepSoundId := beepSoundId;
      beepStreamId := 0;
      cameraPermissionGranted := false;
      interpreterReady := false;
      tfliteInterpreter := None;
    }

    /** The camera pipeline is composed instead of the loading indicator. */
    predicate ShowsCameraPreview()
      reads this
    {
      cameraPermissionGranted && interpreterReady
    }

    /** The pipeline is only composed with an assigned interpreter. */
    lemma PreviewHasInterpreter()
      requires Valid() && ShowsCameraPreview()
      ensures tfliteInterpreter.Some?
    {
    }

    /** `updateBeepStreamId`, the `onBeepPlayed` callback. */
    method UpdateBeepStreamId(streamId: int)
      requires Valid()
      modifies this
      ensures Valid() && beepStreamId == streamId
      ensures cameraPermissionGranted == old(cameraPermissionGranted)
      ensures interpreterReady == old(interpreterReady) && tfliteInterpreter == old(tfliteInterpreter)
    {
      beepStreamId := streamId;
    }

    /** `initializeInterpreterOnInferenceThread`, run to its end. `model` is
        the memory-mapped model file (`None` when loading it throws), `probe`
        and `creation` are how the two GPU delegate constructions go and
        `construction` how `Interpreter(model, options)` goes. Failures of the
        loading or of the construction are not caught: the coroutine dies and
        the interpreter stays unready. */
    method InitializeInterpreter(model: Option<seq<Byte>>, probe: Attempt, creation: Attempt, construction: Attempt)
      requires Valid()
      modifies this
      ensures Valid()
      ensures model.Some? && construction == Succeeds ==>
        && interpreterReady
        && tfliteInterpreter == Some(Interpreter(model.value,
             if ChosenBackend(probe, creation) == Gpu then [GpuDelegate] else [],
             ChosenBackend(probe, creation) == Nnapi))
      ensures model.None? || construction != Succeeds ==>
        interpreterReady == old(interpreterReady) && tfliteInterpreter == old(tfliteInterpreter)
      ensures beepStreamId == old(beepStreamId) && cameraPermissionGranted == old(cameraPermissionGranted)
    {
      if model.None? {
        return;
      }
      var options := new InterpreterOptions();
      ConfigureBackend(options, probe, creation);
      assert options.delegates == if ChosenBackend(probe, creation) == Gpu then [GpuDelegate] else [];
      if construction.Fails? {
        return;
      }
      tfliteInterpreter := Some(Interpreter(model.value, options.delegates, options.useNnapi));
      interpreterReady := true;
    }

    /** `checkCameraPermission`: records a granted permission; otherwise the
        request is launched and its answer arrives in OnPermissionResult. */
    method CheckCameraPermission(granted: bool)
      requires Valid()
      modifies this
      ensures Valid()
      ensures cameraPermissionGranted == (old(cameraPermissionGranted) || granted)
      ensures interpreterReady == old(interpreterReady) && tfliteInterpreter == old(tfliteInterpreter)
      ensures beepStreamId == old(beepStreamId)
    {
      if granted {
        cameraPermissionGranted := true;
      }
    }

    /** The permission request's callback. */
    method OnPermissionResult(isGranted: bool)
      requires Valid()
      modifies this
      ensures Valid() && cameraPermissionGranted == isGranted
      ensures interpreterReady == old(interpreterReady) && tfliteInterpreter == old(tfliteInterpreter)
      ensures beepStreamId == old(beepStreamId)
    {
      cameraPermissionGranted := isGranted;
    }

    /** `onStop`: stops the recorded beep stream, if any, forgets it and
        auto-pauses the pool. */
    method OnStop()
      requires Valid()
      modifies this, soundPool
      ensures Valid() && beepStreamId == 0
      ensures old(beepStreamId) != 0 ==> soundPool.stopped == old(soundPool.stopped) + [old(beepStreamId)]
      ensures old(beepStreamId) == 0 ==> soundPool.stopped == old(soundPool.stopped)
      ensures soundPool.autoPaused && soundPool.played == old(soundPool.played)
      ensures cameraPermissionGranted == old(cameraPermissionGranted)
      ensures interpreterReady == old(interpreterReady) && tfliteInterpreter == old(tfliteInterpreter)
    {
      if beepStreamId != 0 {
        soundPool.Stop(beepStreamId);
        beepStreamId := 0;
      }
      soundPool.AutoPause();
    }

    /** `onStart`: resumes the pool. */
    method OnStart()
      modifies soundPool
      ensures !soundPool.autoPaused && soundPool.played == old(soundPool.played)
      ensures soundPool.stopped == old(soundPool.stopped)
    {
      soundPool.AutoResume();
    }
  }

  // ---------------------------------------------------------------------------
  // The older analyzer

  /** The analyzer of MainActivity's own CameraPreview: the same pacing,
      bitmap reuse, pipeline and labels as FrameAnalyzer, but it beeps through
      SoundPool whenever the confidence is above 0.75, with no enable flag,
      and reports the stream id to the activity. */
  class LegacyAnalyzer {
    const activity: MainActivity
    const viewModel: ViewModel
    const converter: YuvToRgbConverter
    const preprocess: (seq<int>, nat, nat) -> Option<seq<real>>
    const infer: seq<real> -> Option<real>
    const frameInterval: int

    var rgbBuffer: Bitmap?
    var lastFrameTime: int

    /** The analyzer CameraPreview installs, with the activity's 300 ms frame
        interval. */
    constructor (activity: MainActivity, viewModel: ViewModel, converter: YuvToRgbConverter,
                 preprocess: (seq<int>, nat, nat) -> Option<seq<real>>,
                 infer: seq<real> -> Option<real>)
      ensures this.activity == activity && this.viewModel == viewModel && this.converter == converter
      ensures this.preprocess == preprocess && this.infer == infer
      ensures frameInterval == 300 && rgbBuffer == null && lastFrameTime == 0
    {
      this.activity := activity;
      this.viewModel := viewModel;
      this.converter := converter;
      this.preprocess := preprocess;
      this.infer := infer;
      frameInterval := activity.FrameInterval;
      rgbBuffer := null;
      lastFrameTime := 0;
    }

    /** The launched coroutine up to its `finally`: like FrameAnalyzer.Process,
        with `soundPool.play` and `onBeepPlayed` for the beep. `streamId` is
        the id the pool answers. */
    method Process(image: YuvImage, streamId: int) returns (outcome: Outcome)
      requires rgbBuffer != null && rgbBuffer.width == image.width && rgbBuffer.height == image.height
      requires activity.Valid()
      modifies rgbBuffer, viewModel, activity, activity.soundPool
      ensures !outcome.Dropped?
      ensures Readable(image) ==> rgbBuffer.pixels == converter.Converted(image, image.width, image.height)
      ensures !Readable(image) ==> unchanged(rgbBuffer)
      ensures outcome.Published? <==> Confidence(converter, preprocess, infer, image).Some?
      ensures outcome.Published? ==>
        && outcome.confidence == Confidence(converter, preprocess, infer, image).value
        && outcome.text == Label(outcome.confidence)
        && outcome.beeped == (outcome.confidence > 0.75)
        && viewModel.inferenceResult == outcome.text
        && viewModel.confidenceLevel == outcome.confidence
      ensures !outcome.Published? ==>
        && viewModel.inferenceResult == old(viewModel.inferenceResult)
        && viewModel.confidenceLevel == old(viewModel.confidenceLevel)
      ensures viewModel.beepEnabled == old(viewModel.beepEnabled)
      ensures activity.Valid()
      ensures activity.interpreterReady == old(activity.interpreterReady)
      ensures activity.tfliteInterpreter == old(activity.tfliteInterpreter)
      ensures activity.cameraPermissionGranted == old(activity.cameraPermissionGranted)
      ensures outcome.Published? && outcome.beeped ==>
        && activity.soundPool.played == old(activity.soundPool.played) + [(activity.beepSoundId, streamId)]
        && activity.beepStreamId == streamId
      ensures !(outcome.Published? && outcome.beeped) ==>
        activity.soundPool.played == old(activity.soundPool.played) && activity.beepStreamId == old(activity.beepStreamId)
      ensures activity.soundPool.stopped == old(activity.soundPool.stopped)
      ensures activity.soundPool.autoPaused == old(activity.soundPool.autoPaused)
    {
      var converted := converter.YuvToRgb(image, rgbBuffer);
      if !converted {
        return Failed;
      }
      var confidence := Classify(preprocess, infer, rgbBuffer.pixels, rgbBuffer.width, rgbBuffer.height);
      if confidence.None? {
        return Failed;
      }
      var resultText := Label(confidence.value);
      var beeped := confidence.value > 0.75;
      if beeped {
        var id := activity.soundPool.Play(activity.beepSoundId, streamId);
        activity.UpdateBeepStreamId(id);
      }
      viewModel.inferenceResult := resultText;
      viewModel.confidenceLevel := confidence.value;
      outcome := Published(resultText, confidence.value, beeped);
    }

    /** `analyze(imageProxy)` at clock `currentTime`, with the launched
        coroutine run to its end; `streamId` is what `soundPool.play` would
        answer. */
    method Analyze(frame: ImageProxy, currentTime: int, streamId: int) returns (outcome: Outcome)
      requires frame.image.width > 0 && frame.image.height > 0
      requires activity.Valid()
      modifies this, frame, rgbBuffer, viewModel, activity, activity.soundPool
      ensures frame.closeCount == old(frame.closeCount) + 1
      ensures outcome.Dropped? <==> !Accepts(old(lastFrameTime), currentTime, frameInterval)
      ensures outcome.Dropped? ==> lastFrameTime == old(lastFrameTime) && rgbBuffer == old(rgbBuffer)
      ensures outcome.Dropped? ==> unchanged(viewModel) && unchanged(activity) && unchanged(activity.soundPool)
      ensures outcome.Dropped? && old(rgbBuffer) != null ==> unchanged(old(rgbBuffer))
      ensures !outcome.Dropped? ==> lastFrameTime == currentTime
      ensures !outcome.Dropped? ==>
        rgbBuffer != null && rgbBuffer.width == frame.image.width && rgbBuffer.height == frame.image.height
      ensures !outcome.Dropped? ==>
        (NeedsRealloc(old(rgbBuffer), frame.image.width, frame.image.height) ==> fresh(rgbBuffer))
      ensures !outcome.Dropped? ==>
        (!NeedsRealloc(old(rgbBuffer), frame.image.width, frame.image.height) ==> rgbBuffer == old(rgbBuffer))
      ensures !outcome.Dropped? && Readable(frame.image) ==>
        rgbBuffer.pixels == converter.Converted(frame.image, frame.image.width, frame.image.height)
      ensures !outcome.Dropped? && !Readable(frame.image) ==>
        (NeedsRealloc(old(rgbBuffer), frame.image.width, frame.image.height) ==>
          rgbBuffer.pixels == seq(frame.image.width * frame.image.height, _ => 0))
      ensures !outcome.Dropped? && !Readable(frame.image) ==>
        (!NeedsRealloc(old(rgbBuffer), frame.image.width, frame.image.height) ==>
          rgbBuffer.pixels == old(rgbBuffer.pixels))
      ensures !outcome.Dropped? ==> (outcome.Published? <==> Confidence(converter, preprocess, infer, frame.image).Some?)
      ensures outcome.Published? ==>
        && outcome.confidence == Confidence(converter, preprocess, infer, frame.image).value
        && outcome.text == Label(outcome.confidence)
        && outcome.beeped == (outcome.confidence > 0.75)
        && viewModel.inferenceResult == outcome.text
        && viewModel.confidenceLevel == outcome.confidence
      ensures !outcome.Published? ==>
        && viewModel.inferenceResult == old(viewModel.inferenceResult)
        && viewModel.confidenceLevel == old(viewModel.confidenceLevel)
      ensures viewModel.beepEnabled == old(viewModel.beepEnabled)
      ensures activity.Valid()
      ensures activity.interpreterReady == old(activity.interpreterReady)
      ensures activity.tfliteInterpreter == old(activity.tfliteInterpreter)
      ensures activity.cameraPermissionGranted == old(activity.cameraPermissionGranted)
      ensures outcome.Published? && outcome.beeped ==>
        && activity.soundPool.played == old(activity.soundPool.played) + [(activity.beepSoundId, streamId)]
        && activity.beepStreamId == streamId
      ensures !(outcome.Published? && outcome.beeped) ==>
        activity.soundPool.played == old(activity.soundPool.played) && activity.beepStreamId == old(activity.beepStreamId)
      ensures activity.soundPool.stopped == old(activity.soundPool.stopped)
      ensures activity.soundPool.autoPaused == old(activity.soundPool.autoPaused)
    {
      if currentTime - lastFrameTime < frameInterval {
        frame.Close();
        return Dropped;
      }
      lastFrameTime := currentTime;
      if rgbBuffer == null || rgbBuffer.width != frame.image.width || rgbBuffer.height != frame.image.height {
        rgbBuffer := new Bitmap(frame.image.width, frame.image.height);
      }
      outcome := Process(frame.image, streamId);
      frame.Close();
    }
  }
}
