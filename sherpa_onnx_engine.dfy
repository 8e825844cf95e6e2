/**
 * The sherpa-onnx offline engine: a loaded/unloaded state machine around a
 * native recogniser, with ordered provider fallback on load, quantised-file
 * preference, and a transcribe that turns every decode failure into an
 * empty segment list.
 *
 * The native library is an oracle: `constructs` says whether the native
 * recogniser builds from a configuration, and a `NativeDecode` value says
 * what one decode of the given audio produced.
 */
module SherpaOnnx {
  import opened Wrappers
  import opened Text
  import opened AsrEngine

  /** The model families the engine's source tree knows. */
  datatype SherpaModelType =
    | MOONSHINE
    | ZIPFORMER_TRANSDUCER
    | SENSE_VOICE
    | OMNILINGUAL_CTC
    | PARAKEET_NEMO_TRANSDUCER

  /** The model files a configuration points the native recogniser at, per family. */
  datatype ModelFiles =
    | MoonshineFiles(preprocessor: string, encoder: string, uncachedDecoder: string, cachedDecoder: string)
    | SenseVoiceFiles(model: string)
    | OmnilingualFiles(model: string)
    | NemoTransducerFiles(encoder: string, decoder: string, joiner: string)

  datatype RecognizerConfig = RecognizerConfig(
    files: ModelFiles,
    tokens: string,
    numThreads: int,
    provider: string)

  /** Why a configuration could not be built. */
  datatype ConfigError = NeedsStreamingEngine

  /** A handle to a constructed native recogniser. */
  datatype Recognizer = Recognizer(config: RecognizerConfig)

  /** The native calls the engine makes, in order. */
  datatype NativeCall =
    | RecognizerCreated(provider: string)
    | RecognizerReleased
    | StreamCreated
    | WaveformAccepted
    | StreamDecoded
    | ResultRead
    | StreamReleased

  /** The steps of a decode that may throw once the stream exists. */
  datatype DecodeStep = AcceptWaveform | Decode | GetResult

  /**
   * What the native library does with one transcribe call: creating the
   * stream throws, a later step throws, or the decode yields text, token
   * timestamps in seconds (possibly absent) and a language.
   */
  datatype NativeDecode =
    | StreamCreationThrows
    | Throws(step: DecodeStep)
    | Decoded(text: string, timestamps: Option<seq<real>>, lang: string)

  /** The one failure that escapes transcribe: the stream could not be created. */
  datatype TranscribeError = StreamCreationFailed

  /** Decoder threads for a core count: a step function of the core count, at least 1. */
  function ComputeOfflineThreads(availableProcessors: int): (threads: int)
    ensures 1 <= threads <= 6
    ensures availableProcessors <= 2 ==> threads == 1
  {
    var cores := if availableProcessors < 1 then 1 else availableProcessors;
    if cores <= 2 then 1
    else if cores <= 4 then 2
    else if cores <= 8 then 4
    else 6
  }

  /** More cores never give fewer threads, and never more threads than cores. */
  lemma ThreadsMonotone(a: int, b: int)
    requires a <= b
    ensures ComputeOfflineThreads(a) <= ComputeOfflineThreads(b)
    ensures b >= 1 ==> ComputeOfflineThreads(b) <= b
  {
  }

  /** Execution providers, most preferred first: NNAPI from SDK level 27, then always the CPU. */
  function PreferredProviders(sdkInt: int): (providers: seq<string>)
    ensures 1 <= |providers| <= 2
    ensures providers[|providers| - 1] == "cpu"
    ensures "nnapi" in providers <==> sdkInt >= 27
    ensures |providers| == 2 ==> providers[0] == "nnapi"
  {
    var providers := if sdkInt >= 27 then ["nnapi"] else [];
    providers + ["cpu"]
  }

  /** The quantised `<base>.int8.onnx` if it exists in `dir`, else `<base>.onnx`. */
  function FindFile(dir: string, baseName: string, existing: set<string>): (path: string)
    ensures path == PathJoin(dir, baseName + ".int8.onnx") || path == PathJoin(dir, baseName + ".onnx")
    ensures path == PathJoin(dir, baseName + ".int8.onnx") <==> PathJoin(dir, baseName + ".int8.onnx") in existing
  {
    var int8 := PathJoin(dir, baseName + ".int8.onnx");
    if int8 in existing then int8
    else
      var plain := PathJoin(dir, baseName + ".onnx");
      assert int8 != plain by {
        assert |int8| != |plain|;
      }
      plain
  }

  /**
   * The configuration for one provider. The streaming-only Zipformer family
   * is refused here, on every provider.
   */
  function BuildConfig(modelType: SherpaModelType, modelDir: string, threads: int, provider: string,
                       existing: set<string>): (r: Result<RecognizerConfig, ConfigError>)
    ensures r.Err? <==> modelType == ZIPFORMER_TRANSDUCER
    ensures r.Ok? ==> r.value.provider == provider && r.value.numThreads == threads
                      && r.value.tokens == PathJoin(modelDir, "tokens.txt")
  {
    var tokens := PathJoin(modelDir, "tokens.txt");
    match modelType
    case MOONSHINE =>
      Ok(RecognizerConfig(
        MoonshineFiles(PathJoin(modelDir, "preprocess.onnx"), FindFile(modelDir, "encode", existing),
                       FindFile(modelDir, "uncached_decode", existing), FindFile(modelDir, "cached_decode", existing)),
        tokens, threads, provider))
    case ZIPFORMER_TRANSDUCER => Err(NeedsStreamingEngine)
    case SENSE_VOICE =>
      Ok(RecognizerConfig(SenseVoiceFiles(FindFile(modelDir, "model", existing)), tokens, threads, provider))
    case OMNILINGUAL_CTC =>
      Ok(RecognizerConfig(OmnilingualFiles(FindFile(modelDir, "model", existing)), tokens, threads, provider))
    case PARAKEET_NEMO_TRANSDUCER =>
      Ok(RecognizerConfig(
        NemoTransducerFiles(FindFile(modelDir, "encoder", existing), FindFile(modelDir, "decoder", existing),
                            FindFile(modelDir, "joiner", existing)),
        tokens, threads, provider))
  }

  /** The recogniser one provider yields: its configuration builds and the native constructor accepts it. */
  function TryProvider(modelType: SherpaModelType, modelDir: string, threads: int, provider: string,
                       existing: set<string>, constructs: RecognizerConfig -> bool): (r: Option<Recognizer>)
    ensures modelType == ZIPFORMER_TRANSDUCER ==> r.None?
    ensures r.Some? ==> constructs(r.value.config) && r.value.config.provider == provider
                        && r.value.config.numThreads == threads
                        && r.value.config.tokens == PathJoin(modelDir, "tokens.txt")
    ensures modelType != ZIPFORMER_TRANSDUCER && r.None? ==>
              !constructs(BuildConfig(modelType, modelDir, threads, provider, existing).value)
  {
    match BuildConfig(modelType, modelDir, threads, provider, existing)
    case Ok(config) => if constructs(config) then Some(Recognizer(config)) else None
    case Err(_) => None
  }

  /**
   * The index of the first provider, from `from` on, that yields a
   * recogniser; every provider before it yields none.
   */
  function FirstLoadable(modelType: SherpaModelType, modelDir: string, threads: int, providers: seq<string>,
                         existing: set<string>, constructs: RecognizerConfig -> bool, from: nat): (k: Option<nat>)
    requires from <= |providers|
    ensures k.Some? ==> from <= k.value < |providers|
                        && TryProvider(modelType, modelDir, threads, providers[k.value], existing, constructs).Some?
    ensures forall j :: from <= j < |providers| && (k.None? || j < k.value) ==>
              TryProvider(modelType, modelDir, threads, providers[j], existing, constructs).None?
    decreases |providers| - from
  {
    if from == |providers| then None
    else if TryProvider(modelType, modelDir, threads, providers[from], existing, constructs).Some? then Some(from)
    else FirstLoadable(modelType, modelDir, threads, providers, existing, constructs, from + 1)
  }

  /**
   * Loading fails exactly when the CPU provider fails and, from SDK level 27,
   * NNAPI fails too: the CPU is the last resort and is tried only after
   * NNAPI.
   */
  lemma LoadFailsIffEveryProviderFails(modelType: SherpaModelType, modelDir: string, threads: int, sdkInt: int,
                                       existing: set<string>, constructs: RecognizerConfig -> bool)
    ensures var providers := PreferredProviders(sdkInt);
            var k := FirstLoadable(modelType, modelDir, threads, providers, existing, constructs, 0);
            && (k.None? <==>
                  TryProvider(modelType, modelDir, threads, "cpu", existing, constructs).None?
                  && (sdkInt >= 27 ==> TryProvider(modelType, modelDir, threads, "nnapi", existing, constructs).None?))
            && (k.Some? && providers[k.value] == "cpu" && sdkInt >= 27 ==>
                  TryProvider(modelType, modelDir, threads, "nnapi", existing, constructs).None?)
  {
    var providers := PreferredProviders(sdkInt);
    if sdkInt >= 27 {
      assert providers == ["nnapi", "cpu"];
    } else {
      assert providers == ["cpu"];
    }
  }

  /** The Zipformer family never loads in this engine, whatever the providers and files. */
  lemma ZipformerNeverLoads(modelDir: string, threads: int, providers: seq<string>,
                            existing: set<string>, constructs: RecognizerConfig -> bool)
    ensures FirstLoadable(ZIPFORMER_TRANSDUCER, modelDir, threads, providers, existing, constructs, 0).None?
  {
  }

  /** `takeIf { it.isNotBlank() }`: a blank language is no language. */
  function LanguageOrNull(lang: string): (r: Option<string>)
    ensures r.None? <==> IsBlank(lang)
    ensures r.Some? ==> r.value == lang
  {
    if IsBlank(lang) then None else Some(lang)
  }

  /** `(seconds * 1000).toLong()`: milliseconds, truncated toward zero. */
  function SecondsToMillis(seconds: real): (ms: int)
    ensures seconds >= 0.0 ==> 0 <= ms && ms as real <= seconds * 1000.0 < ms as real + 1.0
    ensures seconds < 0.0 ==> ms <= 0 && ms as real - 1.0 < seconds * 1000.0 <= ms as real
  {
    var x := seconds * 1000.0;
    if x >= 0.0 then x.Floor else -((-x).Floor)
  }

  /** A time that is a whole number of milliseconds converts back to that number. */
  lemma WholeMillisecondsConvertExactly(ms: int)
    ensures SecondsToMillis((ms as real) / 1000.0) == ms
  {
    assert (ms as real) / 1000.0 * 1000.0 == ms as real;
  }

  /**
   * The single segment for a decoded text: the text trimmed; start and end
   * from the first and last timestamp, in milliseconds, when there are at
   * least two, else 0.
   */
  function BuildSegments(text: string, timestamps: Option<seq<real>>, detectedLanguage: Option<string>)
    : (segments: seq<TranscriptionSegment>)
    ensures |segments| == 1
    ensures segments[0].text == Trim(text) && segments[0].detectedLanguage == detectedLanguage
    ensures timestamps.Some? && |timestamps.value| >= 2 ==>
              segments[0].startMs == SecondsToMillis(timestamps.value[0])
              && segments[0].endMs == SecondsToMillis(timestamps.value[|timestamps.value| - 1])
    ensures !(timestamps.Some? && |timestamps.value| >= 2) ==>
              segments[0].startMs == 0 && segments[0].endMs == 0
  {
    var timed := timestamps.Some? && |timestamps.value| >= 2;
    var startMs := if timed then SecondsToMillis(timestamps.value[0]) else 0;
    var endMs := if timed then SecondsToMillis(timestamps.value[|timestamps.value| - 1]) else 0;
    [TranscriptionSegment(Trim(text), startMs, endMs, detectedLanguage)]
  }

  /** What transcribe returns, given whether a recogniser is loaded and what the native decode does. */
  function TranscribeOutcome(loaded: bool, native: NativeDecode)
    : (r: Result<seq<TranscriptionSegment>, TranscribeError>)
    ensures r.Err? <==> loaded && native.StreamCreationThrows?
    ensures r.Ok? ==> |r.value| <= 1 && forall k :: 0 <= k < |r.value| ==> r.value[k].text != []
    ensures loaded && native.Decoded? && !IsBlank(native.text) ==>
              r == Ok(BuildSegments(native.text, native.timestamps, LanguageOrNull(native.lang)))
  {
    if !loaded then Ok([])
    else
      match native
      case StreamCreationThrows => Err(StreamCreationFailed)
      case Throws(_) => Ok([])
      case Decoded(text, timestamps, lang) =>
        if IsBlank(text) then Ok([])
        else
          BlankIffTrimsToEmpty(text);
          Ok(BuildSegments(text, timestamps, LanguageOrNull(lang)))
  }

  /**
   * The native calls one transcribe makes: none without a recogniser or
   * when the stream cannot be created, otherwise they open with the stream's
   * creation and close with its release.
   */
  function TranscribeCalls(loaded: bool, native: NativeDecode): (calls: seq<NativeCall>)
    ensures calls == [] <==> !loaded || native.StreamCreationThrows?
    ensures calls != [] ==> calls[0] == StreamCreated && calls[|calls| - 1] == StreamReleased
    ensures ResultRead in calls <==> loaded && native.Decoded?
  {
    if !loaded then []
    else
      match native
      case StreamCreationThrows => []
      case Throws(AcceptWaveform) => [StreamCreated, StreamReleased]
      case Throws(Decode) => [StreamCreated, WaveformAccepted, StreamReleased]
      case Throws(GetResult) => [StreamCreated, WaveformAccepted, StreamDecoded, StreamReleased]
      case Decoded(_, _, _) => [StreamCreated, WaveformAccepted, StreamDecoded, ResultRead, StreamReleased]
  }

  /**
   * Transcribe absorbs failures: with no recogniser, a blank decode or a
   * throwing decode step it returns no segments; only a stream that cannot
   * be created escapes, and a non-blank decode gives exactly one segment
   * with non-empty trimmed text.
   */
  lemma TranscribeAbsorbsFailures(loaded: bool, native: NativeDecode)
    ensures !loaded ==> TranscribeOutcome(loaded, native) == Ok([])
    ensures native.Throws? ==> TranscribeOutcome(loaded, native) == Ok([])
    ensures native.Decoded? && IsBlank(native.text) ==> TranscribeOutcome(loaded, native) == Ok([])
    ensures TranscribeOutcome(loaded, native).Err? <==> loaded && native.StreamCreationThrows?
    ensures loaded && native.Decoded? && !IsBlank(native.text) ==>
              var out := TranscribeOutcome(loaded, native);
              out.Ok? && |out.value| == 1 && out.value[0].text != []
  {
  }

  /** Every stream transcribe creates is released, as its last native call. */
  lemma StreamAlwaysReleased(loaded: bool, native: NativeDecode)
    ensures StreamCreated in TranscribeCalls(loaded, native) ==>
              TranscribeCalls(loaded, native)[|TranscribeCalls(loaded, native)| - 1] == StreamReleased
    ensures StreamCreated in TranscribeCalls(loaded, native) <==> loaded && !native.StreamCreationThrows?
  {
  }

  class Engine {
    const modelType: SherpaModelType
    var recognizer: Option<Recognizer>
    /** The native calls made so far, oldest first. */
    ghost var nativeCalls: seq<NativeCall>

    constructor (modelType: SherpaModelType)
      ensures this.modelType == modelType && recognizer == None && nativeCalls == []
    {
      this.modelType := modelType;
      recognizer := None;
      nativeCalls := [];
    }

    /** Ready for transcription: a recogniser is loaded. */
    function IsLoaded(): (loaded: bool)
      reads this
      ensures loaded <==> recognizer.Some?
    {
      recognizer.Some?
    }

    /** This engine takes its audio from the caller (the interface default). */
    function IsSelfRecording(): (selfRecording: bool)
      ensures !selfRecording
    {
      DefaultIsSelfRecording()
    }

    /** The pull accessors keep the interface defaults. */
    function Snapshot(): (snapshot: PullSnapshot)
      ensures snapshot.confirmedText == [] && snapshot.hypothesisText == [] && snapshot.detectedLanguage.None?
    {
      DefaultSnapshot()
    }

    /** The self-recording controls keep the interface defaults: they do nothing. */
    method StartListening()
      ensures recognizer == old(recognizer) && nativeCalls == old(nativeCalls)
    {
    }

    method StopListening()
      ensures recognizer == old(recognizer) && nativeCalls == old(nativeCalls)
    {
    }

    /** Frees the native recogniser, if any; the engine is then unloaded. Idempotent. */
    method Release()
      modifies this
      ensures recognizer == None
      ensures nativeCalls == old(nativeCalls) + (if old(recognizer).Some? then [RecognizerReleased] else [])
    {
      if recognizer.Some? {
        nativeCalls := nativeCalls + [RecognizerReleased];
      }
      recognizer := None;
    }

    /**
     * Releases any loaded recogniser, then tries the preferred providers in
     * order; the first whose configuration builds and whose native
     * recogniser constructs becomes the recogniser, and no later provider is
     * tried. If none does, the engine stays unloaded and the result is false.
     */
    method LoadModel(modelPath: string, sdkInt: int, availableProcessors: int, existing: set<string>,
                     constructs: RecognizerConfig -> bool) returns (loaded: bool, ghost tried: seq<string>)
      modifies this
      ensures var providers := PreferredProviders(sdkInt);
              var threads := ComputeOfflineThreads(availableProcessors);
              var k := FirstLoadable(modelType, modelPath, threads, providers, existing, constructs, 0);
              && loaded == k.Some?
              && IsLoaded() == loaded
              && recognizer == (if k.Some? then TryProvider(modelType, modelPath, threads, providers[k.value], existing, constructs) else None)
              && tried == (if k.Some? then providers[..k.value + 1] else providers)
              && nativeCalls == old(nativeCalls)
                   + (if old(recognizer).Some? then [RecognizerReleased] else [])
                   + (if k.Some? then [RecognizerCreated(providers[k.value])] else [])
    {
      Release();
      ghost var afterRelease := nativeCalls;
      var providers := PreferredProviders(sdkInt);
      var threads := ComputeOfflineThreads(availableProcessors);
      tried := [];
      var i := 0;
      while i < |providers|
        invariant 0 <= i <= |providers|
        invariant tried == providers[..i]
        invariant recognizer == None && nativeCalls == afterRelease
        invariant FirstLoadable(modelType, modelPath, threads, providers, existing, constructs, 0)
                  == FirstLoadable(modelType, modelPath, threads, providers, existing, constructs, i)
      {
        var provider := providers[i];
        tried := tried + [provider];
        var config := BuildConfig(modelType, modelPath, threads, provider, existing);
        if config.Ok? && constructs(config.value) {
          recognizer := Some(Recognizer(config.value));
          nativeCalls := nativeCalls + [RecognizerCreated(provider)];
          assert tried == providers[..i + 1];
          return true, tried;
        }
        i := i + 1;
      }
      recognizer := None;
      loaded := false;
    }

    /**
     * Decodes `audioSamples` with the loaded recogniser. Never changes which
     * recogniser is loaded; releases the stream it creates on every path.
     */
    method Transcribe(audioSamples: seq<real>, numThreads: int, language: string, native: NativeDecode)
      returns (r: Result<seq<TranscriptionSegment>, TranscribeError>)
      modifies this`nativeCalls
      ensures r == TranscribeOutcome(old(IsLoaded()), native)
      ensures nativeCalls == old(nativeCalls) + TranscribeCalls(old(IsLoaded()), native)
    {
      if recognizer.None? {
        return Ok([]);
      }
      if native.StreamCreationThrows? {
        return Err(StreamCreationFailed);
      }
      nativeCalls := nativeCalls + [StreamCreated];
      match native {
        case Throws(step) =>
          if step != AcceptWaveform {
            nativeCalls := nativeCalls + [WaveformAccepted];
          }
          if step == GetResult {
            nativeCalls := nativeCalls + [StreamDecoded];
          }
          r := Ok([]);
        case Decoded(text, timestamps, lang) =>
          nativeCalls := nativeCalls + [WaveformAccepted, StreamDecoded, ResultRead];
          if IsBlank(text) {
            r := Ok([]);
          } else {
            r := Ok(BuildSegments(text, timestamps, LanguageOrNull(lang)));
          }
      }
      nativeCalls := nativeCalls + [StreamReleased];
    }
  }
}
