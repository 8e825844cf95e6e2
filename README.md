# Offline speech transcription core, modelled in Dafny

This project models the core of an offline speech-transcription app for
iOS and Android, and proves properties of that model. The core has six parts:

- **Transcript reconciliation** (iOS). Each decode cycle re-transcribes all
  audio of the session and yields a result. The service keeps confirmed and
  unconfirmed segment lists and a detected language. A new result *replaces*
  the unconfirmed list; it is never merged. `clear` resets everything at
  once. The service's own source is not part of this model. Its behaviour is
  taken from the pipeline tests, which are modelled as concrete scenarios
  (`PipelineScenarios`).
- **The sherpa-onnx offline engine** (Android), class `SherpaOnnx.Engine`:
  - A loaded or unloaded native recogniser.
  - Loading first releases any recogniser, then tries execution providers
    in order: NNAPI from SDK level 27, then the CPU.
  - Configuration prefers a quantised `*.int8.onnx` file and refuses the
    streaming-only Zipformer family.
  - `transcribe` turns every decode failure into an empty segment list and
    always releases the stream it creates.
- **The resumable model downloader** (Android), `ModelDownloader`:
  - Already-present files are skipped.
  - An existing `.tmp` staging file is resumed with a `Range` request.
  - A 206 response appends to the staging file; any other 2xx restarts it.
  - Progress is emitted per read.
  - The byte count is checked against the expected size.
  - The staging file is renamed into place, with a length-checked copy as
    fallback. A final 1.0 is emitted.
- **The engine interface defaults** (`AsrEngine`).
- **The Android model catalog** (`ModelInfo`).
- **The iOS engine factory** (`EngineFactory`).

Text helpers (`trim`, `isBlank`, `contains`, `File(dir, name)`) are in
`Text`. `DownloadThenLoad` connects the downloader's files to the engine's
configuration.

Native code, the network and the file system are oracles passed in as
parameters:

- A function `constructs` says whether the native recogniser accepts a
  configuration.
- A `NativeDecode` value says what one decode does.
- The file system is a map from path to length.
- One scripted `Exchange` per model file gives the HTTP response and what
  rename and copy do.

The methods are proved equal to specification functions: `Engine.LoadModel`
to `FirstLoadable`, and `Download` to `DownloadRun`. The lemmas state the
promised properties about those functions.

The transcription service's own source is not part of this model. Its
observable behaviour is taken from the pipeline tests, with these
conventions:

- Segment texts are joined with no separator. Each segment carries its own
  leading space (`" Hello"`), as in the tests.
- The full text is the confirmed text followed by the hypothesis text,
  trimmed. The test at `TranscriptionPipelineTests.swift:95` expects
  `"The quick"` from the segment `" The quick"`.
- The tests build a result's text by joining its segments with `" "`.
  Reconciliation reads only the segments and the language, so the
  scenarios leave that text empty.

Two language rules are the model's own choice. The tests neither confirm
nor contradict them:

- A result's language replaces the detected language only when it is
  non-empty (`ReportedLanguage`). Every result the tests build carries a
  non-empty language: "en", or "fr" then "en" at
  `TranscriptionPipelineTests.swift:161-167`.
- `clear` resets the detected language along with both segment lists. No
  test reads the language after a clear.

## Model

| member | source | states |
|---|---|---|
| Text.Trim | OfflineTranscriptionAndroid/app/src/main/kotlin/com/jima/offlinetranscription/service/SherpaOnnxEngine.kt:203 | the result is a slice of the input whose outside is all whitespace and whose first and last characters are not whitespace, whitespace being Kotlin's `Char.isWhitespace` set (ASCII controls and every Unicode space and separator) |
| Text.UnicodeSpaceIsBlank | OfflineTranscriptionAndroid/app/src/main/kotlin/com/jima/offlinetranscription/service/SherpaOnnxEngine.kt:86 | an ideographic space or a no-break space alone is blank and trims to the empty text |
| Text.BlankIffTrimsToEmpty | OfflineTranscriptionAndroid/app/src/main/kotlin/com/jima/offlinetranscription/service/SherpaOnnxEngine.kt:86 | a text is blank exactly when it trims to the empty text |
| Text.TrimIdempotent | OfflineTranscriptionAndroid/app/src/main/kotlin/com/jima/offlinetranscription/service/SherpaOnnxEngine.kt:203 | trimming twice is trimming once |
| Text.ContainsIffOccurs | OfflineTranscriptionTests/TranscriptionPipelineTests.swift:45 | `contains` holds exactly when the text occurs at some offset |
| Text.PathJoinInjective | VoicePingIOSAndroidOfflineSpeechTranslationAndroid/app/src/main/kotlin/com/jima/offlinetranscription/service/ModelDownloader.kt:29 | two names in one directory give the same path only if they are the same name |
| Text.PathJoin | VoicePingIOSAndroidOfflineSpeechTranslationAndroid/app/src/main/kotlin/com/jima/offlinetranscription/service/ModelDownloader.kt:29 | the path is the directory, one separator and the name, so both can be read back from it |
| Transcript.ReportedLanguage | OfflineTranscriptionTests/TranscriptionPipelineTests.swift:161-167 | a result reports a language exactly when it carries a non-empty one, and then reports that one |
| Transcript.JoinTexts | OfflineTranscriptionTests/TranscriptionPipelineTests.swift:31-46 | no segments join to the empty text |
| Transcript.JoinTextsAppend | OfflineTranscriptionTests/TranscriptionPipelineTests.swift:60-71 | the text of two segment lists together is the first list's text followed by the second's |
| Transcript.TranscriptState.Fed | OfflineTranscriptionTests/TranscriptionPipelineTests.swift:40-71 | a feed keeps the confirmed list, makes the result's segments the unconfirmed list, and changes the language only to a non-empty one the result reports |
| Transcript.LatestReported | OfflineTranscriptionTests/TranscriptionPipelineTests.swift:161-167 | the language of the latest result that reports one, or the fallback when none does |
| Transcript.FeedsKeepLatestLanguage | OfflineTranscriptionTests/TranscriptionPipelineTests.swift:161-167 | after a run of feeds the confirmed list is unchanged and the language is `LatestReported` of the earlier language and the results |
| Transcript.JoinTextsContainsEach | OfflineTranscriptionTests/TranscriptionPipelineTests.swift:40-46 | the joined text of a segment list contains every segment's text |
| Transcript.HypothesisForgetsEarlierResults | OfflineTranscriptionTests/TranscriptionPipelineTests.swift:48-80 | after a feed the unconfirmed list is the result's segments and the hypothesis is their text, whatever came before |
| Transcript.FeedKeepsConfirmed | OfflineTranscriptionTests/TranscriptionPipelineTests.swift:7-9 | a feed leaves the confirmed segments and confirmed text unchanged |
| Transcript.FeedEmptyResult | OfflineTranscriptionTests/TranscriptionPipelineTests.swift:84-89 | an empty result empties the unconfirmed list and the hypothesis, and with nothing confirmed the full text is empty |
| Transcript.FullTextOrder | OfflineTranscriptionTests/TranscriptionPipelineTests.swift:93-100 | the full text is the trimmed text of the confirmed segments followed by the unconfirmed ones |
| Transcript.NothingIsEverConfirmed | OfflineTranscriptionTests/TranscriptionPipelineTests.swift:7-9 | from a new or cleared service, any sequence of feeds and clears leaves nothing confirmed, so the full text is the trimmed hypothesis |
| Transcript.LastOpDecidesUnconfirmed | OfflineTranscriptionTests/TranscriptionPipelineTests.swift:104-117 | the unconfirmed list is the latest result's segments, or the state is fully cleared if the latest operation was a clear |
| Transcript.LanguageOfLatestResult | OfflineTranscriptionTests/TranscriptionPipelineTests.swift:161-167 | after a result with a non-empty language, that is the detected language |
| Transcript.ClearForgetsHistory | OfflineTranscriptionTests/TranscriptionPipelineTests.swift:121-157 | a clear erases all earlier feeds, and clearing twice is clearing once |
| Transcript.ClearThenFeedShowsOnlyNewText | OfflineTranscriptionTests/TranscriptionPipelineTests.swift:134-146 | after a clear and one feed, the full text is the new result's trimmed text and the hypothesis contains each of its segments |
| Transcript.TranscriptionService.constructor | OfflineTranscriptionTests/TranscriptionPipelineTests.swift:15-19 | a new service is in the cleared state |
| Transcript.TranscriptionService.ConfirmedText | OfflineTranscriptionTests/TranscriptionPipelineTests.swift:44 | the confirmed segments' texts joined, empty when nothing is confirmed |
| Transcript.TranscriptionService.HypothesisText | OfflineTranscriptionTests/TranscriptionPipelineTests.swift:45 | the unconfirmed segments' texts joined, empty when nothing is unconfirmed |
| Transcript.TranscriptionService.FullTranscriptionText | OfflineTranscriptionTests/TranscriptionPipelineTests.swift:89-100 | the confirmed text followed by the hypothesis, trimmed; empty exactly when the two together are blank |
| Transcript.TranscriptionService.Feed | OfflineTranscriptionTests/TranscriptionPipelineTests.swift:40-58 | the new state is the old state fed the result: unconfirmed replaced, confirmed kept, language overwritten only by a non-empty one |
| Transcript.TranscriptionService.Clear | OfflineTranscriptionTests/TranscriptionPipelineTests.swift:121-132 | both lists and the language are reset, and all three texts are empty |
| Transcript.TranscriptionService.FeedAll | OfflineTranscriptionTests/TranscriptionPipelineTests.swift:104-117 | the new state is the old one replayed through one feed per result: the last result's segments are unconfirmed, the confirmed list is unchanged, and the language is the latest one reported, or the old one if no result reports one |
| PipelineScenarios.FirstResultGoesToUnconfirmed | OfflineTranscriptionTests/TranscriptionPipelineTests.swift:40-46 | a first result's two segments are unconfirmed, nothing is confirmed, and the hypothesis contains "Hello" |
| PipelineScenarios.SecondResultReplacesFirst | OfflineTranscriptionTests/TranscriptionPipelineTests.swift:48-58 | after the second result the hypothesis contains "Hello" and "there" but not "world" |
| PipelineScenarios.MultipleFeedsReplaceUnconfirmed | OfflineTranscriptionTests/TranscriptionPipelineTests.swift:60-71 | after a three-segment and then a four-segment result, nothing is confirmed, four segments are unconfirmed and the hypothesis contains "fox" |
| PipelineScenarios.CompletelyDifferentResultReplaces | OfflineTranscriptionTests/TranscriptionPipelineTests.swift:73-80 | nothing is confirmed and the only unconfirmed segment is " Goodbye" |
| PipelineScenarios.EmptyResult | OfflineTranscriptionTests/TranscriptionPipelineTests.swift:84-89 | an empty result leaves both counts zero and the full text empty |
| PipelineScenarios.ProgressiveGrowth | OfflineTranscriptionTests/TranscriptionPipelineTests.swift:93-100 | the full text is "The quick", then contains "quick" and "brown" |
| PipelineScenarios.FeedSpacedWord | OfflineTranscriptionTests/TranscriptionPipelineTests.swift:93-100 | with nothing confirmed, feeding one English segment `" " + w` makes it the only unconfirmed segment and the language "en"; the full text is `w` and the hypothesis `" " + w` |
| PipelineScenarios.RapidSuccessiveResults | OfflineTranscriptionTests/TranscriptionPipelineTests.swift:104-117 | twenty growing results leave twenty unconfirmed segments |
| PipelineScenarios.ClearResetsAllState | OfflineTranscriptionTests/TranscriptionPipelineTests.swift:121-132 | the text shows before the clear, and afterwards both counts are zero and every text is empty |
| PipelineScenarios.ClearBetweenSessions | OfflineTranscriptionTests/TranscriptionPipelineTests.swift:134-146 | the first session's text shows before the clear and the full text is empty after it; then the only unconfirmed segment is the second session's, and the full text contains its text and not the first session's |
| PipelineScenarios.FeedThenClear | OfflineTranscriptionTests/TranscriptionPipelineTests.swift:148-157 | on a cleared service, one cycle shows exactly "Cycle n", then the clear empties the full text and leaves the service cleared |
| PipelineScenarios.FiveRapidClearCycles | OfflineTranscriptionTests/TranscriptionPipelineTests.swift:148-157 | in each cycle c of five, the full text is exactly "Cycle c" and the clear leaves it empty |
| PipelineScenarios.LanguageDetectionUpdated | OfflineTranscriptionTests/TranscriptionPipelineTests.swift:161-167 | the detected language is "fr", then "en" |
| PipelineScenarios.HypothesisTextUpdates | OfflineTranscriptionTests/TranscriptionPipelineTests.swift:171-178 | the hypothesis shows the second pass and no longer the first |
| AsrEngine.DefaultIsSelfRecording | VoicePingIOSAndroidOfflineSpeechTranslationAndroid/app/src/main/kotlin/com/jima/offlinetranscription/service/AsrEngine.kt:24-29 | by default an engine does not record audio itself |
| AsrEngine.DefaultSnapshot | VoicePingIOSAndroidOfflineSpeechTranslationAndroid/app/src/main/kotlin/com/jima/offlinetranscription/service/AsrEngine.kt:37-44 | the default pull accessors give empty confirmed and hypothesis texts and no language |
| SherpaOnnx.ComputeOfflineThreads | OfflineTranscriptionAndroid/app/src/main/kotlin/com/jima/offlinetranscription/service/SherpaOnnxEngine.kt:168-176 | between 1 and 6 decoder threads, and 1 on two cores or fewer |
| SherpaOnnx.ThreadsMonotone | OfflineTranscriptionAndroid/app/src/main/kotlin/com/jima/offlinetranscription/service/SherpaOnnxEngine.kt:168-176 | more cores never give fewer threads, and never more threads than cores |
| SherpaOnnx.PreferredProviders | OfflineTranscriptionAndroid/app/src/main/kotlin/com/jima/offlinetranscription/service/SherpaOnnxEngine.kt:178-185 | the CPU is always last, NNAPI is present exactly from SDK level 27, and then it comes first |
| SherpaOnnx.FindFile | OfflineTranscriptionAndroid/app/src/main/kotlin/com/jima/offlinetranscription/service/SherpaOnnxEngine.kt:187-192 | the path is the `.int8.onnx` file exactly when it exists, otherwise the plain `.onnx` file |
| SherpaOnnx.BuildConfig | OfflineTranscriptionAndroid/app/src/main/kotlin/com/jima/offlinetranscription/service/SherpaOnnxEngine.kt:107-166 | building fails exactly for the Zipformer family; otherwise it uses the given provider, the given thread count and the directory's tokens.txt |
| SherpaOnnx.FirstLoadable | OfflineTranscriptionAndroid/app/src/main/kotlin/com/jima/offlinetranscription/service/SherpaOnnxEngine.kt:47-61 | the chosen provider yields a recogniser and every provider before it yields none |
| SherpaOnnx.LoadFailsIffEveryProviderFails | OfflineTranscriptionAndroid/app/src/main/kotlin/com/jima/offlinetranscription/service/SherpaOnnxEngine.kt:43-67 | loading fails exactly when the CPU fails and, from SDK level 27, NNAPI fails too; the CPU is used only after NNAPI has failed |
| SherpaOnnx.ZipformerNeverLoads | OfflineTranscriptionAndroid/app/src/main/kotlin/com/jima/offlinetranscription/service/SherpaOnnxEngine.kt:123-125 | a Zipformer model never loads in this engine |
| SherpaOnnx.LanguageOrNull | OfflineTranscriptionAndroid/app/src/main/kotlin/com/jima/offlinetranscription/service/SherpaOnnxEngine.kt:88 | no language exactly when the reported one is blank; otherwise the reported one |
| SherpaOnnx.SecondsToMillis | OfflineTranscriptionAndroid/app/src/main/kotlin/com/jima/offlinetranscription/service/SherpaOnnxEngine.kt:200-201 | seconds times 1000, truncated toward zero |
| SherpaOnnx.WholeMillisecondsConvertExactly | OfflineTranscriptionAndroid/app/src/main/kotlin/com/jima/offlinetranscription/service/SherpaOnnxEngine.kt:200-201 | a time that is a whole number of milliseconds converts back to that number |
| SherpaOnnx.BuildSegments | OfflineTranscriptionAndroid/app/src/main/kotlin/com/jima/offlinetranscription/service/SherpaOnnxEngine.kt:194-211 | exactly one segment with the trimmed text and the language; times come from the first and last timestamps when there are at least two, else 0 |
| SherpaOnnx.TranscribeAbsorbsFailures | OfflineTranscriptionAndroid/app/src/main/kotlin/com/jima/offlinetranscription/service/SherpaOnnxEngine.kt:72-98 | no recogniser, a blank decode (blank in the Unicode sense of `isBlank`) or a throwing decode step gives no segments; only a failed stream creation escapes; a non-blank decode gives one non-empty segment |
| SherpaOnnx.StreamAlwaysReleased | OfflineTranscriptionAndroid/app/src/main/kotlin/com/jima/offlinetranscription/service/SherpaOnnxEngine.kt:80-95 | a stream is created exactly when a recogniser is loaded and creation succeeds, and a created stream is released as the last native call |
| SherpaOnnx.TryProvider | OfflineTranscriptionAndroid/app/src/main/kotlin/com/jima/offlinetranscription/service/SherpaOnnxEngine.kt:47-60 | a Zipformer model never yields a recogniser; a recogniser that is built has a configuration the native side accepts, with the given provider and thread count and the directory's tokens.txt; for the other families, no recogniser means the native side refused the configuration |
| SherpaOnnx.TranscribeOutcome | OfflineTranscriptionAndroid/app/src/main/kotlin/com/jima/offlinetranscription/service/SherpaOnnxEngine.kt:72-98 | the call throws exactly when a recogniser is loaded and stream creation throws; otherwise it gives at most one segment, with non-empty text; a non-blank decode gives exactly `BuildSegments` of its text, timestamps and non-blank language |
| SherpaOnnx.TranscribeCalls | OfflineTranscriptionAndroid/app/src/main/kotlin/com/jima/offlinetranscription/service/SherpaOnnxEngine.kt:78-95 | no native call exactly when nothing is loaded or stream creation throws; otherwise the stream is created first and released last, and the result is read exactly when the decode succeeds |
| SherpaOnnx.Engine.constructor | OfflineTranscriptionAndroid/app/src/main/kotlin/com/jima/offlinetranscription/service/SherpaOnnxEngine.kt:27-35 | a new engine has no recogniser and has made no native call |
| SherpaOnnx.Engine.IsLoaded | OfflineTranscriptionAndroid/app/src/main/kotlin/com/jima/offlinetranscription/service/SherpaOnnxEngine.kt:37 | loaded exactly when a recogniser is held |
| SherpaOnnx.Engine.IsSelfRecording | VoicePingIOSAndroidOfflineSpeechTranslationAndroid/app/src/main/kotlin/com/jima/offlinetranscription/service/AsrEngine.kt:29 | the sherpa-onnx engine inherits the default and does not record audio itself |
| SherpaOnnx.Engine.Snapshot | VoicePingIOSAndroidOfflineSpeechTranslationAndroid/app/src/main/kotlin/com/jima/offlinetranscription/service/AsrEngine.kt:37-44 | the inherited pull accessors give empty confirmed and hypothesis texts and no language |
| SherpaOnnx.Engine.StartListening | VoicePingIOSAndroidOfflineSpeechTranslationAndroid/app/src/main/kotlin/com/jima/offlinetranscription/service/AsrEngine.kt:32 | the inherited no-op leaves the recogniser and the native calls as they were |
| SherpaOnnx.Engine.StopListening | VoicePingIOSAndroidOfflineSpeechTranslationAndroid/app/src/main/kotlin/com/jima/offlinetranscription/service/AsrEngine.kt:35 | the inherited no-op leaves the recogniser and the native calls as they were |
| SherpaOnnx.Engine.Release | OfflineTranscriptionAndroid/app/src/main/kotlin/com/jima/offlinetranscription/service/SherpaOnnxEngine.kt:100-105 | the engine is unloaded, and a native release happens only if a recogniser was loaded |
| SherpaOnnx.Engine.LoadModel | OfflineTranscriptionAndroid/app/src/main/kotlin/com/jima/offlinetranscription/service/SherpaOnnxEngine.kt:39-70 | after releasing, the first provider that loads becomes the recogniser and no later provider is tried; if none loads, every provider was tried and the result is false |
| SherpaOnnx.Engine.Transcribe | OfflineTranscriptionAndroid/app/src/main/kotlin/com/jima/offlinetranscription/service/SherpaOnnxEngine.kt:72-98 | the result and the native calls are those of `TranscribeOutcome` and `TranscribeCalls` for the loaded state before the call |
| ModelInfo.ModelInfo.InferenceMethod | VoicePingIOSAndroidOfflineSpeechTranslationAndroid/app/src/main/kotlin/com/jima/offlinetranscription/model/ModelInfo.kt:19-23 | each engine type has its own fixed label |
| ModelInfo.InferenceMethodDistinguishesEngines | VoicePingIOSAndroidOfflineSpeechTranslationAndroid/app/src/main/kotlin/com/jima/offlinetranscription/model/ModelInfo.kt:19-23 | two models have the same label exactly when they have the same engine |
| ModelInfo.CatalogEntries | VoicePingIOSAndroidOfflineSpeechTranslationAndroid/app/src/main/kotlin/com/jima/offlinetranscription/model/ModelInfo.kt:29-54 | the catalog holds two entries, "sensevoice-small" then "android-speech" |
| ModelInfo.FindById | VoicePingIOSAndroidOfflineSpeechTranslationAndroid/app/src/main/kotlin/com/jima/offlinetranscription/model/ModelInfo.kt:56 | the first model with the id, or none when no model has it |
| ModelInfo.DefaultModel | VoicePingIOSAndroidOfflineSpeechTranslationAndroid/app/src/main/kotlin/com/jima/offlinetranscription/model/ModelInfo.kt:56 | the default exists, is a catalog entry and has the id "sensevoice-small" |
| ModelInfo.DefaultModelIsSenseVoice | VoicePingIOSAndroidOfflineSpeechTranslationAndroid/app/src/main/kotlin/com/jima/offlinetranscription/model/ModelInfo.kt:56 | the default model is the SenseVoice entry, a sherpa-onnx model of the SenseVoice family |
| ModelInfo.SenseVoiceFiles | VoicePingIOSAndroidOfflineSpeechTranslationAndroid/app/src/main/kotlin/com/jima/offlinetranscription/model/ModelInfo.kt:26-42 | SenseVoice needs model.int8.onnx and tokens.txt, each fetched over HTTPS from Hugging Face at the base URL plus its local name |
| ModelInfo.AndroidSpeechNeedsNoFiles | VoicePingIOSAndroidOfflineSpeechTranslationAndroid/app/src/main/kotlin/com/jima/offlinetranscription/model/ModelInfo.kt:44-53 | the platform-speech entry needs no files and names no sherpa-onnx family |
| ModelInfo.WithEngine | VoicePingIOSAndroidOfflineSpeechTranslationAndroid/app/src/main/kotlin/com/jima/offlinetranscription/model/ModelInfo.kt:59-60 | a group holds only models of its engine and is no longer than the list |
| ModelInfo.GroupByEngine | VoicePingIOSAndroidOfflineSpeechTranslationAndroid/app/src/main/kotlin/com/jima/offlinetranscription/model/ModelInfo.kt:59-60 | each group holds only models of its key's engine and is no longer than the list |
| ModelInfo.ModelsByEngine | VoicePingIOSAndroidOfflineSpeechTranslationAndroid/app/src/main/kotlin/com/jima/offlinetranscription/model/ModelInfo.kt:59-60 | every model in a group is a catalog entry of that group's engine |
| ModelInfo.WithEngineMembers | VoicePingIOSAndroidOfflineSpeechTranslationAndroid/app/src/main/kotlin/com/jima/offlinetranscription/model/ModelInfo.kt:59-60 | a model is in an engine's group exactly when it is in the list and runs on that engine |
| ModelInfo.WithEngineAppend | VoicePingIOSAndroidOfflineSpeechTranslationAndroid/app/src/main/kotlin/com/jima/offlinetranscription/model/ModelInfo.kt:59-60 | grouping keeps list order: the group of a concatenation is the concatenation of the groups |
| ModelInfo.GroupByEnginePartitions | VoicePingIOSAndroidOfflineSpeechTranslationAndroid/app/src/main/kotlin/com/jima/offlinetranscription/model/ModelInfo.kt:59-60 | the keys are exactly the engines that occur, no group is empty, and each model is in its own engine's group and no other |
| ModelInfo.ModelsByEngineOfCatalog | VoicePingIOSAndroidOfflineSpeechTranslationAndroid/app/src/main/kotlin/com/jima/offlinetranscription/model/ModelInfo.kt:59-60 | the catalog groups into SenseVoice under sherpa-onnx and platform speech under Android speech |
| EngineFactory.MakeEngine | OfflineTranscription/Services/EngineFactory.swift:6-13 | the Apple speech engine exactly for Apple speech models, the sherpa-onnx offline engine exactly for sherpa-onnx models |
| EngineFactory.EngineKindFollowsEngineType | OfflineTranscription/Services/EngineFactory.swift:6-13 | two models get the same engine kind exactly when they have the same engine type |
| EngineFactory.EveryEngineKindIsMade | OfflineTranscription/Services/EngineFactory.swift:6-13 | every engine kind is made for some model |
| ModelDownloader.ModelFilePath | VoicePingIOSAndroidOfflineSpeechTranslationAndroid/app/src/main/kotlin/com/jima/offlinetranscription/service/ModelDownloader.kt:32-35 | the path of the model's first file inside its directory; none exactly when the model has no files |
| ModelDownloader.ModelDir | VoicePingIOSAndroidOfflineSpeechTranslationAndroid/app/src/main/kotlin/com/jima/offlinetranscription/service/ModelDownloader.kt:29 | the models directory, a separator, then the model's id |
| ModelDownloader.ModelDirsDistinct | VoicePingIOSAndroidOfflineSpeechTranslationAndroid/app/src/main/kotlin/com/jima/offlinetranscription/service/ModelDownloader.kt:29 | two models share a directory exactly when they share an id |
| ModelDownloader.IsModelDownloaded | VoicePingIOSAndroidOfflineSpeechTranslationAndroid/app/src/main/kotlin/com/jima/offlinetranscription/service/ModelDownloader.kt:37-42 | a model counts as downloaded exactly when every one of its files exists in its directory, so always when it has no files |
| ModelDownloader.DownloadedModelFetchesNothing | VoicePingIOSAndroidOfflineSpeechTranslationAndroid/app/src/main/kotlin/com/jima/offlinetranscription/service/ModelDownloader.kt:37-63 | downloading a model that counts as downloaded sends no request, changes no file and completes |
| ModelDownloader.SkippedFrom | VoicePingIOSAndroidOfflineSpeechTranslationAndroid/app/src/main/kotlin/com/jima/offlinetranscription/service/ModelDownloader.kt:55-63 | when every remaining file exists, all are skipped: no request, no change, one value per file and then 1.0 |
| ModelDownloader.FetchFile | VoicePingIOSAndroidOfflineSpeechTranslationAndroid/app/src/main/kotlin/com/jima/offlinetranscription/service/ModelDownloader.kt:55-124 | a file is requested exactly when its target is missing, and a file that does not fail has its target in place afterwards |
| ModelDownloader.Transfer | VoicePingIOSAndroidOfflineSpeechTranslationAndroid/app/src/main/kotlin/com/jima/offlinetranscription/service/ModelDownloader.kt:65-124 | the file's URL is requested; a non-2xx status or a missing body changes no file and emits nothing; success leaves the target in place and no staging file |
| ModelDownloader.FinalizeFile | VoicePingIOSAndroidOfflineSpeechTranslationAndroid/app/src/main/kotlin/com/jima/offlinetranscription/service/ModelDownloader.kt:115-124 | success gives the target the staging file's length and removes the staging file; failure comes only after a failed rename, leaves no target and names the file |
| ModelDownloader.DownloadFrom | VoicePingIOSAndroidOfflineSpeechTranslationAndroid/app/src/main/kotlin/com/jima/offlinetranscription/service/ModelDownloader.kt:54-126 | at most one request per remaining file |
| ModelDownloader.DownloadRun | VoicePingIOSAndroidOfflineSpeechTranslationAndroid/app/src/main/kotlin/com/jima/offlinetranscription/service/ModelDownloader.kt:45-127 | at most one request per file, and a model with no files never fails |
| ModelDownloader.SafeDelete | VoicePingIOSAndroidOfflineSpeechTranslationAndroid/app/src/main/kotlin/com/jima/offlinetranscription/service/ModelDownloader.kt:129-133 | the path is gone and every other file is untouched |
| ModelDownloader.WriteBody | VoicePingIOSAndroidOfflineSpeechTranslationAndroid/app/src/main/kotlin/com/jima/offlinetranscription/service/ModelDownloader.kt:85-101 | the bytes counted are the kept bytes plus all reads, the staging file has that length, and the progress values are those of `ChunkProgress` |
| ModelDownloader.FinalizeOne | VoicePingIOSAndroidOfflineSpeechTranslationAndroid/app/src/main/kotlin/com/jima/offlinetranscription/service/ModelDownloader.kt:115-124 | the result is `FinalizeFile`'s: a rename, or a copy that is kept only if its length matches |
| ModelDownloader.FetchOne | VoicePingIOSAndroidOfflineSpeechTranslationAndroid/app/src/main/kotlin/com/jima/offlinetranscription/service/ModelDownloader.kt:55-124 | handling one file gives exactly `FetchFile`'s file system, request, progress and error |
| ModelDownloader.Download | VoicePingIOSAndroidOfflineSpeechTranslationAndroid/app/src/main/kotlin/com/jima/offlinetranscription/service/ModelDownloader.kt:45-127 | the whole run gives exactly `DownloadRun`'s file system, requests, progress and outcome |
| ModelDownloader.NoFilesEmitsOnlyOne | VoicePingIOSAndroidOfflineSpeechTranslationAndroid/app/src/main/kotlin/com/jima/offlinetranscription/service/ModelDownloader.kt:46-49 | a model with no files emits only 1.0, sends nothing and touches no file |
| ModelDownloader.ExistingFileIsSkipped | VoicePingIOSAndroidOfflineSpeechTranslationAndroid/app/src/main/kotlin/com/jima/offlinetranscription/service/ModelDownloader.kt:58-63 | a file whose target exists is not requested, nothing changes, and (i+1)/n is emitted |
| ModelDownloader.RangeRequestIffStagingFileExists | VoicePingIOSAndroidOfflineSpeechTranslationAndroid/app/src/main/kotlin/com/jima/offlinetranscription/service/ModelDownloader.kt:65-71 | a missing file is requested from its URL, with a range from the staging file's length exactly when a staging file exists |
| ModelDownloader.BadStatusWritesNothing | VoicePingIOSAndroidOfflineSpeechTranslationAndroid/app/src/main/kotlin/com/jima/offlinetranscription/service/ModelDownloader.kt:76-78 | a non-2xx status fails with that status and the file's name, writes nothing and emits nothing |
| ModelDownloader.ResumeAppendsRestartTruncates | VoicePingIOSAndroidOfflineSpeechTranslationAndroid/app/src/main/kotlin/com/jima/offlinetranscription/service/ModelDownloader.kt:81-87 | the finished file holds the kept bytes (206) or none (other 2xx) plus the bytes read, and the staging file is gone |
| ModelDownloader.SizeMismatchDiscardsStagingFile | VoicePingIOSAndroidOfflineSpeechTranslationAndroid/app/src/main/kotlin/com/jima/offlinetranscription/service/ModelDownloader.kt:106-113 | with a positive expected total, a mismatched count fails with both numbers and deletes the staging file; with no positive total it never fails as incomplete |
| ModelDownloader.CopyFallbackVerifiesLength | VoicePingIOSAndroidOfflineSpeechTranslationAndroid/app/src/main/kotlin/com/jima/offlinetranscription/service/ModelDownloader.kt:115-124 | when rename fails, finalising succeeds exactly when the copy has the staging file's length; on success the staging file is deleted, on failure the target is |
| ModelDownloader.ResumeWithUnknownLengthDiscardsStagingFile | VoicePingIOSAndroidOfflineSpeechTranslationAndroid/app/src/main/kotlin/com/jima/offlinetranscription/service/ModelDownloader.kt:81-83 | resuming a staging file of two or more bytes with a 206 of unknown length (-1) always fails the size check and deletes the staging file |
| ModelDownloader.ResumeWithUnknownLengthOvershoots | VoicePingIOSAndroidOfflineSpeechTranslationAndroid/app/src/main/kotlin/com/jima/offlinetranscription/service/ModelDownloader.kt:81-100 | in that situation the first read already reports progress past the file's share (past 1.0 for the last file) |
| ModelDownloader.FileProgressInSlot | VoicePingIOSAndroidOfflineSpeechTranslationAndroid/app/src/main/kotlin/com/jima/offlinetranscription/service/ModelDownloader.kt:94-98 | within one file, progress grows with the bytes read and stays between i/n and (i+1)/n |
| ModelDownloader.ChunkProgressInSlot | VoicePingIOSAndroidOfflineSpeechTranslationAndroid/app/src/main/kotlin/com/jima/offlinetranscription/service/ModelDownloader.kt:89-101 | while the bytes read stay within a positive total, one body's progress values never decrease and stay between the starting progress and the end of the file's share; with no positive total none are emitted |
| ModelDownloader.FetchFileProgressInSlot | VoicePingIOSAndroidOfflineSpeechTranslationAndroid/app/src/main/kotlin/com/jima/offlinetranscription/service/ModelDownloader.kt:55-101 | when the response's declared length covers its reads, and a 206 declares one, every value one file emits is in its share, in non-decreasing order |
| ModelDownloader.ProgressFromInRange | VoicePingIOSAndroidOfflineSpeechTranslationAndroid/app/src/main/kotlin/com/jima/offlinetranscription/service/ModelDownloader.kt:54-126 | when every response's declared length covers its reads, and every 206 declares one, the values emitted from file i on never decrease and lie in [i/n, 1] |
| ModelDownloader.CompletedFromEndsWithOne | VoicePingIOSAndroidOfflineSpeechTranslationAndroid/app/src/main/kotlin/com/jima/offlinetranscription/service/ModelDownloader.kt:126 | a run that completes ends with 1.0 |
| ModelDownloader.DownloadProgressInRange | VoicePingIOSAndroidOfflineSpeechTranslationAndroid/app/src/main/kotlin/com/jima/offlinetranscription/service/ModelDownloader.kt:44-127 | every emitted value is in [0, 1], the values never decrease, and a completed download ends with 1.0 |
| ModelDownloader.FetchFileSuccessKeepsFiles | VoicePingIOSAndroidOfflineSpeechTranslationAndroid/app/src/main/kotlin/com/jima/offlinetranscription/service/ModelDownloader.kt:55-124 | a file that succeeds ends up in place, and every file other than its own staging file is kept with its length unchanged |
| ModelDownloader.CompletedFromKeepsTargets | VoicePingIOSAndroidOfflineSpeechTranslationAndroid/app/src/main/kotlin/com/jima/offlinetranscription/service/ModelDownloader.kt:54-126 | a completed run over files i onward leaves all their targets in place and keeps every file that was there and is not one of their staging files, with its length unchanged |
| ModelDownloader.CompletedDownloadIsDownloaded | VoicePingIOSAndroidOfflineSpeechTranslationAndroid/app/src/main/kotlin/com/jima/offlinetranscription/service/ModelDownloader.kt:37-42 | after a download that completes, the model counts as downloaded |
| ModelDownloader.CatalogHasNoStagingNameClash | VoicePingIOSAndroidOfflineSpeechTranslationAndroid/app/src/main/kotlin/com/jima/offlinetranscription/model/ModelInfo.kt:39-42 | no catalog file is named like another file's staging file |
| DownloadThenLoad.DownloadedSenseVoiceLoadsQuantisedModel | OfflineTranscriptionAndroid/app/src/main/kotlin/com/jima/offlinetranscription/service/SherpaOnnxEngine.kt:126-136 | once SenseVoice is downloaded, its configuration names the downloaded model.int8.onnx and a tokens file that exists |

## Left out

- Locks, coroutines, dispatchers and the `Flow` machinery are not modelled. Each operation is taken to run alone, and a download's emitted values are returned as a sequence.
- Logging is not modelled, nor the `lastError` variable of `loadModel`, which only feeds a log line.
- `absolutePath` is not modelled: paths are `dir + "/" + name`. `mkdirs` is not modelled either.
- OkHttp client settings are not modelled: timeouts and redirects.
- Exceptions from the network and the file system are not modelled: `execute()` failing to connect or timing out before any response exists, an I/O error while a body is read, and an exception from `copyTo`. Each ends the download with that exception. A connection failure leaves any staging file in place. Every modelled exchange has a response.
- The 8 KiB read buffer is not modelled. A body is a sequence of reads of any size.
- File deletion is taken to succeed. `safeDelete` ignores failures, and the model ignores them too.
- Configuration fields that do not change behaviour are left out: sample rate, feature dimension, decoding method, debug flag, SenseVoice language and inverse normalisation, and the NeMo model-type tag. `BuildConfig` keeps the files, tokens, threads and provider.
- `transcribe`'s `numThreads` and `language` parameters, and the audio samples themselves, do not affect the result. The decode is an oracle.
- The native library is not modelled. Whether a configuration constructs, and what a decode returns, are parameters.
- Floating point: progress and timestamps are exact reals. Kotlin `Float` rounding, and `toLong` on NaN or out-of-range values, are not modelled.
- `Runtime.availableProcessors()` and `Build.VERSION.SDK_INT` are parameters.
- `AsrEngine` is an interface in the source. Traits are not used here, so its defaults are plain functions. `SherpaOnnx.Engine` implements it directly.
- ModelInfo.GroupByEngine: Kotlin's `groupBy` returns a map whose keys keep first-occurrence order (sherpa-onnx, then Android speech). A Dafny `map` has no key order, so only the order inside each group is modelled (`WithEngineAppend`), not the order of the groups.
- In `ModelInfo`, display strings such as the name, size, description and languages are fields only; nothing is proved about them. The iOS catalog is reduced to the id and engine type that `EngineFactory` reads.
- The transcription service's own source is not part of this model. Its recording and session state machine are left out. How it joins segment texts is inferred from the pipeline tests, as described above.
- ModelDownloader.DownloadProgressInRange: assumes each body with a declared length delivers no more bytes than that length, and that a 206 declares its length. An unknown length (-1) on a 200 emits no values and is allowed. With an unknown length on a resumed 206, the values can exceed 1.0 before the size check fails; `ResumeWithUnknownLengthOvershoots` proves this.
- ModelDownloader.FetchFileProgressInSlot, ModelDownloader.ProgressFromInRange: the same assumption as `DownloadProgressInRange`.
- ModelDownloader.CompletedDownloadIsDownloaded: assumes no file of the model is named like another file's staging file. `CatalogHasNoStagingNameClash` proves the catalog meets this.
- ModelInfo.FindById: Kotlin's `first { }` throws `NoSuchElementException` when no model has the id. The model returns `None` instead of an exception.
- ModelDownloader.ModelFilePath: Kotlin's `first()` throws on a model with no files. The model returns `None` instead of an exception.
- Text.IsWhitespace: Kotlin's whitespace set is used for the iOS service's trimming too. If that service trims with Swift's `whitespacesAndNewlines`, the sets differ in two ways. Swift's set holds U+0085 (next line), which this model does not treat as whitespace. Swift's set lacks U+001C–U+001F, which this model does treat as whitespace.
