/**
 * The Android model catalog: engine kinds, catalog entries with the files
 * each needs, the inference-method label, the default model and the
 * per-engine grouping shown in the model picker.
 */
module ModelInfo {
  import opened Wrappers
  import opened Text

  datatype EngineType = SHERPA_ONNX | ANDROID_SPEECH

  /** The catalog's sherpa-onnx model families (only SenseVoice is listed). */
  datatype SherpaModelType = SENSE_VOICE

  /** A file to fetch: where from, and the name it is stored under. */
  datatype ModelFile = ModelFile(url: string, localName: string)

  datatype ModelInfo = ModelInfo(
    id: string,
    displayName: string,
    engineType: EngineType,
    sherpaModelType: Option<SherpaModelType>,
    parameterCount: string,
    sizeOnDisk: string,
    description: string,
    languages: string,
    files: seq<ModelFile>)
  {
    /** The human-readable inference method, one label per engine. */
    function InferenceMethod(): (name: string)
      ensures engineType == SHERPA_ONNX ==> name == "sherpa-onnx offline (ONNX Runtime)"
      ensures engineType == ANDROID_SPEECH ==> name == "Android SpeechRecognizer (on-device)"
    {
      match engineType
      case SHERPA_ONNX => "sherpa-onnx offline (ONNX Runtime)"
      case ANDROID_SPEECH => "Android SpeechRecognizer (on-device)"
    }
  }

  const Https: string := "https://"
  const HuggingFaceHost: string := "huggingface.co"
  const SenseVoiceBaseUrl: string :=
    Https + HuggingFaceHost + "/csukuangfj/sherpa-onnx-sense-voice-zh-en-ja-ko-yue-2024-07-17/resolve/main/"

  const SenseVoiceSmall: ModelInfo := ModelInfo(
    "sensevoice-small",
    "SenseVoice Small",
    SHERPA_ONNX,
    Some(SENSE_VOICE),
    "234M",
    "~240 MB",
    "Multilingual (zh/en/ja/ko/yue). 5x faster than Whisper Small.",
    "zh/en/ja/ko/yue",
    [ ModelFile(SenseVoiceBaseUrl + "model.int8.onnx", "model.int8.onnx"),
      ModelFile(SenseVoiceBaseUrl + "tokens.txt", "tokens.txt") ])

  const AndroidSpeech: ModelInfo := ModelInfo(
    "android-speech",
    "Android Speech",
    ANDROID_SPEECH,
    None,
    "System",
    "0 MB",
    "Built-in Android speech recognition. No download required. On-device on Android 12+.",
    "System languages",
    [])

  /** The frozen catalog, in display order. */
  const AvailableModels: seq<ModelInfo> := [SenseVoiceSmall, AndroidSpeech]

  /** `first { it.id == id }`, with the no-such-element case as `None`. */
  function FindById(models: seq<ModelInfo>, id: string): (r: Option<ModelInfo>)
    ensures r.Some? ==> exists k :: 0 <= k < |models| && models[k] == r.value && r.value.id == id
                                    && forall j :: 0 <= j < k ==> models[j].id != id
    ensures r.None? ==> forall k :: 0 <= k < |models| ==> models[k].id != id
  {
    if models == [] then None
    else if models[0].id == id then Some(models[0])
    else
      var r := FindById(models[1..], id);
      assert forall k :: 0 <= k < |models| - 1 ==> models[1..][k] == models[k + 1];
      r
  }

  /** The catalog entry with id "sensevoice-small". */
  function DefaultModel(): (m: Option<ModelInfo>)
    ensures m.Some? && m.value in AvailableModels && m.value.id == "sensevoice-small"
  {
    assert AvailableModels[0].id == "sensevoice-small";
    FindById(AvailableModels, "sensevoice-small")
  }

  /** The models of `models` whose engine is `e`, in their original order. */
  function WithEngine(models: seq<ModelInfo>, e: EngineType): (r: seq<ModelInfo>)
    ensures |r| <= |models|
    ensures forall k :: 0 <= k < |r| ==> r[k].engineType == e
  {
    if models == [] then []
    else if models[0].engineType == e then [models[0]] + WithEngine(models[1..], e)
    else WithEngine(models[1..], e)
  }

  /**
   * `groupBy { it.engineType }`: one group per engine that occurs, each in
   * catalog order; the order of the groups themselves is not kept.
   */
  function GroupByEngine(models: seq<ModelInfo>): (groups: map<EngineType, seq<ModelInfo>>)
    ensures forall e :: e in groups ==> |groups[e]| <= |models| && forall m :: m in groups[e] ==> m.engineType == e
  {
    map e: EngineType | (exists k :: 0 <= k < |models| && models[k].engineType == e) :: WithEngine(models, e)
  }

  /** The catalog grouped by engine: every group holds catalog models of its own engine only. */
  function ModelsByEngine(): (groups: map<EngineType, seq<ModelInfo>>)
    ensures forall e :: e in groups ==> forall m :: m in groups[e] ==> m in AvailableModels && m.engineType == e
  {
    var groups := GroupByEngine(AvailableModels);
    assert forall e, m :: e in groups && m in groups[e] ==> m in AvailableModels by {
      forall e, m | e in groups && m in groups[e] ensures m in AvailableModels {
        WithEngineMembers(AvailableModels, e, m);
      }
    }
    groups
  }

  /** The label tells the engines apart. */
  lemma InferenceMethodDistinguishesEngines(a: ModelInfo, b: ModelInfo)
    ensures a.InferenceMethod() == b.InferenceMethod() <==> a.engineType == b.engineType
  {
    if a.engineType != b.engineType {
      assert a.InferenceMethod()[0] != b.InferenceMethod()[0];
    }
  }

  /** The catalog holds exactly the two entries, with distinct ids. */
  lemma CatalogEntries()
    ensures |AvailableModels| == 2
    ensures AvailableModels[0].id == "sensevoice-small" && AvailableModels[1].id == "android-speech"
    ensures AvailableModels[0].id != AvailableModels[1].id
  {
  }

  /** The default model is the SenseVoice entry, a sherpa-onnx model of the SenseVoice family. */
  lemma DefaultModelIsSenseVoice()
    ensures DefaultModel() == Some(SenseVoiceSmall)
    ensures DefaultModel().value.engineType == SHERPA_ONNX
    ensures DefaultModel().value.sherpaModelType == Some(SENSE_VOICE)
  {
  }

  /** Each SenseVoice file is fetched over HTTPS from Hugging Face, at the base URL plus its local name. */
  lemma SenseVoiceFiles()
    ensures |SenseVoiceSmall.files| == 2
    ensures SenseVoiceSmall.files[0].localName == "model.int8.onnx"
    ensures SenseVoiceSmall.files[1].localName == "tokens.txt"
    ensures forall f :: f in SenseVoiceSmall.files ==>
              f.url == SenseVoiceBaseUrl + f.localName && Https <= f.url
              && Contains(f.url, HuggingFaceHost)
  {
    assert SenseVoiceBaseUrl[|Https|..|Https| + |HuggingFaceHost|] == HuggingFaceHost;
    OccursAt(SenseVoiceBaseUrl, HuggingFaceHost, |Https|);
    assert Https <= SenseVoiceBaseUrl by {
      assert SenseVoiceBaseUrl[..|Https|] == Https;
    }
    forall f | f in SenseVoiceSmall.files
      ensures Https <= f.url && Contains(f.url, HuggingFaceHost)
    {
      PrefixExtends(Https, SenseVoiceBaseUrl, f.localName);
      ContainsInPrefix(SenseVoiceBaseUrl, f.localName, HuggingFaceHost);
    }
  }

  /** A prefix of `a` is a prefix of `a + b`. */
  lemma PrefixExtends(p: string, a: string, b: string)
    requires p <= a
    ensures p <= a + b
  {
    assert (a + b)[..|p|] == a[..|p|];
  }

  /** The platform-speech entry needs no download and names no sherpa-onnx family. */
  lemma AndroidSpeechNeedsNoFiles()
    ensures FindById(AvailableModels, "android-speech") == Some(AndroidSpeech)
    ensures AndroidSpeech.files == [] && AndroidSpeech.sherpaModelType == None
  {
  }

  /** A model lands in the group of engine `e` exactly when it is in the list and runs on `e`. */
  lemma {:induction false} WithEngineMembers(models: seq<ModelInfo>, e: EngineType, m: ModelInfo)
    ensures m in WithEngine(models, e) <==> m in models && m.engineType == e
  {
    if models != [] {
      WithEngineMembers(models[1..], e, m);
      assert models == [models[0]] + models[1..];
    }
  }

  /** Grouping keeps the list order: the group of a concatenation is the concatenation of the groups. */
  lemma {:induction false} WithEngineAppend(a: seq<ModelInfo>, b: seq<ModelInfo>, e: EngineType)
    ensures WithEngine(a + b, e) == WithEngine(a, e) + WithEngine(b, e)
  {
    if a == [] {
      assert a + b == b;
    } else {
      assert (a + b)[1..] == a[1..] + b;
      WithEngineAppend(a[1..], b, e);
    }
  }

  /**
   * `groupBy` partitions the list: the keys are the engines that occur, no
   * group is empty, and each model is in the group of its own engine and in
   * no other.
   */
  lemma GroupByEnginePartitions(models: seq<ModelInfo>)
    ensures forall e :: e in GroupByEngine(models) <==>
              exists k :: 0 <= k < |models| && models[k].engineType == e
    ensures forall e :: e in GroupByEngine(models) ==> GroupByEngine(models)[e] != []
    ensures forall k, e :: 0 <= k < |models| && e in GroupByEngine(models) ==>
              (models[k] in GroupByEngine(models)[e] <==> models[k].engineType == e)
  {
    var g := GroupByEngine(models);
    forall e | e in g ensures g[e] != [] {
      var k :| 0 <= k < |models| && models[k].engineType == e;
      WithEngineMembers(models, e, models[k]);
    }
    forall k, e | 0 <= k < |models| && e in g
      ensures models[k] in g[e] <==> models[k].engineType == e
    {
      WithEngineMembers(models, e, models[k]);
    }
  }

  /** The catalog's grouping: one model per engine. */
  lemma ModelsByEngineOfCatalog()
    ensures ModelsByEngine() == map[SHERPA_ONNX := [SenseVoiceSmall], ANDROID_SPEECH := [AndroidSpeech]]
  {
    var g := ModelsByEngine();
    assert AvailableModels[0].engineType == SHERPA_ONNX;
    assert AvailableModels[1].engineType == ANDROID_SPEECH;
    assert AvailableModels[1..] == [AndroidSpeech] && AvailableModels[1..][1..] == [];
    assert WithEngine(AvailableModels, SHERPA_ONNX) == [SenseVoiceSmall];
    assert WithEngine(AvailableModels, ANDROID_SPEECH) == [AndroidSpeech];
    assert g.Keys == {SHERPA_ONNX, ANDROID_SPEECH};
  }
}
