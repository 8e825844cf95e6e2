/**
 * The iOS engine factory: picks the recogniser implementation for a model
 * from its engine type alone.
 */
module EngineFactory {

  /** The iOS catalog's engine types. */
  datatype EngineType = appleSpeech | sherpaOnnxOffline

  /** The part of an iOS catalog entry the factory looks at. */
  datatype IosModelInfo = IosModelInfo(id: string, engineType: EngineType)

  /** The engine implementations the factory can construct. */
  datatype EngineKind = AppleSpeechEngine | SherpaOnnxOfflineEngine

  /** `makeEngine(for:)`: an exhaustive switch on the model's engine type. */
  function MakeEngine(model: IosModelInfo): (kind: EngineKind)
    ensures model.engineType == appleSpeech <==> kind == AppleSpeechEngine
    ensures model.engineType == sherpaOnnxOffline <==> kind == SherpaOnnxOfflineEngine
  {
    match model.engineType
    case appleSpeech => AppleSpeechEngine
    case sherpaOnnxOffline => SherpaOnnxOfflineEngine
  }

  /**
   * The engine kind depends on the engine type and nothing else, and
   * different engine types get different engines.
   */
  lemma EngineKindFollowsEngineType(a: IosModelInfo, b: IosModelInfo)
    ensures MakeEngine(a) == MakeEngine(b) <==> a.engineType == b.engineType
  {
  }

  /** Every engine kind is reachable from some model. */
  lemma EveryEngineKindIsMade(kind: EngineKind)
    ensures exists t: EngineType :: MakeEngine(IosModelInfo("", t)) == kind
  {
    var t := if kind == AppleSpeechEngine then appleSpeech else sherpaOnnxOffline;
    assert MakeEngine(IosModelInfo("", t)) == kind;
  }
}
