/**
 * Where the downloader and the offline engine meet: the files the catalog
 * downloads for SenseVoice are the files the engine's configuration names.
 */
module DownloadThenLoad {
  import opened Wrappers
  import opened Text
  import M = ModelInfo
  import D = ModelDownloader
  import E = SherpaOnnx

  /**
   * Once SenseVoice Small counts as downloaded, loading it from its model
   * directory configures the quantised model file the catalog fetched, and
   * the tokens file the configuration names is on disk.
   */
  lemma DownloadedSenseVoiceLoadsQuantisedModel(modelsDir: string, fs: D.FileSystem, threads: int,
                                                provider: string)
    requires D.IsModelDownloaded(modelsDir, M.SenseVoiceSmall, fs)
    ensures var dir := D.ModelDir(modelsDir, M.SenseVoiceSmall);
            var config := E.BuildConfig(E.SENSE_VOICE, dir, threads, provider, fs.Keys);
            && config == Ok(E.RecognizerConfig(E.SenseVoiceFiles(PathJoin(dir, "model.int8.onnx")),
                                               PathJoin(dir, "tokens.txt"), threads, provider))
            && config.value.tokens in fs
            && config.value.files.model in fs
  {
    M.SenseVoiceFiles();
    var dir := D.ModelDir(modelsDir, M.SenseVoiceSmall);
    assert D.TargetPath(dir, M.SenseVoiceSmall.files[0]) in fs;
    assert D.TargetPath(dir, M.SenseVoiceSmall.files[1]) in fs;
    assert "model" + ".int8.onnx" == "model.int8.onnx";
  }
}
