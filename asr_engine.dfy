/**
 * The Android recogniser interface: what every engine offers (load,
 * transcribe, the loaded flag, release) and the defaults of the optional
 * self-recording capability, which engines that take sample buffers keep.
 */
module AsrEngine {
  import opened Wrappers

  /** A transcribed span; times in milliseconds. */
  datatype TranscriptionSegment = TranscriptionSegment(
    text: string,
    startMs: int,
    endMs: int,
    detectedLanguage: Option<string>)

  /** What a self-recording engine reports when polled. */
  datatype PullSnapshot = PullSnapshot(
    confirmedText: string,
    hypothesisText: string,
    detectedLanguage: Option<string>)

  /** By default an engine takes its audio from the caller. */
  function DefaultIsSelfRecording(): (selfRecording: bool)
    ensures !selfRecording
  {
    false
  }

  /**
   * The default pull accessors: no confirmed text, no hypothesis text and
   * no language.
   */
  function DefaultSnapshot(): (snapshot: PullSnapshot)
    ensures snapshot.confirmedText == [] && snapshot.hypothesisText == []
    ensures snapshot.detectedLanguage.None?
  {
    PullSnapshot("", "", None)
  }
}
