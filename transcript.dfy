/**
 * The live-transcript state of the transcription service: the confirmed and
 * unconfirmed (hypothesis) segment lists and the detected language, fed one
 * whole-buffer recognition result per decode cycle.
 *
 * Each fed result replaces the unconfirmed list wholesale; the confirmed list
 * is never touched by a feed (no segment is ever promoted), and only a clear
 * empties it. The texts are derived, never stored.
 */
module Transcript {
  import opened Wrappers
  import opened Text

  /** A recognised span of speech; `start` and `end` are in seconds. */
  datatype Segment = Segment(id: int, text: string, start: real, end: real)

  /** One full re-transcription of the audio captured so far. */
  datatype AsrResult = AsrResult(text: string, segments: seq<Segment>, language: Option<string>)

  /** The texts of `segs`, concatenated in order with no separator. */
  function JoinTexts(segs: seq<Segment>): (r: string)
    ensures segs == [] ==> r == []
  {
    if segs == [] then [] else segs[0].text + JoinTexts(segs[1..])
  }

  /** Joining distributes over concatenation of segment lists. */
  lemma {:induction false} JoinTextsAppend(a: seq<Segment>, b: seq<Segment>)
    ensures JoinTexts(a + b) == JoinTexts(a) + JoinTexts(b)
  {
    if a == [] {
      assert a + b == b;
    } else {
      assert (a + b)[1..] == a[1..] + b;
      JoinTextsAppend(a[1..], b);
    }
  }

  /** Every segment's text occurs, in full, in the joined text. */
  lemma {:induction false} JoinTextsContainsEach(segs: seq<Segment>, k: nat)
    requires k < |segs|
    ensures Contains(JoinTexts(segs), segs[k].text)
  {
    if k == 0 {
      assert segs[0].text <= JoinTexts(segs);
    } else {
      JoinTextsContainsEach(segs[1..], k - 1);
      ContainsInSuffix(segs[0].text, JoinTexts(segs[1..]), segs[k].text);
    }
  }

  /** What occurs in `b` occurs in `a + b`. */
  lemma {:induction false} ContainsInSuffix(a: string, b: string, t: string)
    requires Contains(b, t)
    ensures Contains(a + b, t)
  {
    if a == [] {
      assert a + b == b;
    } else {
      assert (a + b)[1..] == a[1..] + b;
      ContainsInSuffix(a[1..], b, t);
    }
  }

  /** The language a result carries, if it is present and non-empty. */
  function ReportedLanguage(r: AsrResult): (lang: Option<string>)
    ensures lang.Some? <==> r.language.Some? && r.language.value != []
    ensures lang.Some? ==> lang == r.language
  {
    match r.language
    case Some(l) => if l != [] then Some(l) else None
    case None => None
  }

  /** The observable transcript: the service's three stored fields. */
  datatype TranscriptState = TranscriptState(
    confirmed: seq<Segment>,
    unconfirmed: seq<Segment>,
    language: Option<string>)
  {
    /** The text of the confirmed segments, in order. */
    function ConfirmedText(): string
    {
      JoinTexts(confirmed)
    }

    /** The text of the unconfirmed segments, in order. */
    function HypothesisText(): string
    {
      JoinTexts(unconfirmed)
    }

    /** Confirmed text followed by hypothesis text, with outer whitespace trimmed. */
    function FullText(): string
    {
      Trim(ConfirmedText() + HypothesisText())
    }

    /**
     * Reconciling one result: its segments replace the unconfirmed list, the
     * confirmed list stays, and a non-empty reported language overwrites the
     * detected one.
     */
    function Fed(r: AsrResult): (t: TranscriptState)
      ensures t.confirmed == confirmed && t.unconfirmed == r.segments
      ensures r.language.Some? && r.language.value != [] ==> t.language == r.language
      ensures t.language != language ==> r.language.Some? && r.language.value != [] && t.language == r.language
    {
      TranscriptState(
        confirmed,
        r.segments,
        if ReportedLanguage(r).Some? then ReportedLanguage(r) else language)
    }
  }

  /** The state of a new or cleared service. */
  const Cleared := TranscriptState([], [], None)

  /** What drives the transcript: a fed decode-cycle result, or a clear. */
  datatype Op = FeedOp(result: AsrResult) | ClearOp

  /** The state reached from `s` by performing `ops` in order. */
  function Replay(s: TranscriptState, ops: seq<Op>): TranscriptState
    decreases |ops|
  {
    if ops == [] then s
    else
      var last := ops[|ops| - 1];
      var before := Replay(s, ops[..|ops| - 1]);
      match last
      case FeedOp(r) => before.Fed(r)
      case ClearOp => Cleared
  }

  /** Feeding each of `results`, in order. */
  function Feeds(results: seq<AsrResult>): (ops: seq<Op>)
    ensures |ops| == |results| && forall k :: 0 <= k < |results| ==> ops[k] == FeedOp(results[k])
  {
    seq(|results|, k requires 0 <= k < |results| => FeedOp(results[k]))
  }

  /** The last of a run of feeds is applied to the state the earlier ones reach. */
  lemma FeedsLastStep(s: TranscriptState, results: seq<AsrResult>)
    requires results != []
    ensures Replay(s, Feeds(results))
            == Replay(s, Feeds(results[..|results| - 1])).Fed(results[|results| - 1])
  {
    assert Feeds(results)[..|results| - 1] == Feeds(results[..|results| - 1]);
  }

  /**
   * The language the latest of `results` that reports one reported, or
   * `fallback` when none does.
   */
  function LatestReported(fallback: Option<string>, results: seq<AsrResult>): (lang: Option<string>)
    ensures (forall k :: 0 <= k < |results| ==> ReportedLanguage(results[k]).None?) ==> lang == fallback
    ensures forall k :: 0 <= k < |results| && ReportedLanguage(results[k]).Some?
                        && (forall j :: k < j < |results| ==> ReportedLanguage(results[j]).None?) ==>
              lang == ReportedLanguage(results[k])
    decreases |results|
  {
    if results == [] then fallback
    else
      var reported := ReportedLanguage(results[|results| - 1]);
      if reported.Some? then reported
      else
        var init := results[..|results| - 1];
        assert forall k :: 0 <= k < |init| ==> init[k] == results[k];
        LatestReported(fallback, init)
  }

  /**
   * After a run of feeds the detected language is the one the latest result
   * reporting a language reported, or the earlier one if none did; the
   * confirmed list is untouched.
   */
  lemma {:induction false} FeedsKeepLatestLanguage(s: TranscriptState, results: seq<AsrResult>)
    ensures Replay(s, Feeds(results)).confirmed == s.confirmed
    ensures Replay(s, Feeds(results)).language == LatestReported(s.language, results)
    decreases |results|
  {
    if results != [] {
      FeedsLastStep(s, results);
      FeedsKeepLatestLanguage(s, results[..|results| - 1]);
    }
  }

  /**
   * Replacement, not merge: once a result is fed, the hypothesis is that
   * result's text whatever the earlier state was, so text that only an
   * earlier result held is gone.
   */
  lemma HypothesisForgetsEarlierResults(s1: TranscriptState, s2: TranscriptState, r: AsrResult)
    ensures s1.Fed(r).HypothesisText() == s2.Fed(r).HypothesisText() == JoinTexts(r.segments)
    ensures s1.Fed(r).unconfirmed == r.segments
  {
  }

  /** A feed leaves the confirmed segments, and so the confirmed text, as they were. */
  lemma FeedKeepsConfirmed(s: TranscriptState, r: AsrResult)
    ensures s.Fed(r).confirmed == s.confirmed
    ensures s.Fed(r).ConfirmedText() == s.ConfirmedText()
  {
  }

  /**
   * Feeding an empty result empties the hypothesis; with nothing confirmed
   * the full text is then empty.
   */
  lemma FeedEmptyResult(s: TranscriptState, r: AsrResult)
    requires r.segments == []
    ensures s.Fed(r).unconfirmed == [] && s.Fed(r).HypothesisText() == []
    ensures s.confirmed == [] ==> s.Fed(r).FullText() == []
  {
    assert s.Fed(r).ConfirmedText() + s.Fed(r).HypothesisText() == s.ConfirmedText();
    if s.confirmed == [] {
      BlankIffTrimsToEmpty([]);
    }
  }

  /** The full text is the trimmed concatenation of the confirmed and hypothesis texts. */
  lemma {:induction false} FullTextOrder(s: TranscriptState)
    ensures s.FullText() == Trim(JoinTexts(s.confirmed + s.unconfirmed))
  {
    JoinTextsAppend(s.confirmed, s.unconfirmed);
  }

  /**
   * No segment is ever promoted: from a cleared state, every sequence of
   * feeds and clears leaves the confirmed list empty, so the full text is
   * the trimmed hypothesis.
   */
  lemma {:induction false} NothingIsEverConfirmed(ops: seq<Op>)
    ensures Replay(Cleared, ops).confirmed == []
    ensures Replay(Cleared, ops).ConfirmedText() == []
    ensures Replay(Cleared, ops).FullText() == Trim(Replay(Cleared, ops).HypothesisText())
    decreases |ops|
  {
    if ops != [] {
      NothingIsEverConfirmed(ops[..|ops| - 1]);
    }
    assert [] + Replay(Cleared, ops).HypothesisText() == Replay(Cleared, ops).HypothesisText();
  }

  /** The unconfirmed list is the segments of the most recent result, or empty after a clear. */
  lemma LastOpDecidesUnconfirmed(s: TranscriptState, ops: seq<Op>)
    requires ops != []
    ensures ops[|ops| - 1].FeedOp? ==>
              Replay(s, ops).unconfirmed == ops[|ops| - 1].result.segments
    ensures ops[|ops| - 1].ClearOp? ==> Replay(s, ops) == Cleared
  {
  }

  /**
   * The detected language is the one the most recent result reported, when
   * that result reported one.
   */
  lemma LanguageOfLatestResult(s: TranscriptState, ops: seq<Op>, lang: string)
    requires ops != [] && ops[|ops| - 1].FeedOp?
    requires ops[|ops| - 1].result.language == Some(lang) && lang != []
    ensures Replay(s, ops).language == Some(lang)
  {
  }

  /** Clearing is idempotent, and a clear forgets every earlier feed. */
  lemma {:induction false} ClearForgetsHistory(s: TranscriptState, ops: seq<Op>, later: seq<Op>)
    ensures Replay(s, ops + [ClearOp] + later) == Replay(Cleared, later)
    ensures Replay(s, ops + [ClearOp, ClearOp]) == Cleared
    decreases |later|
  {
    if later == [] {
      assert ops + [ClearOp] + later == ops + [ClearOp];
    } else {
      var init := later[..|later| - 1];
      assert (ops + [ClearOp] + later)[..|ops + [ClearOp] + later| - 1] == ops + [ClearOp] + init;
      ClearForgetsHistory(s, ops, init);
    }
    assert (ops + [ClearOp, ClearOp])[..|ops| + 1] == ops + [ClearOp];
  }

  /**
   * After a clear and a new feed only the new text shows: the full text is
   * the trimmed text of the new result, and holds each of its segments' texts.
   */
  lemma {:induction false} ClearThenFeedShowsOnlyNewText(r: AsrResult, k: nat)
    requires k < |r.segments|
    ensures Cleared.Fed(r).FullText() == Trim(JoinTexts(r.segments))
    ensures Contains(Cleared.Fed(r).HypothesisText(), r.segments[k].text)
  {
    assert Cleared.Fed(r).ConfirmedText() + Cleared.Fed(r).HypothesisText() == JoinTexts(r.segments);
    JoinTextsContainsEach(r.segments, k);
  }

  class TranscriptionService {
    var confirmedSegments: seq<Segment>
    var unconfirmedSegments: seq<Segment>
    var detectedLanguage: Option<string>

    /** The three stored fields as one value. */
    function State(): TranscriptState
      reads this
    {
      TranscriptState(confirmedSegments, unconfirmedSegments, detectedLanguage)
    }

    /** A new service holds no transcript and no language. */
    constructor ()
      ensures State() == Cleared
    {
      confirmedSegments := [];
      unconfirmedSegments := [];
      detectedLanguage := None;
    }

    /**
     * The confirmed segments' text, in order, empty with no segment
     * (`JoinTextsContainsEach` shows it contains every segment's text).
     */
    function ConfirmedText(): (text: string)
      reads this
      ensures text == JoinTexts(confirmedSegments)
      ensures confirmedSegments == [] ==> text == []
    {
      State().ConfirmedText()
    }

    /** The unconfirmed segments' text, in order, likewise. */
    function HypothesisText(): (text: string)
      reads this
      ensures text == JoinTexts(unconfirmedSegments)
      ensures unconfirmedSegments == [] ==> text == []
    {
      State().HypothesisText()
    }

    /**
     * The confirmed text followed by the hypothesis, trimmed: empty exactly
     * when both together are blank.
     */
    function FullTranscriptionText(): (text: string)
      reads this
      ensures text == Trim(JoinTexts(confirmedSegments) + JoinTexts(unconfirmedSegments))
      ensures text == [] <==> IsBlank(JoinTexts(confirmedSegments) + JoinTexts(unconfirmedSegments))
    {
      BlankIffTrimsToEmpty(JoinTexts(confirmedSegments) + JoinTexts(unconfirmedSegments));
      State().FullText()
    }

    /** Reconciles one decode cycle's result (see `TranscriptState.Fed`). */
    method Feed(r: AsrResult)
      modifies this
      ensures State() == old(State()).Fed(r)
      ensures unconfirmedSegments == r.segments && confirmedSegments == old(confirmedSegments)
    {
      var lang := ReportedLanguage(r);
      if lang.Some? {
        detectedLanguage := lang;
      }
      unconfirmedSegments := r.segments;
    }

    /** Empties both segment lists and forgets the language, all at once. */
    method Clear()
      modifies this
      ensures State() == Cleared
      ensures ConfirmedText() == [] && HypothesisText() == [] && FullTranscriptionText() == []
    {
      confirmedSegments := [];
      unconfirmedSegments := [];
      detectedLanguage := None;
      BlankIffTrimsToEmpty([]);
    }

    /**
     * Feeds `results` in order, as the stress test's loop does: the new state
     * is the old one replayed through those feeds: the unconfirmed list is
     * the last result's segments, the confirmed list is what it was, and the
     * language is the latest one reported (`FeedsKeepLatestLanguage`).
     */
    method FeedAll(results: seq<AsrResult>)
      modifies this
      ensures State() == Replay(old(State()), Feeds(results))
      ensures unconfirmedSegments == if results == [] then old(unconfirmedSegments)
                                     else results[|results| - 1].segments
      ensures confirmedSegments == old(confirmedSegments)
      ensures detectedLanguage == LatestReported(old(detectedLanguage), results)
    {
      ghost var start := State();
      var i := 0;
      while i < |results|
        invariant 0 <= i <= |results|
        invariant State() == Replay(old(State()), Feeds(results[..i]))
        invariant unconfirmedSegments == if i == 0 then old(unconfirmedSegments)
                                         else results[i - 1].segments
        invariant confirmedSegments == old(confirmedSegments)
      {
        assert Feeds(results[..i + 1])[..i] == Feeds(results[..i]);
        Feed(results[i]);
        i := i + 1;
      }
      assert results[..i] == results;
      FeedsKeepLatestLanguage(start, results);
    }
  }
}
