// The transcription pipeline's reconciliation, driven through the service
// the way the pipeline tests drive it: concrete results fed in order, with
// the observable texts, counts and language stated as postconditions.

module PipelineScenarios {
  import opened Wrappers
  import opened Text
  import opened Transcript

  /**
   * A result reported in English, as the tests build them. Its own text
   * field is left empty: reconciliation reads only the segments and the
   * language.
   */
  function English(segments: seq<Segment>): (r: AsrResult)
    ensures r.segments == segments && r.language == Some("en")
  {
    AsrResult("", segments, Some("en"))
  }

  /** The decimal digit for `d`. */
  function DigitChar(d: nat): (c: char)
    requires d < 10
    ensures '0' <= c <= '9'
  {
    ('0' as int + d) as char
  }

  /** `"\(n)"`: the decimal digits of `n`, most significant first. */
  function Decimal(n: nat): (s: string)
    ensures s != [] && forall k :: 0 <= k < |s| ==> '0' <= s[k] <= '9'
    decreases n
  {
    if n < 10 then [DigitChar(n)] else Decimal(n / 10) + [DigitChar(n % 10)]
  }

  const SessionOne := "Session one"
  const SessionTwo := "Session two"
  const FirstPass := "first pass"
  const SecondPass := "second pass"
  const TheQuick := "The quick"
  const TheQuickBrown := "The quick brown"

  /** `"Cycle \(cycle)"`. */
  function CycleText(cycle: nat): string
  {
    "Cycle " + Decimal(cycle)
  }

  /** Two segments join to their two texts. */
  lemma JoinTwo(segs: seq<Segment>)
    requires |segs| == 2
    ensures JoinTexts(segs) == segs[0].text + segs[1].text
  {
    assert JoinTexts(segs[1..]) == segs[1].text + JoinTexts(segs[2..]);
  }

  /**
   * A state with nothing confirmed and one segment " w" shows " w" as its
   * hypothesis and `w` as its full text, and both contain `w`.
   */
  lemma SpacedWordShows(st: TranscriptState, w: string)
    requires st.confirmed == [] && |st.unconfirmed| == 1 && st.unconfirmed[0].text == " " + w
    requires w != [] && !IsWhitespace(w[0]) && !IsWhitespace(w[|w| - 1])
    ensures st.HypothesisText() == " " + w && st.FullText() == w
    ensures Contains(st.HypothesisText(), w) && Contains(st.FullText(), w)
  {
    JoinOne(st.unconfirmed);
    assert st.ConfirmedText() + st.HypothesisText() == " " + w;
    TrimLeadingSpace(w);
    ContainsAfterSpace(w);
    ContainsItself(w);
  }

  /** One segment joins to its own text. */
  lemma JoinOne(segs: seq<Segment>)
    requires |segs| == 1
    ensures JoinTexts(segs) == segs[0].text
  {
    assert JoinTexts(segs[1..]) == [];
  }

  /**
   * Feeds one segment " w" to a service with nothing confirmed, then reads
   * the service's full text and hypothesis: the full text is `w` and the
   * hypothesis " w".
   */
  method FeedSpacedWord(service: TranscriptionService, id: int, w: string, start: real, end: real)
    returns (full: string, hypothesis: string)
    requires service.confirmedSegments == []
    requires w != [] && !IsWhitespace(w[0]) && !IsWhitespace(w[|w| - 1])
    modifies service
    ensures service.confirmedSegments == [] && service.unconfirmedSegments == [Segment(id, " " + w, start, end)]
    ensures service.detectedLanguage == Some("en")
    ensures full == w && hypothesis == " " + w
  {
    service.Feed(English([Segment(id, " " + w, start, end)]));
    SpacedWordShows(service.State(), w);
    full, hypothesis := service.FullTranscriptionText(), service.HypothesisText();
  }

  /** A first result goes to the unconfirmed list; nothing is confirmed. */
  method FirstResultGoesToUnconfirmed() returns (confirmedCount: nat, unconfirmedCount: nat,
                                                 confirmed: string, hypothesis: string)
    ensures confirmedCount == 0 && unconfirmedCount == 2 && confirmed == []
    ensures Contains(hypothesis, "Hello")
  {
    var service := new TranscriptionService();
    service.Feed(English([Segment(1, " Hello", 0.0, 1.0), Segment(2, " world", 1.0, 2.0)]));
    confirmedCount, unconfirmedCount := |service.confirmedSegments|, |service.unconfirmedSegments|;
    confirmed, hypothesis := service.ConfirmedText(), service.HypothesisText();
    HelloFirst(service.unconfirmedSegments);
  }

  lemma HelloFirst(segs: seq<Segment>)
    requires |segs| == 2 && segs[0].text == " Hello"
    ensures Contains(JoinTexts(segs), "Hello")
  {
    JoinTwo(segs);
    var h := JoinTexts(segs);
    assert h[1..6] == "Hello";
    OccursAt(h, "Hello", 1);
  }

  /** A second result replaces the first: its words are shown, the dropped one is not. */
  method SecondResultReplacesFirst() returns (confirmedCount: nat, unconfirmedCount: nat, hypothesis: string)
    ensures confirmedCount == 0 && unconfirmedCount == 2
    ensures Contains(hypothesis, "Hello") && Contains(hypothesis, "there")
    ensures !Contains(hypothesis, "world")
  {
    var service := new TranscriptionService();
    service.Feed(English([Segment(1, " Hello", 0.0, 1.0), Segment(2, " world", 1.0, 2.0)]));
    service.Feed(English([Segment(3, " Hello", 0.0, 1.0), Segment(4, " there", 1.0, 2.5)]));
    confirmedCount, unconfirmedCount := |service.confirmedSegments|, |service.unconfirmedSegments|;
    hypothesis := service.HypothesisText();
    HelloThere(service.unconfirmedSegments);
  }

  lemma HelloThere(segs: seq<Segment>)
    requires |segs| == 2 && segs[0].text == " Hello" && segs[1].text == " there"
    ensures Contains(JoinTexts(segs), "Hello") && Contains(JoinTexts(segs), "there")
    ensures !Contains(JoinTexts(segs), "world")
  {
    HelloFirst(segs);
    JoinTwo(segs);
    var h := JoinTexts(segs);
    assert h[7..12] == "there";
    OccursAt(h, "there", 7);
    MissingFirstCharNotContained(h, "world");
  }

  /** A longer second result replaces the first: all four of its segments are unconfirmed. */
  method MultipleFeedsReplaceUnconfirmed() returns (confirmedCount: nat, unconfirmedCount: nat,
                                                    hypothesis: string)
    ensures confirmedCount == 0 && unconfirmedCount == 4
    ensures Contains(hypothesis, "fox")
  {
    var service := new TranscriptionService();
    service.Feed(English([Segment(1, " The", 0.0, 0.5), Segment(2, " quick", 0.5, 1.0),
                          Segment(3, " brown", 1.0, 1.5)]));
    service.Feed(English([Segment(4, " The", 0.0, 0.5), Segment(5, " quick", 0.5, 1.0),
                          Segment(6, " brown", 1.0, 1.5), Segment(7, " fox", 1.5, 2.0)]));
    confirmedCount, unconfirmedCount := |service.confirmedSegments|, |service.unconfirmedSegments|;
    hypothesis := service.HypothesisText();
    SpacedSegmentShows(service.unconfirmedSegments, 3, "fox");
  }

  /** A segment " w" of a list puts `w` into the list's joined text. */
  lemma SpacedSegmentShows(segs: seq<Segment>, k: nat, w: string)
    requires k < |segs| && segs[k].text == " " + w
    ensures Contains(JoinTexts(segs), w)
  {
    JoinTextsContainsEach(segs, k);
    assert (" " + w)[1..] == w;
    ContainsDropFirst(JoinTexts(segs), " " + w);
  }

  /** A completely different result replaces the earlier one segment for segment. */
  method CompletelyDifferentResultReplaces() returns (confirmedCount: nat, unconfirmed: seq<Segment>)
    ensures confirmedCount == 0
    ensures |unconfirmed| == 1 && unconfirmed[0].text == " Goodbye"
  {
    var service := new TranscriptionService();
    service.Feed(English([Segment(1, " Hello", 0.0, 1.0)]));
    service.Feed(English([Segment(2, " Goodbye", 0.0, 1.0)]));
    confirmedCount := |service.confirmedSegments|;
    unconfirmed := service.unconfirmedSegments;
  }

  /** An empty result leaves both lists and the full text empty. */
  method EmptyResult() returns (confirmedCount: nat, unconfirmedCount: nat, full: string)
    ensures confirmedCount == 0 && unconfirmedCount == 0 && full == []
  {
    var service := new TranscriptionService();
    service.Feed(English([]));
    confirmedCount, unconfirmedCount := |service.confirmedSegments|, |service.unconfirmedSegments|;
    full := service.FullTranscriptionText();
    NothingShows(service.State());
  }

  /** A state with no segments at all shows no text. */
  lemma NothingShows(st: TranscriptState)
    requires st.confirmed == [] && st.unconfirmed == []
    ensures st.ConfirmedText() == [] && st.HypothesisText() == [] && st.FullText() == []
  {
    assert st.ConfirmedText() + st.HypothesisText() == [];
    BlankIffTrimsToEmpty([]);
  }

  /** The full text is trimmed, and grows as later results extend the hypothesis. */
  method ProgressiveGrowth() returns (first: string, second: string)
    ensures first == TheQuick
    ensures Contains(second, "quick") && Contains(second, "brown")
  {
    var service := new TranscriptionService();
    var hypothesis;
    first, hypothesis := FeedSpacedWord(service, 1, TheQuick, 0.0, 1.0);
    service.Feed(English([Segment(1, " " + TheQuick, 0.0, 1.0), Segment(2, " brown", 1.0, 1.5)]));
    QuickBrown(service.State());
    second := service.FullTranscriptionText();
  }

  /** " The quick" followed by " brown" joins to " The quick brown". */
  lemma QuickBrownJoined(segs: seq<Segment>)
    requires |segs| == 2 && segs[0].text == " " + TheQuick && segs[1].text == " brown"
    ensures JoinTexts(segs) == " " + TheQuickBrown
  {
    JoinTwo(segs);
  }

  /** "The quick brown" contains "quick" and "brown". */
  lemma QuickBrownWords()
    ensures Contains(TheQuickBrown, "quick") && Contains(TheQuickBrown, "brown")
  {
    assert TheQuickBrown[4..9] == "quick";
    OccursAt(TheQuickBrown, "quick", 4);
    assert TheQuickBrown[10..15] == "brown";
    OccursAt(TheQuickBrown, "brown", 10);
  }

  /** With " The quick" and " brown" unconfirmed, the full text is "The quick brown". */
  lemma QuickBrown(st: TranscriptState)
    requires st.confirmed == [] && |st.unconfirmed| == 2
    requires st.unconfirmed[0].text == " " + TheQuick && st.unconfirmed[1].text == " brown"
    ensures st.FullText() == TheQuickBrown
    ensures Contains(st.FullText(), "quick") && Contains(st.FullText(), "brown")
  {
    QuickBrownJoined(st.unconfirmed);
    assert st.ConfirmedText() + st.HypothesisText() == " " + TheQuickBrown;
    TrimLeadingSpace(TheQuickBrown);
    QuickBrownWords();
  }

  /**
   * Twenty results of one, two, ..., twenty segments " word0", " word1", ...
   * fed in rapid succession leave exactly the last result's twenty segments.
   */
  method RapidSuccessiveResults() returns (total: nat, unconfirmedCount: nat)
    ensures total > 0 && unconfirmedCount == 20
  {
    var results: seq<AsrResult> := [];
    var segs: seq<Segment> := [];
    for i := 0 to 20
      invariant |results| == i && |segs| == i
      invariant forall k :: 0 <= k < i ==> |results[k].segments| == k + 1
    {
      segs := segs + [Segment(i, " word" + Decimal(i), i as real, (i + 1) as real)];
      results := results + [English(segs)];
    }
    var service := new TranscriptionService();
    service.FeedAll(results);
    total := |service.confirmedSegments| + |service.unconfirmedSegments|;
    unconfirmedCount := |service.unconfirmedSegments|;
  }

  /** Clearing empties both lists and every text. */
  method ClearResetsAllState() returns (before: string, confirmedCount: nat, unconfirmedCount: nat,
                                        confirmed: string, hypothesis: string, full: string)
    ensures Contains(before, SessionOne)
    ensures confirmedCount == 0 && unconfirmedCount == 0
    ensures confirmed == [] && hypothesis == [] && full == []
  {
    var service := new TranscriptionService();
    var shownHypothesis;
    before, shownHypothesis := FeedSpacedWord(service, 1, SessionOne, 0.0, 5.0);
    ContainsItself(SessionOne);
    service.Clear();
    confirmedCount, unconfirmedCount := |service.confirmedSegments|, |service.unconfirmedSegments|;
    confirmed, hypothesis, full := service.ConfirmedText(), service.HypothesisText(), service.FullTranscriptionText();
  }

  /** After a clear, a new session's text shows and the old session's does not. */
  method ClearBetweenSessions() returns (before: string, afterClear: string, unconfirmed: seq<Segment>,
                                         full: string)
    ensures Contains(before, SessionOne)
    ensures afterClear == []
    ensures |unconfirmed| == 1 && unconfirmed[0].text == " " + SessionTwo
    ensures !Contains(full, SessionOne) && Contains(full, SessionTwo)
  {
    var service := new TranscriptionService();
    var hypothesis;
    before, hypothesis := FeedSpacedWord(service, 1, SessionOne, 0.0, 2.0);
    ContainsItself(SessionOne);
    service.Clear();
    afterClear := service.FullTranscriptionText();
    full, hypothesis := FeedSpacedWord(service, 2, SessionTwo, 0.0, 2.0);
    unconfirmed := service.unconfirmedSegments;
    ContainsItself(SessionTwo);
    SessionTwoLacksSessionOne();
  }

  lemma SessionTwoLacksSessionOne()
    ensures !Contains(SessionTwo, SessionOne)
  {
    ContainsIffOccurs(SessionTwo, SessionOne);
    forall i: nat ensures !OccursAtIndex(SessionTwo, SessionOne, i) {
      if i == 0 {
        assert SessionTwo[8] != SessionOne[8];
      }
    }
  }

  /** "Cycle <n>" starts and ends with a character that is not whitespace. */
  lemma CycleTextEnds(cycle: nat)
    ensures var w := CycleText(cycle);
            w != [] && !IsWhitespace(w[0]) && !IsWhitespace(w[|w| - 1])
  {
    var w := CycleText(cycle);
    var digits := Decimal(cycle);
    assert w[|w| - 1] == digits[|digits| - 1];
  }

  /** One cycle on a cleared service: feed " Cycle <n>", read the full text, clear, read it again. */
  method FeedThenClear(service: TranscriptionService, cycle: nat) returns (full: string, after: string)
    requires service.State() == Cleared
    modifies service
    ensures full == CycleText(cycle) && after == []
    ensures service.State() == Cleared
  {
    CycleTextEnds(cycle);
    var hypothesis;
    full, hypothesis := FeedSpacedWord(service, cycle, CycleText(cycle), 0.0, 2.0);
    service.Clear();
    after := service.FullTranscriptionText();
  }

  /**
   * Five feed-then-clear cycles: cycle c's own text "Cycle c" shows, and each
   * clear leaves nothing.
   */
  method FiveRapidClearCycles() returns (shown: seq<string>, cleared: seq<string>)
    ensures |shown| == 5 && |cleared| == 5
    ensures forall c :: 0 <= c < 5 ==> shown[c] == CycleText(c) && cleared[c] == []
    ensures forall c :: 0 <= c < 5 ==> Contains(shown[c], CycleText(c))
  {
    var service := new TranscriptionService();
    shown, cleared := [], [];
    for c := 0 to 5
      invariant |shown| == c && |cleared| == c
      invariant forall k :: 0 <= k < c ==> shown[k] == CycleText(k) && cleared[k] == []
      invariant service.State() == Cleared
    {
      var full, after := FeedThenClear(service, c);
      shown, cleared := shown + [full], cleared + [after];
    }
    forall c | 0 <= c < 5 ensures Contains(shown[c], CycleText(c)) {
      ContainsItself(shown[c]);
    }
  }

  /** The detected language follows the latest result: French, then English. */
  method LanguageDetectionUpdated() returns (first: Option<string>, second: Option<string>)
    ensures first == Some("fr") && second == Some("en")
  {
    var service := new TranscriptionService();
    service.Feed(AsrResult("Bonjour", [Segment(1, " Bonjour", 0.0, 1.0)], Some("fr")));
    first := service.detectedLanguage;
    service.Feed(AsrResult("Hello", [Segment(2, " Hello", 0.0, 1.0)], Some("en")));
    second := service.detectedLanguage;
  }

  /** The hypothesis shows the latest pass and not the earlier one. */
  method HypothesisTextUpdates() returns (first: string, second: string)
    ensures Contains(first, FirstPass)
    ensures Contains(second, SecondPass) && !Contains(second, FirstPass)
  {
    var service := new TranscriptionService();
    var full;
    full, first := FeedSpacedWord(service, 1, FirstPass, 0.0, 2.0);
    ContainsAfterSpace(FirstPass);
    full, second := FeedSpacedWord(service, 2, SecondPass, 0.0, 2.0);
    ContainsAfterSpace(SecondPass);
    SecondPassLacksFirstPass();
  }

  lemma SecondPassLacksFirstPass()
    ensures !Contains(" " + SecondPass, FirstPass)
  {
    MissingFirstCharNotContained(" " + SecondPass, FirstPass);
  }
}
