/**
 * The rule chain that decides whether a panel is worth quizzing for a learner
 * (frontend/lib/questionDecision.ts). The panel lookup and the per-concept
 * attempt queries are passed in: `wordAttempts(id)` and `grammarAttempts(id)`
 * are the learner's recorded attempts on that concept, each `true` when the
 * attempt was correct.
 */
module QuestionDecision {
  import opened Common
  import opened Panels

  datatype DecisionResult = DecisionResult(shouldAsk: bool, skipReason: Option<string>)

  /** A concept's performance: success rate (0 when never attempted) and attempt count. */
  datatype Performance = Performance(successRate: real, attemptCount: nat)

  const PanelNotFound := "Panel not found"
  const InsufficientText := "Insufficient text content"
  const NoConcepts := "No vocabulary or grammar concepts tagged"
  const AllMasteredReason := "All concepts mastered (100% success with 2+ attempts)"

  /** Minimum length of a panel's text for questions to be asked. */
  const MinTextLength := 10

  /** The number of correct attempts. */
  function CountCorrect(attempts: seq<bool>): (n: nat)
    ensures n <= |attempts|
  {
    if attempts == [] then 0
    else CountCorrect(attempts[..|attempts| - 1]) + (if attempts[|attempts| - 1] then 1 else 0)
  }

  /** All attempts correct exactly when the correct count is the attempt count. */
  lemma {:induction false} CountCorrectAll(attempts: seq<bool>)
    ensures CountCorrect(attempts) == |attempts| <==> forall i :: 0 <= i < |attempts| ==> attempts[i]
  {
    if attempts != [] {
      var init := attempts[..|attempts| - 1];
      CountCorrectAll(init);
      if CountCorrect(attempts) == |attempts| {
        assert attempts[|attempts| - 1];
        forall i | 0 <= i < |attempts| ensures attempts[i] {
          if i < |attempts| - 1 { assert init[i] == attempts[i]; }
        }
      } else {
        assert !(CountCorrect(init) == |init| && attempts[|attempts| - 1]);
        if CountCorrect(init) != |init| {
          var i :| 0 <= i < |init| && !init[i];
          assert !attempts[i];
        }
      }
    }
  }

  /** The performance of one concept computed from its attempts. */
  function PerformanceOf(attempts: seq<bool>): (p: Performance)
    ensures p.attemptCount == |attempts|
    ensures 0.0 <= p.successRate <= 1.0
    ensures attempts == [] ==> p.successRate == 0.0
    ensures attempts != [] ==> p.successRate * |attempts| as real == CountCorrect(attempts) as real
  {
    if |attempts| > 0 then
      var r := CountCorrect(attempts) as real / |attempts| as real;
      RatioBounds(CountCorrect(attempts) as real, |attempts| as real);
      Performance(r, |attempts|)
    else Performance(0.0, 0)
  }

  /** A count over a positive total: the ratio lies in [0, 1] and times the total gives the count back. */
  lemma RatioBounds(c: real, n: real)
    requires 0.0 <= c <= n && n > 0.0
    ensures 0.0 <= c / n <= 1.0
    ensures (c / n) * n == c
  {
  }

  /** The tagged concepts' performances: words first, then grammar, in tag order. */
  function AllPerformance(p: Panel, wordAttempts: string -> seq<bool>, grammarAttempts: string -> seq<bool>)
    : (r: seq<Performance>)
    ensures |r| == ConceptCount(p)
    ensures forall i :: 0 <= i < |p.words| ==> r[i] == PerformanceOf(wordAttempts(p.words[i].id))
    ensures forall i :: 0 <= i < |p.grammars| ==>
      r[|p.words| + i] == PerformanceOf(grammarAttempts(p.grammars[i].id))
  {
    seq(|p.words|, i requires 0 <= i < |p.words| => PerformanceOf(wordAttempts(p.words[i].id)))
    + seq(|p.grammars|, i requires 0 <= i < |p.grammars| => PerformanceOf(grammarAttempts(p.grammars[i].id)))
  }

  /** The mastery test applied to each concept: a perfect rate over at least two attempts. */
  predicate IsMastered(perf: Performance) {
    perf.successRate == 1.0 && perf.attemptCount >= 2
  }

  /** `allPerformance.every(...)`: true on an empty list. */
  predicate AllMastered(ps: seq<Performance>) {
    forall i :: 0 <= i < |ps| ==> IsMastered(ps[i])
  }

  function Skip(reason: string): DecisionResult {
    DecisionResult(false, Some(reason))
  }

  /** The rule chain, first match wins. */
  function DecidePanelQuestions(panel: Option<Panel>, wordAttempts: string -> seq<bool>,
                                grammarAttempts: string -> seq<bool>): (r: DecisionResult)
    ensures r.shouldAsk <==> r.skipReason.None?
  {
    if panel.None? then Skip(PanelNotFound)
    else if Utf16Length(panel.value.japaneseText) < MinTextLength then Skip(InsufficientText)
    else if ConceptCount(panel.value) == 0 then Skip(NoConcepts)
    else if AllMastered(AllPerformance(panel.value, wordAttempts, grammarAttempts)) then Skip(AllMasteredReason)
    else DecisionResult(true, None)
  }

  // ---------------------------------------------------------------------
  // The decision stated on raw attempt lists

  /** A concept is mastered when it has at least two attempts and every one was correct. */
  predicate ConceptMastered(attempts: seq<bool>) {
    |attempts| >= 2 && forall i :: 0 <= i < |attempts| ==> attempts[i]
  }

  /** The performance test agrees with the attempt-level definition; zero attempts is never mastered. */
  lemma IsMasteredIff(attempts: seq<bool>)
    ensures IsMastered(PerformanceOf(attempts)) <==> ConceptMastered(attempts)
  {
    CountCorrectAll(attempts);
    var p := PerformanceOf(attempts);
    if attempts != [] {
      if p.successRate == 1.0 {
        assert 1.0 * |attempts| as real == CountCorrect(attempts) as real;
      }
      if CountCorrect(attempts) == |attempts| {
        RateOneOfAllCorrect(p.successRate, |attempts|);
      }
    }
  }

  lemma RateOneOfAllCorrect(r: real, n: nat)
    requires n > 0 && r * n as real == n as real
    ensures r == 1.0
  {
  }

  /** Every tagged concept, words and grammar alike, is mastered. */
  predicate EveryConceptMastered(p: Panel, wordAttempts: string -> seq<bool>, grammarAttempts: string -> seq<bool>) {
    && (forall i :: 0 <= i < |p.words| ==> ConceptMastered(wordAttempts(p.words[i].id)))
    && (forall i :: 0 <= i < |p.grammars| ==> ConceptMastered(grammarAttempts(p.grammars[i].id)))
  }

  lemma AllMasteredIff(p: Panel, wordAttempts: string -> seq<bool>, grammarAttempts: string -> seq<bool>)
    ensures AllMastered(AllPerformance(p, wordAttempts, grammarAttempts))
        <==> EveryConceptMastered(p, wordAttempts, grammarAttempts)
  {
    var ps := AllPerformance(p, wordAttempts, grammarAttempts);
    forall i | 0 <= i < |p.words|
      ensures IsMastered(ps[i]) <==> ConceptMastered(wordAttempts(p.words[i].id))
    {
      IsMasteredIff(wordAttempts(p.words[i].id));
    }
    forall i | 0 <= i < |p.grammars|
      ensures IsMastered(ps[|p.words| + i]) <==> ConceptMastered(grammarAttempts(p.grammars[i].id))
    {
      IsMasteredIff(grammarAttempts(p.grammars[i].id));
    }
    if AllMastered(ps) {
      forall i | 0 <= i < |p.grammars|
        ensures ConceptMastered(grammarAttempts(p.grammars[i].id))
      {
        assert IsMastered(ps[|p.words| + i]);
      }
    } else {
      var k :| 0 <= k < |ps| && !IsMastered(ps[k]);
      if k >= |p.words| {
        assert !ConceptMastered(grammarAttempts(p.grammars[k - |p.words|].id));
      }
    }
  }

  /**
   * The whole rule chain in terms of the panel and the raw attempts: each
   * skip reason fires exactly when its rule is the first to match, and
   * questions are asked exactly when no rule matched.
   */
  lemma DecisionSpec(panel: Option<Panel>, wordAttempts: string -> seq<bool>, grammarAttempts: string -> seq<bool>)
    ensures var r := DecidePanelQuestions(panel, wordAttempts, grammarAttempts);
      && (r.skipReason == Some(PanelNotFound) <==> panel.None?)
      && (r.skipReason == Some(InsufficientText) <==> panel.Some? && Utf16Length(panel.value.japaneseText) < 10)
      && (r.skipReason == Some(NoConcepts) <==>
            panel.Some? && Utf16Length(panel.value.japaneseText) >= 10 && panel.value.words == [] && panel.value.grammars == [])
      && (r.skipReason == Some(AllMasteredReason) <==>
            && panel.Some? && Utf16Length(panel.value.japaneseText) >= 10 && ConceptCount(panel.value) > 0
            && EveryConceptMastered(panel.value, wordAttempts, grammarAttempts))
      && (r.shouldAsk <==>
            && panel.Some? && Utf16Length(panel.value.japaneseText) >= 10 && ConceptCount(panel.value) > 0
            && !EveryConceptMastered(panel.value, wordAttempts, grammarAttempts))
  {
    if panel.Some? {
      AllMasteredIff(panel.value, wordAttempts, grammarAttempts);
    }
  }

  /** The mastery skip is never vacuous: it fires only when some concept exists, and then all of them have two or more attempts. */
  lemma MasterySkipNotVacuous(panel: Option<Panel>, wordAttempts: string -> seq<bool>,
                              grammarAttempts: string -> seq<bool>)
    requires DecidePanelQuestions(panel, wordAttempts, grammarAttempts).skipReason == Some(AllMasteredReason)
    ensures panel.Some?
    ensures |panel.value.words| > 0 ==> |wordAttempts(panel.value.words[0].id)| >= 2
    ensures |panel.value.words| == 0 ==> |grammarAttempts(panel.value.grammars[0].id)| >= 2
  {
    DecisionSpec(panel, wordAttempts, grammarAttempts);
  }

  /** A tagged concept the learner never attempted keeps the panel askable. */
  lemma UnattemptedConceptAsks(p: Panel, wordAttempts: string -> seq<bool>, grammarAttempts: string -> seq<bool>, k: nat)
    requires Utf16Length(p.japaneseText) >= 10 && k < |p.words| && wordAttempts(p.words[k].id) == []
    ensures DecidePanelQuestions(Some(p), wordAttempts, grammarAttempts) == DecisionResult(true, None)
  {
    DecisionSpec(Some(p), wordAttempts, grammarAttempts);
    assert !ConceptMastered(wordAttempts(p.words[k].id));
  }
}
