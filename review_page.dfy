/**
 * The review quiz on frontend/app/review/page.tsx: the state the page keeps
 * while the learner works through the review items, its four handlers, the
 * completion test and the message on the results card. Only each item's
 * correct option index matters to the handlers.
 */
module ReviewPage {
  import opened Common

  const Perfect := "Perfect score! Great job!"
  const GoodWork := "Good work! Keep practicing!"
  const KeepStudying := "Keep studying! You'll get there!"

  class ReviewQuiz {
    /** The correct option index of each review item, in list order. */
    var correctAnswers: seq<int>
    var currentIndex: nat
    var selectedAnswer: Option<int>
    var showResult: bool
    var score: nat

    /**
     * The index stays on an item, and the score never exceeds the number of
     * items whose result has been shown.
     */
    ghost predicate Valid()
      reads this
    {
      && (correctAnswers != [] ==> currentIndex < |correctAnswers|)
      && (correctAnswers == [] ==> currentIndex == 0 && !showResult)
      && score <= currentIndex + (if showResult then 1 else 0)
    }

    /** The state once the items have loaded. */
    constructor (correctAnswers: seq<int>)
      ensures this.correctAnswers == correctAnswers
      ensures currentIndex == 0 && selectedAnswer.None? && !showResult && score == 0
      ensures Valid()
    {
      this.correctAnswers := correctAnswers;
      currentIndex := 0;
      selectedAnswer := None;
      showResult := false;
      score := 0;
    }

    /** `handleAnswerSelect`: ignored once the result is shown. */
    method SelectAnswer(index: int)
      modifies this
      ensures old(showResult) ==> selectedAnswer == old(selectedAnswer)
      ensures !old(showResult) ==> selectedAnswer == Some(index)
      ensures correctAnswers == old(correctAnswers) && currentIndex == old(currentIndex)
      ensures showResult == old(showResult) && score == old(score)
      ensures old(Valid()) ==> Valid()
    {
      if showResult {
        return;
      }
      selectedAnswer := Some(index);
    }

    /**
     * `handleSubmit`: nothing without a selection; otherwise one point for a
     * correct selection, and the result is shown. The page offers this only
     * while the result is hidden, which is what keeps the score bounded.
     */
    method Submit()
      requires selectedAnswer.Some? ==> currentIndex < |correctAnswers|
      modifies this
      ensures correctAnswers == old(correctAnswers) && currentIndex == old(currentIndex)
      ensures selectedAnswer == old(selectedAnswer)
      ensures old(selectedAnswer).None? ==>
        showResult == old(showResult) && score == old(score)
      ensures old(selectedAnswer).Some? ==>
        && showResult
        && score == old(score) + (if old(selectedAnswer).value == correctAnswers[currentIndex] then 1 else 0)
      ensures old(Valid()) && !old(showResult) ==> Valid()
    {
      if selectedAnswer.None? {
        return;
      }
      var isCorrect := selectedAnswer.value == correctAnswers[currentIndex];
      if isCorrect {
        score := score + 1;
      }
      showResult := true;
    }

    /** `handleNext`: moves on, clearing selection and result, unless at the last item. */
    method Next()
      modifies this
      ensures old(currentIndex) + 1 < |correctAnswers| ==>
        currentIndex == old(currentIndex) + 1 && selectedAnswer.None? && !showResult
      ensures old(currentIndex) + 1 >= |correctAnswers| ==>
        currentIndex == old(currentIndex) && selectedAnswer == old(selectedAnswer) && showResult == old(showResult)
      ensures correctAnswers == old(correctAnswers) && score == old(score)
      ensures old(Valid()) ==> Valid()
    {
      if currentIndex < |correctAnswers| - 1 {
        currentIndex := currentIndex + 1;
        selectedAnswer := None;
        showResult := false;
      }
    }

    /** `handleRestart`: back to the first item with no score. */
    method Restart()
      modifies this
      ensures currentIndex == 0 && selectedAnswer.None? && !showResult && score == 0
      ensures correctAnswers == old(correctAnswers)
      ensures Valid()
    {
      currentIndex := 0;
      selectedAnswer := None;
      showResult := false;
      score := 0;
    }

    /** `isComplete`: on the last item with its result shown. */
    function IsComplete(): bool
      reads this
    {
      currentIndex == |correctAnswers| - 1 && showResult
    }

    /** In a valid state the score is at most the number of items. */
    lemma ScoreBounded()
      requires Valid()
      ensures score <= |correctAnswers|
    {
    }

    /** On completion every item has had its result shown, so the score is at most the item count. */
    lemma CompleteScore()
      requires Valid() && IsComplete()
      ensures |correctAnswers| >= 1 && score <= |correctAnswers|
      ensures FinalMessage(score, |correctAnswers|) == Perfect <==> score == |correctAnswers|
    {
    }
  }

  /**
   * The results message: perfect for a full score, good work from 70% of the
   * items up, keep studying below. The source compares against the float
   * `count * 0.7`; here the comparison is exact.
   */
  function FinalMessage(score: nat, count: nat): (msg: string)
    ensures msg == Perfect <==> score == count
    ensures msg == GoodWork <==> score != count && 10 * score >= 7 * count
    ensures msg == KeepStudying <==> score != count && 10 * score < 7 * count
  {
    if score == count then Perfect
    else if 10 * score >= 7 * count then GoodWork
    else KeepStudying
  }

  /** How good a message is: 2 for perfect, 1 for good work, 0 for keep studying. */
  function Rank(msg: string): nat {
    if msg == Perfect then 2 else if msg == GoodWork then 1 else 0
  }

  /** A higher score out of the same count never gets a worse message. */
  lemma FinalMessageMonotone(s1: nat, s2: nat, count: nat)
    requires s1 <= s2 <= count
    ensures Rank(FinalMessage(s1, count)) <= Rank(FinalMessage(s2, count))
  {
    if s2 == count {
    } else if 10 * s2 >= 7 * count {
      assert s1 != count;
    } else {
      assert 10 * s1 <= 10 * s2;
    }
  }
}
