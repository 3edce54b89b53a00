/**
 * The quiz popover shown over a panel (frontend/components/PanelQuestionModal.tsx):
 * where it is placed relative to the click, how a fetched question list is
 * taken in, and the handlers for answering, moving on and closing. The
 * answer is posted to the answer route; the post is returned as the request
 * body it sends.
 */
module PanelQuestionModal {
  import opened Common
  import AnswerRoute

  const ModalWidth := 400
  const ModalMaxHeight := 600
  const Offset := 20

  const NoQuestions := "No questions available for this panel"
  const FetchFailed := "Failed to fetch questions"
  const LoadFailed := "Failed to load questions"

  function Max(a: int, b: int): int { if a >= b then a else b }
  function Min(a: int, b: int): int { if a <= b then a else b }

  /**
   * The popover corner for a click at (x, y) in a window of the given size:
   * 20 px below and right of the click, moved left of the click when it would
   * run off the right edge, raised when it would run off the bottom, then kept
   * 20 px from the edges.
   */
  method PopoverPosition(x: int, y: int, innerWidth: int, innerHeight: int) returns (left: int, top: int)
    ensures left >= 20 && top >= 20
    ensures x + Offset + ModalWidth > innerWidth ==> left == Max(20, Min(x - ModalWidth - Offset, innerWidth - ModalWidth - 20))
    ensures x + Offset + ModalWidth <= innerWidth ==> left == Max(20, Min(x + Offset, innerWidth - ModalWidth - 20))
    ensures innerWidth >= ModalWidth + 40 ==> left + ModalWidth + 20 <= innerWidth
    ensures innerHeight >= ModalMaxHeight + 40 ==> top + ModalMaxHeight <= innerHeight
    ensures y + Offset + ModalMaxHeight <= innerHeight ==> top == Max(20, y + Offset)
    ensures y + Offset + ModalMaxHeight > innerHeight ==> top == Max(20, innerHeight - ModalMaxHeight - 20)
  {
    left := x + Offset;
    top := y + Offset;
    if left + ModalWidth > innerWidth {
      left := x - ModalWidth - Offset;
    }
    if top + ModalMaxHeight > innerHeight {
      top := Max(20, innerHeight - ModalMaxHeight - 20);
    }
    left := Max(20, Min(left, innerWidth - ModalWidth - 20));
    top := Max(20, top);
  }

  /** A generated question as the questions route returns it. */
  datatype Question = Question(questionType: string, conceptId: Option<string>, conceptType: Option<string>,
                               question: string, options: seq<string>, correctAnswer: int)

  /**
   * How the questions request ended: a thrown value (an `Error` with its
   * message, or anything else), or a response with its status and the fields
   * of its JSON body (an absent `shouldAsk` reads as false).
   */
  datatype FetchOutcome =
    | Thrown(message: Option<string>)
    | Response(ok: bool, error: Option<string>, shouldAsk: bool, skipReason: Option<string>,
               questions: Option<seq<Question>>)

  /** `JSON.stringify` of an optional string field: an absent one is left out. */
  function JsonField(s: Option<string>): Option<AnswerRoute.Json> {
    if s.Some? then Some(AnswerRoute.JString(s.value)) else None
  }

  /** The body the popover posts for an answer: it carries no `userId`. */
  function PostedBody(q: Question, answerIndex: int): AnswerRoute.AnswerBody {
    AnswerRoute.AnswerBody(None, Some(AnswerRoute.JString(q.questionType)), JsonField(q.conceptId),
                           JsonField(q.conceptType), Some(AnswerRoute.JNumber(answerIndex)),
                           Some(AnswerRoute.JNumber(q.correctAnswer)))
  }

  /** The answer route rejects every body the popover posts, so no attempt is ever recorded. */
  lemma PostedBodyRejected(q: Question, answerIndex: int, storeFails: bool)
    ensures AnswerRoute.RecordAnswer(PostedBody(q, answerIndex), storeFails) ==
      AnswerRoute.Outcome([], AnswerRoute.BadRequest(AnswerRoute.MissingFields))
  {
  }

  /** The body with the learner's id added, as the route requires. */
  function BodyWithUser(userId: string, q: Question, answerIndex: int): (b: AnswerRoute.AnswerBody)
    ensures b == PostedBody(q, answerIndex).(userId := Some(AnswerRoute.JString(userId)))
  {
    AnswerRoute.AnswerBody(Some(AnswerRoute.JString(userId)), Some(AnswerRoute.JString(q.questionType)),
                           JsonField(q.conceptId), JsonField(q.conceptType), Some(AnswerRoute.JNumber(answerIndex)),
                           Some(AnswerRoute.JNumber(q.correctAnswer)))
  }

  /**
   * With the id added, a word question tagged with a word records one word
   * attempt whose correctness is the popover's own `isCorrect`; the response
   * agrees with it for every question type.
   */
  lemma BodyWithUserRecorded(userId: string, q: Question, answerIndex: int)
    requires userId != "" && q.questionType != ""
    ensures AnswerRoute.RecordAnswer(BodyWithUser(userId, q, answerIndex), false).response ==
      AnswerRoute.Recorded(answerIndex == q.correctAnswer)
    ensures q.questionType == "word" && q.conceptType == Some("word") && q.conceptId.Some? && q.conceptId.value != "" ==>
      AnswerRoute.RecordAnswer(BodyWithUser(userId, q, answerIndex), false).writes ==
        [AnswerRoute.WordAttempt(AnswerRoute.JString(userId), AnswerRoute.JString(q.conceptId.value),
                                 answerIndex == q.correctAnswer)]
  {
  }

  class PanelQuiz {
    var questions: seq<Question>
    var currentQuestionIndex: nat
    var selectedAnswer: Option<int>
    var showFeedback: bool
    var isCorrect: bool
    var loading: bool
    var error: Option<string>
    /** Set when the popover has asked its parent to close it (`onClose()`). */
    var closeRequested: bool

    /** The index points at a question whenever there are questions. */
    ghost predicate Valid()
      reads this
    {
      questions == [] || currentQuestionIndex < |questions|
    }

    constructor ()
      ensures questions == [] && currentQuestionIndex == 0 && selectedAnswer.None?
      ensures !showFeedback && !isCorrect && !loading && error.None? && !closeRequested
      ensures Valid()
    {
      questions := [];
      currentQuestionIndex := 0;
      selectedAnswer := None;
      showFeedback := false;
      isCorrect := false;
      loading := false;
      error := None;
      closeRequested := false;
    }

    /**
     * The effect that runs whenever `currentQuestionIndex` changes: selection
     * and feedback are cleared.
     */
    method MoveTo(index: nat)
      modifies this
      ensures currentQuestionIndex == index
      ensures index != old(currentQuestionIndex) ==> selectedAnswer.None? && !showFeedback && !isCorrect
      ensures index == old(currentQuestionIndex) ==>
        selectedAnswer == old(selectedAnswer) && showFeedback == old(showFeedback) && isCorrect == old(isCorrect)
      ensures questions == old(questions) && loading == old(loading) && error == old(error)
      ensures closeRequested == old(closeRequested)
    {
      if index != currentQuestionIndex {
        currentQuestionIndex := index;
        selectedAnswer := None;
        showFeedback := false;
        isCorrect := false;
      }
    }

    /**
     * `fetchQuestions` once the request has ended: a failed status or a throw
     * sets the error and keeps the questions; `shouldAsk = false` empties the
     * list and shows the skip reason or the default text; otherwise the list is
     * taken and the first question shown.
     */
    method TakeFetchResult(outcome: FetchOutcome)
      modifies this
      ensures !loading && closeRequested == old(closeRequested)
      ensures outcome.Thrown? ==>
        && error == Some(if outcome.message.Some? then outcome.message.value else LoadFailed)
        && questions == old(questions) && currentQuestionIndex == old(currentQuestionIndex)
      ensures outcome.Response? && !outcome.ok ==>
        && error == Some(OrElse(outcome.error, FetchFailed))
        && questions == old(questions) && currentQuestionIndex == old(currentQuestionIndex)
      ensures outcome.Response? && outcome.ok && !outcome.shouldAsk ==>
        && error == Some(OrElse(outcome.skipReason, NoQuestions))
        && questions == [] && currentQuestionIndex == old(currentQuestionIndex)
      ensures outcome.Response? && outcome.ok && outcome.shouldAsk ==>
        && error.None? && currentQuestionIndex == 0
        && questions == (if outcome.questions.Some? then outcome.questions.value else [])
      ensures old(Valid()) ==> Valid()
    {
      loading := true;
      error := None;
      match outcome {
        case Thrown(message) =>
          error := Some(if message.Some? then message.value else LoadFailed);
        case Response(ok, err, shouldAsk, skipReason, qs) =>
          if !ok {
            error := Some(OrElse(err, FetchFailed));
          } else if !shouldAsk {
            error := Some(OrElse(skipReason, NoQuestions));
            questions := [];
          } else {
            questions := if qs.Some? then qs.value else [];
            MoveTo(0);
          }
      }
      loading := false;
    }

    /**
     * `handleAnswerSelect`: only the first answer to a question is taken; it
     * sets the selection and `isCorrect` and shows the feedback, and its body
     * is posted.
     */
    method SelectAnswer(answerIndex: int) returns (posted: Option<AnswerRoute.AnswerBody>)
      requires !showFeedback && selectedAnswer.None? ==> currentQuestionIndex < |questions|
      modifies this
      ensures questions == old(questions) && currentQuestionIndex == old(currentQuestionIndex)
      ensures loading == old(loading) && error == old(error) && closeRequested == old(closeRequested)
      ensures old(showFeedback) || old(selectedAnswer).Some? ==>
        && posted.None? && selectedAnswer == old(selectedAnswer)
        && showFeedback == old(showFeedback) && isCorrect == old(isCorrect)
      ensures !old(showFeedback) && old(selectedAnswer).None? ==>
        && selectedAnswer == Some(answerIndex) && showFeedback
        && (isCorrect <==> answerIndex == questions[currentQuestionIndex].correctAnswer)
        && posted == Some(PostedBody(questions[currentQuestionIndex], answerIndex))
    {
      if showFeedback || selectedAnswer.Some? {
        return None;
      }
      selectedAnswer := Some(answerIndex);
      var currentQuestion := questions[currentQuestionIndex];
      var correct := answerIndex == currentQuestion.correctAnswer;
      isCorrect := correct;
      showFeedback := true;
      posted := Some(PostedBody(currentQuestion, answerIndex));
    }

    /** `handleClose`: everything is reset and the parent is asked to close the popover. */
    method Close()
      modifies this
      ensures questions == [] && currentQuestionIndex == 0 && selectedAnswer.None?
      ensures !showFeedback && !isCorrect && error.None? && closeRequested
      ensures loading == old(loading)
      ensures Valid()
    {
      questions := [];
      MoveTo(0);
      selectedAnswer := None;
      showFeedback := false;
      isCorrect := false;
      error := None;
      closeRequested := true;
    }

    /** `handleNext`: the next question while there is one, otherwise close. */
    method Next()
      modifies this
      ensures old(currentQuestionIndex) + 1 < |old(questions)| ==>
        && currentQuestionIndex == old(currentQuestionIndex) + 1 && questions == old(questions)
        && selectedAnswer.None? && !showFeedback && !isCorrect
        && closeRequested == old(closeRequested) && error == old(error)
      ensures old(currentQuestionIndex) + 1 >= |old(questions)| ==>
        && questions == [] && currentQuestionIndex == 0 && selectedAnswer.None?
        && !showFeedback && !isCorrect && error.None? && closeRequested
      ensures loading == old(loading)
      ensures old(Valid()) ==> Valid()
    {
      if currentQuestionIndex < |questions| - 1 {
        MoveTo(currentQuestionIndex + 1);
      } else {
        Close();
      }
    }
  }
}
