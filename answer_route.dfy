/**
 * Recording a quiz answer (frontend/app/api/panels/questions/answer/route.ts,
 * `POST`). The request body is a JSON object whose fields may be absent or of
 * any JSON type; the route validates two of them, compares the chosen answer
 * with the correct one and decides which attempt table, if any, gets a row.
 * The database write is returned as a value; whether the store fails is a
 * parameter.
 */
module AnswerRoute {
  import opened Common

  /**
   * A JSON value as it can appear in a request field. `JComposite` is an
   * object or an array: `request.json()` builds a new one for every field,
   * so no two of them are the same reference.
   */
  datatype Json = JNull | JBool(b: bool) | JNumber(n: int) | JString(s: string) | JComposite

  /** JavaScript truthiness of a field; an absent field is `undefined`, which is falsy. */
  predicate Present(v: Option<Json>) {
    match v
    case None => false
    case Some(JNull) => false
    case Some(JBool(b)) => b
    case Some(JNumber(n)) => n != 0
    case Some(JString(s)) => s != ""
    case Some(JComposite) => true
  }

  /** `v === 'text'`. */
  predicate IsText(v: Option<Json>, text: string) {
    v == Some(JString(text))
  }

  datatype AnswerBody = AnswerBody(
    userId: Option<Json>,
    questionType: Option<Json>,
    conceptId: Option<Json>,
    conceptType: Option<Json>,
    selectedAnswer: Option<Json>,
    correctAnswer: Option<Json>)

  /** A row written to one of the two attempt tables. */
  datatype AttemptWrite =
    | WordAttempt(userId: Json, wordId: Json, correct: bool)
    | GrammarAttempt(userId: Json, grammaticalStructureId: Json, correct: bool)

  datatype Response =
    | Recorded(correct: bool)
    | BadRequest(error: string)
    | ServerError(error: string)

  /** What the route does: the rows it writes, then the response it returns. */
  datatype Outcome = Outcome(writes: seq<AttemptWrite>, response: Response)

  const MissingFields := "userId and questionType are required"
  const RecordFailed := "Failed to record answer"

  /**
   * `selectedAnswer === correctAnswer`, absent fields being `undefined`:
   * scalars compare by value, objects and arrays by reference, and two
   * fields never share one.
   */
  predicate StrictEquals(a: Option<Json>, b: Option<Json>) {
    a == b && a != Some(JComposite)
  }

  /**
   * The request as the route reads it: a body it cannot destructure, because
   * `request.json()` throws on text that is not JSON or because the JSON is
   * `null`, is `Malformed`. Any other JSON value destructures, a non-object
   * one to absent fields.
   */
  datatype Request = Malformed | Body(body: AnswerBody)

  /** The attempt row the request calls for, if any. */
  function AttemptFor(body: AnswerBody, correct: bool): (w: Option<AttemptWrite>)
    requires Present(body.userId)
  {
    if IsText(body.questionType, "word") && Present(body.conceptId) && IsText(body.conceptType, "word") then
      Some(WordAttempt(body.userId.value, body.conceptId.value, correct))
    else if IsText(body.questionType, "grammar") && Present(body.conceptId) && IsText(body.conceptType, "grammar") then
      Some(GrammarAttempt(body.userId.value, body.conceptId.value, correct))
    else None
  }

  /**
   * The route: 400 when `userId` or `questionType` is falsy; otherwise at most
   * one attempt row and `{success: true, correct}`, or 500 when the store
   * rejects the row.
   */
  function RecordAnswer(body: AnswerBody, storeFails: bool): (o: Outcome)
    ensures |o.writes| <= 1
  {
    if !Present(body.userId) || !Present(body.questionType) then
      Outcome([], BadRequest(MissingFields))
    else
      var correct := StrictEquals(body.selectedAnswer, body.correctAnswer);
      var w := AttemptFor(body, correct);
      if w.None? then Outcome([], Recorded(correct))
      else if storeFails then Outcome([], ServerError(RecordFailed))
      else Outcome([w.value], Recorded(correct))
  }

  /** `POST`: a malformed request falls into the `catch` and gets 500; a body goes through `RecordAnswer`. */
  function Post(req: Request, storeFails: bool): (o: Outcome)
    ensures |o.writes| <= 1
    ensures req.Body? ==> o == RecordAnswer(req.body, storeFails)
  {
    if req.Malformed? then Outcome([], ServerError(RecordFailed)) else RecordAnswer(req.body, storeFails)
  }

  /**
   * The route answers 500 exactly for a malformed request and for a store
   * failure on a row it writes, and then records nothing.
   */
  lemma ServerErrorIff(req: Request, storeFails: bool)
    ensures Post(req, storeFails).response.ServerError? <==>
      || req.Malformed?
      || (&& storeFails && Present(req.body.userId) && Present(req.body.questionType)
          && AttemptFor(req.body, false).Some?)
    ensures Post(req, storeFails).response.ServerError? ==> Post(req, storeFails) == Outcome([], ServerError(RecordFailed))
  {
    if req.Body? && Present(req.body.userId) && Present(req.body.questionType) {
      var b := req.body;
      assert AttemptFor(b, false).Some? <==> AttemptFor(b, StrictEquals(b.selectedAnswer, b.correctAnswer)).Some?;
    }
  }

  /** A falsy `userId` or `questionType` gives 400 and records nothing. */
  lemma MissingFieldsRejected(body: AnswerBody, storeFails: bool)
    ensures RecordAnswer(body, storeFails).response == BadRequest(MissingFields)
        <==> !Present(body.userId) || !Present(body.questionType)
    ensures !Present(body.userId) || !Present(body.questionType) ==> RecordAnswer(body, storeFails).writes == []
  {
  }

  /**
   * A successful response reports `correct` exactly when the two answers are
   * the same value and not objects or arrays, which are never strictly equal.
   */
  lemma CorrectIffEqual(body: AnswerBody, storeFails: bool)
    requires RecordAnswer(body, storeFails).response.Recorded?
    ensures RecordAnswer(body, storeFails).response.correct <==>
      body.selectedAnswer == body.correctAnswer && body.selectedAnswer != Some(JComposite)
  {
  }

  /** The conditions under which the route writes a word attempt, and what it writes. */
  lemma WordAttemptIff(body: AnswerBody)
    ensures var o := RecordAnswer(body, false);
      (o.writes != [] && o.writes[0].WordAttempt?) <==>
        && Present(body.userId) && Present(body.questionType)
        && IsText(body.questionType, "word") && Present(body.conceptId) && IsText(body.conceptType, "word")
    ensures var o := RecordAnswer(body, false);
      o.writes != [] && o.writes[0].WordAttempt? ==>
        o.writes[0] == WordAttempt(body.userId.value, body.conceptId.value,
                                   StrictEquals(body.selectedAnswer, body.correctAnswer))
  {
  }

  /** The conditions under which the route writes a grammar attempt, and what it writes. */
  lemma GrammarAttemptIff(body: AnswerBody)
    ensures var o := RecordAnswer(body, false);
      (o.writes != [] && o.writes[0].GrammarAttempt?) <==>
        && Present(body.userId) && Present(body.questionType)
        && IsText(body.questionType, "grammar") && Present(body.conceptId) && IsText(body.conceptType, "grammar")
    ensures var o := RecordAnswer(body, false);
      o.writes != [] && o.writes[0].GrammarAttempt? ==>
        o.writes[0] == GrammarAttempt(body.userId.value, body.conceptId.value,
                                      StrictEquals(body.selectedAnswer, body.correctAnswer))
  {
  }

  /**
   * Any other question type, such as reading comprehension, writes nothing and
   * still answers with success and `correct`.
   */
  lemma OtherTypesWriteNothing(body: AnswerBody, storeFails: bool)
    requires Present(body.userId) && Present(body.questionType)
    requires !IsText(body.questionType, "word") && !IsText(body.questionType, "grammar")
    ensures RecordAnswer(body, storeFails) ==
      Outcome([], Recorded(StrictEquals(body.selectedAnswer, body.correctAnswer)))
  {
  }

  /** A store failure on the write gives 500 and nothing recorded. */
  lemma StoreFailure(body: AnswerBody)
    requires Present(body.userId) && AttemptFor(body, false).Some?
    ensures RecordAnswer(body, true) == Outcome([], ServerError(RecordFailed))
  {
    assert Present(body.questionType) by {
      assert IsText(body.questionType, "word") || IsText(body.questionType, "grammar");
    }
  }
}
