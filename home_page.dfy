/**
 * The review banner on the home page (frontend/app/page.tsx): the message
 * naming what to practise, and the singular/plural label of the mistake count.
 * The page's state is the parsed response of the review check route, or
 * nothing before it arrives.
 */
module HomePage {
  import opened Common
  import opened ReviewCheckRoute

  datatype Examples = Examples(words: seq<WordExample>, grammar: seq<GrammarExample>)

  /**
   * The parsed JSON: `hasMistakes` (an absent field reads as false), the
   * optional count and the optional examples.
   */
  datatype ReviewStatus = ReviewStatus(hasMistakes: bool, totalCount: Option<int>, examples: Option<Examples>)

  /** The JSON body of each kind of check-route response, as the page reads it. */
  function StatusOf(r: CheckResponse): (s: ReviewStatus)
    ensures s.hasMistakes <==> r.Mistakes?
  {
    match r
    case BadRequest(_) => ReviewStatus(false, None, None)
    case NoMistakes => ReviewStatus(false, None, None)
    case Mistakes(n, ws, gs) => ReviewStatus(true, Some(n), Some(Examples(ws, gs)))
  }

  /**
   * `getReviewMessage`: the first word's Japanese and the first grammar's
   * pattern, those that exist, joined by " and "; empty without mistakes or
   * examples.
   */
  method GetReviewMessage(status: Option<ReviewStatus>) returns (msg: string)
    ensures status.None? || !status.value.hasMistakes || status.value.examples.None? ==> msg == ""
    ensures status.Some? && status.value.hasMistakes && status.value.examples.Some? ==>
      var ex := status.value.examples.value;
      && (ex.words == [] && ex.grammar == [] ==> msg == "")
      && (ex.words != [] && ex.grammar == [] ==> msg == ex.words[0].japanese)
      && (ex.words == [] && ex.grammar != [] ==> msg == ex.grammar[0].pattern)
      && (ex.words != [] && ex.grammar != [] ==> msg == ex.words[0].japanese + " and " + ex.grammar[0].pattern)
  {
    if status.None? || !status.value.hasMistakes || status.value.examples.None? {
      return "";
    }
    var words := status.value.examples.value.words;
    var grammar := status.value.examples.value.grammar;
    var parts: seq<string> := [];
    if |words| > 0 {
      parts := parts + [words[0].japanese];
    }
    if |grammar| > 0 {
      parts := parts + [grammar[0].pattern];
    }
    msg := Join(parts, " and ");
  }

  /** The label under the count: "mistake" iff the count is exactly 1. */
  function MistakeLabel(totalCount: Option<int>): (text: string)
    ensures text == "mistake" <==> totalCount == Some(1)
    ensures text == "mistake" || text == "mistakes"
  {
    if totalCount == Some(1) then "mistake" else "mistakes"
  }

  /**
   * Against the check route: a response with mistakes names the first
   * incorrect word's Japanese, when there is one, at the head of the message.
   */
  method CheckedMessage(userId: Option<string>, ws: seq<WordRecord>, gs: seq<GrammarRecord>)
    returns (msg: string)
    ensures !Truthy(userId) || (ws == [] && gs == []) ==> msg == ""
    ensures Truthy(userId) && ws != [] ==> |msg| >= |ws[0].japanese| && msg[..|ws[0].japanese|] == ws[0].japanese
    ensures Truthy(userId) && ws == [] && gs != [] ==> msg == gs[0].pattern
  {
    var r := CheckReview(userId, ws, gs);
    if r.Mistakes? {
      MistakesShape(userId, ws, gs);
    }
    msg := GetReviewMessage(Some(StatusOf(r)));
  }

  /** The label reads "mistake" for a single incorrect attempt and "mistakes" otherwise. */
  lemma CheckedLabel(userId: Option<string>, ws: seq<WordRecord>, gs: seq<GrammarRecord>)
    requires CheckReview(userId, ws, gs).Mistakes?
    ensures MistakeLabel(StatusOf(CheckReview(userId, ws, gs)).totalCount) == "mistake" <==> |ws| + |gs| == 1
  {
    MistakesShape(userId, ws, gs);
  }
}
