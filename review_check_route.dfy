/**
 * The has-mistakes summary (frontend/app/api/review/check/route.ts, `GET`).
 * The two queries for the learner's most recent incorrect word and grammar
 * attempts are passed in as lists; the route shapes them into the response.
 */
module ReviewCheckRoute {
  import opened Common

  /** The fields of a word that the response shows. */
  datatype WordRecord = WordRecord(japanese: string, reading: Option<string>, meaning: string)

  /** The fields of a grammatical structure that the response shows. */
  datatype GrammarRecord = GrammarRecord(name: string, pattern: string)

  datatype WordExample = WordExample(japanese: string, reading: Option<string>, meaning: string)
  datatype GrammarExample = GrammarExample(name: string, pattern: string)

  datatype CheckResponse =
    | BadRequest(error: string)
    | NoMistakes
    | Mistakes(totalCount: nat, words: seq<WordExample>, grammar: seq<GrammarExample>)

  const UserIdRequired := "userId is required"

  function WordExampleOf(w: WordRecord): WordExample {
    WordExample(w.japanese, w.reading, w.meaning)
  }

  function GrammarExampleOf(g: GrammarRecord): GrammarExample {
    GrammarExample(g.name, g.pattern)
  }

  /** `incorrectWords.map(...)`. */
  function WordExamples(ws: seq<WordRecord>): (r: seq<WordExample>)
    ensures |r| == |ws|
  {
    if ws == [] then [] else WordExamples(ws[..|ws| - 1]) + [WordExampleOf(ws[|ws| - 1])]
  }

  /** `incorrectGrammar.map(...)`. */
  function GrammarExamples(gs: seq<GrammarRecord>): (r: seq<GrammarExample>)
    ensures |r| == |gs|
  {
    if gs == [] then [] else GrammarExamples(gs[..|gs| - 1]) + [GrammarExampleOf(gs[|gs| - 1])]
  }

  /** The route, given the `userId` query parameter and the two query results. */
  function CheckReview(userId: Option<string>, incorrectWords: seq<WordRecord>,
                       incorrectGrammar: seq<GrammarRecord>): (r: CheckResponse)
    ensures r.BadRequest? <==> !Truthy(userId)
  {
    if !Truthy(userId) then BadRequest(UserIdRequired)
    else if !(|incorrectWords| > 0 || |incorrectGrammar| > 0) then NoMistakes
    else Mistakes(|incorrectWords| + |incorrectGrammar|,
                  WordExamples(incorrectWords), GrammarExamples(incorrectGrammar))
  }

  /** Each example is the record at the same position, so the mapping is one-to-one and keeps order. */
  lemma {:induction false} WordExamplesIndex(ws: seq<WordRecord>, i: nat)
    requires i < |ws|
    ensures WordExamples(ws)[i] == WordExampleOf(ws[i])
  {
    if i < |ws| - 1 {
      WordExamplesIndex(ws[..|ws| - 1], i);
    }
  }

  lemma {:induction false} GrammarExamplesIndex(gs: seq<GrammarRecord>, i: nat)
    requires i < |gs|
    ensures GrammarExamples(gs)[i] == GrammarExampleOf(gs[i])
  {
    if i < |gs| - 1 {
      GrammarExamplesIndex(gs[..|gs| - 1], i);
    }
  }

  /**
   * With a user id, the response reports mistakes iff either list is
   * non-empty; otherwise it is only `{hasMistakes: false}`.
   */
  lemma HasMistakesIff(userId: Option<string>, ws: seq<WordRecord>, gs: seq<GrammarRecord>)
    requires Truthy(userId)
    ensures CheckReview(userId, ws, gs).Mistakes? <==> ws != [] || gs != []
    ensures CheckReview(userId, ws, gs).NoMistakes? <==> ws == [] && gs == []
  {
  }

  /**
   * A mistakes response counts both lists and carries one example per
   * attempt, in the attempts' order.
   */
  lemma MistakesShape(userId: Option<string>, ws: seq<WordRecord>, gs: seq<GrammarRecord>)
    requires CheckReview(userId, ws, gs).Mistakes?
    ensures var r := CheckReview(userId, ws, gs);
      && r.totalCount == |ws| + |gs|
      && |r.words| == |ws| && |r.grammar| == |gs|
      && (forall i :: 0 <= i < |ws| ==> r.words[i] == WordExampleOf(ws[i]))
      && (forall i :: 0 <= i < |gs| ==> r.grammar[i] == GrammarExampleOf(gs[i]))
  {
    forall i | 0 <= i < |ws| ensures WordExamples(ws)[i] == WordExampleOf(ws[i]) {
      WordExamplesIndex(ws, i);
    }
    forall i | 0 <= i < |gs| ensures GrammarExamples(gs)[i] == GrammarExampleOf(gs[i]) {
      GrammarExamplesIndex(gs, i);
    }
  }
}
