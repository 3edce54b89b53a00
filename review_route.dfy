/**
 * The review list (frontend/app/api/review/route.ts, `GET`): the learner's
 * recent incorrect word and grammar attempts merged, newest first, cut to
 * ten, each with a generated multiple-choice question. The session, the two
 * queries, the language model's reply and `JSON.parse` are parameters.
 */
module ReviewRoute {
  import opened Common

  datatype User = User(id: Option<string>)
  datatype Session = Session(user: Option<User>)

  datatype WordInfo = WordInfo(japanese: string, reading: Option<string>, meaning: string,
                               partOfSpeech: Option<string>, jlptLevel: Option<int>)
  datatype GrammarInfo = GrammarInfo(name: string, pattern: string, explanation: string, jlptLevel: Option<int>)

  /** An attempt row with its concept; `createdAt` is the timestamp in milliseconds. */
  datatype WordAttempt = WordAttempt(id: string, createdAt: int, word: WordInfo)
  datatype GrammarAttempt = GrammarAttempt(id: string, createdAt: int, grammar: GrammarInfo)

  /** `{type: 'word' | 'grammar', attempt}`. */
  datatype Tagged = TaggedWord(w: WordAttempt) | TaggedGrammar(g: GrammarAttempt)

  /** The fields of the parsed question object the route copies. */
  datatype QuestionData = QuestionData(question: string, options: seq<string>, correctAnswer: int)

  /** `topicInfo`: the concept's fields, plus the options and answer when a question was parsed. */
  datatype TopicInfo =
    | WordTopic(word: WordInfo, options: Option<seq<string>>, correctAnswer: Option<int>)
    | GrammarTopic(grammar: GrammarInfo, options: Option<seq<string>>, correctAnswer: Option<int>)

  datatype ReviewItem = ReviewItem(itemType: string, topicInfo: TopicInfo, attemptId: string, createdAt: int)

  datatype ReviewResponse = Unauthorized | ServerError(error: string) | Reviews(reviewItems: seq<ReviewItem>)

  /** How many attempts the list keeps. */
  const Limit := 10

  const GenerationFailed := "Failed to generate review questions"

  function CreatedAt(t: Tagged): int {
    if t.TaggedWord? then t.w.createdAt else t.g.createdAt
  }

  function TypeOf(t: Tagged): string {
    if t.TaggedWord? then "word" else "grammar"
  }

  function IdOf(t: Tagged): string {
    if t.TaggedWord? then t.w.id else t.g.id
  }

  function TagWords(ws: seq<WordAttempt>): (r: seq<Tagged>)
    ensures |r| == |ws| && forall i :: 0 <= i < |ws| ==> r[i] == TaggedWord(ws[i])
  {
    if ws == [] then [] else TagWords(ws[..|ws| - 1]) + [TaggedWord(ws[|ws| - 1])]
  }

  function TagGrammar(gs: seq<GrammarAttempt>): (r: seq<Tagged>)
    ensures |r| == |gs| && forall i :: 0 <= i < |gs| ==> r[i] == TaggedGrammar(gs[i])
  {
    if gs == [] then [] else TagGrammar(gs[..|gs| - 1]) + [TaggedGrammar(gs[|gs| - 1])]
  }

  /** Newest first: no item is older than the one after it. */
  ghost predicate NonIncreasing(s: seq<Tagged>) {
    forall i, j :: 0 <= i < j < |s| ==> CreatedAt(s[i]) >= CreatedAt(s[j])
  }

  /**
   * Inserting into a newest-first list behind every item at least as new, so
   * that items with equal timestamps keep their order, as JavaScript's stable
   * `sort` does with the comparator `b - a`.
   */
  function Insert(s: seq<Tagged>, x: Tagged): (r: seq<Tagged>)
    ensures |r| == |s| + 1
    ensures multiset(r) == multiset(s) + multiset{x}
  {
    if s == [] || CreatedAt(s[|s| - 1]) >= CreatedAt(x) then s + [x]
    else
      var init := s[..|s| - 1];
      assert s == init + [s[|s| - 1]];
      Insert(init, x) + [s[|s| - 1]]
  }

  /** An insertion sort on `createdAt`, newest first. */
  function SortNewestFirst(s: seq<Tagged>): (r: seq<Tagged>)
    ensures |r| == |s|
    ensures multiset(r) == multiset(s)
  {
    if s == [] then []
    else
      var init := s[..|s| - 1];
      assert s == init + [s[|s| - 1]];
      Insert(SortNewestFirst(init), s[|s| - 1])
  }

  /** Inserting keeps a newest-first list newest first. */
  lemma {:induction false} InsertSorted(s: seq<Tagged>, x: Tagged)
    requires NonIncreasing(s)
    ensures NonIncreasing(Insert(s, x))
    ensures Insert(s, x) != [] && (s == [] || CreatedAt(Insert(s, x)[0]) >= CreatedAt(s[0]))
    ensures Insert(s, x)[0] == x || (s != [] && Insert(s, x)[0] == s[0])
  {
    if s != [] && CreatedAt(s[|s| - 1]) < CreatedAt(x) {
      var init := s[..|s| - 1];
      var last := s[|s| - 1];
      assert NonIncreasing(init) by {
        forall i, j | 0 <= i < j < |init| ensures CreatedAt(init[i]) >= CreatedAt(init[j]) {
          assert init[i] == s[i] && init[j] == s[j];
        }
      }
      InsertSorted(init, x);
      var r := Insert(init, x);
      assert Insert(s, x) == r + [last];
      forall k | 0 <= k < |r| ensures CreatedAt(r[k]) >= CreatedAt(last) {
        assert multiset(r) == multiset(init) + multiset{x};
        assert r[k] in multiset(r);
        if r[k] == x {
        } else {
          assert r[k] in multiset(init);
          var m :| 0 <= m < |init| && init[m] == r[k];
          assert s[m] == init[m];
        }
      }
    }
  }

  /** The sort's result is newest first. */
  lemma {:induction false} SortSorted(s: seq<Tagged>)
    ensures NonIncreasing(SortNewestFirst(s))
  {
    if s != [] {
      SortSorted(s[..|s| - 1]);
      InsertSorted(SortNewestFirst(s[..|s| - 1]), s[|s| - 1]);
    }
  }

  /** `[...words, ...grammar].sort(...).slice(0, 10)`. */
  function Merged(ws: seq<WordAttempt>, gs: seq<GrammarAttempt>): seq<Tagged> {
    Take(SortNewestFirst(TagWords(ws) + TagGrammar(gs)), Limit)
  }

  /**
   * The merged list has at most ten items, newest first, and it is a prefix of
   * the sorted concatenation of word then grammar attempts.
   */
  lemma MergedShape(ws: seq<WordAttempt>, gs: seq<GrammarAttempt>)
    ensures |Merged(ws, gs)| <= Limit
    ensures |Merged(ws, gs)| == if |ws| + |gs| <= Limit then |ws| + |gs| else Limit
    ensures NonIncreasing(Merged(ws, gs))
    ensures Merged(ws, gs) == SortNewestFirst(TagWords(ws) + TagGrammar(gs))[..|Merged(ws, gs)|]
  {
    var sorted := SortNewestFirst(TagWords(ws) + TagGrammar(gs));
    SortSorted(TagWords(ws) + TagGrammar(gs));
    var m := Merged(ws, gs);
    forall i, j | 0 <= i < j < |m| ensures CreatedAt(m[i]) >= CreatedAt(m[j]) {
      assert m[i] == sorted[i] && m[j] == sorted[j];
    }
  }

  /** A tagged attempt of the concatenation is an attempt of its own kind's list. */
  lemma TaggedOrigin(ws: seq<WordAttempt>, gs: seq<GrammarAttempt>, t: Tagged)
    requires t in TagWords(ws) + TagGrammar(gs)
    ensures (t.TaggedWord? ==> t.w in ws) && (t.TaggedGrammar? ==> t.g in gs)
  {
    var all := TagWords(ws) + TagGrammar(gs);
    var k :| 0 <= k < |all| && all[k] == t;
    if k < |ws| {
      assert all[k] == TaggedWord(ws[k]);
    } else {
      assert all[k] == TaggedGrammar(gs[k - |ws|]);
    }
  }

  /**
   * Every merged item is one of the attempts, still tagged with its kind:
   * word attempts as words and grammar attempts as grammar.
   */
  lemma MergedFromInputs(ws: seq<WordAttempt>, gs: seq<GrammarAttempt>, i: nat)
    requires i < |Merged(ws, gs)|
    ensures var t := Merged(ws, gs)[i];
      (t.TaggedWord? ==> t.w in ws) && (t.TaggedGrammar? ==> t.g in gs)
  {
    var all := TagWords(ws) + TagGrammar(gs);
    var sorted := SortNewestFirst(all);
    var t := Merged(ws, gs)[i];
    assert t == sorted[i];
    assert t in multiset(sorted);
    assert t in multiset(all);
    TaggedOrigin(ws, gs, t);
  }

  /**
   * The question fields taken from the model's reply: the greedy `{...}`
   * match is parsed and its options and answer copied; without a match both
   * stay unset. `None` is a parse failure (`JSON.parse` throwing).
   */
  function QuestionFields(text: string, parse: string -> Option<QuestionData>): (r: Option<(Option<seq<string>>, Option<int>)>)
    ensures GreedyMatch(text, '{', '}').None? ==> r == Some((None, None))
    ensures GreedyMatch(text, '{', '}').Some? ==>
      (r.None? <==> parse(GreedyMatch(text, '{', '}').value).None?)
  {
    var m := GreedyMatch(text, '{', '}');
    if m.None? then Some((None, None))
    else
      var q := parse(m.value);
      if q.None? then None else Some((Some(q.value.options), Some(q.value.correctAnswer)))
  }

  /** One review item, or `None` when generating or parsing its question fails. */
  function ItemOf(t: Tagged, reply: Tagged -> Option<string>, parse: string -> Option<QuestionData>): (r: Option<ReviewItem>)
    ensures r.Some? <==> reply(t).Some? && QuestionFields(reply(t).value, parse).Some?
    ensures r.Some? ==> r.value.itemType == TypeOf(t) && r.value.attemptId == IdOf(t) && r.value.createdAt == CreatedAt(t)
    ensures r.Some? ==>
      var (options, answer) := QuestionFields(reply(t).value, parse).value;
      r.value.topicInfo == if t.TaggedWord? then WordTopic(t.w.word, options, answer)
                           else GrammarTopic(t.g.grammar, options, answer)
  {
    var text := reply(t);
    if text.None? then None
    else
      var fields := QuestionFields(text.value, parse);
      if fields.None? then None
      else
        var (options, answer) := fields.value;
        var info := if t.TaggedWord? then WordTopic(t.w.word, options, answer)
                    else GrammarTopic(t.g.grammar, options, answer);
        Some(ReviewItem(TypeOf(t), info, IdOf(t), CreatedAt(t)))
  }

  /** `Promise.all` over the items: all of them, or `None` when any one fails. */
  function Items(ts: seq<Tagged>, reply: Tagged -> Option<string>, parse: string -> Option<QuestionData>)
    : (r: Option<seq<ReviewItem>>)
    ensures r.Some? ==> |r.value| == |ts|
  {
    if ts == [] then Some([])
    else
      var rest := Items(ts[..|ts| - 1], reply, parse);
      var last := ItemOf(ts[|ts| - 1], reply, parse);
      if rest.None? || last.None? then None else Some(rest.value + [last.value])
  }

  lemma {:induction false} ItemsIndex(ts: seq<Tagged>, reply: Tagged -> Option<string>,
                                      parse: string -> Option<QuestionData>, i: nat)
    requires Items(ts, reply, parse).Some? && i < |ts|
    ensures ItemOf(ts[i], reply, parse) == Some(Items(ts, reply, parse).value[i])
  {
    if i < |ts| - 1 {
      ItemsIndex(ts[..|ts| - 1], reply, parse, i);
    }
  }

  /** `Promise.all` fails exactly when the generation of some item fails. */
  lemma {:induction false} ItemsNoneIff(ts: seq<Tagged>, reply: Tagged -> Option<string>,
                                        parse: string -> Option<QuestionData>)
    ensures Items(ts, reply, parse).None? <==> exists i :: 0 <= i < |ts| && ItemOf(ts[i], reply, parse).None?
  {
    if ts != [] {
      var init := ts[..|ts| - 1];
      ItemsNoneIff(init, reply, parse);
      if exists i :: 0 <= i < |init| && ItemOf(init[i], reply, parse).None? {
        var i :| 0 <= i < |init| && ItemOf(init[i], reply, parse).None?;
        assert ts[i] == init[i];
      }
      if exists i :: 0 <= i < |ts| && ItemOf(ts[i], reply, parse).None? {
        var i :| 0 <= i < |ts| && ItemOf(ts[i], reply, parse).None?;
        if i < |init| { assert init[i] == ts[i]; }
      }
    }
  }

  /** The route. */
  function Review(session: Option<Session>, ws: seq<WordAttempt>, gs: seq<GrammarAttempt>,
                  reply: Tagged -> Option<string>, parse: string -> Option<QuestionData>): (r: ReviewResponse)
    ensures r.Unauthorized? <==> !(session.Some? && session.value.user.Some? && Truthy(session.value.user.value.id))
  {
    if !(session.Some? && session.value.user.Some? && Truthy(session.value.user.value.id)) then Unauthorized
    else
      var items := Items(Merged(ws, gs), reply, parse);
      if items.None? then ServerError(GenerationFailed) else Reviews(items.value)
  }

  /**
   * A successful response lists the merged attempts in order, at most ten
   * and newest first, each item keeping its kind, attempt id and timestamp.
   */
  lemma ReviewItemsShape(session: Option<Session>, ws: seq<WordAttempt>, gs: seq<GrammarAttempt>,
                         reply: Tagged -> Option<string>, parse: string -> Option<QuestionData>)
    requires Review(session, ws, gs, reply, parse).Reviews?
    ensures var items := Review(session, ws, gs, reply, parse).reviewItems;
      var m := Merged(ws, gs);
      && |items| == |m| && |items| <= Limit
      && (forall i :: 0 <= i < |items| ==>
            items[i].itemType == TypeOf(m[i]) && items[i].attemptId == IdOf(m[i]) && items[i].createdAt == CreatedAt(m[i]))
      && (forall i, j :: 0 <= i < j < |items| ==> items[i].createdAt >= items[j].createdAt)
  {
    var m := Merged(ws, gs);
    var items := Review(session, ws, gs, reply, parse).reviewItems;
    MergedShape(ws, gs);
    forall i | 0 <= i < |items| ensures ItemOf(m[i], reply, parse) == Some(items[i]) {
      ItemsIndex(m, reply, parse, i);
    }
  }

  /**
   * For a signed-in learner the route answers 500 "Failed to generate review
   * questions" exactly when the reply or the parse of some merged attempt's
   * question fails.
   */
  lemma ServerErrorIff(session: Option<Session>, ws: seq<WordAttempt>, gs: seq<GrammarAttempt>,
                       reply: Tagged -> Option<string>, parse: string -> Option<QuestionData>)
    ensures Review(session, ws, gs, reply, parse).ServerError? <==>
      && session.Some? && session.value.user.Some? && Truthy(session.value.user.value.id)
      && exists i :: 0 <= i < |Merged(ws, gs)| && ItemOf(Merged(ws, gs)[i], reply, parse).None?
    ensures Review(session, ws, gs, reply, parse).ServerError? ==>
      Review(session, ws, gs, reply, parse) == ServerError(GenerationFailed)
  {
    ItemsNoneIff(Merged(ws, gs), reply, parse);
  }
}
