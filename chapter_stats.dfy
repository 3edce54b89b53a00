/**
 * Chapter statistics (frontend/lib/chapterStats.ts, `calculateChapterStats`)
 * over the chapter's panels as the database returns them: each panel's
 * optional text and the words and grammatical structures tagged on it, one
 * entry per join row. Averages are exact rationals here; the source computes
 * them in floating point.
 */
module ChapterStats {
  import opened Common

  /** A tagged word or grammatical structure: its id and its optional JLPT level. */
  datatype Concept = Concept(id: string, jlptLevel: Option<int>)

  datatype StatPanel = StatPanel(japaneseText: Option<string>, words: seq<Concept>, grammars: seq<Concept>)

  datatype Stats = Stats(
    predictedJlptLevel: Option<real>,
    uniqueWordsCount: nat,
    uniqueGrammarCount: nat,
    panelCount: nat,
    totalCharacters: nat,
    avgJlptWords: Option<real>,
    avgJlptGrammar: Option<real>)

  /**
   * A JavaScript `Map<string, number | null>`: its keys in insertion order and
   * the value stored for each key.
   */
  datatype LevelMap = LevelMap(order: seq<string>, level: map<string, Option<int>>)

  /** The keys are listed once each, and every listed key has a value. */
  ghost predicate WellFormed(m: LevelMap) {
    && (forall k :: k in m.level <==> k in m.order)
    && (forall i, j :: 0 <= i < j < |m.order| ==> m.order[i] != m.order[j])
  }

  /** `panel.japaneseText?.length || 0`, in UTF-16 code units. */
  function TextLength(p: StatPanel): nat {
    if p.japaneseText.Some? then Utf16Length(p.japaneseText.value) else 0
  }

  /** The characters of all panels: the `reduce` over the panel list. */
  function TotalCharacters(panels: seq<StatPanel>): nat {
    if panels == [] then 0
    else TotalCharacters(panels[..|panels| - 1]) + TextLength(panels[|panels| - 1])
  }

  /** The total is additive over a split of the panel list. */
  lemma {:induction false} TotalCharactersAppend(a: seq<StatPanel>, b: seq<StatPanel>)
    ensures TotalCharacters(a + b) == TotalCharacters(a) + TotalCharacters(b)
    decreases |b|
  {
    if b == [] {
      assert a + b == a;
    } else {
      assert (a + b)[..|a + b| - 1] == a + b[..|b| - 1];
      TotalCharactersAppend(a, b[..|b| - 1]);
    }
  }

  /** Panels without text contribute nothing: with no text anywhere the total is 0. */
  lemma {:induction false} TotalCharactersNoText(panels: seq<StatPanel>)
    requires forall i :: 0 <= i < |panels| ==> panels[i].japaneseText.None?
    ensures TotalCharacters(panels) == 0
  {
    if panels != [] {
      TotalCharactersNoText(panels[..|panels| - 1]);
    }
  }

  /** Every tagged concept of the panels, panel by panel, in tag order. */
  function Flatten(lists: seq<seq<Concept>>): seq<Concept> {
    if lists == [] then [] else Flatten(lists[..|lists| - 1]) + lists[|lists| - 1]
  }

  function WordLists(panels: seq<StatPanel>): (r: seq<seq<Concept>>)
    ensures |r| == |panels| && forall i :: 0 <= i < |panels| ==> r[i] == panels[i].words
  {
    if panels == [] then [] else WordLists(panels[..|panels| - 1]) + [panels[|panels| - 1].words]
  }

  function GrammarLists(panels: seq<StatPanel>): (r: seq<seq<Concept>>)
    ensures |r| == |panels| && forall i :: 0 <= i < |panels| ==> r[i] == panels[i].grammars
  {
    if panels == [] then [] else GrammarLists(panels[..|panels| - 1]) + [panels[|panels| - 1].grammars]
  }

  /**
   * The map the `forEach` loops build: each id is added the first time it is
   * seen, with that occurrence's level, and later occurrences are ignored.
   */
  function FirstSeen(items: seq<Concept>): LevelMap {
    if items == [] then LevelMap([], map[])
    else
      var m := FirstSeen(items[..|items| - 1]);
      var c := items[|items| - 1];
      if c.id in m.level then m
      else LevelMap(m.order + [c.id], m.level[c.id := c.jlptLevel])
  }

  /** The map lists each key once and has a value for each listed key. */
  lemma {:induction false} FirstSeenWellFormed(items: seq<Concept>)
    ensures WellFormed(FirstSeen(items))
  {
    if items != [] {
      FirstSeenWellFormed(items[..|items| - 1]);
    }
  }

  /** The ids that occur in a list of concepts. */
  function Ids(items: seq<Concept>): set<string> {
    set i | 0 <= i < |items| :: items[i].id
  }

  /** The map's keys are exactly the ids that occur. */
  lemma {:induction false} FirstSeenKeys(items: seq<Concept>)
    ensures FirstSeen(items).level.Keys == Ids(items)
  {
    if items != [] {
      var init := items[..|items| - 1];
      FirstSeenKeys(init);
      assert Ids(items) == Ids(init) + {items[|items| - 1].id} by {
        forall k | k in Ids(items) ensures k in Ids(init) + {items[|items| - 1].id} {
          var i :| 0 <= i < |items| && items[i].id == k;
          if i < |init| { assert init[i] == items[i]; }
        }
        forall k | k in Ids(init) ensures k in Ids(items) {
          var i :| 0 <= i < |init| && init[i].id == k;
          assert items[i] == init[i];
        }
      }
    }
  }

  /** For every id, the stored level is the level of its first occurrence. */
  lemma {:induction false} FirstSeenLevel(items: seq<Concept>, i: nat)
    requires i < |items|
    requires forall j :: 0 <= j < i ==> items[j].id != items[i].id
    ensures items[i].id in FirstSeen(items).level
    ensures FirstSeen(items).level[items[i].id] == items[i].jlptLevel
  {
    var init := items[..|items| - 1];
    if i == |items| - 1 {
      FirstSeenKeys(init);
      forall j | 0 <= j < |init| ensures init[j].id != items[i].id {
        assert init[j] == items[j];
      }
    } else {
      assert init[i] == items[i];
      forall j | 0 <= j < i ensures init[j].id != init[i].id {
        assert init[j] == items[j];
      }
      FirstSeenLevel(init, i);
    }
  }

  /** A list listing each element once has as many elements as its set of elements. */
  lemma {:induction false} DistinctCardinality(s: seq<string>)
    requires forall i, j :: 0 <= i < j < |s| ==> s[i] != s[j]
    ensures |set k | k in s| == |s|
  {
    if s != [] {
      var init := s[..|s| - 1];
      assert forall i, j :: 0 <= i < j < |init| ==> init[i] != init[j] by {
        forall i, j | 0 <= i < j < |init| ensures init[i] != init[j] {
          assert init[i] == s[i] && init[j] == s[j];
        }
      }
      DistinctCardinality(init);
      var last := s[|s| - 1];
      assert (set k | k in s) == (set k | k in init) + {last} by {
        forall k | k in s ensures k in (set k | k in init) + {last} {
          var i :| 0 <= i < |s| && s[i] == k;
          if i < |init| { assert init[i] == s[i]; }
        }
      }
      assert last !in init by {
        forall i | 0 <= i < |init| ensures init[i] != last {
          assert init[i] == s[i];
        }
      }
    }
  }

  /** The map's size is the number of distinct ids. */
  lemma FirstSeenSize(items: seq<Concept>)
    ensures |FirstSeen(items).order| == |Ids(items)|
  {
    var m := FirstSeen(items);
    FirstSeenWellFormed(items);
    FirstSeenKeys(items);
    DistinctCardinality(m.order);
    assert (set k | k in m.order) == m.level.Keys;
  }

  /**
   * The inner `forEach` over one panel's concepts, continuing the map built
   * from the concepts `before` it.
   */
  method AddConcepts(m: LevelMap, list: seq<Concept>, ghost before: seq<Concept>) returns (r: LevelMap)
    requires m == FirstSeen(before)
    ensures r == FirstSeen(before + list)
  {
    var order := m.order;
    var level := m.level;
    var j := 0;
    assert before + list[..0] == before;
    while j < |list|
      invariant 0 <= j <= |list|
      invariant LevelMap(order, level) == FirstSeen(before + list[..j])
    {
      var c := list[j];
      assert (before + list[..j + 1])[..|before + list[..j + 1]| - 1] == before + list[..j];
      if c.id !in level {
        order := order + [c.id];
        level := level[c.id := c.jlptLevel];
      }
      j := j + 1;
    }
    assert list[..j] == list;
    r := LevelMap(order, level);
  }

  /**
   * The two `forEach` loops: every concept of every panel, in order, is added
   * to the map when its id is not there yet.
   */
  method CollectUnique(lists: seq<seq<Concept>>) returns (m: LevelMap)
    ensures m == FirstSeen(Flatten(lists))
  {
    m := LevelMap([], map[]);
    var i := 0;
    while i < |lists|
      invariant 0 <= i <= |lists|
      invariant m == FirstSeen(Flatten(lists[..i]))
    {
      m := AddConcepts(m, lists[i], Flatten(lists[..i]));
      assert lists[..i + 1][..i] == lists[..i];
      i := i + 1;
    }
    assert lists[..i] == lists;
  }

  /** The non-null levels of the map's values, in insertion order (`filter(level !== null)`). */
  function KnownLevels(order: seq<string>, level: map<string, Option<int>>): seq<int> {
    if order == [] then []
    else
      var rest := KnownLevels(order[..|order| - 1], level);
      var k := order[|order| - 1];
      if k in level && level[k].Some? then rest + [level[k].value] else rest
  }

  /** There are no known levels exactly when every listed key maps to null. */
  lemma {:induction false} KnownLevelsEmpty(order: seq<string>, level: map<string, Option<int>>)
    requires forall i :: 0 <= i < |order| ==> order[i] in level
    ensures KnownLevels(order, level) == [] <==> forall i :: 0 <= i < |order| ==> level[order[i]].None?
  {
    if order != [] {
      var init := order[..|order| - 1];
      KnownLevelsEmpty(init, level);
      forall i | 0 <= i < |init| ensures init[i] == order[i] { }
    }
  }

  function Sum(xs: seq<int>): int {
    if xs == [] then 0 else Sum(xs[..|xs| - 1]) + xs[|xs| - 1]
  }

  /** The mean of the levels, or null for an empty list. */
  function Average(levels: seq<int>): (r: Option<real>)
    ensures r.None? <==> levels == []
    ensures r.Some? ==> r.value * |levels| as real == Sum(levels) as real
  {
    if |levels| > 0 then Some(Sum(levels) as real / |levels| as real) else None
  }

  /** The mean of a map's known levels. */
  function MapAverage(m: LevelMap): Option<real> {
    Average(KnownLevels(m.order, m.level))
  }

  /** No key of the map has a level. */
  ghost predicate NoKnownLevel(m: LevelMap) {
    forall k :: k in m.level ==> m.level[k].None?
  }

  /** A chapter's average is null iff no unique concept has a level. */
  lemma MapAverageNone(m: LevelMap)
    requires WellFormed(m)
    ensures MapAverage(m).None? <==> NoKnownLevel(m)
  {
    KnownLevelsEmpty(m.order, m.level);
    if forall i :: 0 <= i < |m.order| ==> m.level[m.order[i]].None? {
      forall k | k in m.level ensures m.level[k].None? {
        var i :| 0 <= i < |m.order| && m.order[i] == k;
      }
    }
  }

  /**
   * The predicted level: 60% words and 40% grammar when both averages exist,
   * the lone average when only one does, null otherwise.
   */
  function Predicted(words: Option<real>, grammar: Option<real>): (r: Option<real>)
    ensures r.None? <==> words.None? && grammar.None?
    ensures words.Some? && grammar.None? ==> r == words
    ensures words.None? && grammar.Some? ==> r == grammar
    ensures words.Some? && grammar.Some? ==>
      && (words.value <= grammar.value ==> words.value <= r.value <= grammar.value)
      && (grammar.value <= words.value ==> grammar.value <= r.value <= words.value)
  {
    if words.Some? && grammar.Some? then Some(words.value * 0.6 + grammar.value * 0.4)
    else if words.Some? then words
    else if grammar.Some? then grammar
    else None
  }

  /** The statistics of a panel list. */
  function StatsOf(panels: seq<StatPanel>): Stats {
    var words := FirstSeen(Flatten(WordLists(panels)));
    var grammar := FirstSeen(Flatten(GrammarLists(panels)));
    var avgWords := MapAverage(words);
    var avgGrammar := MapAverage(grammar);
    Stats(Predicted(avgWords, avgGrammar), |words.order|, |grammar.order|, |panels|,
          TotalCharacters(panels), avgWords, avgGrammar)
  }

  /** `calculateChapterStats` over an already loaded panel list. */
  method CalculateChapterStats(panels: seq<StatPanel>) returns (stats: Stats)
    ensures stats == StatsOf(panels)
  {
    var panelCount := |panels|;
    var totalCharacters := TotalCharacters(panels);
    var uniqueWords := CollectUnique(WordLists(panels));
    var uniqueGrammar := CollectUnique(GrammarLists(panels));
    var avgWords := MapAverage(uniqueWords);
    var avgGrammar := MapAverage(uniqueGrammar);
    stats := Stats(Predicted(avgWords, avgGrammar), |uniqueWords.order|, |uniqueGrammar.order|,
                   panelCount, totalCharacters, avgWords, avgGrammar);
  }

  /** The concepts of all panels as one list, the words' or the grammar's. */
  function AllWords(panels: seq<StatPanel>): seq<Concept> {
    Flatten(WordLists(panels))
  }

  function AllGrammar(panels: seq<StatPanel>): seq<Concept> {
    Flatten(GrammarLists(panels))
  }

  /** A concept of the flattened list belongs to some panel's list. */
  lemma {:induction false} FlattenMember(lists: seq<seq<Concept>>, c: Concept)
    ensures c in Flatten(lists) <==> exists p, j :: 0 <= p < |lists| && 0 <= j < |lists[p]| && lists[p][j] == c
  {
    if lists != [] {
      var init := lists[..|lists| - 1];
      FlattenMember(init, c);
      if c in Flatten(lists) {
        if c in Flatten(init) {
          var p, j :| 0 <= p < |init| && 0 <= j < |init[p]| && init[p][j] == c;
          assert lists[p] == init[p];
        } else {
          var last := lists[|lists| - 1];
          var j :| 0 <= j < |last| && last[j] == c;
          assert lists[|lists| - 1][j] == c;
        }
      } else {
        forall p, j | 0 <= p < |lists| && 0 <= j < |lists[p]| ensures lists[p][j] != c {
          if p < |init| {
            assert lists[p] == init[p];
          } else {
            assert lists[p][j] in lists[|lists| - 1];
          }
        }
      }
    }
  }

  /**
   * The counts: one per panel, the summed text lengths, and one per distinct
   * word id and distinct grammar id across all panels.
   */
  lemma StatsCounts(panels: seq<StatPanel>)
    ensures StatsOf(panels).panelCount == |panels|
    ensures StatsOf(panels).totalCharacters == TotalCharacters(panels)
    ensures StatsOf(panels).uniqueWordsCount == |Ids(AllWords(panels))|
    ensures StatsOf(panels).uniqueGrammarCount == |Ids(AllGrammar(panels))|
  {
    FirstSeenSize(AllWords(panels));
    FirstSeenSize(AllGrammar(panels));
  }

  /** An id occurs among the chapter's words iff some panel tags it. */
  lemma WordIdsOfPanels(panels: seq<StatPanel>, id: string)
    ensures id in Ids(AllWords(panels)) <==>
      exists p, j :: 0 <= p < |panels| && 0 <= j < |panels[p].words| && panels[p].words[j].id == id
  {
    var all := AllWords(panels);
    var lists := WordLists(panels);
    if id in Ids(all) {
      var i :| 0 <= i < |all| && all[i].id == id;
      FlattenMember(lists, all[i]);
      var p, j :| 0 <= p < |lists| && 0 <= j < |lists[p]| && lists[p][j] == all[i];
      assert panels[p].words[j].id == id;
    }
    if exists p, j :: 0 <= p < |panels| && 0 <= j < |panels[p].words| && panels[p].words[j].id == id {
      var p, j :| 0 <= p < |panels| && 0 <= j < |panels[p].words| && panels[p].words[j].id == id;
      var c := lists[p][j];
      FlattenMember(lists, c);
      var i :| 0 <= i < |all| && all[i] == c;
    }
  }

  /**
   * The averages are null iff no unique concept has a level, and the
   * prediction is null iff both are; it is the lone average when only one exists.
   */
  lemma StatsNullFallbacks(panels: seq<StatPanel>)
    ensures var s := StatsOf(panels);
      var words := FirstSeen(AllWords(panels));
      var grammar := FirstSeen(AllGrammar(panels));
      && (s.avgJlptWords.None? <==> NoKnownLevel(words))
      && (s.avgJlptGrammar.None? <==> NoKnownLevel(grammar))
      && (s.predictedJlptLevel.None? <==> s.avgJlptWords.None? && s.avgJlptGrammar.None?)
      && (s.avgJlptGrammar.None? ==> s.predictedJlptLevel == s.avgJlptWords)
      && (s.avgJlptWords.None? ==> s.predictedJlptLevel == s.avgJlptGrammar)
  {
    var words := FirstSeen(AllWords(panels));
    var grammar := FirstSeen(AllGrammar(panels));
    assert StatsOf(panels).avgJlptWords == MapAverage(words);
    assert StatsOf(panels).avgJlptGrammar == MapAverage(grammar);
    FirstSeenWellFormed(AllWords(panels));
    FirstSeenWellFormed(AllGrammar(panels));
    MapAverageNone(words);
    MapAverageNone(grammar);
  }

  /** A repeated word id keeps the level of its first occurrence across the chapter. */
  lemma StatsFirstLevel(panels: seq<StatPanel>, i: nat)
    requires i < |AllWords(panels)|
    requires forall j :: 0 <= j < i ==> AllWords(panels)[j].id != AllWords(panels)[i].id
    ensures var words := FirstSeen(AllWords(panels));
      AllWords(panels)[i].id in words.level && words.level[AllWords(panels)[i].id] == AllWords(panels)[i].jlptLevel
  {
    FirstSeenLevel(AllWords(panels), i);
  }
}
