/**
 * What `getSeedJSON` (scripts/transformToSeed.ts) promises about its seed
 * document, proved of `TransformToSeed.SeedOf`, which the loops compute.
 */
module TransformToSeedProperties {
  import opened Common
  import opened SeedTypes
  import opened TransformToSeed

  /** `crypto.randomUUID()` never repeats: distinct draws give distinct ids. */
  ghost predicate FreshIds(ids: nat -> string) {
    forall m: nat, n: nat :: ids(m) == ids(n) ==> m == n
  }

  // ---------------------------------------------------------------------
  // Panels

  /** The number of panels of the pages that have a panel list. */
  function PanelCount(pages: seq<Page>): nat {
    if pages == [] then 0
    else PanelCount(pages[..|pages| - 1]) + (if pages[|pages| - 1].panels.None? then 0 else |pages[|pages| - 1].panels.value|)
  }

  /** The flat list counts every panel of every page once; a page without a panel list counts none. */
  lemma {:induction false} FlatPanelsCount(pages: seq<Page>)
    ensures |FlatPanels(pages)| == PanelCount(pages)
  {
    if pages != [] {
      FlatPanelsCount(pages[..|pages| - 1]);
    }
  }

  /** A page without panels adds nothing to the flat list. */
  lemma PageWithoutPanels(pages: seq<Page>, pg: Page)
    requires pg.panels.None?
    ensures FlatPanels(pages + [pg]) == FlatPanels(pages)
    ensures PanelCount(pages + [pg]) == PanelCount(pages)
  {
    assert (pages + [pg])[..|pages|] == pages;
  }

  /**
   * Panel j of page i sits at position PanelCount(pages[..i]) + j of the flat
   * list: panels are numbered across pages, in page order, then panel order.
   */
  lemma {:induction false} FlatPanelsIndex(pages: seq<Page>, i: nat, j: nat)
    requires i < |pages| && pages[i].panels.Some? && j < |pages[i].panels.value|
    ensures PanelCount(pages[..i]) + j < |FlatPanels(pages)|
    ensures FlatPanels(pages)[PanelCount(pages[..i]) + j] == PanelAt(pages[i].pageNumber, pages[i].panels.value[j])
  {
    var init := pages[..|pages| - 1];
    FlatPanelsCount(init);
    if i == |pages| - 1 {
      assert pages[..i] == init;
    } else {
      assert init[..i] == pages[..i];
      FlatPanelsIndex(init, i, j);
    }
  }

  /**
   * The k-th output panel has the k-th id, order index k, the input's chapter
   * id, its page's number, the concatenated words and meanings of its panel,
   * and no coordinates.
   */
  lemma SeedPanels(input: ChapterResult, ids: nat -> string, k: nat)
    requires k < |FlatPanels(input.pages)|
    ensures var s := SeedOf(input, ids); var pa := FlatPanels(input.pages)[k];
      && s.chapterId == input.chapterId
      && |s.panel| == |FlatPanels(input.pages)|
      && s.panel[k].id == ids(k) && s.panel[k].orderIndex == k
      && s.panel[k].chapterId == input.chapterId && s.panel[k].pageNumber == pa.pageNumber
      && s.panel[k].japaneseText == ConcatJapanese(pa.panel.words)
      && s.panel[k].translation == ConcatMeaning(pa.panel.words)
      && s.panel[k].x.None? && s.panel[k].y.None? && s.panel[k].width.None? && s.panel[k].height.None?
  {
    var flat := FlatPanels(input.pages);
    CollectIndexed(WordOccs(flat, ids));
    CollectIndexed(GrammarOccs(flat, ids));
    PanelsOutIndex(flat, input.chapterId, ids, k);
  }

  /** A panel's Japanese text is its words' Japanese forms joined with nothing between them. */
  lemma {:induction false} ConcatJapaneseIsJoin(ws: seq<Word>)
    ensures ConcatJapanese(ws) == Join(seq(|ws|, i requires 0 <= i < |ws| => ws[i].japanese), "")
  {
    if |ws| > 1 {
      var init := ws[..|ws| - 1];
      ConcatJapaneseIsJoin(init);
      var parts := seq(|init|, i requires 0 <= i < |init| => init[i].japanese);
      JoinAppend(parts, ws[|ws| - 1].japanese, "");
      assert seq(|ws|, i requires 0 <= i < |ws| => ws[i].japanese) == parts + [ws[|ws| - 1].japanese];
    } else if |ws| == 1 {
      assert ws[..0] == [];
    }
  }

  /** Likewise the translation is the words' meanings joined with nothing between them. */
  lemma {:induction false} ConcatMeaningIsJoin(ws: seq<Word>)
    ensures ConcatMeaning(ws) == Join(seq(|ws|, i requires 0 <= i < |ws| => ws[i].meaning), "")
  {
    if |ws| > 1 {
      var init := ws[..|ws| - 1];
      ConcatMeaningIsJoin(init);
      var parts := seq(|init|, i requires 0 <= i < |init| => init[i].meaning);
      JoinAppend(parts, ws[|ws| - 1].meaning, "");
      assert seq(|ws|, i requires 0 <= i < |ws| => ws[i].meaning) == parts + [ws[|ws| - 1].meaning];
    } else if |ws| == 1 {
      assert ws[..0] == [];
    }
  }

  // ---------------------------------------------------------------------
  // Occurrences

  /** Every word occurrence is a word of some flat panel, keyed by its Japanese form, recorded with that panel's id. */
  lemma {:induction false} WordOccsFrom(flat: seq<PanelAt>, ids: nat -> string, n: nat)
    requires n < |WordOccs(flat, ids)|
    ensures exists p, j :: && 0 <= p < |flat| && 0 <= j < |flat[p].panel.words|
                           && WordOccs(flat, ids)[n] == Occ(flat[p].panel.words[j].japanese, flat[p].panel.words[j], ids(p))
  {
    var init := flat[..|flat| - 1];
    var a := WordOccs(init, ids);
    if n < |a| {
      WordOccsFrom(init, ids, n);
      var p, j :| && 0 <= p < |init| && 0 <= j < |init[p].panel.words|
                  && a[n] == Occ(init[p].panel.words[j].japanese, init[p].panel.words[j], ids(p));
      assert init[p] == flat[p];
    } else {
      var p := |flat| - 1;
      assert WordOccs(flat, ids)[n] == PanelWordOccs(flat[p].panel, ids(p))[n - |a|];
    }
  }

  /** Conversely every word of every flat panel is an occurrence. */
  lemma {:induction false} WordOccsOf(flat: seq<PanelAt>, ids: nat -> string, p: nat, j: nat)
    requires p < |flat| && j < |flat[p].panel.words|
    ensures Occ(flat[p].panel.words[j].japanese, flat[p].panel.words[j], ids(p)) in WordOccs(flat, ids)
  {
    var init := flat[..|flat| - 1];
    if p < |init| {
      WordOccsOf(init, ids, p, j);
      assert init[p] == flat[p];
    } else {
      assert PanelWordOccs(flat[p].panel, ids(p))[j] in PanelWordOccs(flat[p].panel, ids(p));
    }
  }

  lemma {:induction false} GrammarOccsFrom(flat: seq<PanelAt>, ids: nat -> string, n: nat)
    requires n < |GrammarOccs(flat, ids)|
    ensures exists p, j :: && 0 <= p < |flat| && flat[p].panel.grammars.Some? && 0 <= j < |flat[p].panel.grammars.value|
                           && GrammarOccs(flat, ids)[n]
                              == Occ(flat[p].panel.grammars.value[j].name, flat[p].panel.grammars.value[j], ids(p))
  {
    var init := flat[..|flat| - 1];
    var a := GrammarOccs(init, ids);
    if n < |a| {
      GrammarOccsFrom(init, ids, n);
      var p, j :| && 0 <= p < |init| && init[p].panel.grammars.Some? && 0 <= j < |init[p].panel.grammars.value|
                  && a[n] == Occ(init[p].panel.grammars.value[j].name, init[p].panel.grammars.value[j], ids(p));
      assert init[p] == flat[p];
    } else {
      var p := |flat| - 1;
      assert GrammarOccs(flat, ids)[n] == PanelGrammarOccs(flat[p].panel, ids(p))[n - |a|];
    }
  }

  lemma {:induction false} GrammarOccsOf(flat: seq<PanelAt>, ids: nat -> string, p: nat, j: nat)
    requires p < |flat| && flat[p].panel.grammars.Some? && j < |flat[p].panel.grammars.value|
    ensures Occ(flat[p].panel.grammars.value[j].name, flat[p].panel.grammars.value[j], ids(p)) in GrammarOccs(flat, ids)
  {
    var init := flat[..|flat| - 1];
    if p < |init| {
      GrammarOccsOf(init, ids, p, j);
      assert init[p] == flat[p];
    } else {
      var os := PanelGrammarOccs(flat[p].panel, ids(p));
      assert os[j] in os;
    }
  }

  /** A panel id listed for a key is the panel id of one of that key's occurrences. */
  lemma {:induction false} PanelIdsOfMember<T>(occs: seq<Occ<T>>, k: string, x: string)
    requires x in PanelIdsOf(occs, k)
    ensures exists n :: 0 <= n < |occs| && occs[n].key == k && occs[n].panelId == x
  {
    var init := occs[..|occs| - 1];
    if x in PanelIdsOf(init, k) {
      PanelIdsOfMember(init, k, x);
      var n :| 0 <= n < |init| && init[n].key == k && init[n].panelId == x;
      assert occs[n] == init[n];
    }
  }

  /**
   * Keys appear in first-appearance order: for i < j, some occurrence of the
   * i-th key precedes every occurrence of the j-th key.
   */
  lemma CollectKeysOrder<T>(occs: seq<Occ<T>>, i: nat, j: nat)
    requires i < j < |Collect(occs).keys|
    ensures exists n :: && 0 <= n < |occs| && occs[n].key == Collect(occs).keys[i]
                        && forall m :: 0 <= m <= n ==> occs[m].key != Collect(occs).keys[j]
  {
    var n := KeysOrderWitness(occs, i, j);
  }

  /** The witness: an occurrence of the i-th key with no occurrence of the j-th key up to it. */
  lemma {:induction false} KeysOrderWitness<T>(occs: seq<Occ<T>>, i: nat, j: nat) returns (n: nat)
    requires i < j < |Collect(occs).keys|
    ensures n < |occs| && occs[n].key == Collect(occs).keys[i]
    ensures forall m :: 0 <= m <= n ==> occs[m].key != Collect(occs).keys[j]
  {
    var init := occs[..|occs| - 1];
    if j < |Collect(init).keys| {
      n := KeysOrderWitness(init, i, j);
      OldKeysWitness(occs, init, i, j, n);
    } else {
      n := NewKeyWitness(occs, i, j);
    }
  }

  /** Both keys were there before the last occurrence: the earlier witness still serves. */
  lemma OldKeysWitness<T>(occs: seq<Occ<T>>, init: seq<Occ<T>>, i: nat, j: nat, n: nat)
    requires occs != [] && init == occs[..|occs| - 1] && i < j < |Collect(init).keys|
    requires n < |init| && init[n].key == Collect(init).keys[i]
    requires forall m :: 0 <= m <= n ==> init[m].key != Collect(init).keys[j]
    ensures n < |occs| && occs[n].key == Collect(occs).keys[i]
    ensures forall m :: 0 <= m <= n ==> occs[m].key != Collect(occs).keys[j]
  {
    var g := Collect(init);
    assert Collect(occs) == Add(g, occs[|occs| - 1]);
    assert Collect(occs).keys[..|g.keys|] == g.keys;
    forall m | 0 <= m <= n ensures occs[m].key != Collect(occs).keys[j] {
      assert occs[m] == init[m];
    }
  }

  /** The j-th key is the last occurrence's, new: every occurrence before it has another key. */
  lemma NewKeyWitness<T>(occs: seq<Occ<T>>, i: nat, j: nat) returns (n: nat)
    requires i < j < |Collect(occs).keys| && j >= |Collect(occs[..|occs| - 1]).keys|
    ensures n < |occs| && occs[n].key == Collect(occs).keys[i]
    ensures forall m :: 0 <= m <= n ==> occs[m].key != Collect(occs).keys[j]
  {
    var init := occs[..|occs| - 1];
    var o := occs[|occs| - 1];
    var g := Collect(init);
    CollectSpec(init);
    assert Collect(occs) == Add(g, o);
    assert o.key !in g.panelIds;
    assert Collect(occs).keys == g.keys + [o.key];
    assert g.keys[i] in g.keys;
    assert Occurs(init, g.keys[i]);
    n :| 0 <= n < |init| && init[n].key == g.keys[i];
    assert !Occurs(init, o.key);
    forall m | 0 <= m <= n ensures occs[m].key != o.key {
      assert occs[m] == init[m];
    }
    assert occs[n] == init[n];
  }

  // ---------------------------------------------------------------------
  // Join rows

  /** The panel ids that the rows link to concept id c, in row order. */
  function LinkedPanels(rows: seq<JoinRow>, c: string): seq<string> {
    if rows == [] then []
    else LinkedPanels(rows[..|rows| - 1], c) + (if rows[|rows| - 1].conceptId == c then [rows[|rows| - 1].panelId] else [])
  }

  lemma {:induction false} LinkedPanelsAppend(a: seq<JoinRow>, b: seq<JoinRow>, c: string)
    ensures LinkedPanels(a + b, c) == LinkedPanels(a, c) + LinkedPanels(b, c)
    decreases |b|
  {
    if b == [] {
      assert a + b == a;
    } else {
      assert (a + b)[..|a + b| - 1] == a + b[..|b| - 1];
      LinkedPanelsAppend(a, b[..|b| - 1], c);
    }
  }

  lemma {:induction false} LinkedPanelsNone(rows: seq<JoinRow>, c: string)
    requires forall k :: 0 <= k < |rows| ==> rows[k].conceptId != c
    ensures LinkedPanels(rows, c) == []
  {
    if rows != [] {
      LinkedPanelsNone(rows[..|rows| - 1], c);
    }
  }

  /** A block of rows all linking concept d yields its panel ids for d and nothing for any other concept. */
  lemma {:induction false} LinkedPanelsBlock(pids: seq<string>, d: string, c: string)
    ensures LinkedPanels(LinkBlock(pids, d), c) == (if c == d then pids else [])
  {
    if pids != [] {
      var init := pids[..|pids| - 1];
      LinkedPanelsBlock(init, d, c);
      assert LinkBlock(pids, d)[..|pids| - 1] == LinkBlock(init, d);
      if c == d {
        assert pids == init + [pids[|pids| - 1]];
      }
    }
  }

  /** With fresh ids, the rows linked to the i-th key's id are exactly that key's panel-id list. */
  lemma {:induction false} RowsLinked(keys: seq<string>, panelIds: map<string, seq<string>>, ids: nat -> string,
                                      base: nat, i: nat)
    requires FreshIds(ids) && i < |keys|
    requires forall k :: 0 <= k < |keys| ==> keys[k] in panelIds
    ensures LinkedPanels(Rows(keys, panelIds, ids, base), ids(base + i)) == panelIds[keys[i]]
  {
    var n := |keys| - 1;
    var init := keys[..n];
    var pids := panelIds[keys[n]];
    var block := LinkBlock(pids, ids(base + n));
    assert Rows(keys, panelIds, ids, base) == Rows(init, panelIds, ids, base) + block;
    LinkedPanelsAppend(Rows(init, panelIds, ids, base), block, ids(base + i));
    LinkedPanelsBlock(pids, ids(base + n), ids(base + i));
    if i < n {
      assert init[i] == keys[i];
      RowsLinked(init, panelIds, ids, base, i);
    } else {
      var rs := Rows(init, panelIds, ids, base);
      forall k | 0 <= k < |rs| ensures rs[k].conceptId != ids(base + i) {
        RowsReference(init, panelIds, ids, base, rs[k]);
      }
      LinkedPanelsNone(rs, ids(base + i));
    }
  }

  // ---------------------------------------------------------------------
  // Words and grammar structures of the seed document

  /** Occurrence n is the first one with its key. */
  predicate FirstOccurrence<T>(occs: seq<Occ<T>>, n: nat)
    requires n < |occs|
  {
    forall m :: 0 <= m < n ==> occs[m].key != occs[n].key
  }

  /** A key occurs among the word occurrences iff some word of some panel has that Japanese form. */
  lemma WordOccursIff(flat: seq<PanelAt>, ids: nat -> string, w: string)
    ensures Occurs(WordOccs(flat, ids), w)
        <==> exists p, j :: 0 <= p < |flat| && 0 <= j < |flat[p].panel.words| && flat[p].panel.words[j].japanese == w
  {
    var occs := WordOccs(flat, ids);
    if Occurs(occs, w) {
      var n :| 0 <= n < |occs| && occs[n].key == w;
      WordOccsFrom(flat, ids, n);
    }
    if exists p, j :: 0 <= p < |flat| && 0 <= j < |flat[p].panel.words| && flat[p].panel.words[j].japanese == w {
      var p, j :| 0 <= p < |flat| && 0 <= j < |flat[p].panel.words| && flat[p].panel.words[j].japanese == w;
      WordOccsOf(flat, ids, p, j);
    }
  }

  lemma GrammarOccursIff(flat: seq<PanelAt>, ids: nat -> string, name: string)
    ensures Occurs(GrammarOccs(flat, ids), name)
        <==> exists p, j :: && 0 <= p < |flat| && flat[p].panel.grammars.Some?
                            && 0 <= j < |flat[p].panel.grammars.value| && flat[p].panel.grammars.value[j].name == name
  {
    var occs := GrammarOccs(flat, ids);
    if Occurs(occs, name) {
      var n :| 0 <= n < |occs| && occs[n].key == name;
      GrammarOccsFrom(flat, ids, n);
    }
    if exists p, j :: && 0 <= p < |flat| && flat[p].panel.grammars.Some?
                      && 0 <= j < |flat[p].panel.grammars.value| && flat[p].panel.grammars.value[j].name == name {
      var p, j :| && 0 <= p < |flat| && flat[p].panel.grammars.Some?
                  && 0 <= j < |flat[p].panel.grammars.value| && flat[p].panel.grammars.value[j].name == name;
      GrammarOccsOf(flat, ids, p, j);
    }
  }

  /** Every occurrence is keyed by its word's Japanese form. */
  ghost predicate KeyedWords(occs: seq<Occ<Word>>) {
    forall n :: 0 <= n < |occs| ==> occs[n].key == occs[n].item.japanese
  }

  /** Every occurrence is keyed by its grammar structure's name. */
  ghost predicate KeyedGrammars(occs: seq<Occ<Grammar>>) {
    forall n :: 0 <= n < |occs| ==> occs[n].key == occs[n].item.name
  }

  lemma WordOccsKeyed(flat: seq<PanelAt>, ids: nat -> string)
    ensures KeyedWords(WordOccs(flat, ids))
  {
    forall n | 0 <= n < |WordOccs(flat, ids)| ensures WordOccs(flat, ids)[n].key == WordOccs(flat, ids)[n].item.japanese {
      WordOccsFrom(flat, ids, n);
    }
  }

  lemma GrammarOccsKeyed(flat: seq<PanelAt>, ids: nat -> string)
    ensures KeyedGrammars(GrammarOccs(flat, ids))
  {
    forall n | 0 <= n < |GrammarOccs(flat, ids)| ensures GrammarOccs(flat, ids)[n].key == GrammarOccs(flat, ids)[n].item.name {
      GrammarOccsFrom(flat, ids, n);
    }
  }

  /** The analysed word an output word was made from: its fields without the id. */
  function WordSource(w: OutputWord): (r: Word)
    ensures WordOf(w.id, r) == w
  {
    Word(w.japanese, w.reading, w.meaning, w.partOfSpeech, w.jlptLevel)
  }

  function GrammarSource(g: OutputGrammar): (r: Grammar)
    ensures GrammarOf(g.id, r) == g
  {
    Grammar(g.name, g.pattern, g.explanation, g.jlptLevel)
  }

  /** item is the object of the first occurrence of key k. */
  ghost predicate FirstItem<T>(occs: seq<Occ<T>>, k: string, item: T) {
    exists n :: 0 <= n < |occs| && FirstOccurrence(occs, n) && occs[n].key == k && occs[n].item == item
  }

  /**
   * What the collected word groups hold: distinct keys, exactly the keys that
   * occur, and for each key the word of its first occurrence, whose Japanese
   * form is the key.
   */
  lemma WordGroups(occs: seq<Occ<Word>>)
    requires KeyedWords(occs)
    ensures forall i, j :: 0 <= i < j < |Collect(occs).keys| ==> Collect(occs).keys[i] != Collect(occs).keys[j]
    ensures forall k :: k in Collect(occs).keys <==> Occurs(occs, k)
    ensures forall i :: 0 <= i < |Collect(occs).keys| ==>
              && Collect(occs).keys[i] in Collect(occs).first
              && Collect(occs).first[Collect(occs).keys[i]].japanese == Collect(occs).keys[i]
              && FirstItem(occs, Collect(occs).keys[i], Collect(occs).first[Collect(occs).keys[i]])
  {
    var g := Collect(occs);
    CollectSpec(occs);
    forall i | 0 <= i < |g.keys|
      ensures g.keys[i] in g.first && g.first[g.keys[i]].japanese == g.keys[i] && FirstItem(occs, g.keys[i], g.first[g.keys[i]])
    {
      assert g.keys[i] in g.keys;
      CollectFirst(occs, g.keys[i]);
    }
  }

  lemma GrammarGroups(occs: seq<Occ<Grammar>>)
    requires KeyedGrammars(occs)
    ensures forall i, j :: 0 <= i < j < |Collect(occs).keys| ==> Collect(occs).keys[i] != Collect(occs).keys[j]
    ensures forall k :: k in Collect(occs).keys <==> Occurs(occs, k)
    ensures forall i :: 0 <= i < |Collect(occs).keys| ==>
              && Collect(occs).keys[i] in Collect(occs).first
              && Collect(occs).first[Collect(occs).keys[i]].name == Collect(occs).keys[i]
              && FirstItem(occs, Collect(occs).keys[i], Collect(occs).first[Collect(occs).keys[i]])
  {
    var g := Collect(occs);
    CollectSpec(occs);
    forall i | 0 <= i < |g.keys|
      ensures g.keys[i] in g.first && g.first[g.keys[i]].name == g.keys[i] && FirstItem(occs, g.keys[i], g.first[g.keys[i]])
    {
      assert g.keys[i] in g.keys;
      CollectFirst(occs, g.keys[i]);
    }
  }

  /** The words emitted for the collected groups of keyed occurrences, stated of the occurrences alone. */
  lemma WordsOfOccs(occs: seq<Occ<Word>>, ids: nat -> string, base: nat, words: seq<OutputWord>)
    requires KeyedWords(occs) && Indexed(Collect(occs))
    requires words == WordsOut(Collect(occs).keys, Collect(occs).first, ids, base)
    ensures forall i, j :: 0 <= i < j < |words| ==> words[i].japanese != words[j].japanese
    ensures forall w :: (exists i :: 0 <= i < |words| && words[i].japanese == w) <==> Occurs(occs, w)
    ensures forall i :: 0 <= i < |words| ==> words[i].id == ids(base + i)
    ensures forall i :: 0 <= i < |words| ==> FirstItem(occs, words[i].japanese, WordSource(words[i]))
  {
    var g := Collect(occs);
    WordGroups(occs);
    forall i | 0 <= i < |words| ensures words[i] == WordOf(ids(base + i), g.first[g.keys[i]]) {
      WordsOutIndex(g.keys, g.first, ids, base, i);
    }
    forall w | Occurs(occs, w) ensures exists i :: 0 <= i < |words| && words[i].japanese == w {
      var i :| 0 <= i < |g.keys| && g.keys[i] == w;
      assert words[i].japanese == w;
    }
  }

  lemma GrammarsOfOccs(occs: seq<Occ<Grammar>>, ids: nat -> string, base: nat, grammars: seq<OutputGrammar>)
    requires KeyedGrammars(occs) && Indexed(Collect(occs))
    requires grammars == GrammarsOut(Collect(occs).keys, Collect(occs).first, ids, base)
    ensures forall i, j :: 0 <= i < j < |grammars| ==> grammars[i].name != grammars[j].name
    ensures forall name :: (exists i :: 0 <= i < |grammars| && grammars[i].name == name) <==> Occurs(occs, name)
    ensures forall i :: 0 <= i < |grammars| ==> grammars[i].id == ids(base + i)
    ensures forall i :: 0 <= i < |grammars| ==> FirstItem(occs, grammars[i].name, GrammarSource(grammars[i]))
  {
    var g := Collect(occs);
    GrammarGroups(occs);
    forall i | 0 <= i < |grammars| ensures grammars[i] == GrammarOf(ids(base + i), g.first[g.keys[i]]) {
      GrammarsOutIndex(g.keys, g.first, ids, base, i);
    }
    forall name | Occurs(occs, name) ensures exists i :: 0 <= i < |grammars| && grammars[i].name == name {
      var i :| 0 <= i < |g.keys| && g.keys[i] == name;
      assert grammars[i].name == name;
    }
  }

  /**
   * The seed document in terms of the collected occurrences: its word and
   * grammar lists and its two join tables are those emitted for the groups of
   * `wo` and `go`, the word ids drawn after the |flat| panel ids and the
   * grammar ids after the word ids.
   */
  lemma SeedParts(input: ChapterResult, ids: nat -> string, s: SeedOutput,
                  flat: seq<PanelAt>, wo: seq<Occ<Word>>, go: seq<Occ<Grammar>>)
    requires s == SeedOf(input, ids)
    requires flat == FlatPanels(input.pages) && wo == WordOccs(flat, ids) && go == GrammarOccs(flat, ids)
    ensures Indexed(Collect(wo)) && Indexed(Collect(go))
    ensures s == Assemble(input.chapterId, flat, Collect(wo), Collect(go), ids)
  {
    CollectIndexed(wo);
    CollectIndexed(go);
  }

  /** The fields of an assembled document, the grammar ids drawn after the panel and word ids. */
  lemma AssembleParts(chapterId: string, flat: seq<PanelAt>, wg: Groups<Word>, gg: Groups<Grammar>,
                      ids: nat -> string, s: SeedOutput)
    returns (grammarBase: nat)
    requires Indexed(wg) && Indexed(gg) && s == Assemble(chapterId, flat, wg, gg, ids)
    ensures s.chapterId == chapterId && s.panel == PanelsOut(flat, chapterId, ids) && |s.word| == |wg.keys|
    ensures s.word == WordsOut(wg.keys, wg.first, ids, |flat|)
    ensures s.panelWord == Rows(wg.keys, wg.panelIds, ids, |flat|)
    ensures grammarBase == |flat| + |wg.keys|
    ensures s.grammaticalStructure == GrammarsOut(gg.keys, gg.first, ids, grammarBase)
    ensures s.panelGrammaticalStructure == Rows(gg.keys, gg.panelIds, ids, grammarBase)
  {
    grammarBase := |flat| + |wg.keys|;
  }

  /**
   * Ids are drawn from the supply in one sequence: panel k gets ids(k), then
   * the words, then the grammar structures.
   */
  lemma AssembleIds(chapterId: string, flat: seq<PanelAt>, wg: Groups<Word>, gg: Groups<Grammar>,
                    ids: nat -> string, s: SeedOutput)
    requires Indexed(wg) && Indexed(gg) && s == Assemble(chapterId, flat, wg, gg, ids)
    ensures |s.panel| == |flat| && |s.word| == |wg.keys| && |s.grammaticalStructure| == |gg.keys|
    ensures forall k :: 0 <= k < |s.panel| ==> s.panel[k].id == ids(k)
    ensures forall i :: 0 <= i < |s.word| ==> s.word[i].id == ids(|s.panel| + i)
    ensures forall i :: 0 <= i < |s.grammaticalStructure| ==> s.grammaticalStructure[i].id == ids(|s.panel| + |s.word| + i)
  {
    forall k | 0 <= k < |s.panel| ensures s.panel[k].id == ids(k) {
      PanelsOutIndex(flat, chapterId, ids, k);
    }
    forall i | 0 <= i < |s.word| ensures s.word[i].id == ids(|s.panel| + i) {
      WordsOutIndex(wg.keys, wg.first, ids, |flat|, i);
    }
    forall i | 0 <= i < |s.grammaticalStructure| ensures s.grammaticalStructure[i].id == ids(|s.panel| + |s.word| + i) {
      GrammarsOutIndex(gg.keys, gg.first, ids, |flat| + |wg.keys|, i);
    }
  }

  /** With a fresh supply, all ids of the document are distinct. */
  lemma AssembleIdsDistinct(chapterId: string, flat: seq<PanelAt>, wg: Groups<Word>, gg: Groups<Grammar>,
                            ids: nat -> string, s: SeedOutput)
    requires FreshIds(ids) && Indexed(wg) && Indexed(gg) && s == Assemble(chapterId, flat, wg, gg, ids)
    ensures forall k, i :: 0 <= k < |s.panel| && 0 <= i < |s.word| ==> s.panel[k].id != s.word[i].id
    ensures forall k, i :: 0 <= k < |s.panel| && 0 <= i < |s.grammaticalStructure| ==>
              s.panel[k].id != s.grammaticalStructure[i].id
    ensures forall i, j :: 0 <= i < |s.word| && 0 <= j < |s.grammaticalStructure| ==>
              s.word[i].id != s.grammaticalStructure[j].id
    ensures forall i, j :: 0 <= i < |s.word| && 0 <= j < |s.word| && i != j ==> s.word[i].id != s.word[j].id
    ensures forall i, j :: 0 <= i < |s.grammaticalStructure| && 0 <= j < |s.grammaticalStructure| && i != j ==>
              s.grammaticalStructure[i].id != s.grammaticalStructure[j].id
  {
    AssembleIds(chapterId, flat, wg, gg, ids, s);
  }

  /** With a fresh supply, the document's words have distinct ids, and so do its grammar structures. */
  lemma SeedConceptIdsDistinct(input: ChapterResult, ids: nat -> string, s: SeedOutput)
    requires FreshIds(ids) && s == SeedOf(input, ids)
    ensures forall i, j :: 0 <= i < |s.word| && 0 <= j < |s.word| && i != j ==> s.word[i].id != s.word[j].id
    ensures forall i, j :: 0 <= i < |s.grammaticalStructure| && 0 <= j < |s.grammaticalStructure| && i != j ==>
              s.grammaticalStructure[i].id != s.grammaticalStructure[j].id
  {
    var flat := FlatPanels(input.pages);
    var wo, go := WordOccs(flat, ids), GrammarOccs(flat, ids);
    SeedParts(input, ids, s, flat, wo, go);
    AssembleIdsDistinct(input.chapterId, flat, Collect(wo), Collect(go), ids, s);
  }

  /**
   * One output word per distinct Japanese form that occurs, in the panels'
   * order: the forms are distinct, exactly the occurring ones, each with the
   * id drawn after the panel ids and the fields of its first occurrence.
   */
  lemma SeedWords(input: ChapterResult, ids: nat -> string, s: SeedOutput)
    requires s == SeedOf(input, ids)
    ensures forall i, j :: 0 <= i < j < |s.word| ==> s.word[i].japanese != s.word[j].japanese
    ensures forall w :: (exists i :: 0 <= i < |s.word| && s.word[i].japanese == w)
                        <==> Occurs(WordOccs(FlatPanels(input.pages), ids), w)
    ensures forall i :: 0 <= i < |s.word| ==>
              FirstItem(WordOccs(FlatPanels(input.pages), ids), s.word[i].japanese, WordSource(s.word[i]))
  {
    var flat := FlatPanels(input.pages);
    var wo := WordOccs(flat, ids);
    SeedParts(input, ids, s, flat, wo, GrammarOccs(flat, ids));
    var _ := AssembleParts(input.chapterId, flat, Collect(wo), Collect(GrammarOccs(flat, ids)), ids, s);
    WordOccsKeyed(flat, ids);
    WordsOfOccs(wo, ids, |flat|, s.word);
  }

  /** One output grammar structure per distinct name that occurs, with its first occurrence's fields. */
  lemma SeedGrammars(input: ChapterResult, ids: nat -> string, s: SeedOutput)
    requires s == SeedOf(input, ids)
    ensures forall i, j :: 0 <= i < j < |s.grammaticalStructure| ==>
              s.grammaticalStructure[i].name != s.grammaticalStructure[j].name
    ensures forall name :: (exists i :: 0 <= i < |s.grammaticalStructure| && s.grammaticalStructure[i].name == name)
                           <==> Occurs(GrammarOccs(FlatPanels(input.pages), ids), name)
    ensures forall i :: 0 <= i < |s.grammaticalStructure| ==>
              FirstItem(GrammarOccs(FlatPanels(input.pages), ids), s.grammaticalStructure[i].name,
                        GrammarSource(s.grammaticalStructure[i]))
  {
    var flat := FlatPanels(input.pages);
    var go := GrammarOccs(flat, ids);
    var wo := WordOccs(flat, ids);
    SeedParts(input, ids, s, flat, wo, go);
    GrammarOccsKeyed(flat, ids);
    AssembledGrammars(input.chapterId, flat, wo, go, ids, s);
  }

  lemma AssembledGrammars(chapterId: string, flat: seq<PanelAt>, wo: seq<Occ<Word>>, go: seq<Occ<Grammar>>,
                          ids: nat -> string, s: SeedOutput)
    requires Indexed(Collect(wo)) && Indexed(Collect(go)) && KeyedGrammars(go)
    requires s == Assemble(chapterId, flat, Collect(wo), Collect(go), ids)
    ensures forall i, j :: 0 <= i < j < |s.grammaticalStructure| ==>
              s.grammaticalStructure[i].name != s.grammaticalStructure[j].name
    ensures forall name :: (exists i :: 0 <= i < |s.grammaticalStructure| && s.grammaticalStructure[i].name == name)
                           <==> Occurs(go, name)
    ensures forall i :: 0 <= i < |s.grammaticalStructure| ==>
              FirstItem(go, s.grammaticalStructure[i].name, GrammarSource(s.grammaticalStructure[i]))
  {
    var base := AssembleParts(chapterId, flat, Collect(wo), Collect(go), ids, s);
    GrammarsOfOccs(go, ids, base, s.grammaticalStructure);
  }

  // ---------------------------------------------------------------------
  // Join tables of the seed document

  /** Some occurrence of key k was recorded with panel id x. */
  ghost predicate LinkFrom<T>(occs: seq<Occ<T>>, k: string, x: string) {
    exists n :: 0 <= n < |occs| && occs[n].key == k && occs[n].panelId == x
  }

  /** The rows emitted for collected occurrences: one per occurrence, each tracing back to an occurrence of its concept. */
  lemma LinksOfOccs<T>(occs: seq<Occ<T>>, ids: nat -> string, base: nat, rows: seq<JoinRow>)
    requires Indexed(Collect(occs))
    requires rows == Rows(Collect(occs).keys, Collect(occs).panelIds, ids, base)
    ensures |rows| == |occs|
    ensures forall r :: r in rows ==>
              exists i :: 0 <= i < |Collect(occs).keys| && r.conceptId == ids(base + i)
                          && LinkFrom(occs, Collect(occs).keys[i], r.panelId)
  {
    var g := Collect(occs);
    TotalLinksOfCollect(occs);
    RowsLength(g.keys, g.panelIds, ids, base);
    CollectSpec(occs);
    forall r | r in rows
      ensures exists i :: 0 <= i < |g.keys| && r.conceptId == ids(base + i) && LinkFrom(occs, g.keys[i], r.panelId)
    {
      RowsReference(g.keys, g.panelIds, ids, base, r);
      var i :| 0 <= i < |g.keys| && r.conceptId == ids(base + i) && r.panelId in g.panelIds[g.keys[i]];
      PanelIdsOfMember(occs, g.keys[i], r.panelId);
    }
  }

  /** With fresh ids, the rows linked to the i-th concept list the panel ids of that concept's occurrences. */
  lemma LinkedOfOccs<T>(occs: seq<Occ<T>>, ids: nat -> string, base: nat, rows: seq<JoinRow>, i: nat)
    requires FreshIds(ids) && Indexed(Collect(occs)) && i < |Collect(occs).keys|
    requires rows == Rows(Collect(occs).keys, Collect(occs).panelIds, ids, base)
    ensures LinkedPanels(rows, ids(base + i)) == PanelIdsOf(occs, Collect(occs).keys[i])
  {
    var g := Collect(occs);
    CollectSpec(occs);
    RowsLinked(g.keys, g.panelIds, ids, base, i);
  }

  /** The number of words of a panel with Japanese form w. */
  function WordCount(ws: seq<Word>, w: string): nat {
    if ws == [] then 0 else WordCount(ws[..|ws| - 1], w) + (if ws[|ws| - 1].japanese == w then 1 else 0)
  }

  /** The number of grammar structures of a panel named name. */
  function GrammarCount(gs: seq<Grammar>, name: string): nat {
    if gs == [] then 0 else GrammarCount(gs[..|gs| - 1], name) + (if gs[|gs| - 1].name == name then 1 else 0)
  }

  /** n copies of x. */
  function Repeat(x: string, n: nat): seq<string> {
    if n == 0 then [] else Repeat(x, n - 1) + [x]
  }

  /** Reference for the word links: each panel's id, once per word of that panel with form w, panel by panel. */
  function WordPanels(flat: seq<PanelAt>, ids: nat -> string, w: string): seq<string> {
    if flat == [] then []
    else WordPanels(flat[..|flat| - 1], ids, w)
         + Repeat(ids(|flat| - 1), WordCount(flat[|flat| - 1].panel.words, w))
  }

  /** Reference for the grammar links: panels without a grammars field contribute nothing. */
  function GrammarPanels(flat: seq<PanelAt>, ids: nat -> string, name: string): seq<string> {
    if flat == [] then []
    else
      var gs := flat[|flat| - 1].panel.grammars;
      GrammarPanels(flat[..|flat| - 1], ids, name)
      + (if gs.None? then [] else Repeat(ids(|flat| - 1), GrammarCount(gs.value, name)))
  }

  lemma {:induction false} PanelIdsOfAppend<T>(a: seq<Occ<T>>, b: seq<Occ<T>>, k: string)
    ensures PanelIdsOf(a + b, k) == PanelIdsOf(a, k) + PanelIdsOf(b, k)
    decreases |b|
  {
    if b == [] {
      assert a + b == a;
    } else {
      assert (a + b)[..|a + b| - 1] == a + b[..|b| - 1];
      PanelIdsOfAppend(a, b[..|b| - 1], k);
    }
  }

  lemma {:induction false} PanelIdsOfPanelWords(ws: seq<Word>, id: string, w: string)
    ensures PanelIdsOf(WordListOccs(ws, id), w)
         == Repeat(id, WordCount(ws, w))
  {
    if ws != [] {
      var init := ws[..|ws| - 1];
      assert WordListOccs(ws, id)[..|ws| - 1] == WordListOccs(init, id);
      PanelIdsOfPanelWords(init, id, w);
    }
  }

  lemma {:induction false} PanelIdsOfPanelGrammars(gs: seq<Grammar>, id: string, name: string)
    ensures PanelIdsOf(GrammarListOccs(gs, id), name) == Repeat(id, GrammarCount(gs, name))
  {
    if gs != [] {
      var init := gs[..|gs| - 1];
      assert GrammarListOccs(gs, id)[..|gs| - 1] == GrammarListOccs(init, id);
      PanelIdsOfPanelGrammars(init, id, name);
    }
  }

  /** The panel ids recorded for a word form are the reference: one per occurrence, in panel order. */
  lemma {:induction false} WordPanelIds(flat: seq<PanelAt>, ids: nat -> string, w: string)
    ensures PanelIdsOf(WordOccs(flat, ids), w) == WordPanels(flat, ids, w)
  {
    if flat != [] {
      var init := flat[..|flat| - 1];
      var pa := flat[|flat| - 1];
      assert flat == init + [pa];
      OccsSnoc(init, pa, ids);
      PanelIdsOfAppend(WordOccs(init, ids), PanelWordOccs(pa.panel, ids(|init|)), w);
      PanelIdsOfPanelWords(pa.panel.words, ids(|init|), w);
      WordPanelIds(init, ids, w);
    }
  }

  lemma {:induction false} GrammarPanelIds(flat: seq<PanelAt>, ids: nat -> string, name: string)
    ensures PanelIdsOf(GrammarOccs(flat, ids), name) == GrammarPanels(flat, ids, name)
  {
    if flat != [] {
      var init := flat[..|flat| - 1];
      var pa := flat[|flat| - 1];
      assert flat == init + [pa];
      OccsSnoc(init, pa, ids);
      PanelIdsOfAppend(GrammarOccs(init, ids), PanelGrammarOccs(pa.panel, ids(|init|)), name);
      if pa.panel.grammars.Some? {
        PanelIdsOfPanelGrammars(pa.panel.grammars.value, ids(|init|), name);
      }
      GrammarPanelIds(init, ids, name);
    }
  }

  /** Panel p is a flat panel with a word of form w, and x is its id. */
  ghost predicate WordInPanel(flat: seq<PanelAt>, ids: nat -> string, w: string, x: string) {
    exists p, j :: 0 <= p < |flat| && 0 <= j < |flat[p].panel.words| && flat[p].panel.words[j].japanese == w && x == ids(p)
  }

  /** Panel p is a flat panel with a grammars field listing a structure named name, and x is its id. */
  ghost predicate GrammarInPanel(flat: seq<PanelAt>, ids: nat -> string, name: string, x: string) {
    exists p, j :: && 0 <= p < |flat| && flat[p].panel.grammars.Some? && 0 <= j < |flat[p].panel.grammars.value|
                   && flat[p].panel.grammars.value[j].name == name && x == ids(p)
  }

  lemma WordLinkFrom(flat: seq<PanelAt>, ids: nat -> string, w: string, x: string)
    requires LinkFrom(WordOccs(flat, ids), w, x)
    ensures WordInPanel(flat, ids, w, x)
  {
    var n :| 0 <= n < |WordOccs(flat, ids)| && WordOccs(flat, ids)[n].key == w && WordOccs(flat, ids)[n].panelId == x;
    WordOccsFrom(flat, ids, n);
  }

  lemma GrammarLinkFrom(flat: seq<PanelAt>, ids: nat -> string, name: string, x: string)
    requires LinkFrom(GrammarOccs(flat, ids), name, x)
    ensures GrammarInPanel(flat, ids, name, x)
  {
    var n :| 0 <= n < |GrammarOccs(flat, ids)| && GrammarOccs(flat, ids)[n].key == name && GrammarOccs(flat, ids)[n].panelId == x;
    GrammarOccsFrom(flat, ids, n);
  }

  /** The i-th emitted word is the i-th key's, with the i-th id after base. */
  lemma WordOutKey(occs: seq<Occ<Word>>, ids: nat -> string, base: nat, i: nat)
    requires KeyedWords(occs) && Indexed(Collect(occs)) && i < |Collect(occs).keys|
    ensures WordsOut(Collect(occs).keys, Collect(occs).first, ids, base)[i].japanese == Collect(occs).keys[i]
    ensures WordsOut(Collect(occs).keys, Collect(occs).first, ids, base)[i].id == ids(base + i)
  {
    var g := Collect(occs);
    WordsOutIndex(g.keys, g.first, ids, base, i);
    CollectFirst(occs, g.keys[i]);
  }

  lemma GrammarOutKey(occs: seq<Occ<Grammar>>, ids: nat -> string, base: nat, i: nat)
    requires KeyedGrammars(occs) && Indexed(Collect(occs)) && i < |Collect(occs).keys|
    ensures GrammarsOut(Collect(occs).keys, Collect(occs).first, ids, base)[i].name == Collect(occs).keys[i]
    ensures GrammarsOut(Collect(occs).keys, Collect(occs).first, ids, base)[i].id == ids(base + i)
  {
    var g := Collect(occs);
    GrammarsOutIndex(g.keys, g.first, ids, base, i);
    CollectFirst(occs, g.keys[i]);
  }

  /** The join rows emitted beside the words: one per occurrence, each to an output word it traces back to. */
  lemma WordLinksOfOccs(occs: seq<Occ<Word>>, ids: nat -> string, base: nat, words: seq<OutputWord>, rows: seq<JoinRow>)
    requires KeyedWords(occs) && Indexed(Collect(occs))
    requires words == WordsOut(Collect(occs).keys, Collect(occs).first, ids, base)
    requires rows == Rows(Collect(occs).keys, Collect(occs).panelIds, ids, base)
    ensures |rows| == |occs|
    ensures forall r :: r in rows ==>
              exists i :: 0 <= i < |words| && r.conceptId == words[i].id && LinkFrom(occs, words[i].japanese, r.panelId)
  {
    LinksOfOccs(occs, ids, base, rows);
    forall r | r in rows
      ensures exists i :: 0 <= i < |words| && r.conceptId == words[i].id && LinkFrom(occs, words[i].japanese, r.panelId)
    {
      var i :| 0 <= i < |Collect(occs).keys| && r.conceptId == ids(base + i) && LinkFrom(occs, Collect(occs).keys[i], r.panelId);
      WordOutKey(occs, ids, base, i);
    }
  }

  lemma GrammarLinksOfOccs(occs: seq<Occ<Grammar>>, ids: nat -> string, base: nat, grammars: seq<OutputGrammar>,
                           rows: seq<JoinRow>)
    requires KeyedGrammars(occs) && Indexed(Collect(occs))
    requires grammars == GrammarsOut(Collect(occs).keys, Collect(occs).first, ids, base)
    requires rows == Rows(Collect(occs).keys, Collect(occs).panelIds, ids, base)
    ensures |rows| == |occs|
    ensures forall r :: r in rows ==>
              exists i :: 0 <= i < |grammars| && r.conceptId == grammars[i].id && LinkFrom(occs, grammars[i].name, r.panelId)
  {
    LinksOfOccs(occs, ids, base, rows);
    forall r | r in rows
      ensures exists i :: 0 <= i < |grammars| && r.conceptId == grammars[i].id && LinkFrom(occs, grammars[i].name, r.panelId)
    {
      var i :| 0 <= i < |Collect(occs).keys| && r.conceptId == ids(base + i) && LinkFrom(occs, Collect(occs).keys[i], r.panelId);
      GrammarOutKey(occs, ids, base, i);
    }
  }

  /**
   * The word join table: one row per word occurrence of every panel, and
   * every row joins an output word to the id of a panel holding that word.
   */
  lemma SeedWordLinks(input: ChapterResult, ids: nat -> string, s: SeedOutput)
    requires s == SeedOf(input, ids)
    ensures |s.panelWord| == |WordOccs(FlatPanels(input.pages), ids)|
    ensures forall r :: r in s.panelWord ==>
              exists i :: && 0 <= i < |s.word| && r.conceptId == s.word[i].id
                          && WordInPanel(FlatPanels(input.pages), ids, s.word[i].japanese, r.panelId)
  {
    var flat := FlatPanels(input.pages);
    var wo := WordOccs(flat, ids);
    SeedParts(input, ids, s, flat, wo, GrammarOccs(flat, ids));
    WordOccsKeyed(flat, ids);
    var _ := AssembleParts(input.chapterId, flat, Collect(wo), Collect(GrammarOccs(flat, ids)), ids, s);
    WordLinksOfOccs(wo, ids, |flat|, s.word, s.panelWord);
    forall r | r in s.panelWord
      ensures exists i :: 0 <= i < |s.word| && r.conceptId == s.word[i].id && WordInPanel(flat, ids, s.word[i].japanese, r.panelId)
    {
      var i :| 0 <= i < |s.word| && r.conceptId == s.word[i].id && LinkFrom(wo, s.word[i].japanese, r.panelId);
      WordLinkFrom(flat, ids, s.word[i].japanese, r.panelId);
    }
  }

  /**
   * The grammar join table: one row per grammar occurrence, and every row
   * joins an output grammar structure to the id of a panel that has a
   * grammars field listing it.
   */
  lemma SeedGrammarLinks(input: ChapterResult, ids: nat -> string, s: SeedOutput)
    requires s == SeedOf(input, ids)
    ensures |s.panelGrammaticalStructure| == |GrammarOccs(FlatPanels(input.pages), ids)|
    ensures forall r :: r in s.panelGrammaticalStructure ==>
              exists i :: && 0 <= i < |s.grammaticalStructure| && r.conceptId == s.grammaticalStructure[i].id
                          && GrammarInPanel(FlatPanels(input.pages), ids, s.grammaticalStructure[i].name, r.panelId)
  {
    var flat := FlatPanels(input.pages);
    var go := GrammarOccs(flat, ids);
    SeedParts(input, ids, s, flat, WordOccs(flat, ids), go);
    GrammarOccsKeyed(flat, ids);
    var base := AssembleParts(input.chapterId, flat, Collect(WordOccs(flat, ids)), Collect(go), ids, s);
    GrammarLinksOfOccs(go, ids, base, s.grammaticalStructure, s.panelGrammaticalStructure);
    forall r | r in s.panelGrammaticalStructure
      ensures exists i :: && 0 <= i < |s.grammaticalStructure| && r.conceptId == s.grammaticalStructure[i].id
                          && GrammarInPanel(flat, ids, s.grammaticalStructure[i].name, r.panelId)
    {
      var i :| && 0 <= i < |s.grammaticalStructure| && r.conceptId == s.grammaticalStructure[i].id
               && LinkFrom(go, s.grammaticalStructure[i].name, r.panelId);
      GrammarLinkFrom(flat, ids, s.grammaticalStructure[i].name, r.panelId);
    }
  }
}
