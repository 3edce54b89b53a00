/**
 * `getSeedJSON` (scripts/transformToSeed.ts): the analysed pages of a chapter
 * become a seed document. Panels are numbered across pages, words are grouped
 * by their Japanese form and grammar structures by their name, and join rows
 * link every occurrence to its panel.
 *
 * `crypto.randomUUID()` is a supply `ids: nat -> string`; the n-th UUID drawn
 * is `ids(n)`. The two `Map`s per concept kind (panel ids by key, first
 * object by key) are `Groups`: the keys in insertion order, the panel-id
 * lists and the first objects.
 */
module TransformToSeed {
  import opened Common
  import opened SeedTypes

  // ---------------------------------------------------------------------
  // Grouping occurrences by key

  /** One occurrence of a concept: its key, the object as analysed, and the panel it occurs in. */
  datatype Occ<T> = Occ(key: string, item: T, panelId: string)

  /** The state of one `Map<string, string[]>` plus one `Map<string, T>`. */
  datatype Groups<T> = Groups(keys: seq<string>, panelIds: map<string, seq<string>>, first: map<string, T>)

  /** One loop step: append the panel id to the key's list, and keep the first object seen. */
  function Add<T>(g: Groups<T>, o: Occ<T>): Groups<T> {
    Groups(if o.key in g.panelIds then g.keys else g.keys + [o.key],
           g.panelIds[o.key := (if o.key in g.panelIds then g.panelIds[o.key] else []) + [o.panelId]],
           if o.key in g.first then g.first else g.first[o.key := o.item])
  }

  /** The groups after processing the occurrences in order. */
  function Collect<T>(occs: seq<Occ<T>>): Groups<T> {
    if occs == [] then Groups([], map[], map[])
    else Add(Collect(occs[..|occs| - 1]), occs[|occs| - 1])
  }

  lemma CollectSnoc<T>(occs: seq<Occ<T>>, o: Occ<T>)
    ensures Collect(occs + [o]) == Add(Collect(occs), o)
  {
    assert (occs + [o])[..|occs|] == occs;
  }

  /** Keys are distinct and are exactly the domains of both maps. */
  ghost predicate GroupsOk<T>(g: Groups<T>) {
    && (forall i, j :: 0 <= i < j < |g.keys| ==> g.keys[i] != g.keys[j])
    && (forall k :: k in g.panelIds <==> k in g.keys)
    && (forall k :: k in g.first <==> k in g.keys)
  }

  /** Every key has a panel-id list and a first object: what emitting the groups needs. */
  predicate Indexed<T>(g: Groups<T>) {
    forall i :: 0 <= i < |g.keys| ==> g.keys[i] in g.panelIds && g.keys[i] in g.first
  }

  /** Every key of the collected groups has a panel-id list and a first object. */
  lemma {:induction false} CollectIndexed<T>(occs: seq<Occ<T>>)
    ensures Indexed(Collect(occs))
  {
    if occs != [] {
      CollectIndexed(occs[..|occs| - 1]);
    }
  }

  /** Some occurrence has key k. */
  predicate Occurs<T>(occs: seq<Occ<T>>, k: string) {
    exists i :: 0 <= i < |occs| && occs[i].key == k
  }

  /** The panel ids of the occurrences of key k, in order. */
  function PanelIdsOf<T>(occs: seq<Occ<T>>, k: string): seq<string> {
    if occs == [] then []
    else PanelIdsOf(occs[..|occs| - 1], k) + (if occs[|occs| - 1].key == k then [occs[|occs| - 1].panelId] else [])
  }

  /** One step keeps the groups well formed and adds the occurrence's key, if new, to the keys. */
  lemma AddOk<T>(g: Groups<T>, o: Occ<T>)
    requires GroupsOk(g)
    ensures GroupsOk(Add(g, o))
    ensures forall k :: k in Add(g, o).keys <==> k in g.keys || k == o.key
  {
    if o.key !in g.panelIds {
      var keys := g.keys + [o.key];
      forall i, j | 0 <= i < j < |keys| ensures keys[i] != keys[j] {
        if j == |g.keys| { assert g.keys[i] in g.keys; }
      }
    }
  }

  lemma OccursSnoc<T>(occs: seq<Occ<T>>, k: string)
    requires occs != []
    ensures Occurs(occs, k) <==> Occurs(occs[..|occs| - 1], k) || occs[|occs| - 1].key == k
  {
    var init := occs[..|occs| - 1];
    if Occurs(occs, k) {
      var i :| 0 <= i < |occs| && occs[i].key == k;
      if i < |init| { assert init[i].key == k; }
    }
    if Occurs(init, k) {
      var i :| 0 <= i < |init| && init[i].key == k;
      assert occs[i].key == k;
    }
  }

  /** The map state is well formed, its keys are exactly the keys that occur, and each list holds that key's panel ids. */
  lemma {:induction false} CollectSpec<T>(occs: seq<Occ<T>>)
    ensures GroupsOk(Collect(occs))
    ensures forall k :: k in Collect(occs).keys <==> Occurs(occs, k)
    ensures forall k :: k in Collect(occs).panelIds ==> Collect(occs).panelIds[k] == PanelIdsOf(occs, k)
  {
    if occs != [] {
      var init := occs[..|occs| - 1];
      var o := occs[|occs| - 1];
      CollectSpec(init);
      var g := Collect(init);
      assert Collect(occs) == Add(g, o);
      AddOk(g, o);
      forall k ensures k in Collect(occs).keys <==> Occurs(occs, k) {
        OccursSnoc(occs, k);
      }
      forall k | k in Collect(occs).panelIds ensures Collect(occs).panelIds[k] == PanelIdsOf(occs, k) {
        assert PanelIdsOf(occs, k) == PanelIdsOf(init, k) + (if o.key == k then [o.panelId] else []);
        if k == o.key && o.key !in g.panelIds {
          PanelIdsOfAbsent(init, k);
        }
      }
    }
  }

  lemma {:induction false} PanelIdsOfAbsent<T>(occs: seq<Occ<T>>, k: string)
    requires !Occurs(occs, k)
    ensures PanelIdsOf(occs, k) == []
  {
    if occs != [] {
      var init := occs[..|occs| - 1];
      PanelIdsOfAbsent(init, k);
    }
  }

  /** The object kept for a key is the one of its first occurrence. */
  lemma {:induction false} CollectFirst<T>(occs: seq<Occ<T>>, k: string)
    requires k in Collect(occs).first
    ensures exists i :: && 0 <= i < |occs| && occs[i].key == k && Collect(occs).first[k] == occs[i].item
                         && (forall j :: 0 <= j < i ==> occs[j].key != k)
  {
    var init := occs[..|occs| - 1];
    var o := occs[|occs| - 1];
    CollectSpec(init);
    if k in Collect(init).first {
      CollectFirst(init, k);
      var i :| && 0 <= i < |init| && init[i].key == k && Collect(init).first[k] == init[i].item
               && (forall j :: 0 <= j < i ==> init[j].key != k);
      assert occs[i] == init[i];
      forall j | 0 <= j < i ensures occs[j].key != k { assert occs[j] == init[j]; }
    } else {
      assert o.key == k;
      assert !Occurs(init, k);
      forall j | 0 <= j < |init| ensures occs[j].key != k {
        assert occs[j] == init[j];
      }
    }
  }

  /** The total length of the keys' panel-id lists. */
  function TotalLinks(keys: seq<string>, panelIds: map<string, seq<string>>): nat
    requires forall i :: 0 <= i < |keys| ==> keys[i] in panelIds
  {
    if keys == [] then 0
    else TotalLinks(keys[..|keys| - 1], panelIds) + |panelIds[keys[|keys| - 1]]|
  }

  lemma {:induction false} TotalLinksFresh(keys: seq<string>, m: map<string, seq<string>>, k: string, v: seq<string>)
    requires forall i :: 0 <= i < |keys| ==> keys[i] in m
    requires k !in keys
    ensures TotalLinks(keys, m[k := v]) == TotalLinks(keys, m)
  {
    if keys != [] {
      assert keys[..|keys| - 1][..] == keys[..|keys| - 1];
      TotalLinksFresh(keys[..|keys| - 1], m, k, v);
    }
  }

  lemma {:induction false} TotalLinksGrow(keys: seq<string>, m: map<string, seq<string>>, k: string, x: string)
    requires forall i :: 0 <= i < |keys| ==> keys[i] in m
    requires forall i, j :: 0 <= i < j < |keys| ==> keys[i] != keys[j]
    requires k in keys
    ensures TotalLinks(keys, m[k := m[k] + [x]]) == TotalLinks(keys, m) + 1
  {
    var init := keys[..|keys| - 1];
    var last := keys[|keys| - 1];
    if last == k {
      assert k !in init;
      TotalLinksFresh(init, m, k, m[k] + [x]);
    } else {
      var i :| 0 <= i < |keys| && keys[i] == k;
      assert init[i] == k;
      TotalLinksGrow(init, m, k, x);
    }
  }

  lemma OkIndexed<T>(g: Groups<T>)
    requires GroupsOk(g)
    ensures Indexed(g)
  {
    forall i | 0 <= i < |g.keys| ensures g.keys[i] in g.panelIds && g.keys[i] in g.first {
      assert g.keys[i] in g.keys;
    }
  }

  /** One step adds exactly one link. */
  lemma TotalLinksAdd<T>(g: Groups<T>, o: Occ<T>)
    requires GroupsOk(g)
    ensures GroupsOk(Add(g, o))
    ensures TotalLinks(Add(g, o).keys, Add(g, o).panelIds) == TotalLinks(g.keys, g.panelIds) + 1
  {
    AddOk(g, o);
    OkIndexed(g);
    var g' := Add(g, o);
    if o.key in g.panelIds {
      assert g'.keys == g.keys;
      assert g'.panelIds == g.panelIds[o.key := g.panelIds[o.key] + [o.panelId]];
      assert o.key in g.keys;
      TotalLinksGrow(g.keys, g.panelIds, o.key, o.panelId);
    } else {
      assert g'.panelIds == g.panelIds[o.key := [o.panelId]] by {
        assert [] + [o.panelId] == [o.panelId];
      }
      assert g'.keys == g.keys + [o.key];
      assert o.key !in g.keys;
      TotalLinksNew(g.keys, g.panelIds, o.key, o.panelId);
    }
  }

  lemma TotalLinksNew(keys: seq<string>, m: map<string, seq<string>>, k: string, x: string)
    requires forall i :: 0 <= i < |keys| ==> keys[i] in m
    requires k !in keys
    ensures forall i :: 0 <= i < |keys + [k]| ==> (keys + [k])[i] in m[k := [x]]
    ensures TotalLinks(keys + [k], m[k := [x]]) == TotalLinks(keys, m) + 1
  {
    var m' := m[k := [x]];
    var keys' := keys + [k];
    forall i | 0 <= i < |keys'| ensures keys'[i] in m' {
      if i < |keys| { assert keys'[i] == keys[i]; }
    }
    assert keys'[..|keys|] == keys;
    TotalLinksFresh(keys, m, k, [x]);
  }

  /** Every occurrence is accounted for by exactly one link: the lists hold |occs| panel ids in total. */
  lemma {:induction false} TotalLinksOfCollect<T>(occs: seq<Occ<T>>)
    ensures GroupsOk(Collect(occs))
    ensures TotalLinks(Collect(occs).keys, Collect(occs).panelIds) == |occs|
  {
    if occs != [] {
      var init := occs[..|occs| - 1];
      TotalLinksOfCollect(init);
      TotalLinksAdd(Collect(init), occs[|occs| - 1]);
    }
  }

  // ---------------------------------------------------------------------
  // Emitting concepts and join rows from the groups

  /** One join row per panel id, all to concept id c. */
  function LinkBlock(pids: seq<string>, c: string): (r: seq<JoinRow>)
    ensures |r| == |pids|
  {
    if pids == [] then [] else LinkBlock(pids[..|pids| - 1], c) + [JoinRow(pids[|pids| - 1], c)]
  }

  /** The join rows for the keys in order, the i-th key's concept id being ids(base + i). */
  function Rows(keys: seq<string>, panelIds: map<string, seq<string>>, ids: nat -> string, base: nat): (r: seq<JoinRow>)
    requires forall i :: 0 <= i < |keys| ==> keys[i] in panelIds
  {
    if keys == [] then []
    else
      var n := |keys| - 1;
      var pids := panelIds[keys[n]];
      Rows(keys[..n], panelIds, ids, base) + LinkBlock(pids, ids(base + n))
  }

  /** One row per panel id of every key: as many rows as links. */
  lemma {:induction false} RowsLength(keys: seq<string>, panelIds: map<string, seq<string>>, ids: nat -> string, base: nat)
    requires forall i :: 0 <= i < |keys| ==> keys[i] in panelIds
    ensures |Rows(keys, panelIds, ids, base)| == TotalLinks(keys, panelIds)
  {
    if keys != [] {
      RowsLength(keys[..|keys| - 1], panelIds, ids, base);
    }
  }

  lemma RowsSnoc(keys: seq<string>, panelIds: map<string, seq<string>>, ids: nat -> string, base: nat, i: nat)
    requires i < |keys| && forall k :: 0 <= k < |keys| ==> keys[k] in panelIds
    ensures Rows(keys[..i + 1], panelIds, ids, base)
         == Rows(keys[..i], panelIds, ids, base)
            + LinkBlock(panelIds[keys[i]], ids(base + i))
  {
    assert keys[..i + 1][..i] == keys[..i];
  }

  /** Each join row links a panel id from some key's list to that key's concept id. */
  lemma {:induction false} RowsReference(keys: seq<string>, panelIds: map<string, seq<string>>, ids: nat -> string,
                                         base: nat, r: JoinRow)
    requires forall i :: 0 <= i < |keys| ==> keys[i] in panelIds
    requires r in Rows(keys, panelIds, ids, base)
    ensures exists i :: 0 <= i < |keys| && r.conceptId == ids(base + i) && r.panelId in panelIds[keys[i]]
  {
    var n := |keys| - 1;
    var pids := panelIds[keys[n]];
    var tail := LinkBlock(pids, ids(base + n));
    if r in Rows(keys[..n], panelIds, ids, base) {
      RowsReference(keys[..n], panelIds, ids, base, r);
      var i :| 0 <= i < n && r.conceptId == ids(base + i) && r.panelId in panelIds[keys[..n][i]];
      assert keys[..n][i] == keys[i];
    } else {
      assert r in tail;
      LinkBlockMember(pids, ids(base + n), r);
    }
  }

  function WordOf(id: string, w: Word): OutputWord {
    OutputWord(id, w.japanese, w.reading, w.meaning, w.partOfSpeech, w.jlptLevel)
  }

  function GrammarOf(id: string, g: Grammar): OutputGrammar {
    OutputGrammar(id, g.name, g.pattern, g.explanation, g.jlptLevel)
  }

  /** One output word per key, in key order, with the key's first object and id ids(base + i). */
  function WordsOut(keys: seq<string>, first: map<string, Word>, ids: nat -> string, base: nat): (r: seq<OutputWord>)
    requires forall i :: 0 <= i < |keys| ==> keys[i] in first
    ensures |r| == |keys|
  {
    if keys == [] then []
    else WordsOut(keys[..|keys| - 1], first, ids, base) + [WordOf(ids(base + |keys| - 1), first[keys[|keys| - 1]])]
  }

  function GrammarsOut(keys: seq<string>, first: map<string, Grammar>, ids: nat -> string, base: nat)
    : (r: seq<OutputGrammar>)
    requires forall i :: 0 <= i < |keys| ==> keys[i] in first
    ensures |r| == |keys|
  {
    if keys == [] then []
    else GrammarsOut(keys[..|keys| - 1], first, ids, base) + [GrammarOf(ids(base + |keys| - 1), first[keys[|keys| - 1]])]
  }

  lemma WordsOutSnoc(keys: seq<string>, first: map<string, Word>, ids: nat -> string, base: nat, i: nat)
    requires i < |keys| && forall k :: 0 <= k < |keys| ==> keys[k] in first
    ensures WordsOut(keys[..i + 1], first, ids, base)
         == WordsOut(keys[..i], first, ids, base) + [WordOf(ids(base + i), first[keys[i]])]
  {
    assert keys[..i + 1][..i] == keys[..i];
  }

  lemma GrammarsOutSnoc(keys: seq<string>, first: map<string, Grammar>, ids: nat -> string, base: nat, i: nat)
    requires i < |keys| && forall k :: 0 <= k < |keys| ==> keys[k] in first
    ensures GrammarsOut(keys[..i + 1], first, ids, base)
         == GrammarsOut(keys[..i], first, ids, base) + [GrammarOf(ids(base + i), first[keys[i]])]
  {
    assert keys[..i + 1][..i] == keys[..i];
  }

  /** The i-th emitted word is the i-th key's first object with id ids(base + i). */
  lemma {:induction false} WordsOutIndex(keys: seq<string>, first: map<string, Word>, ids: nat -> string, base: nat, i: nat)
    requires i < |keys| && forall k :: 0 <= k < |keys| ==> keys[k] in first
    ensures WordsOut(keys, first, ids, base)[i] == WordOf(ids(base + i), first[keys[i]])
  {
    if i < |keys| - 1 {
      WordsOutIndex(keys[..|keys| - 1], first, ids, base, i);
    }
  }

  lemma {:induction false} GrammarsOutIndex(keys: seq<string>, first: map<string, Grammar>, ids: nat -> string, base: nat, i: nat)
    requires i < |keys| && forall k :: 0 <= k < |keys| ==> keys[k] in first
    ensures GrammarsOut(keys, first, ids, base)[i] == GrammarOf(ids(base + i), first[keys[i]])
  {
    if i < |keys| - 1 {
      GrammarsOutIndex(keys[..|keys| - 1], first, ids, base, i);
    }
  }

  /** A panel's row on the link for concept c comes from the concept's list. */
  lemma {:induction false} LinkBlockMember(pids: seq<string>, c: string, r: JoinRow)
    requires r in LinkBlock(pids, c)
    ensures r.conceptId == c && r.panelId in pids
  {
    var init := pids[..|pids| - 1];
    if r in LinkBlock(init, c) {
      LinkBlockMember(init, c, r);
    }
  }

  /** The inner loop of both emitters: one row per panel id of the concept. */
  method PushLinks(rows0: seq<JoinRow>, pids: seq<string>, c: string) returns (rows: seq<JoinRow>)
    ensures rows == rows0 + LinkBlock(pids, c)
  {
    rows := rows0;
    for j := 0 to |pids|
      invariant rows == rows0 + LinkBlock(pids[..j], c)
    {
      rows := rows + [JoinRow(pids[j], c)];
      assert pids[..j + 1][..j] == pids[..j];
    }
    assert pids[..|pids|] == pids;
  }

  /** One more key: its output object and its block of join rows go at the ends. */
  lemma EmitWordsStep(g: Groups<Word>, ids: nat -> string, base: nat, i: nat)
    requires Indexed(g) && i < |g.keys|
    ensures WordsOut(g.keys[..i + 1], g.first, ids, base)
         == WordsOut(g.keys[..i], g.first, ids, base) + [WordOf(ids(base + i), g.first[g.keys[i]])]
    ensures Rows(g.keys[..i + 1], g.panelIds, ids, base)
         == Rows(g.keys[..i], g.panelIds, ids, base) + LinkBlock(g.panelIds[g.keys[i]], ids(base + i))
  {
    RowsSnoc(g.keys, g.panelIds, ids, base, i);
    WordsOutSnoc(g.keys, g.first, ids, base, i);
  }

  /** The word emission loop: draw an id per key, push the word and one row per panel id of that key. */
  method EmitWords(g: Groups<Word>, ids: nat -> string, base: nat)
    returns (words: seq<OutputWord>, rows: seq<JoinRow>)
    requires Indexed(g)
    ensures words == WordsOut(g.keys, g.first, ids, base)
    ensures rows == Rows(g.keys, g.panelIds, ids, base)
  {
    words, rows := [], [];
    var counter := base;
    for i := 0 to |g.keys|
      invariant counter == base + i
      invariant words == WordsOut(g.keys[..i], g.first, ids, base)
      invariant rows == Rows(g.keys[..i], g.panelIds, ids, base)
    {
      var japanese := g.keys[i];
      var panelIds := g.panelIds[japanese];
      var wordId := ids(counter);
      counter := counter + 1;
      var word := g.first[japanese];
      EmitWordsStep(g, ids, base, i);
      words := words + [WordOf(wordId, word)];
      rows := PushLinks(rows, panelIds, wordId);
    }
    assert g.keys[..|g.keys|] == g.keys;
  }

  /** One more key: its output object and its block of join rows go at the ends. */
  lemma EmitGrammarsStep(g: Groups<Grammar>, ids: nat -> string, base: nat, i: nat)
    requires Indexed(g) && i < |g.keys|
    ensures GrammarsOut(g.keys[..i + 1], g.first, ids, base)
         == GrammarsOut(g.keys[..i], g.first, ids, base) + [GrammarOf(ids(base + i), g.first[g.keys[i]])]
    ensures Rows(g.keys[..i + 1], g.panelIds, ids, base)
         == Rows(g.keys[..i], g.panelIds, ids, base) + LinkBlock(g.panelIds[g.keys[i]], ids(base + i))
  {
    RowsSnoc(g.keys, g.panelIds, ids, base, i);
    GrammarsOutSnoc(g.keys, g.first, ids, base, i);
  }

  method EmitGrammars(g: Groups<Grammar>, ids: nat -> string, base: nat)
    returns (grammars: seq<OutputGrammar>, rows: seq<JoinRow>)
    requires Indexed(g)
    ensures grammars == GrammarsOut(g.keys, g.first, ids, base)
    ensures rows == Rows(g.keys, g.panelIds, ids, base)
  {
    grammars, rows := [], [];
    var counter := base;
    for i := 0 to |g.keys|
      invariant counter == base + i
      invariant grammars == GrammarsOut(g.keys[..i], g.first, ids, base)
      invariant rows == Rows(g.keys[..i], g.panelIds, ids, base)
    {
      var name := g.keys[i];
      var panelIds := g.panelIds[name];
      var grammarId := ids(counter);
      counter := counter + 1;
      var grammar := g.first[name];
      EmitGrammarsStep(g, ids, base, i);
      grammars := grammars + [GrammarOf(grammarId, grammar)];
      rows := PushLinks(rows, panelIds, grammarId);
    }
    assert g.keys[..|g.keys|] == g.keys;
  }

  // ---------------------------------------------------------------------
  // Pages and panels

  /** A panel together with the number of the page it is on. */
  datatype PanelAt = PanelAt(pageNumber: int, panel: InputPanel)

  /** A page's panels; a page without a panel list has none. */
  function PagePanels(pg: Page): seq<PanelAt> {
    if pg.panels.None? then []
    else seq(|pg.panels.value|, k requires 0 <= k < |pg.panels.value| => PanelAt(pg.pageNumber, pg.panels.value[k]))
  }

  /** All panels of all pages, in page order and then panel order. */
  function FlatPanels(pages: seq<Page>): seq<PanelAt> {
    if pages == [] then [] else FlatPanels(pages[..|pages| - 1]) + PagePanels(pages[|pages| - 1])
  }

  function ConcatJapanese(ws: seq<Word>): string {
    if ws == [] then "" else ConcatJapanese(ws[..|ws| - 1]) + ws[|ws| - 1].japanese
  }

  function ConcatMeaning(ws: seq<Word>): string {
    if ws == [] then "" else ConcatMeaning(ws[..|ws| - 1]) + ws[|ws| - 1].meaning
  }

  function PanelWordOccs(p: InputPanel, panelId: string): seq<Occ<Word>> {
    WordListOccs(p.words, panelId)
  }

  function WordListOccs(ws: seq<Word>, panelId: string): seq<Occ<Word>> {
    seq(|ws|, k requires 0 <= k < |ws| => Occ(ws[k].japanese, ws[k], panelId))
  }

  /** A panel's grammar occurrences; a panel without a grammar list has none. */
  function PanelGrammarOccs(p: InputPanel, panelId: string): seq<Occ<Grammar>> {
    if p.grammars.None? then [] else GrammarListOccs(p.grammars.value, panelId)
  }

  function GrammarListOccs(gs: seq<Grammar>, panelId: string): seq<Occ<Grammar>> {
    seq(|gs|, k requires 0 <= k < |gs| => Occ(gs[k].name, gs[k], panelId))
  }

  /** All word occurrences; the k-th flat panel has id ids(k). */
  function WordOccs(flat: seq<PanelAt>, ids: nat -> string): seq<Occ<Word>> {
    if flat == [] then []
    else WordOccs(flat[..|flat| - 1], ids) + PanelWordOccs(flat[|flat| - 1].panel, ids(|flat| - 1))
  }

  function GrammarOccs(flat: seq<PanelAt>, ids: nat -> string): seq<Occ<Grammar>> {
    if flat == [] then []
    else GrammarOccs(flat[..|flat| - 1], ids) + PanelGrammarOccs(flat[|flat| - 1].panel, ids(|flat| - 1))
  }

  function PanelOut(pa: PanelAt, chapterId: string, k: nat, id: string): OutputPanel {
    OutputPanel(id, chapterId, ConcatJapanese(pa.panel.words), ConcatMeaning(pa.panel.words), k,
                pa.pageNumber, None, None, None, None)
  }

  /** The output panels in flat order, panel k with order index k and id ids(k). */
  function PanelsOut(flat: seq<PanelAt>, chapterId: string, ids: nat -> string): (r: seq<OutputPanel>)
    ensures |r| == |flat|
  {
    if flat == [] then []
    else PanelsOut(flat[..|flat| - 1], chapterId, ids) + [PanelOut(flat[|flat| - 1], chapterId, |flat| - 1, ids(|flat| - 1))]
  }

  lemma {:induction false} PanelsOutIndex(flat: seq<PanelAt>, chapterId: string, ids: nat -> string, k: nat)
    requires k < |flat|
    ensures PanelsOut(flat, chapterId, ids)[k] == PanelOut(flat[k], chapterId, k, ids(k))
  {
    if k < |flat| - 1 {
      PanelsOutIndex(flat[..|flat| - 1], chapterId, ids, k);
    }
  }

  /**
   * The seed document: panel k of the flat list gets ids(k); after all P
   * panels, the i-th distinct word gets ids(P + i), and after all W distinct
   * words the i-th distinct grammar structure gets ids(P + W + i).
   */
  function SeedOf(input: ChapterResult, ids: nat -> string): SeedOutput {
    SeedFrom(input.chapterId, FlatPanels(input.pages), ids)
  }

  function SeedFrom(chapterId: string, flat: seq<PanelAt>, ids: nat -> string): SeedOutput {
    CollectIndexed(WordOccs(flat, ids));
    CollectIndexed(GrammarOccs(flat, ids));
    Assemble(chapterId, flat, Collect(WordOccs(flat, ids)), Collect(GrammarOccs(flat, ids)), ids)
  }

  /** The document for given groups: words drawn after the |flat| panel ids, grammar after the words. */
  function Assemble(chapterId: string, flat: seq<PanelAt>, wg: Groups<Word>, gg: Groups<Grammar>,
                    ids: nat -> string): SeedOutput
    requires Indexed(wg) && Indexed(gg)
  {
    SeedOutput(chapterId, PanelsOut(flat, chapterId, ids),
               WordsOut(wg.keys, wg.first, ids, |flat|),
               GrammarsOut(gg.keys, gg.first, ids, |flat| + |wg.keys|),
               Rows(wg.keys, wg.panelIds, ids, |flat|),
               Rows(gg.keys, gg.panelIds, ids, |flat| + |wg.keys|))
  }

  // ---------------------------------------------------------------------
  // The loops of getSeedJSON

  lemma SnocAssoc<T>(a: seq<T>, b: seq<T>, x: T)
    ensures a + (b + [x]) == (a + b) + [x]
  {
  }

  /**
   * One occurrence in both panel loops: a key not yet in the id-list map is
   * appended to the key order, the panel id is appended to the key's list,
   * and the first object seen for the key is kept.
   */
  method Record<T>(keys0: seq<string>, panelIds0: map<string, seq<string>>, first0: map<string, T>,
                   key: string, item: T, panelId: string)
    returns (keys: seq<string>, panelIds: map<string, seq<string>>, first: map<string, T>)
    ensures Groups(keys, panelIds, first) == Add(Groups(keys0, panelIds0, first0), Occ(key, item, panelId))
  {
    keys, panelIds, first := keys0, panelIds0, first0;
    if key !in panelIds {
      keys := keys + [key];
    }
    panelIds := panelIds[key := (if key in panelIds then panelIds[key] else []) + [panelId]];
    if key !in first {
      first := first[key := item];
    }
  }

  /** Word k of a panel extends both texts and records one more occurrence. */
  lemma WordStep(ws: seq<Word>, panelId: string, occs: seq<Occ<Word>>, k: nat)
    requires k < |ws|
    ensures ConcatJapanese(ws[..k + 1]) == ConcatJapanese(ws[..k]) + ws[k].japanese
    ensures ConcatMeaning(ws[..k + 1]) == ConcatMeaning(ws[..k]) + ws[k].meaning
    ensures Collect(occs + WordListOccs(ws, panelId)[..k + 1])
         == Add(Collect(occs + WordListOccs(ws, panelId)[..k]), Occ(ws[k].japanese, ws[k], panelId))
  {
    assert ws[..k + 1][..k] == ws[..k];
    var added := WordListOccs(ws, panelId)[..k];
    var o := Occ(ws[k].japanese, ws[k], panelId);
    assert WordListOccs(ws, panelId)[..k + 1] == added + [o];
    SnocAssoc(occs, added, o);
    CollectSnoc(occs + added, o);
  }

  lemma GrammarStep(gs: seq<Grammar>, panelId: string, occs: seq<Occ<Grammar>>, k: nat)
    requires k < |gs|
    ensures Collect(occs + GrammarListOccs(gs, panelId)[..k + 1])
         == Add(Collect(occs + GrammarListOccs(gs, panelId)[..k]), Occ(gs[k].name, gs[k], panelId))
  {
    var added := GrammarListOccs(gs, panelId)[..k];
    var o := Occ(gs[k].name, gs[k], panelId);
    assert GrammarListOccs(gs, panelId)[..k + 1] == added + [o];
    SnocAssoc(occs, added, o);
    CollectSnoc(occs + added, o);
  }

  /** The inner word loop of one panel: extend both texts and record each occurrence. */
  method AddPanelWords(panel: InputPanel, panelId: string, g0: Groups<Word>, ghost occs: seq<Occ<Word>>)
    returns (japaneseText: string, translation: string, g: Groups<Word>)
    requires g0 == Collect(occs)
    ensures japaneseText == ConcatJapanese(panel.words) && translation == ConcatMeaning(panel.words)
    ensures g == Collect(occs + PanelWordOccs(panel, panelId))
  {
    var wordKeys, wordMap, uniqueWords := g0.keys, g0.panelIds, g0.first;
    japaneseText, translation := "", "";
    ghost var all := WordListOccs(panel.words, panelId);
    assert occs + all[..0] == occs;
    for k := 0 to |panel.words|
      invariant japaneseText == ConcatJapanese(panel.words[..k]) && translation == ConcatMeaning(panel.words[..k])
      invariant Groups(wordKeys, wordMap, uniqueWords) == Collect(occs + all[..k])
    {
      var word := panel.words[k];
      WordStep(panel.words, panelId, occs, k);
      wordKeys, wordMap, uniqueWords := Record(wordKeys, wordMap, uniqueWords, word.japanese, word, panelId);
      japaneseText := japaneseText + word.japanese;
      translation := translation + word.meaning;
    }
    assert panel.words[..|panel.words|] == panel.words;
    assert all[..|panel.words|] == all;
    g := Groups(wordKeys, wordMap, uniqueWords);
  }

  /** The grammar loop of one panel, over its grammar list. */
  method AddPanelGrammars(grammars: seq<Grammar>, panelId: string, g0: Groups<Grammar>, ghost occs: seq<Occ<Grammar>>)
    returns (g: Groups<Grammar>)
    requires g0 == Collect(occs)
    ensures g == Collect(occs + GrammarListOccs(grammars, panelId))
  {
    var grammarKeys, grammarMap, uniqueGrammars := g0.keys, g0.panelIds, g0.first;
    ghost var all := GrammarListOccs(grammars, panelId);
    assert occs + all[..0] == occs;
    for k := 0 to |grammars|
      invariant Groups(grammarKeys, grammarMap, uniqueGrammars) == Collect(occs + all[..k])
    {
      var grammar := grammars[k];
      GrammarStep(grammars, panelId, occs, k);
      grammarKeys, grammarMap, uniqueGrammars := Record(grammarKeys, grammarMap, uniqueGrammars, grammar.name, grammar, panelId);
    }
    assert all[..|grammars|] == all;
    g := Groups(grammarKeys, grammarMap, uniqueGrammars);
  }

  /**
   * The body of the panel loop: draw the panel's id, run the word loop, push
   * the output panel with the current order index, run the grammar loop when
   * the panel has a grammar list.
   */
  method AddPanel(pa: PanelAt, chapterId: string, ids: nat -> string, ghost flat: seq<PanelAt>,
                  outputPanels0: seq<OutputPanel>, orderIndex0: nat, drawn0: nat,
                  words0: Groups<Word>, grammars0: Groups<Grammar>)
    returns (outputPanels: seq<OutputPanel>, orderIndex: nat, drawn: nat,
             words: Groups<Word>, grammars: Groups<Grammar>)
    requires orderIndex0 == drawn0 == |flat|
    requires outputPanels0 == PanelsOut(flat, chapterId, ids)
    requires words0 == Collect(WordOccs(flat, ids)) && grammars0 == Collect(GrammarOccs(flat, ids))
    ensures orderIndex == drawn == |flat + [pa]|
    ensures outputPanels == PanelsOut(flat + [pa], chapterId, ids)
    ensures words == Collect(WordOccs(flat + [pa], ids)) && grammars == Collect(GrammarOccs(flat + [pa], ids))
  {
    var panel := pa.panel;
    var panelId := ids(drawn0);
    drawn := drawn0 + 1;
    var japaneseText, translation;
    japaneseText, translation, words := AddPanelWords(panel, panelId, words0, WordOccs(flat, ids));
    outputPanels := outputPanels0 + [OutputPanel(panelId, chapterId, japaneseText, translation, orderIndex0,
                                                 pa.pageNumber, None, None, None, None)];
    orderIndex := orderIndex0 + 1;
    if panel.grammars.Some? {
      grammars := AddPanelGrammars(panel.grammars.value, panelId, grammars0, GrammarOccs(flat, ids));
    } else {
      grammars := grammars0;
      assert GrammarOccs(flat, ids) + PanelGrammarOccs(panel, panelId) == GrammarOccs(flat, ids);
    }
    OccsSnoc(flat, pa, ids);
    PanelsOutSnoc(flat, pa, chapterId, ids);
  }

  lemma FlatPanelsSnoc(pages: seq<Page>, i: nat)
    requires i < |pages|
    ensures FlatPanels(pages[..i + 1]) == FlatPanels(pages[..i]) + PagePanels(pages[i])
  {
    assert pages[..i + 1][..i] == pages[..i];
  }

  lemma OccsSnoc(flat: seq<PanelAt>, pa: PanelAt, ids: nat -> string)
    ensures WordOccs(flat + [pa], ids) == WordOccs(flat, ids) + PanelWordOccs(pa.panel, ids(|flat|))
    ensures GrammarOccs(flat + [pa], ids) == GrammarOccs(flat, ids) + PanelGrammarOccs(pa.panel, ids(|flat|))
  {
    assert (flat + [pa])[..|flat|] == flat;
  }

  lemma PanelsOutSnoc(flat: seq<PanelAt>, pa: PanelAt, chapterId: string, ids: nat -> string)
    ensures PanelsOut(flat + [pa], chapterId, ids)
         == PanelsOut(flat, chapterId, ids) + [PanelOut(pa, chapterId, |flat|, ids(|flat|))]
  {
    assert (flat + [pa])[..|flat|] == flat;
  }

  lemma PagePanelsPrefix(page: Page, j: nat)
    requires page.panels.Some? && j <= |page.panels.value|
    ensures |PagePanels(page)| == |page.panels.value|
    ensures j == |page.panels.value| ==> PagePanels(page)[..j] == PagePanels(page)
    ensures j < |page.panels.value| ==>
      PagePanels(page)[..j + 1] == PagePanels(page)[..j] + [PanelAt(page.pageNumber, page.panels.value[j])]
  {
  }

  /** The inner loop over one page's panels; a page without a panel list is skipped. */
  method AddPage(page: Page, chapterId: string, ids: nat -> string, ghost flat0: seq<PanelAt>,
                 outputPanels0: seq<OutputPanel>, orderIndex0: nat, drawn0: nat,
                 words0: Groups<Word>, grammars0: Groups<Grammar>)
    returns (outputPanels: seq<OutputPanel>, orderIndex: nat, drawn: nat,
             words: Groups<Word>, grammars: Groups<Grammar>)
    requires orderIndex0 == drawn0 == |flat0|
    requires outputPanels0 == PanelsOut(flat0, chapterId, ids)
    requires words0 == Collect(WordOccs(flat0, ids)) && grammars0 == Collect(GrammarOccs(flat0, ids))
    ensures orderIndex == drawn == |flat0 + PagePanels(page)|
    ensures outputPanels == PanelsOut(flat0 + PagePanels(page), chapterId, ids)
    ensures words == Collect(WordOccs(flat0 + PagePanels(page), ids))
    ensures grammars == Collect(GrammarOccs(flat0 + PagePanels(page), ids))
  {
    outputPanels, orderIndex, drawn, words, grammars := outputPanels0, orderIndex0, drawn0, words0, grammars0;
    if page.panels.None? {
      assert flat0 + PagePanels(page) == flat0;
      return;
    }
    var panels := page.panels.value;
    ghost var pp := PagePanels(page);
    ghost var flat := flat0;
    for j := 0 to |panels|
      invariant flat == flat0 + pp[..j]
      invariant orderIndex == drawn == |flat|
      invariant outputPanels == PanelsOut(flat, chapterId, ids)
      invariant words == Collect(WordOccs(flat, ids)) && grammars == Collect(GrammarOccs(flat, ids))
    {
      var pa := PanelAt(page.pageNumber, panels[j]);
      outputPanels, orderIndex, drawn, words, grammars :=
        AddPanel(pa, chapterId, ids, flat, outputPanels, orderIndex, drawn, words, grammars);
      PagePanelsPrefix(page, j);
      flat := flat + [pa];
    }
    PagePanelsPrefix(page, |panels|);
  }

  /** `getSeedJSON`: the nested page/panel/word loops, then one emission loop per concept kind. */
  method GetSeedJSON(input: ChapterResult, ids: nat -> string) returns (out: SeedOutput)
    ensures out == SeedOf(input, ids)
  {
    var chapterId := input.chapterId;
    var words: Groups<Word> := Groups([], map[], map[]);
    var grammars: Groups<Grammar> := Groups([], map[], map[]);
    var outputPanels: seq<OutputPanel> := [];
    var orderIndex: nat := 0;
    var drawn: nat := 0;
    ghost var flat: seq<PanelAt> := [];
    for i := 0 to |input.pages|
      invariant flat == FlatPanels(input.pages[..i])
      invariant orderIndex == drawn == |flat|
      invariant outputPanels == PanelsOut(flat, chapterId, ids)
      invariant words == Collect(WordOccs(flat, ids)) && grammars == Collect(GrammarOccs(flat, ids))
    {
      FlatPanelsSnoc(input.pages, i);
      outputPanels, orderIndex, drawn, words, grammars :=
        AddPage(input.pages[i], chapterId, ids, flat, outputPanels, orderIndex, drawn, words, grammars);
      flat := flat + PagePanels(input.pages[i]);
    }
    assert input.pages[..|input.pages|] == input.pages;
    CollectIndexed(WordOccs(flat, ids));
    CollectIndexed(GrammarOccs(flat, ids));
    out := Emit(chapterId, ids, flat, drawn, outputPanels, words, grammars);
  }

  /** The two emission loops and the assembled document. */
  method Emit(chapterId: string, ids: nat -> string, ghost flat: seq<PanelAt>, drawn: nat,
              outputPanels: seq<OutputPanel>, words: Groups<Word>, grammars: Groups<Grammar>)
    returns (out: SeedOutput)
    requires drawn == |flat| && Indexed(words) && Indexed(grammars)
    requires outputPanels == PanelsOut(flat, chapterId, ids)
    ensures out == Assemble(chapterId, flat, words, grammars, ids)
  {
    var outputWords, panelWordTable := EmitWords(words, ids, drawn);
    var outputGrammars, panelGrammarTable := EmitGrammars(grammars, ids, drawn + |words.keys|);
    out := SeedOutput(chapterId, outputPanels, outputWords, outputGrammars, panelWordTable, panelGrammarTable);
  }
}
