/**
 * What the insert builders of scripts/seedDatabase.ts promise, proved of
 * the statement functions that `SeedDatabase.SeedDatabase` and the builder
 * loops compute.
 */
module SeedDatabaseProperties {
  import opened Common
  import opened SeedTypes
  import opened SeedDatabase

  // ---------------------------------------------------------------------
  // Row lists

  lemma {:induction false} PanelRowsIndex(panels: seq<OutputPanel>, t: string, i: nat)
    requires i < |panels|
    ensures PanelRows(panels, t)[i] == PanelParams(panels[i], t)
  {
    if i < |panels| - 1 {
      assert panels[..|panels| - 1][i] == panels[i];
      PanelRowsIndex(panels[..|panels| - 1], t, i);
    }
  }

  lemma {:induction false} WordRowsIndex(words: seq<OutputWord>, t: string, i: nat)
    requires i < |words|
    ensures WordRows(words, t)[i] == WordParams(words[i], t)
  {
    if i < |words| - 1 {
      assert words[..|words| - 1][i] == words[i];
      WordRowsIndex(words[..|words| - 1], t, i);
    }
  }

  lemma {:induction false} GrammarRowsIndex(gs: seq<OutputGrammar>, t: string, i: nat)
    requires i < |gs|
    ensures GrammarRows(gs, t)[i] == GrammarParams(gs[i], t)
  {
    if i < |gs| - 1 {
      assert gs[..|gs| - 1][i] == gs[i];
      GrammarRowsIndex(gs[..|gs| - 1], t, i);
    }
  }

  lemma {:induction false} JoinRowsIndex(rows: seq<JoinRow>, ids: nat -> string, base: nat, i: nat)
    requires i < |rows|
    ensures JoinRows(rows, ids, base)[i] == JoinParams(ids(base + i), rows[i])
  {
    if i < |rows| - 1 {
      assert rows[..|rows| - 1][i] == rows[i];
      JoinRowsIndex(rows[..|rows| - 1], ids, base, i);
    }
  }

  // ---------------------------------------------------------------------
  // One statement

  /** A builder issues a statement iff its list is non-empty. */
  lemma EmptyListNoStatement(seed: SeedOutput, clock: Clock, ids: nat -> string, base: nat)
    ensures PanelInsert(seed.panel, clock.panel).None? <==> seed.panel == []
    ensures WordInsert(seed.word, clock.word).None? <==> seed.word == []
    ensures GrammarInsert(seed.grammaticalStructure, clock.grammar).None? <==> seed.grammaticalStructure == []
    ensures JoinInsert(PanelWord, seed.panelWord, ids, base).None? <==> seed.panelWord == []
    ensures JoinInsert(PanelGrammaticalStructure, seed.panelGrammaticalStructure, ids, base).None? <==>
              seed.panelGrammaticalStructure == []
  {
  }

  /**
   * In a multi-row insert, the c-th placeholder of row i is `$k` for
   * k = width*i + c + 1, the rows of the VALUES list are numbered
   * consecutively from `$1`, k never exceeds the number of parameters, and
   * parameter k is column c of entry i.
   */
  lemma InsertBinding(table: Table, conflict: Conflict, rows: seq<seq<Param>>, w: nat, i: nat, c: nat)
    returns (k: nat)
    requires w == Width(table) && AllWidth(rows, w) && i < |rows| && c < w
    ensures InsertOf(table, conflict, rows).Some?
    ensures var st := InsertOf(table, conflict, rows).value;
      && st.sql.MultiRowInsert? && st.sql.table == table && |st.sql.values| == |rows|
      && st.sql.values[i] == Tuple(w * i + 1, w)
      && Placeholders(w * i + 1, w)[c] == "$" + NatToString(k)
      && k == w * i + c + 1
      && |st.params| == w * |rows|
      && 1 <= k <= |st.params|
      && st.params[k - 1] == rows[i][c]
  {
    var start;
    start, k := PlaceholderBinding(rows, w, i, c);
  }

  /**
   * Column c of panel i is parameter k = 7i+c+1, the one `InsertBinding`
   * places at `$k`: its id, chapter, text, translation, order, page and time.
   */
  lemma PanelPlaceholders(panels: seq<OutputPanel>, t: string, i: nat, c: nat) returns (k: nat)
    requires i < |panels| && c < 7
    ensures PanelInsert(panels, t).Some?
    ensures k == 7 * i + c + 1
    ensures |PanelInsert(panels, t).value.params| == 7 * |panels| && k <= |PanelInsert(panels, t).value.params|
    ensures PanelInsert(panels, t).value.params[k - 1] == PanelParams(panels[i], t)[c]
  {
    var rows := PanelRows(panels, t);
    PanelRowsIndex(panels, t, i);
    k := InsertBinding(Panel, OnId, rows, 7, i, c);
  }

  /** The last value of every panel row is the one clock reading of the panel builder. */
  lemma PanelStamped(panels: seq<OutputPanel>, t: string, i: nat)
    requires i < |panels|
    ensures PanelInsert(panels, t).Some?
    ensures |PanelInsert(panels, t).value.params| == 7 * |panels|
    ensures PanelInsert(panels, t).value.params[7 * i + 6] == PText(t)
  {
    var _ := PanelPlaceholders(panels, t, i, 6);
  }

  /**
   * Column c of word i is parameter k = 7i+c+1, the one `InsertBinding`
   * places at `$k`: its id, form, reading, meaning, part of speech, level and time.
   */
  lemma WordPlaceholders(words: seq<OutputWord>, t: string, i: nat, c: nat) returns (k: nat)
    requires i < |words| && c < 7
    ensures WordInsert(words, t).Some?
    ensures k == 7 * i + c + 1
    ensures |WordInsert(words, t).value.params| == 7 * |words| && k <= |WordInsert(words, t).value.params|
    ensures WordInsert(words, t).value.params[k - 1] == WordParams(words[i], t)[c]
  {
    var rows := WordRows(words, t);
    WordRowsIndex(words, t, i);
    k := InsertBinding(Table.Word, OnQuotedJapanese, rows, 7, i, c);
  }

  /** The last value of every word row is the one clock reading of the word builder. */
  lemma WordStamped(words: seq<OutputWord>, t: string, i: nat)
    requires i < |words|
    ensures WordInsert(words, t).Some?
    ensures |WordInsert(words, t).value.params| == 7 * |words|
    ensures WordInsert(words, t).value.params[7 * i + 6] == PText(t)
  {
    var _ := WordPlaceholders(words, t, i, 6);
  }

  /**
   * Column c of grammar point i is parameter k = 6i+c+1, the one
   * `InsertBinding` places at `$k`: its id, name, pattern, explanation, level and time.
   */
  lemma GrammarPlaceholders(gs: seq<OutputGrammar>, t: string, i: nat, c: nat) returns (k: nat)
    requires i < |gs| && c < 6
    ensures GrammarInsert(gs, t).Some?
    ensures k == 6 * i + c + 1
    ensures |GrammarInsert(gs, t).value.params| == 6 * |gs| && k <= |GrammarInsert(gs, t).value.params|
    ensures GrammarInsert(gs, t).value.params[k - 1] == GrammarParams(gs[i], t)[c]
  {
    var rows := GrammarRows(gs, t);
    GrammarRowsIndex(gs, t, i);
    k := InsertBinding(GrammaticalStructure, OnQuotedId, rows, 6, i, c);
  }

  /** The last value of every grammar row is the one clock reading of the grammar builder. */
  lemma GrammarStamped(gs: seq<OutputGrammar>, t: string, i: nat)
    requires i < |gs|
    ensures GrammarInsert(gs, t).Some?
    ensures |GrammarInsert(gs, t).value.params| == 6 * |gs|
    ensures GrammarInsert(gs, t).value.params[6 * i + 5] == PText(t)
  {
    var _ := GrammarPlaceholders(gs, t, i, 5);
  }

  /**
   * Column c of join row i is parameter k = 3i+c+1, the one `InsertBinding`
   * places at `$k`: the id drawn for it, its panel id and its concept id.
   */
  lemma JoinPlaceholders(table: Table, rows: seq<JoinRow>, ids: nat -> string, base: nat, i: nat, c: nat)
    returns (k: nat)
    requires table == PanelWord || table == PanelGrammaticalStructure
    requires i < |rows| && c < 3
    ensures JoinInsert(table, rows, ids, base).Some?
    ensures var st := JoinInsert(table, rows, ids, base).value;
      && k == 3 * i + c + 1
      && |st.params| == 3 * |rows| && k <= |st.params|
      && st.params[k - 1] == JoinParams(ids(base + i), rows[i])[c]
  {
    var pr := JoinRows(rows, ids, base);
    JoinRowsIndex(rows, ids, base, i);
    k := InsertBinding(table, OnAnything, pr, 3, i, c);
  }

  /** The first value of join row i is the id drawn for it, followed by the row's panel and concept ids. */
  lemma JoinRowValues(table: Table, rows: seq<JoinRow>, ids: nat -> string, base: nat, i: nat)
    requires table == PanelWord || table == PanelGrammaticalStructure
    requires i < |rows|
    ensures JoinInsert(table, rows, ids, base).Some?
    ensures var p := JoinInsert(table, rows, ids, base).value.params;
      && |p| == 3 * |rows|
      && p[3 * i] == PText(ids(base + i))
      && p[3 * i + 1] == PText(rows[i].panelId)
      && p[3 * i + 2] == PText(rows[i].conceptId)
  {
    var _ := JoinPlaceholders(table, rows, ids, base, i, 0);
    var _ := JoinPlaceholders(table, rows, ids, base, i, 1);
    var _ := JoinPlaceholders(table, rows, ids, base, i, 2);
  }

  // ---------------------------------------------------------------------
  // A whole run

  /** The tables written, in order. */
  function Tables(sts: seq<Statement>): (r: seq<Table>)
    ensures |r| == |sts|
  {
    if sts == [] then [] else Tables(sts[..|sts| - 1]) + [TableOf(sts[|sts| - 1])]
  }

  lemma {:induction false} TablesAppend(a: seq<Statement>, b: seq<Statement>)
    ensures Tables(a + b) == Tables(a) + Tables(b)
    decreases |b|
  {
    if b == [] {
      assert a + b == a;
    } else {
      assert (a + b)[..|a + b| - 1] == a + b[..|b| - 1];
      TablesAppend(a, b[..|b| - 1]);
    }
  }

  function When(b: bool, t: Table): seq<Table> {
    if b then [t] else []
  }

  /** A builder's statement, when there is one, writes that builder's table. */
  lemma SentTable(q: Option<Statement>, t: Table)
    requires q.Some? ==> TableOf(q.value) == t
    ensures Tables(Sent(q)) == When(q.Some?, t)
  {
    if q.Some? {
      assert Sent(q)[..0] == [];
    }
  }

  /** The tables of a run's statements, from the tables of its builders' statements. */
  lemma RunTables(first: Statement, qp: Option<Statement>, qw: Option<Statement>, qg: Option<Statement>,
                  qpw: Option<Statement>, qpg: Option<Statement>)
    requires qp.Some? ==> TableOf(qp.value) == Panel
    requires qw.Some? ==> TableOf(qw.value) == Table.Word
    requires qg.Some? ==> TableOf(qg.value) == GrammaticalStructure
    requires qpw.Some? ==> TableOf(qpw.value) == PanelWord
    requires qpg.Some? ==> TableOf(qpg.value) == PanelGrammaticalStructure
    ensures Tables([first] + Sent(qp) + Sent(qw) + Sent(qg) + Sent(qpw) + Sent(qpg)) ==
      [TableOf(first)] + When(qp.Some?, Panel) + When(qw.Some?, Table.Word) + When(qg.Some?, GrammaticalStructure)
      + When(qpw.Some?, PanelWord) + When(qpg.Some?, PanelGrammaticalStructure)
  {
    var c := [first];
    SentTable(qp, Panel);
    SentTable(qw, Table.Word);
    SentTable(qg, GrammaticalStructure);
    SentTable(qpw, PanelWord);
    SentTable(qpg, PanelGrammaticalStructure);
    assert Tables(c) == [TableOf(first)] by { assert c[..0] == []; }
    TablesAppend(c, Sent(qp));
    TablesAppend(c + Sent(qp), Sent(qw));
    TablesAppend(c + Sent(qp) + Sent(qw), Sent(qg));
    TablesAppend(c + Sent(qp) + Sent(qw) + Sent(qg), Sent(qpw));
    TablesAppend(c + Sent(qp) + Sent(qw) + Sent(qg) + Sent(qpw), Sent(qpg));
  }

  /**
   * A run writes the chapter and then, in this order, panels, words,
   * grammar, word links and grammar links, each only when its list is
   * non-empty.
   */
  lemma PlanOrder(seed: SeedOutput, title: string, orderIndex: int, clock: Clock, ids: nat -> string)
    ensures Tables(Plan(seed, title, orderIndex, clock, ids)) ==
      [Chapter] + When(seed.panel != [], Panel) + When(seed.word != [], Table.Word)
      + When(seed.grammaticalStructure != [], GrammaticalStructure)
      + When(seed.panelWord != [], PanelWord)
      + When(seed.panelGrammaticalStructure != [], PanelGrammaticalStructure)
  {
    RunTables(ChapterStatement(seed.chapterId, title, orderIndex, clock.chapter),
              PanelInsert(seed.panel, clock.panel),
              WordInsert(seed.word, clock.word),
              GrammarInsert(seed.grammaticalStructure, clock.grammar),
              JoinInsert(PanelWord, seed.panelWord, ids, 0),
              JoinInsert(PanelGrammaticalStructure, seed.panelGrammaticalStructure, ids, |seed.panelWord|));
  }

  /** With a fresh supply, the ids drawn for the two join tables are all distinct. */
  lemma JoinIdsDistinct(seed: SeedOutput, ids: nat -> string, i: nat, j: nat)
    requires forall m: nat, n: nat :: ids(m) == ids(n) ==> m == n
    requires i < |seed.panelWord| && j < |seed.panelGrammaticalStructure|
    ensures var p := JoinInsert(PanelWord, seed.panelWord, ids, 0).value.params;
      var q := JoinInsert(PanelGrammaticalStructure, seed.panelGrammaticalStructure, ids, |seed.panelWord|).value.params;
      3 * i < |p| && 3 * j < |q| && p[3 * i] != q[3 * j]
  {
    JoinRowValues(PanelWord, seed.panelWord, ids, 0, i);
    JoinRowValues(PanelGrammaticalStructure, seed.panelGrammaticalStructure, ids, |seed.panelWord|, j);
  }
}
