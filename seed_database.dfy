/**
 * The insert builders of the database seeding script (scripts/seedDatabase.ts).
 * Each builder turns one list of the seed document into a single
 * multi-row `INSERT` whose rows are numbered `$1, $2, ...` by a running
 * counter, with the values in a flat parameter list. The clock
 * (`new Date().toISOString()`) and `crypto.randomUUID()` are parameters; the
 * statements are returned in the order the script sends them instead of
 * being sent.
 */
module SeedDatabase {
  import opened Common
  import opened SeedTypes

  /** A query parameter: the script passes strings and numbers. */
  datatype Param = PText(text: string) | PInt(number: int)

  /** The tables the script fills. */
  datatype Table = Chapter | Panel | Word | GrammaticalStructure | PanelWord | PanelGrammaticalStructure

  /** The conflict clause of an insert. */
  datatype Conflict = OnId | OnQuotedJapanese | OnQuotedId | OnAnything

  /**
   * The SQL of a statement: the fixed chapter insert, or a multi-row insert
   * into a table with its VALUES rows and conflict clause. `SqlText` gives
   * the text sent.
   */
  datatype Sql = ChapterInsert | MultiRowInsert(table: Table, values: seq<string>, conflict: Conflict)

  /** A statement handed to `client.query`: its SQL and its parameters. */
  datatype Statement = Statement(sql: Sql, params: seq<Param>)

  /** The clock readings of one run: each builder reads the clock once. */
  datatype Clock = Clock(chapter: string, panel: string, word: string, grammar: string)

  // ---------------------------------------------------------------------
  // Placeholder numbering

  /** The placeholders `$start`, `$(start+1)`, ..., `width` of them. */
  function Placeholders(start: nat, width: nat): (r: seq<string>)
    ensures |r| == width
  {
    if width == 0 then [] else Placeholders(start, width - 1) + ["$" + NatToString(start + width - 1)]
  }

  /** One row of a VALUES list: `($start, ..., $(start+width-1))`. */
  function Tuple(start: nat, width: nat): string {
    "(" + Join(Placeholders(start, width), ", ") + ")"
  }

  /** The VALUES rows of `n` entries of `width` columns each, numbered consecutively from `$1`. */
  function Tuples(n: nat, width: nat): (r: seq<string>)
    ensures |r| == n
  {
    if n == 0 then [] else Tuples(n - 1, width) + [Tuple(width * (n - 1) + 1, width)]
  }

  /** The c-th placeholder of a row starting at `start` names parameter `start + c`. */
  lemma {:induction false} PlaceholdersIndex(start: nat, width: nat, c: nat)
    requires c < width
    ensures Placeholders(start, width)[c] == "$" + NatToString(start + c)
  {
    if c < width - 1 {
      PlaceholdersIndex(start, width - 1, c);
    }
  }

  /** Row i of the VALUES list starts at `$(width*i + 1)`. */
  lemma {:induction false} TuplesIndex(n: nat, width: nat, i: nat)
    requires i < n
    ensures Tuples(n, width)[i] == Tuple(width * i + 1, width)
  {
    if i < n - 1 {
      TuplesIndex(n - 1, width, i);
    }
  }

  /** The parameter lists of the rows, concatenated in row order. */
  function Flatten(rows: seq<seq<Param>>): seq<Param> {
    if rows == [] then [] else Flatten(rows[..|rows| - 1]) + rows[|rows| - 1]
  }

  lemma FlattenSnoc(rows: seq<seq<Param>>, row: seq<Param>)
    ensures Flatten(rows + [row]) == Flatten(rows) + row
  {
    assert (rows + [row])[..|rows|] == rows;
  }

  /** Every row has `width` values. */
  ghost predicate AllWidth(rows: seq<seq<Param>>, width: nat) {
    forall i :: 0 <= i < |rows| ==> |rows[i]| == width
  }

  lemma RowEnd(width: nat, i: nat, n: nat, c: nat)
    requires i < n && c < width
    ensures width * i + c < width * n
  {
    assert width * (i + 1) <= width * n by {
      assert width * n - width * (i + 1) == width * (n - i - 1);
    }
  }

  /** Column c of row i sits at position `width*i + c` of the flat list, within its length. */
  lemma {:induction false} FlattenIndex(rows: seq<seq<Param>>, width: nat, i: nat, c: nat)
    requires AllWidth(rows, width) && i < |rows| && c < width
    ensures |Flatten(rows)| == width * |rows|
    ensures width * i + c < |Flatten(rows)| && Flatten(rows)[width * i + c] == rows[i][c]
  {
    var n := |rows|;
    var init := rows[..n - 1];
    assert AllWidth(init, width) by {
      forall j | 0 <= j < |init| ensures |init[j]| == width { assert init[j] == rows[j]; }
    }
    FlattenLength(init, width);
    assert width * n == width * (n - 1) + width;
    RowEnd(width, i, n, c);
    if i < n - 1 {
      FlattenIndex(init, width, i, c);
      assert init[i] == rows[i];
    }
  }

  lemma {:induction false} FlattenLength(rows: seq<seq<Param>>, width: nat)
    requires AllWidth(rows, width)
    ensures |Flatten(rows)| == width * |rows|
  {
    if rows != [] {
      var init := rows[..|rows| - 1];
      assert AllWidth(init, width) by {
        forall j | 0 <= j < |init| ensures |init[j]| == width { assert init[j] == rows[j]; }
      }
      FlattenLength(init, width);
      assert width * |rows| == width * |init| + width;
    }
  }

  /**
   * Every placeholder names the value meant for it: the c-th placeholder of
   * row i is `$k` with k = width*i + c + 1, at most the number of
   * parameters, and parameter k (position k - 1) is column c of entry i.
   */
  lemma PlaceholderBinding(rows: seq<seq<Param>>, width: nat, i: nat, c: nat) returns (start: nat, k: nat)
    requires AllWidth(rows, width) && i < |rows| && c < width
    ensures start == width * i + 1 && k == start + c
    ensures Tuples(|rows|, width)[i] == Tuple(start, width)
    ensures Placeholders(start, width)[c] == "$" + NatToString(k)
    ensures |Flatten(rows)| == width * |rows|
    ensures 1 <= k
    ensures k <= |Flatten(rows)|
    ensures Flatten(rows)[k - 1] == rows[i][c]
  {
    assert 0 <= width * i;
    start := width * i + 1;
    k := start + c;
    TuplesIndex(|rows|, width, i);
    PlaceholdersIndex(start, width, c);
    FlattenIndex(rows, width, i, c);
  }

  /**
   * The template's `$${paramIndex++}` repeated `width` times: the row's text
   * and the counter after it.
   */
  method NextTuple(paramIndex: nat, width: nat) returns (tuple: string, next: nat)
    ensures tuple == Tuple(paramIndex, width) && next == paramIndex + width
  {
    var placeholders: seq<string> := [];
    next := paramIndex;
    var c := 0;
    while c < width
      invariant c <= width && next == paramIndex + c
      invariant placeholders == Placeholders(paramIndex, c)
    {
      placeholders := placeholders + ["$" + NatToString(next)];
      next := next + 1;
      c := c + 1;
    }
    tuple := "(" + Join(placeholders, ", ") + ")";
  }

  /** One more VALUES row: the list grows by the next row and the counter moves past it. */
  method PushTuple(values: seq<string>, paramIndex: nat, width: nat, ghost i: nat)
    returns (values': seq<string>, paramIndex': nat)
    requires values == Tuples(i, width) && paramIndex == width * i + 1
    ensures values' == Tuples(i + 1, width) && paramIndex' == width * (i + 1) + 1
  {
    var tuple;
    tuple, paramIndex' := NextTuple(paramIndex, width);
    values' := values + [tuple];
  }

  // ---------------------------------------------------------------------
  // The statements

  function TableName(t: Table): string {
    match t
    case Chapter => "Chapter"
    case Panel => "Panel"
    case Word => "Word"
    case GrammaticalStructure => "GrammaticalStructure"
    case PanelWord => "PanelWord"
    case PanelGrammaticalStructure => "PanelGrammaticalStructure"
  }

  /** The number of columns of a multi-row insert into the table. */
  function Width(t: Table): nat {
    match t
    case Chapter => 4
    case Panel => 7
    case Word => 7
    case GrammaticalStructure => 6
    case PanelWord => 3
    case PanelGrammaticalStructure => 3
  }

  /** The quoted column list of a multi-row insert, in the order the values are pushed. */
  function Columns(t: Table): (r: seq<string>)
    ensures t != Chapter ==> |r| == Width(t)
  {
    match t
    case Chapter => ["id", "title", "\"orderIndex\"", "\"updatedAt\""]
    case Panel => ["\"id\"", "\"chapterId\"", "\"japaneseText\"", "\"translation\"",
                   "\"orderIndex\"", "\"pageNumber\"", "\"updatedAt\""]
    case Word => ["\"id\"", "\"japanese\"", "\"reading\"", "\"meaning\"",
                  "\"partOfSpeech\"", "\"jlptLevel\"", "\"updatedAt\""]
    case GrammaticalStructure => ["\"id\"", "\"name\"", "\"pattern\"", "\"explanation\"",
                                  "\"jlptLevel\"", "\"updatedAt\""]
    case PanelWord => ["\"id\"", "\"panelId\"", "\"wordId\""]
    case PanelGrammaticalStructure => ["\"id\"", "\"panelId\"", "\"grammaticalStructureId\""]
  }

  function ConflictText(c: Conflict): string {
    match c
    case OnId => "ON CONFLICT (id) DO NOTHING;"
    case OnQuotedJapanese => "ON CONFLICT (\"japanese\") DO NOTHING;"
    case OnQuotedId => "ON CONFLICT (\"id\") DO NOTHING;"
    case OnAnything => "ON CONFLICT DO NOTHING;"
  }

  /** The text sent: the chapter insert verbatim, or the multi-row template with its column list and rows. */
  function SqlText(sql: Sql): string {
    match sql
    case ChapterInsert =>
      "INSERT INTO \"Chapter\" (id, title, \"orderIndex\", \"updatedAt\") VALUES ($1, $2, $3, $4) ON CONFLICT (id) DO NOTHING"
    case MultiRowInsert(table, values, conflict) =>
      "\n      INSERT INTO \"" + TableName(table) + "\" (" + Join(Columns(table), ", ") + ")\n      VALUES " +
      Join(values, ", ") + "\n      " + ConflictText(conflict) + "\n    "
  }

  /** The table a statement writes. */
  function TableOf(st: Statement): Table {
    if st.sql.ChapterInsert? then Chapter else st.sql.table
  }

  /** The chapter row, with fixed placeholders `$1`..`$4`. */
  function ChapterStatement(chapterId: string, title: string, orderIndex: int, updatedAt: string): Statement {
    Statement(ChapterInsert, [PText(chapterId), PText(title), PInt(orderIndex), PText(updatedAt)])
  }

  /** The seven values of a panel row, in column order. */
  function PanelParams(p: OutputPanel, updatedAt: string): (r: seq<Param>)
    ensures |r| == Width(Panel)
  {
    [PText(p.id), PText(p.chapterId), PText(p.japaneseText), PText(p.translation),
     PInt(p.orderIndex), PInt(p.pageNumber), PText(updatedAt)]
  }

  /** The seven values of a word row, in column order. */
  function WordParams(w: OutputWord, updatedAt: string): (r: seq<Param>)
    ensures |r| == Width(Table.Word)
  {
    [PText(w.id), PText(w.japanese), PText(w.reading), PText(w.meaning),
     PText(w.partOfSpeech), PInt(w.jlptLevel), PText(updatedAt)]
  }

  /** The six values of a grammar row, in column order. */
  function GrammarParams(g: OutputGrammar, updatedAt: string): (r: seq<Param>)
    ensures |r| == Width(GrammaticalStructure)
  {
    [PText(g.id), PText(g.name), PText(g.pattern), PText(g.explanation), PInt(g.jlptLevel), PText(updatedAt)]
  }

  /** The three values of a join row: a freshly drawn id, the panel id and the concept id. */
  function JoinParams(id: string, r: JoinRow): (out: seq<Param>)
    ensures |out| == Width(PanelWord) == Width(PanelGrammaticalStructure)
  {
    [PText(id), PText(r.panelId), PText(r.conceptId)]
  }

  function PanelRows(panels: seq<OutputPanel>, updatedAt: string): (r: seq<seq<Param>>)
    ensures |r| == |panels| && AllWidth(r, Width(Panel))
  {
    if panels == [] then []
    else PanelRows(panels[..|panels| - 1], updatedAt) + [PanelParams(panels[|panels| - 1], updatedAt)]
  }

  function WordRows(words: seq<OutputWord>, updatedAt: string): (r: seq<seq<Param>>)
    ensures |r| == |words| && AllWidth(r, Width(Table.Word))
  {
    if words == [] then []
    else WordRows(words[..|words| - 1], updatedAt) + [WordParams(words[|words| - 1], updatedAt)]
  }

  function GrammarRows(gs: seq<OutputGrammar>, updatedAt: string): (r: seq<seq<Param>>)
    ensures |r| == |gs| && AllWidth(r, Width(GrammaticalStructure))
  {
    if gs == [] then []
    else GrammarRows(gs[..|gs| - 1], updatedAt) + [GrammarParams(gs[|gs| - 1], updatedAt)]
  }

  /** Join row i draws the id `ids(base + i)`. */
  function JoinRows(rows: seq<JoinRow>, ids: nat -> string, base: nat): (r: seq<seq<Param>>)
    ensures |r| == |rows| && AllWidth(r, Width(PanelWord)) && AllWidth(r, Width(PanelGrammaticalStructure))
  {
    if rows == [] then []
    else JoinRows(rows[..|rows| - 1], ids, base) + [JoinParams(ids(base + |rows| - 1), rows[|rows| - 1])]
  }

  /** The statement of one builder; an empty list gives none. */
  function InsertOf(table: Table, conflict: Conflict, rows: seq<seq<Param>>): (r: Option<Statement>)
    requires AllWidth(rows, Width(table))
    ensures r.None? <==> rows == []
    ensures r.Some? ==> r.value.sql.MultiRowInsert? && r.value.sql.table == table
  {
    if rows == [] then None
    else Some(Statement(MultiRowInsert(table, Tuples(|rows|, Width(table)), conflict), Flatten(rows)))
  }

  function PanelInsert(panels: seq<OutputPanel>, updatedAt: string): Option<Statement> {
    InsertOf(Panel, OnId, PanelRows(panels, updatedAt))
  }

  function WordInsert(words: seq<OutputWord>, updatedAt: string): Option<Statement> {
    InsertOf(Table.Word, OnQuotedJapanese, WordRows(words, updatedAt))
  }

  function GrammarInsert(gs: seq<OutputGrammar>, updatedAt: string): Option<Statement> {
    InsertOf(GrammaticalStructure, OnQuotedId, GrammarRows(gs, updatedAt))
  }

  /** The join tables: one freshly drawn id per row, then the panel and concept ids; any conflict skips the row. */
  function JoinInsert(table: Table, rows: seq<JoinRow>, ids: nat -> string, base: nat): Option<Statement>
    requires table == PanelWord || table == PanelGrammaticalStructure
  {
    InsertOf(table, OnAnything, JoinRows(rows, ids, base))
  }

  // ---------------------------------------------------------------------
  // The builders' loops

  /** One more entry adds its row's values at the end of the flat parameter list. */
  lemma PanelRowsStep(panels: seq<OutputPanel>, updatedAt: string, i: nat)
    requires i < |panels|
    ensures Flatten(PanelRows(panels[..i + 1], updatedAt))
         == Flatten(PanelRows(panels[..i], updatedAt)) + PanelParams(panels[i], updatedAt)
  {
    assert panels[..i + 1][..i] == panels[..i];
    FlattenSnoc(PanelRows(panels[..i], updatedAt), PanelParams(panels[i], updatedAt));
  }

  lemma WordRowsStep(words: seq<OutputWord>, updatedAt: string, i: nat)
    requires i < |words|
    ensures Flatten(WordRows(words[..i + 1], updatedAt))
         == Flatten(WordRows(words[..i], updatedAt)) + WordParams(words[i], updatedAt)
  {
    assert words[..i + 1][..i] == words[..i];
    FlattenSnoc(WordRows(words[..i], updatedAt), WordParams(words[i], updatedAt));
  }

  lemma GrammarRowsStep(gs: seq<OutputGrammar>, updatedAt: string, i: nat)
    requires i < |gs|
    ensures Flatten(GrammarRows(gs[..i + 1], updatedAt))
         == Flatten(GrammarRows(gs[..i], updatedAt)) + GrammarParams(gs[i], updatedAt)
  {
    assert gs[..i + 1][..i] == gs[..i];
    FlattenSnoc(GrammarRows(gs[..i], updatedAt), GrammarParams(gs[i], updatedAt));
  }

  lemma JoinRowsStep(rows: seq<JoinRow>, ids: nat -> string, base: nat, i: nat)
    requires i < |rows|
    ensures Flatten(JoinRows(rows[..i + 1], ids, base))
         == Flatten(JoinRows(rows[..i], ids, base)) + JoinParams(ids(base + i), rows[i])
  {
    assert rows[..i + 1][..i] == rows[..i];
    assert JoinRows(rows[..i + 1], ids, base) == JoinRows(rows[..i], ids, base) + [JoinParams(ids(base + i), rows[i])];
    FlattenSnoc(JoinRows(rows[..i], ids, base), JoinParams(ids(base + i), rows[i]));
  }

  method SeedPanel(panels: seq<OutputPanel>, updatedAt: string) returns (q: Option<Statement>)
    ensures q == PanelInsert(panels, updatedAt)
  {
    if |panels| == 0 {
      return None;
    }
    var paramIndex := 1;
    var values: seq<string> := [];
    var params: seq<Param> := [];
    var i := 0;
    while i < |panels|
      invariant i <= |panels| && paramIndex == 7 * i + 1
      invariant values == Tuples(i, 7)
      invariant params == Flatten(PanelRows(panels[..i], updatedAt))
    {
      PanelRowsStep(panels, updatedAt, i);
      values, paramIndex := PushTuple(values, paramIndex, 7, i);
      params := params + PanelParams(panels[i], updatedAt);
      i := i + 1;
    }
    assert panels[..i] == panels;
    q := Some(Statement(MultiRowInsert(Panel, values, OnId), params));
  }

  method SeedWord(words: seq<OutputWord>, updatedAt: string) returns (q: Option<Statement>)
    ensures q == WordInsert(words, updatedAt)
  {
    if |words| == 0 {
      return None;
    }
    var paramIndex := 1;
    var values: seq<string> := [];
    var params: seq<Param> := [];
    var i := 0;
    while i < |words|
      invariant i <= |words| && paramIndex == 7 * i + 1
      invariant values == Tuples(i, 7)
      invariant params == Flatten(WordRows(words[..i], updatedAt))
    {
      WordRowsStep(words, updatedAt, i);
      values, paramIndex := PushTuple(values, paramIndex, 7, i);
      params := params + WordParams(words[i], updatedAt);
      i := i + 1;
    }
    assert words[..i] == words;
    q := Some(Statement(MultiRowInsert(Table.Word, values, OnQuotedJapanese), params));
  }

  method SeedGrammaticalStructure(gs: seq<OutputGrammar>, updatedAt: string) returns (q: Option<Statement>)
    ensures q == GrammarInsert(gs, updatedAt)
  {
    if |gs| == 0 {
      return None;
    }
    var paramIndex := 1;
    var values: seq<string> := [];
    var params: seq<Param> := [];
    var i := 0;
    while i < |gs|
      invariant i <= |gs| && paramIndex == 6 * i + 1
      invariant values == Tuples(i, 6)
      invariant params == Flatten(GrammarRows(gs[..i], updatedAt))
    {
      GrammarRowsStep(gs, updatedAt, i);
      values, paramIndex := PushTuple(values, paramIndex, 6, i);
      params := params + GrammarParams(gs[i], updatedAt);
      i := i + 1;
    }
    assert gs[..i] == gs;
    q := Some(Statement(MultiRowInsert(GrammaticalStructure, values, OnQuotedId), params));
  }

  /** Both join tables: `seedPanelWord` and `seedPanelGrammaticalStructure` differ only in the table and its concept column. */
  method SeedJoin(table: Table, rows: seq<JoinRow>, ids: nat -> string, base: nat)
    returns (q: Option<Statement>)
    requires table == PanelWord || table == PanelGrammaticalStructure
    ensures q == JoinInsert(table, rows, ids, base)
  {
    if |rows| == 0 {
      return None;
    }
    var paramIndex := 1;
    var values: seq<string> := [];
    var params: seq<Param> := [];
    var i := 0;
    while i < |rows|
      invariant i <= |rows| && paramIndex == 3 * i + 1
      invariant values == Tuples(i, 3)
      invariant params == Flatten(JoinRows(rows[..i], ids, base))
    {
      JoinRowsStep(rows, ids, base, i);
      values, paramIndex := PushTuple(values, paramIndex, 3, i);
      params := params + JoinParams(ids(base + i), rows[i]);
      i := i + 1;
    }
    assert rows[..i] == rows;
    q := Some(Statement(MultiRowInsert(table, values, OnAnything), params));
  }

  /** The statements of one list, when there is one. */
  function Sent(q: Option<Statement>): seq<Statement> {
    if q.Some? then [q.value] else []
  }

  /**
   * The statements of a whole run, in the order sent: the chapter, then
   * panels, words, grammar, word links and grammar links. The word links
   * draw ids `ids(0)`, `ids(1)`, ... and the grammar links continue after them.
   */
  function Plan(seed: SeedOutput, title: string, orderIndex: int, clock: Clock, ids: nat -> string): seq<Statement> {
    [ChapterStatement(seed.chapterId, title, orderIndex, clock.chapter)]
    + Sent(PanelInsert(seed.panel, clock.panel))
    + Sent(WordInsert(seed.word, clock.word))
    + Sent(GrammarInsert(seed.grammaticalStructure, clock.grammar))
    + Sent(JoinInsert(PanelWord, seed.panelWord, ids, 0))
    + Sent(JoinInsert(PanelGrammaticalStructure, seed.panelGrammaticalStructure, ids, |seed.panelWord|))
  }

  /** `seedDatabase`, after the seed document has been read and parsed. */
  method SeedDatabase(seed: SeedOutput, title: string, orderIndex: int, clock: Clock, ids: nat -> string)
    returns (sent: seq<Statement>)
    ensures sent == Plan(seed, title, orderIndex, clock, ids)
  {
    sent := [ChapterStatement(seed.chapterId, title, orderIndex, clock.chapter)];
    var q := SeedPanel(seed.panel, clock.panel);
    sent := sent + Sent(q);
    q := SeedWord(seed.word, clock.word);
    sent := sent + Sent(q);
    q := SeedGrammaticalStructure(seed.grammaticalStructure, clock.grammar);
    sent := sent + Sent(q);
    q := SeedJoin(PanelWord, seed.panelWord, ids, 0);
    sent := sent + Sent(q);
    q := SeedJoin(PanelGrammaticalStructure, seed.panelGrammaticalStructure, ids, |seed.panelWord|);
    sent := sent + Sent(q);
  }
}
