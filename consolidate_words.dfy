/**
 * The id consolidation between two seed documents (scripts/consolidateWords.ts):
 * words and grammar points of a new seed that an already-inserted seed
 * holds (by `japanese` for words, by `name` for grammar) are dropped from
 * the new seed, and the new seed's join rows that pointed at a dropped entry
 * are redirected to the inserted entry's id.
 *
 * The two lists are handled by one generic description, parameterised by
 * the entry's key and its id.
 */
module ConsolidateWords {
  import opened SeedTypes

  function WordKey(w: OutputWord): string { w.japanese }
  function WordId(w: OutputWord): string { w.id }
  function GrammarKey(g: OutputGrammar): string { g.name }
  function GrammarId(g: OutputGrammar): string { g.id }

  // ---------------------------------------------------------------------------
  // The lookup table of the inserted seed: key -> id
  // ---------------------------------------------------------------------------

  /** The table that `set(key, id)` over the entries in order builds: a repeated key keeps its last id. */
  function Index<T>(items: seq<T>, key: T -> string, id: T -> string): map<string, string> {
    if items == [] then map[]
    else Index(items[..|items| - 1], key, id)[key(items[|items| - 1]) := id(items[|items| - 1])]
  }

  /** Exactly the keys of the entries are in the table. */
  lemma {:induction false} IndexKeys<T>(items: seq<T>, key: T -> string, id: T -> string, k: string)
    ensures k in Index(items, key, id) <==> exists i :: 0 <= i < |items| && key(items[i]) == k
  {
    if items != [] {
      var init := items[..|items| - 1];
      IndexKeys(init, key, id, k);
      if k in Index(init, key, id) {
        var i :| 0 <= i < |init| && key(init[i]) == k;
        assert items[i] == init[i];
      }
      forall i | 0 <= i < |items| - 1 && key(items[i]) == k
        ensures k in Index(init, key, id)
      {
        assert init[i] == items[i];
      }
    }
  }

  /** The id stored for a key is the id of the last entry carrying that key. */
  lemma {:induction false} IndexValue<T>(items: seq<T>, key: T -> string, id: T -> string, i: nat)
    requires i < |items|
    requires forall j :: i < j < |items| ==> key(items[j]) != key(items[i])
    ensures key(items[i]) in Index(items, key, id)
    ensures Index(items, key, id)[key(items[i])] == id(items[i])
  {
    if i < |items| - 1 {
      var init := items[..|items| - 1];
      assert init[i] == items[i];
      forall j | i < j < |init| ensures key(init[j]) != key(init[i]) {
        assert init[j] == items[j];
      }
      IndexValue(init, key, id, i);
    }
  }

  /** A key in the table maps to the id of the last entry carrying it. */
  lemma IndexHit<T>(items: seq<T>, key: T -> string, id: T -> string, k: string)
    requires k in Index(items, key, id)
    ensures exists i ::
      && 0 <= i < |items| && key(items[i]) == k && Index(items, key, id)[k] == id(items[i])
      && forall j :: i < j < |items| ==> key(items[j]) != k
  {
    IndexKeys(items, key, id, k);
    var i :| 0 <= i < |items| && key(items[i]) == k;
    while exists j :: i < j < |items| && key(items[j]) == k
      invariant 0 <= i < |items| && key(items[i]) == k
      decreases |items| - i
    {
      var j :| i < j < |items| && key(items[j]) == k;
      i := j;
    }
    IndexValue(items, key, id, i);
  }

  /** The loop over the inserted seed's entries that fills the table. */
  method BuildIndex<T>(items: seq<T>, key: T -> string, id: T -> string) returns (m: map<string, string>)
    ensures m == Index(items, key, id)
  {
    m := map[];
    var i := 0;
    while i < |items|
      invariant i <= |items|
      invariant m == Index(items[..i], key, id)
    {
      assert items[..i + 1][..i] == items[..i];
      m := m[key(items[i]) := id(items[i])];
      i := i + 1;
    }
    assert items[..|items|] == items;
  }

  // ---------------------------------------------------------------------------
  // Splitting the new seed's entries into kept ones and an id remapping
  // ---------------------------------------------------------------------------

  /** The entries whose key the table does not hold, in their original order. */
  function Kept<T>(items: seq<T>, index: map<string, string>, key: T -> string): seq<T> {
    if items == [] then []
    else Kept(items[..|items| - 1], index, key) + (if key(items[|items| - 1]) in index then [] else [items[|items| - 1]])
  }

  /** The id remapping: each dropped entry's id goes to the table's id for its key (a later entry with the same id wins). */
  function Remap<T>(items: seq<T>, index: map<string, string>, key: T -> string, id: T -> string): map<string, string> {
    if items == [] then map[]
    else
      var r := Remap(items[..|items| - 1], index, key, id);
      var last := items[|items| - 1];
      if key(last) in index then r[id(last) := index[key(last)]] else r
  }

  /** Keeping distributes over concatenation, so the kept entries keep their relative order. */
  lemma {:induction false} KeptAppend<T>(a: seq<T>, b: seq<T>, index: map<string, string>, key: T -> string)
    ensures Kept(a + b, index, key) == Kept(a, index, key) + Kept(b, index, key)
    decreases |b|
  {
    if b == [] {
      assert a + b == a;
    } else {
      var init := b[..|b| - 1];
      assert (a + b)[..|a + b| - 1] == a + init;
      KeptAppend(a, init, index, key);
    }
  }

  /** A single entry is kept iff its key is not in the table. */
  lemma KeptSingle<T>(x: T, index: map<string, string>, key: T -> string)
    ensures Kept([x], index, key) == if key(x) in index then [] else [x]
  {
    assert [x][..0] == [];
  }

  /** An entry is kept iff it is one of the entries and its key is not in the table. */
  lemma {:induction false} KeptMember<T>(items: seq<T>, index: map<string, string>, key: T -> string, x: T)
    ensures x in Kept(items, index, key) <==> x in items && key(x) !in index
  {
    if items != [] {
      var init := items[..|items| - 1];
      KeptMember(init, index, key, x);
      assert items == init + [items[|items| - 1]];
    }
  }

  /** When no key is in the table, every entry is kept. */
  lemma {:induction false} KeptAll<T>(items: seq<T>, index: map<string, string>, key: T -> string)
    requires forall i :: 0 <= i < |items| ==> key(items[i]) !in index
    ensures Kept(items, index, key) == items
  {
    if items != [] {
      var init := items[..|items| - 1];
      KeptAll(init, index, key);
      assert items == init + [items[|items| - 1]];
    }
  }

  /** The remapping holds exactly the ids of dropped entries. */
  lemma {:induction false} RemapKeys<T>(items: seq<T>, index: map<string, string>, key: T -> string,
                                         id: T -> string, k: string)
    ensures k in Remap(items, index, key, id) <==>
      exists i :: 0 <= i < |items| && id(items[i]) == k && key(items[i]) in index
  {
    if items != [] {
      var init := items[..|items| - 1];
      RemapKeys(init, index, key, id, k);
      if k in Remap(init, index, key, id) {
        var i :| 0 <= i < |init| && id(init[i]) == k && key(init[i]) in index;
        assert items[i] == init[i];
      }
      forall i | 0 <= i < |items| - 1 && id(items[i]) == k && key(items[i]) in index
        ensures k in Remap(init, index, key, id)
      {
        assert init[i] == items[i];
      }
    }
  }

  /** With distinct ids, a dropped entry's id is remapped to the table's id for its key. */
  lemma {:induction false} RemapValue<T>(items: seq<T>, index: map<string, string>, key: T -> string,
                                          id: T -> string, i: nat)
    requires i < |items| && key(items[i]) in index
    requires forall j :: 0 <= j < |items| && j != i ==> id(items[j]) != id(items[i])
    ensures id(items[i]) in Remap(items, index, key, id)
    ensures Remap(items, index, key, id)[id(items[i])] == index[key(items[i])]
  {
    var init := items[..|items| - 1];
    if i < |items| - 1 {
      assert init[i] == items[i];
      forall j | 0 <= j < |init| && j != i ensures id(init[j]) != id(init[i]) {
        assert init[j] == items[j];
      }
      RemapValue(init, index, key, id, i);
    }
  }

  /**
   * The loop over the new seed's entries: an entry whose key the table holds
   * records its id's replacement and is skipped, every other entry is kept.
   */
  method Split<T>(items: seq<T>, index: map<string, string>, key: T -> string, id: T -> string)
    returns (kept: seq<T>, remap: map<string, string>)
    ensures kept == Kept(items, index, key)
    ensures remap == Remap(items, index, key, id)
  {
    kept, remap := [], map[];
    var i := 0;
    while i < |items|
      invariant i <= |items|
      invariant kept == Kept(items[..i], index, key)
      invariant remap == Remap(items[..i], index, key, id)
    {
      assert items[..i + 1][..i] == items[..i];
      var item := items[i];
      if key(item) in index {
        remap := remap[id(item) := index[key(item)]];
      } else {
        kept := kept + [item];
      }
      i := i + 1;
    }
    assert items[..|items|] == items;
  }

  // ---------------------------------------------------------------------------
  // Redirecting the join rows
  // ---------------------------------------------------------------------------

  /** A row whose concept id was remapped takes the new id; its panel id never changes. */
  function RemapRow(r: JoinRow, remap: map<string, string>): (out: JoinRow)
    ensures out.panelId == r.panelId
    ensures r.conceptId in remap ==> out.conceptId == remap[r.conceptId]
    ensures r.conceptId !in remap ==> out == r
  {
    if r.conceptId in remap then JoinRow(r.panelId, remap[r.conceptId]) else r
  }

  /** Every row, redirected, in the original order. */
  function RemapRows(rows: seq<JoinRow>, remap: map<string, string>): (out: seq<JoinRow>)
    ensures |out| == |rows|
  {
    if rows == [] then [] else RemapRows(rows[..|rows| - 1], remap) + [RemapRow(rows[|rows| - 1], remap)]
  }

  /** Row i of the result is row i of the input, redirected. */
  lemma {:induction false} RemapRowsIndex(rows: seq<JoinRow>, remap: map<string, string>, i: nat)
    requires i < |rows|
    ensures RemapRows(rows, remap)[i] == RemapRow(rows[i], remap)
  {
    if i < |rows| - 1 {
      assert rows[..|rows| - 1][i] == rows[i];
      RemapRowsIndex(rows[..|rows| - 1], remap, i);
    }
  }

  /** An empty remapping leaves every row as it is. */
  lemma {:induction false} RemapRowsEmpty(rows: seq<JoinRow>)
    ensures RemapRows(rows, map[]) == rows
  {
    if rows != [] {
      RemapRowsEmpty(rows[..|rows| - 1]);
      assert rows == rows[..|rows| - 1] + [rows[|rows| - 1]];
    }
  }

  /** The loop over the join rows. */
  method RedirectRows(rows: seq<JoinRow>, remap: map<string, string>) returns (out: seq<JoinRow>)
    ensures out == RemapRows(rows, remap)
  {
    out := [];
    var i := 0;
    while i < |rows|
      invariant i <= |rows|
      invariant out == RemapRows(rows[..i], remap)
    {
      assert rows[..i + 1][..i] == rows[..i];
      var row := rows[i];
      if row.conceptId in remap {
        out := out + [JoinRow(row.panelId, remap[row.conceptId])];
      } else {
        out := out + [row];
      }
      i := i + 1;
    }
    assert rows[..|rows|] == rows;
  }

  // ---------------------------------------------------------------------------
  // The whole consolidation
  // ---------------------------------------------------------------------------

  function WordIndex(inserted: SeedOutput): map<string, string> {
    Index(inserted.word, WordKey, WordId)
  }

  function GrammarIndex(inserted: SeedOutput): map<string, string> {
    Index(inserted.grammaticalStructure, GrammarKey, GrammarId)
  }

  function WordRemap(inserted: SeedOutput, s: SeedOutput): map<string, string> {
    Remap(s.word, WordIndex(inserted), WordKey, WordId)
  }

  function GrammarRemap(inserted: SeedOutput, s: SeedOutput): map<string, string> {
    Remap(s.grammaticalStructure, GrammarIndex(inserted), GrammarKey, GrammarId)
  }

  /** The new seed after consolidation against the inserted one. */
  function Consolidated(inserted: SeedOutput, s: SeedOutput): (r: SeedOutput)
    ensures r.chapterId == s.chapterId && r.panel == s.panel
    ensures |r.panelWord| == |s.panelWord| && |r.panelGrammaticalStructure| == |s.panelGrammaticalStructure|
  {
    s.(word := Kept(s.word, WordIndex(inserted), WordKey),
       grammaticalStructure := Kept(s.grammaticalStructure, GrammarIndex(inserted), GrammarKey),
       panelWord := RemapRows(s.panelWord, WordRemap(inserted, s)),
       panelGrammaticalStructure := RemapRows(s.panelGrammaticalStructure, GrammarRemap(inserted, s)))
  }

  /** A seed document that the consolidation updates in place. */
  class SeedDocument {
    var chapterId: string
    var panel: seq<OutputPanel>
    var word: seq<OutputWord>
    var grammaticalStructure: seq<OutputGrammar>
    var panelWord: seq<JoinRow>
    var panelGrammaticalStructure: seq<JoinRow>

    constructor (s: SeedOutput)
      ensures Value() == s
    {
      chapterId, panel, word := s.chapterId, s.panel, s.word;
      grammaticalStructure, panelWord, panelGrammaticalStructure :=
        s.grammaticalStructure, s.panelWord, s.panelGrammaticalStructure;
    }

    /** The document's current contents. */
    function Value(): SeedOutput
      reads this
    {
      SeedOutput(chapterId, panel, word, grammaticalStructure, panelWord, panelGrammaticalStructure)
    }
  }

  /**
   * `dedup`: reads the inserted seed's tables first, then overwrites the four
   * list fields of the new seed. The inserted document may be the new one
   * itself; everything is computed from the contents before the call.
   */
  method Dedup(insertedSeed: SeedDocument, newSeed: SeedDocument)
    modifies newSeed
    ensures newSeed.Value() == Consolidated(old(insertedSeed.Value()), old(newSeed.Value()))
  {
    var words := BuildIndex(insertedSeed.word, WordKey, WordId);
    var grammars := BuildIndex(insertedSeed.grammaticalStructure, GrammarKey, GrammarId);
    var newWords, newWordId := Split(newSeed.word, words, WordKey, WordId);
    var newGrammars, newGrammarId := Split(newSeed.grammaticalStructure, grammars, GrammarKey, GrammarId);
    var newPanelWord := RedirectRows(newSeed.panelWord, newWordId);
    var newPanelGrammar := RedirectRows(newSeed.panelGrammaticalStructure, newGrammarId);
    newSeed.word := newWords;
    newSeed.grammaticalStructure := newGrammars;
    newSeed.panelWord := newPanelWord;
    newSeed.panelGrammaticalStructure := newPanelGrammar;
  }
}
