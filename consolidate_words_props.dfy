/**
 * What `dedup` (scripts/consolidateWords.ts) promises about the new seed,
 * proved of `ConsolidateWords.Consolidated`, which `Dedup` writes.
 */
module ConsolidateWordsProperties {
  import opened SeedTypes
  import opened ConsolidateWords
  import TransformToSeed
  import TransformToSeedProperties

  /** No two entries share an id. */
  ghost predicate DistinctIds<T>(items: seq<T>, id: T -> string) {
    forall i, j :: 0 <= i < |items| && 0 <= j < |items| && i != j ==> id(items[i]) != id(items[j])
  }

  // ---------------------------------------------------------------------
  // Kept entries

  /** The positions of the kept entries, ascending. */
  function KeptPositions<T>(items: seq<T>, index: map<string, string>, key: T -> string): seq<nat> {
    if items == [] then []
    else KeptPositions(items[..|items| - 1], index, key) +
         (if key(items[|items| - 1]) in index then [] else [|items| - 1])
  }

  /**
   * The kept entries are exactly the entries whose key the table lacks,
   * unchanged and in their original relative order: entry k of the result
   * is the entry at the k-th such position.
   */
  lemma {:induction false} KeptIsSubsequence<T>(items: seq<T>, index: map<string, string>, key: T -> string)
    ensures var kept, pos := Kept(items, index, key), KeptPositions(items, index, key);
      && |pos| == |kept|
      && (forall k :: 0 <= k < |pos| ==> pos[k] < |items| && kept[k] == items[pos[k]])
      && (forall k, l :: 0 <= k < l < |pos| ==> pos[k] < pos[l])
      && (forall i :: 0 <= i < |items| ==> (i in pos <==> key(items[i]) !in index))
  {
    if items != [] {
      var init := items[..|items| - 1];
      KeptIsSubsequence(init, index, key);
      var last := items[|items| - 1];
      var kept0, pos0 := Kept(init, index, key), KeptPositions(init, index, key);
      var kept, pos := kept0 + (if key(last) in index then [] else [last]),
                       pos0 + (if key(last) in index then [] else [|items| - 1]);
      assert kept == Kept(items, index, key) && pos == KeptPositions(items, index, key);
      forall k | 0 <= k < |pos0| ensures kept0[k] == items[pos0[k]] {
        assert init[pos0[k]] == items[pos0[k]];
      }
      forall i | 0 <= i < |init| ensures (i in pos <==> key(items[i]) !in index) {
        assert init[i] == items[i];
      }
    }
  }

  /** After consolidation, no word of the new seed has a Japanese form the inserted seed holds, and no grammar point its name. */
  lemma NothingInsertedTwice(inserted: SeedOutput, s: SeedOutput, r: SeedOutput)
    requires r == Consolidated(inserted, s)
    ensures forall i, j :: 0 <= i < |r.word| && 0 <= j < |inserted.word| ==>
              r.word[i].japanese != inserted.word[j].japanese
    ensures forall i, j :: 0 <= i < |r.grammaticalStructure| && 0 <= j < |inserted.grammaticalStructure| ==>
              r.grammaticalStructure[i].name != inserted.grammaticalStructure[j].name
  {
    forall i, j | 0 <= i < |r.word| && 0 <= j < |inserted.word|
      ensures r.word[i].japanese != inserted.word[j].japanese
    {
      KeptMember(s.word, WordIndex(inserted), WordKey, r.word[i]);
      IndexKeys(inserted.word, WordKey, WordId, inserted.word[j].japanese);
      assert WordKey(inserted.word[j]) == inserted.word[j].japanese;
    }
    forall i, j | 0 <= i < |r.grammaticalStructure| && 0 <= j < |inserted.grammaticalStructure|
      ensures r.grammaticalStructure[i].name != inserted.grammaticalStructure[j].name
    {
      KeptMember(s.grammaticalStructure, GrammarIndex(inserted), GrammarKey, r.grammaticalStructure[i]);
      IndexKeys(inserted.grammaticalStructure, GrammarKey, GrammarId, inserted.grammaticalStructure[j].name);
      assert GrammarKey(inserted.grammaticalStructure[j]) == inserted.grammaticalStructure[j].name;
    }
  }

  /** A new word survives iff the inserted seed has no word with its Japanese form; likewise grammar by name. */
  lemma KeptIff(inserted: SeedOutput, s: SeedOutput, r: SeedOutput)
    requires r == Consolidated(inserted, s)
    ensures forall w :: w in r.word <==>
              w in s.word && forall j :: 0 <= j < |inserted.word| ==> inserted.word[j].japanese != w.japanese
    ensures forall g :: g in r.grammaticalStructure <==>
              g in s.grammaticalStructure &&
              forall j :: 0 <= j < |inserted.grammaticalStructure| ==> inserted.grammaticalStructure[j].name != g.name
  {
    forall w ensures w in r.word <==>
      w in s.word && forall j :: 0 <= j < |inserted.word| ==> inserted.word[j].japanese != w.japanese
    {
      KeptMember(s.word, WordIndex(inserted), WordKey, w);
      IndexKeys(inserted.word, WordKey, WordId, w.japanese);
    }
    forall g ensures g in r.grammaticalStructure <==>
      g in s.grammaticalStructure &&
      forall j :: 0 <= j < |inserted.grammaticalStructure| ==> inserted.grammaticalStructure[j].name != g.name
    {
      KeptMember(s.grammaticalStructure, GrammarIndex(inserted), GrammarKey, g);
      IndexKeys(inserted.grammaticalStructure, GrammarKey, GrammarId, g.name);
    }
  }

  // ---------------------------------------------------------------------
  // Join rows

  /**
   * A row pointing at a dropped entry (one whose key the inserted entries
   * hold) now points at the id of the last inserted entry with that key,
   * provided the new entries' ids are distinct.
   */
  lemma RowRedirected<T>(insertedItems: seq<T>, items: seq<T>, key: T -> string, id: T -> string,
                         rows: seq<JoinRow>, k: nat, i: nat, j: nat)
    requires DistinctIds(items, id)
    requires k < |rows| && i < |items| && j < |insertedItems|
    requires rows[k].conceptId == id(items[i]) && key(insertedItems[j]) == key(items[i])
    ensures var out := RemapRows(rows, Remap(items, Index(insertedItems, key, id), key, id))[k];
      && out.panelId == rows[k].panelId
      && exists m ::
        && 0 <= m < |insertedItems| && key(insertedItems[m]) == key(items[i])
        && out.conceptId == id(insertedItems[m])
        && forall l :: m < l < |insertedItems| ==> key(insertedItems[l]) != key(items[i])
  {
    var index := Index(insertedItems, key, id);
    RemapRowsIndex(rows, Remap(items, index, key, id), k);
    IndexKeys(insertedItems, key, id, key(items[i]));
    RemapValue(items, index, key, id, i);
    IndexHit(insertedItems, key, id, key(items[i]));
  }

  /** A row is unchanged when every new entry with its concept id is kept. */
  lemma RowUnchanged<T>(insertedItems: seq<T>, items: seq<T>, key: T -> string, id: T -> string,
                        rows: seq<JoinRow>, k: nat)
    requires k < |rows|
    requires forall i :: 0 <= i < |items| && id(items[i]) == rows[k].conceptId ==>
               items[i] in Kept(items, Index(insertedItems, key, id), key)
    ensures RemapRows(rows, Remap(items, Index(insertedItems, key, id), key, id))[k] == rows[k]
  {
    var index := Index(insertedItems, key, id);
    RemapRowsIndex(rows, Remap(items, index, key, id), k);
    RemapKeys(items, index, key, id, rows[k].conceptId);
    if rows[k].conceptId in Remap(items, index, key, id) {
      var i :| 0 <= i < |items| && id(items[i]) == rows[k].conceptId && key(items[i]) in index;
      KeptMember(items, index, key, items[i]);
      assert false;
    }
  }

  /** Both join tables keep their length, their order and every row's panel id. */
  lemma RowsKeepPanels(inserted: SeedOutput, s: SeedOutput, r: SeedOutput)
    requires r == Consolidated(inserted, s)
    ensures |r.panelWord| == |s.panelWord| && |r.panelGrammaticalStructure| == |s.panelGrammaticalStructure|
    ensures forall k :: 0 <= k < |r.panelWord| ==> r.panelWord[k].panelId == s.panelWord[k].panelId
    ensures forall k :: 0 <= k < |r.panelGrammaticalStructure| ==>
              r.panelGrammaticalStructure[k].panelId == s.panelGrammaticalStructure[k].panelId
  {
    forall k | 0 <= k < |r.panelWord| ensures r.panelWord[k].panelId == s.panelWord[k].panelId {
      RemapRowsIndex(s.panelWord, WordRemap(inserted, s), k);
    }
    forall k | 0 <= k < |r.panelGrammaticalStructure|
      ensures r.panelGrammaticalStructure[k].panelId == s.panelGrammaticalStructure[k].panelId
    {
      RemapRowsIndex(s.panelGrammaticalStructure, GrammarRemap(inserted, s), k);
    }
  }

  /** A word row whose word was dropped now names the inserted word with the same Japanese form. */
  lemma WordRowRedirected(inserted: SeedOutput, s: SeedOutput, r: SeedOutput, k: nat, i: nat, j: nat)
    requires r == Consolidated(inserted, s) && DistinctIds(s.word, WordId)
    requires k < |s.panelWord| && i < |s.word| && j < |inserted.word|
    requires s.panelWord[k].conceptId == s.word[i].id && inserted.word[j].japanese == s.word[i].japanese
    ensures r.panelWord[k].panelId == s.panelWord[k].panelId
    ensures exists m :: 0 <= m < |inserted.word| && inserted.word[m].japanese == s.word[i].japanese &&
              r.panelWord[k].conceptId == inserted.word[m].id
  {
    RowRedirected(inserted.word, s.word, WordKey, WordId, s.panelWord, k, i, j);
  }

  /** A grammar row whose grammar point was dropped now names the inserted one with the same name. */
  lemma GrammarRowRedirected(inserted: SeedOutput, s: SeedOutput, r: SeedOutput, k: nat, i: nat, j: nat)
    requires r == Consolidated(inserted, s) && DistinctIds(s.grammaticalStructure, GrammarId)
    requires k < |s.panelGrammaticalStructure| && i < |s.grammaticalStructure| && j < |inserted.grammaticalStructure|
    requires s.panelGrammaticalStructure[k].conceptId == s.grammaticalStructure[i].id
    requires inserted.grammaticalStructure[j].name == s.grammaticalStructure[i].name
    ensures r.panelGrammaticalStructure[k].panelId == s.panelGrammaticalStructure[k].panelId
    ensures exists m :: 0 <= m < |inserted.grammaticalStructure| &&
              inserted.grammaticalStructure[m].name == s.grammaticalStructure[i].name &&
              r.panelGrammaticalStructure[k].conceptId == inserted.grammaticalStructure[m].id
  {
    RowRedirected(inserted.grammaticalStructure, s.grammaticalStructure, GrammarKey, GrammarId,
                  s.panelGrammaticalStructure, k, i, j);
  }

  /** A word row whose word is kept is unchanged. */
  lemma WordRowUnchanged(inserted: SeedOutput, s: SeedOutput, r: SeedOutput, k: nat)
    requires r == Consolidated(inserted, s) && k < |s.panelWord|
    requires forall i :: 0 <= i < |s.word| && s.word[i].id == s.panelWord[k].conceptId ==> s.word[i] in r.word
    ensures r.panelWord[k] == s.panelWord[k]
  {
    RowUnchanged(inserted.word, s.word, WordKey, WordId, s.panelWord, k);
  }

  /** A grammar row whose grammar point is kept is unchanged. */
  lemma GrammarRowUnchanged(inserted: SeedOutput, s: SeedOutput, r: SeedOutput, k: nat)
    requires r == Consolidated(inserted, s) && k < |s.panelGrammaticalStructure|
    requires forall i :: 0 <= i < |s.grammaticalStructure| ==>
               s.grammaticalStructure[i].id == s.panelGrammaticalStructure[k].conceptId ==>
               s.grammaticalStructure[i] in r.grammaticalStructure
    ensures r.panelGrammaticalStructure[k] == s.panelGrammaticalStructure[k]
  {
    RowUnchanged(inserted.grammaticalStructure, s.grammaticalStructure, GrammarKey, GrammarId,
                 s.panelGrammaticalStructure, k);
  }

  /** A seed document built by the transform has distinct word ids and distinct grammar ids, as the row lemmas need. */
  lemma TransformedIdsDistinct(input: SeedTypes.ChapterResult, ids: nat -> string)
    requires TransformToSeedProperties.FreshIds(ids)
    ensures var s := TransformToSeed.SeedOf(input, ids);
      DistinctIds(s.word, WordId) && DistinctIds(s.grammaticalStructure, GrammarId)
  {
    TransformToSeedProperties.SeedConceptIdsDistinct(input, ids, TransformToSeed.SeedOf(input, ids));
  }

  // ---------------------------------------------------------------------
  // Idempotence

  /** No entry of a list is dropped twice: the remapping of an already-consolidated list is empty. */
  lemma RemapOfKept<T>(items: seq<T>, index: map<string, string>, key: T -> string, id: T -> string)
    ensures Remap(Kept(items, index, key), index, key, id) == map[]
    ensures Kept(Kept(items, index, key), index, key) == Kept(items, index, key)
  {
    var kept := Kept(items, index, key);
    forall i | 0 <= i < |kept| ensures key(kept[i]) !in index {
      KeptMember(items, index, key, kept[i]);
    }
    KeptAll(kept, index, key);
    forall k ensures k !in Remap(kept, index, key, id) {
      RemapKeys(kept, index, key, id, k);
    }
  }

  /** A second consolidation against the same inserted seed changes nothing. */
  lemma ConsolidateIdempotent(inserted: SeedOutput, s: SeedOutput)
    ensures Consolidated(inserted, Consolidated(inserted, s)) == Consolidated(inserted, s)
  {
    var r := Consolidated(inserted, s);
    RemapOfKept(s.word, WordIndex(inserted), WordKey, WordId);
    RemapOfKept(s.grammaticalStructure, GrammarIndex(inserted), GrammarKey, GrammarId);
    RemapRowsEmpty(r.panelWord);
    RemapRowsEmpty(r.panelGrammaticalStructure);
  }
}
