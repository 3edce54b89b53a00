/**
 * The panel record as the question modules load it: the panel's text and the
 * concepts tagged on it, one entry per join row (so a concept tagged twice
 * appears twice), in join-row order.
 */
module Panels {

  /** A word tagged on a panel: the word's id and its Japanese form. */
  datatype TaggedWord = TaggedWord(id: string, japanese: string)

  /** A grammatical structure tagged on a panel: its id and its name. */
  datatype TaggedGrammar = TaggedGrammar(id: string, name: string)

  datatype Panel = Panel(id: string, japaneseText: string,
                         words: seq<TaggedWord>, grammars: seq<TaggedGrammar>)

  /** The number of tagged concepts, words plus grammar. */
  function ConceptCount(p: Panel): nat {
    |p.words| + |p.grammars|
  }
}
