/**
 * The records of the offline seed pipeline: the per-page analysis of a
 * chapter (scripts/processChapter.ts) and the seed document built from it
 * (scripts/transformToSeed.ts).
 */
module SeedTypes {
  import opened Common

  datatype Word = Word(japanese: string, reading: string, meaning: string,
                       partOfSpeech: string, jlptLevel: int)

  datatype Grammar = Grammar(name: string, pattern: string, explanation: string, jlptLevel: int)

  /** An analysed panel; the analysis may omit the grammar list. */
  datatype InputPanel = InputPanel(panelNumber: int, words: seq<Word>, grammars: Option<seq<Grammar>>)

  /** An analysed page; the analysis may omit the panel list. */
  datatype Page = Page(pageNumber: int, panels: Option<seq<InputPanel>>)

  datatype ChapterResult = ChapterResult(chapterId: string, pages: seq<Page>)

  datatype OutputPanel = OutputPanel(id: string, chapterId: string, japaneseText: string,
                                     translation: string, orderIndex: nat, pageNumber: int,
                                     x: Option<int>, y: Option<int>, width: Option<int>, height: Option<int>)

  datatype OutputWord = OutputWord(id: string, japanese: string, reading: string, meaning: string,
                                   partOfSpeech: string, jlptLevel: int)

  datatype OutputGrammar = OutputGrammar(id: string, name: string, pattern: string,
                                         explanation: string, jlptLevel: int)

  /**
   * A join row between a panel and a concept: a `PanelWord` (panelId,
   * wordId) in the word table, a `PanelGrammaticalStructure` (panelId,
   * grammaticalStructureId) in the grammar table.
   */
  datatype JoinRow = JoinRow(panelId: string, conceptId: string)

  datatype SeedOutput = SeedOutput(chapterId: string, panel: seq<OutputPanel>, word: seq<OutputWord>,
                                   grammaticalStructure: seq<OutputGrammar>,
                                   panelWord: seq<JoinRow>, panelGrammaticalStructure: seq<JoinRow>)
}
