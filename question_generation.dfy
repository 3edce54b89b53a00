/**
 * The request built for the question generator and the handling of its
 * answer (frontend/lib/questionGeneration.ts). The generator and the JSON
 * parser are passed in as functions that answer `None` when they fail; the
 * learner-performance context is passed in as its text.
 */
module QuestionGeneration {
  import opened Common
  import opened Panels

  datatype QuestionType = WordQuestion | GrammarQuestion | ReadingComprehension
  datatype ConceptKind = WordConcept | GrammarConcept

  datatype GeneratedQuestion = GeneratedQuestion(qtype: QuestionType, conceptId: Option<string>,
                                                 conceptType: Option<ConceptKind>, question: string,
                                                 options: seq<string>, correctAnswer: int)

  const PanelNotFound := "Panel not found"
  const GenerationFailed := "Question generation failed"
  const NoConceptsTagged := "No concepts tagged"

  /** The most questions kept from one generator answer. */
  const MaxQuestions := 3

  // ---------------------------------------------------------------------
  // The concept list

  function WordLine(w: TaggedWord): string {
    "- [WORD] " + w.japanese + " (ID: " + w.id + ")"
  }

  function GrammarLine(g: TaggedGrammar): string {
    "- [GRAMMAR] " + g.name + " (ID: " + g.id + ")"
  }

  /** One line per tagged word, then one per tagged grammar structure, in tag order. */
  function ConceptLines(p: Panel): (lines: seq<string>)
    ensures |lines| == ConceptCount(p)
    ensures forall i :: 0 <= i < |p.words| ==> lines[i] == WordLine(p.words[i])
    ensures forall i :: 0 <= i < |p.grammars| ==> lines[|p.words| + i] == GrammarLine(p.grammars[i])
  {
    seq(|p.words|, i requires 0 <= i < |p.words| => WordLine(p.words[i]))
    + seq(|p.grammars|, i requires 0 <= i < |p.grammars| => GrammarLine(p.grammars[i]))
  }

  /** The concept list text: the lines joined by newlines, or the placeholder when there are none. */
  function ConceptListText(p: Panel): string {
    var lines := ConceptLines(p);
    if |lines| > 0 then Join(lines, "\n") else NoConceptsTagged
  }

  /** `buildConceptList`: two loops pushing one line per concept. */
  method BuildConceptList(p: Panel) returns (s: string)
    ensures s == ConceptListText(p)
  {
    var lines: seq<string> := [];
    for i := 0 to |p.words|
      invariant lines == seq(i, k requires 0 <= k < i => WordLine(p.words[k]))
    {
      var word := p.words[i];
      lines := lines + ["- [WORD] " + word.japanese + " (ID: " + word.id + ")"];
    }
    ghost var wordLines := lines;
    for i := 0 to |p.grammars|
      invariant lines == wordLines + seq(i, k requires 0 <= k < i => GrammarLine(p.grammars[k]))
    {
      var grammar := p.grammars[i];
      lines := lines + ["- [GRAMMAR] " + grammar.name + " (ID: " + grammar.id + ")"];
    }
    assert lines == ConceptLines(p);
    s := if |lines| > 0 then Join(lines, "\n") else "No concepts tagged";
  }

  /** The placeholder appears exactly when no concept is tagged: otherwise the text starts with "- [". */
  lemma ConceptListPlaceholderIff(p: Panel)
    ensures ConceptListText(p) == NoConceptsTagged <==> ConceptCount(p) == 0
  {
    var lines := ConceptLines(p);
    if |lines| > 0 {
      JoinStartsWithFirst(lines, "\n");
      var s := Join(lines, "\n");
      assert s[0] == lines[0][0] == '-';
      assert NoConceptsTagged[0] == 'N';
    }
  }

  /** When no id, Japanese form or name contains a newline, the list has exactly one line per tagged concept. */
  lemma ConceptListLineCount(p: Panel)
    requires ConceptCount(p) > 0
    requires forall i :: 0 <= i < |p.words| ==> '\n' !in p.words[i].japanese && '\n' !in p.words[i].id
    requires forall i :: 0 <= i < |p.grammars| ==> '\n' !in p.grammars[i].name && '\n' !in p.grammars[i].id
    ensures CountChar(ConceptListText(p), '\n') == ConceptCount(p) - 1
  {
    var lines := ConceptLines(p);
    forall i | 0 <= i < |lines| ensures '\n' !in lines[i] {
      if i < |p.words| {
        NoCharInConcat5("- [WORD] ", p.words[i].japanese, " (ID: ", p.words[i].id, ")", '\n');
      } else {
        var g := p.grammars[i - |p.words|];
        NoCharInConcat5("- [GRAMMAR] ", g.name, " (ID: ", g.id, ")", '\n');
      }
    }
    JoinSeparatorCount(lines, '\n');
  }

  /** A character absent from five parts is absent from their concatenation, for the one-line-per-concept proof. */
  lemma NoCharInConcat5(a: string, b: string, c: string, d: string, e: string, x: char)
    requires x !in a && x !in b && x !in c && x !in d && x !in e
    ensures x !in a + b + c + d + e
  {
  }

  // ---------------------------------------------------------------------
  // The prompt

  const PerformanceHeader := "USER PERFORMANCE:\n"
  const NoPreviousAttempts := "USER PERFORMANCE:\nNo previous attempts."

  /** The prompt's performance section: the context verbatim when non-empty, the placeholder otherwise. */
  function PerformanceSection(userContext: string): (s: string)
    ensures StartsWith(s, PerformanceHeader)
  {
    if userContext != "" then PerformanceHeader + userContext else NoPreviousAttempts
  }

  /** A non-empty context can be read back from the section that embeds it. */
  lemma PerformanceSectionEmbeds(userContext: string)
    requires userContext != ""
    ensures PerformanceSection(userContext)[|PerformanceHeader|..] == userContext
  {
  }

  /**
   * An empty context gives the header and "No previous attempts.", the
   * section a context of exactly that sentence would give.
   */
  lemma PerformanceSectionPlaceholder()
    ensures PerformanceSection("") == "USER PERFORMANCE:\nNo previous attempts."
    ensures PerformanceSection("") == PerformanceSection("No previous attempts.")
  {
  }

  const PromptIntro := "You are a Japanese language learning expert creating quiz questions for a manga panel.\n\nPANEL TEXT:\n"
  const ConceptsHeader := "\n\nCONCEPTS TAGGED IN THIS PANEL (for tracking):\n"

  /**
   * The fixed instructions that close the prompt, stood in for by their
   * heading: the guidance on question types and the JSON shape that follow it
   * are constant text no property depends on.
   */
  const Instructions := "INSTRUCTIONS:\n"

  /** The prompt: intro, panel text, performance section, concept list, instructions. */
  function Prompt(p: Panel, userContext: string): string {
    PromptIntro + p.japaneseText + PromptTail(p, userContext)
  }

  /** What follows the panel text in the prompt. */
  function PromptTail(p: Panel, userContext: string): string {
    "\n\n" + PerformanceSection(userContext) + ConceptsHeader + ConceptListText(p) + "\n\n" + Instructions
  }

  /** The panel's text sits verbatim right after the intro. */
  lemma PromptEmbedsPanelText(p: Panel, userContext: string)
    ensures var s := Prompt(p, userContext);
      |s| >= |PromptIntro| + |p.japaneseText|
      && s[|PromptIntro|..|PromptIntro| + |p.japaneseText|] == p.japaneseText
  {
    MiddleSlice(PromptIntro, p.japaneseText, PromptTail(p, userContext));
  }

  /** The middle part of a three-part concatenation, for `PromptEmbedsPanelText`. */
  lemma MiddleSlice(a: string, b: string, c: string)
    ensures (a + b + c)[|a|..|a| + |b|] == b
  {
  }

  // ---------------------------------------------------------------------
  // Generation

  /**
   * `generatePanelQuestions`: a missing panel fails before the generator is
   * asked; any failure of the generator, of the bracket extraction or of the
   * parse surfaces as the one generic message; otherwise at most the first
   * three parsed questions are returned.
   */
  function GeneratePanelQuestions(panel: Option<Panel>, userContext: string,
                                  generate: string -> Option<string>,
                                  parse: string -> Option<seq<GeneratedQuestion>>)
    : (r: Result<seq<GeneratedQuestion>>)
    ensures r.Success? ==> |r.value| <= MaxQuestions
    ensures panel.None? <==> r == Failure(PanelNotFound)
    ensures r.Failure? && panel.Some? ==> r.error == GenerationFailed
  {
    if panel.None? then Failure(PanelNotFound)
    else
      var text := generate(Prompt(panel.value, userContext));
      if text.None? then Failure(GenerationFailed)
      else
        var m := GreedyMatch(text.value, '[', ']');
        if m.None? then Failure(GenerationFailed)
        else
          var parsed := parse(m.value);
          if parsed.None? then Failure(GenerationFailed)
          else Success(Take(parsed.value, MaxQuestions))
  }

  /**
   * Success happens exactly when the generator answers, its text holds a '['
   * followed later by a ']', and the span from the first '[' to the last ']'
   * parses; the result is then the first three parsed questions (all of them
   * when there are fewer).
   */
  lemma GenerateSpec(panel: Option<Panel>, userContext: string,
                     generate: string -> Option<string>,
                     parse: string -> Option<seq<GeneratedQuestion>>)
    requires panel.Some?
    ensures var r := GeneratePanelQuestions(panel, userContext, generate, parse);
      var text := generate(Prompt(panel.value, userContext));
      r.Success? <==>
        && text.Some?
        && (exists i, j :: 0 <= i < j < |text.value| && text.value[i] == '[' && text.value[j] == ']')
        && parse(GreedyMatch(text.value, '[', ']').value).Some?
    ensures var r := GeneratePanelQuestions(panel, userContext, generate, parse);
      var text := generate(Prompt(panel.value, userContext));
      r.Success? ==>
        var qs := parse(GreedyMatch(text.value, '[', ']').value).value;
        && r.value == qs[..|r.value|]
        && |r.value| == (if |qs| <= MaxQuestions then |qs| else MaxQuestions)
  {
  }

  /** A missing panel never consults the generator: the outcome does not depend on it. */
  lemma MissingPanelIgnoresGenerator(userContext: string, g1: string -> Option<string>, g2: string -> Option<string>,
                                     parse: string -> Option<seq<GeneratedQuestion>>)
    ensures GeneratePanelQuestions(None, userContext, g1, parse)
         == GeneratePanelQuestions(None, userContext, g2, parse)
  {
  }
}
