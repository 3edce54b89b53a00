# A verified model of the manga reader's learning core

This project models, in Dafny, the parts of the manga-based Japanese reader that decide what a learner sees and what the data pipeline stores:

- the learner-performance cache and the sentences built from it (`UserContext`);
- the rule chain that decides whether a panel is worth quizzing (`QuestionDecision`);
- the request for the question generator and the handling of its reply (`QuestionGeneration`);
- the chapter statistics (`ChapterStats`);
- the API routes that record an answer (`AnswerRoute`), list review items (`ReviewRoute`) and summarise mistakes (`ReviewCheckRoute`);
- the page guard (`Proxy`) and the two NextAuth callbacks (`Auth`);
- the handlers of the review quiz (`ReviewPage`), the panel quiz popover (`PanelQuestionModal`), the annotation tool (`AnnotatePage`) and the home-page banner (`HomePage`);
- the offline seed scripts: turning analysed pages into a seed document (`TransformToSeed`), consolidating ids against an already-inserted seed (`ConsolidateWords`), and building the SQL inserts (`SeedDatabase`);
- the `.env` loader of the chapter-processing script (`Dotenv`).

There is one Dafny module per source file. `Common` holds the shared helpers (Option, string joining, number printing, substring extraction), `Panels` the panel record the question modules read, and `SeedTypes` the records of the seed pipeline. The `...Properties` modules hold the lemmas about the seed scripts.

Code that changes state step by step is modelled imperatively:

- the cache, the page states and the seed document are classes;
- the script loops are methods with loop invariants;
- each such method is proved equal to a specification function, which the lemmas then describe.

Code that only computes a value is modelled as functions. Database queries, the language model, `JSON.parse`, the clock and `crypto.randomUUID()` are parameters. The UUID supply is `ids: nat -> string`, and the n-th UUID drawn is `ids(n)`.

## Model

| member | source | states |
|---|---|---|
| Common.OrElse | frontend/components/PanelQuestionModal.tsx:89-93 | JavaScript `or` on strings: the string when it is non-empty, the fallback otherwise |
| Common.Join | frontend/lib/questionGeneration.ts:136 | joining no parts gives "", one part gives that part |
| Common.JoinStartsWithFirst | frontend/lib/userContext.ts:177 | a joined list starts with its first part |
| Common.JoinAppend | frontend/lib/userContext.ts:177 | appending a part adds the separator and that part |
| Common.CountCharAppend | frontend/lib/questionGeneration.ts:136 | character counts add up over concatenation |
| Common.CountCharAbsent | frontend/lib/questionGeneration.ts:136 | a character that does not occur counts 0 |
| Common.JoinSeparatorCount | frontend/lib/questionGeneration.ts:136 | joining parts without the one-character separator gives exactly one separator fewer than parts |
| Common.DigitChar | scripts/seedDatabase.ts:71 | the decimal digit character for 0..9 |
| Common.NatToString | scripts/seedDatabase.ts:71 | the decimal rendering of a placeholder number is non-empty, all digits, and one digit exactly below 10 |
| Common.IntToString | frontend/lib/userContext.ts:154-155 | a negative number is rendered with a leading '-' |
| Common.NatToStringValue | scripts/seedDatabase.ts:71 | reading the digits back gives the number |
| Common.NatToStringInjective | scripts/seedDatabase.ts:64-72 | distinct parameter numbers give distinct placeholders |
| Common.Utf16Length | frontend/lib/chapterStats.ts:52 | a string's JavaScript `length` lies between its character count and twice it, and equals the character count iff no character is beyond U+FFFF |
| Common.Utf16LengthAppend | frontend/lib/chapterStats.ts:51-53 | the JavaScript length of a concatenation is the sum of the lengths |
| Common.AstralCountsTwice | frontend/lib/questionDecision.ts:40 | a single character beyond U+FFFF has length 2 |
| Common.FirstIndexOf | scripts/process_chapter.py:33 | the first occurrence of a character, or none when it does not occur |
| Common.LastIndexOf | frontend/lib/questionGeneration.ts:105 | the last occurrence of a character, or none when it does not occur |
| Common.GreedyMatch | frontend/lib/questionGeneration.ts:105-108 | `/\[[\s\S]*\]/`: no match iff no opening bracket has a closing one after it; otherwise the text from the first opening bracket to the last closing one |
| Common.GreedyMatchShape | frontend/app/api/review/route.ts:92 | a match starts with the opening and ends with the closing character |
| Common.Take | frontend/lib/questionGeneration.ts:111 | `slice(0, n)` is a prefix of at most n elements, the whole list when it is short enough |
| AnswerRoute.RecordAnswer | frontend/app/api/panels/questions/answer/route.ts:17-56 | the route writes at most one attempt row |
| AnswerRoute.MissingFieldsRejected | frontend/app/api/panels/questions/answer/route.ts:17-22 | the 400 response comes exactly when `userId` or `questionType` is falsy, and then nothing is written |
| AnswerRoute.CorrectIffEqual | frontend/app/api/panels/questions/answer/route.ts:24-49 | a success response reports `correct` exactly when the selected and correct answers are strictly equal: the same value, and not objects or arrays, which are distinct references |
| AnswerRoute.WordAttemptIff | frontend/app/api/panels/questions/answer/route.ts:27-34 | a word attempt is written iff both required fields are present, the question and concept types are both `word` and `conceptId` is truthy; the row holds the user, the concept as the word id, and the correctness |
| AnswerRoute.GrammarAttemptIff | frontend/app/api/panels/questions/answer/route.ts:35-42 | the same for grammar attempts, with the concept as the grammatical-structure id |
| AnswerRoute.OtherTypesWriteNothing | frontend/app/api/panels/questions/answer/route.ts:44-49 | any other question type writes nothing and still answers with success and the correctness |
| AnswerRoute.StoreFailure | frontend/app/api/panels/questions/answer/route.ts:50-56 | when the store rejects the row the response is 500 "Failed to record answer" and nothing is recorded |
| AnswerRoute.Post | frontend/app/api/panels/questions/answer/route.ts:4-56 | a request writes at most one attempt row, and a body that destructures is handled by the validation and recording steps |
| AnswerRoute.ServerErrorIff | frontend/app/api/panels/questions/answer/route.ts:5-56 | the 500 "Failed to record answer" comes exactly for a body that is not JSON or is `null` and for a store failure on a row to write, and then nothing is recorded |
| Auth.Authorized | frontend/lib/auth.ts:19-32 | off the protected prefixes every request is allowed; on them, exactly the sessions with a user are |
| Auth.AuthorizedIff | frontend/lib/auth.ts:19-32 | a page is refused iff it is protected and the session has no user |
| Auth.SessionCallback | frontend/lib/auth.ts:33-38 | when the session has a user, its id becomes the database user's id and name and email are kept; nothing else changes and the same session object is returned |
| Auth.SessionUser.constructor | frontend/lib/auth.ts:33-35 | a session user with the given name and email and no id until the session callback sets one |
| Auth.SessionObject.constructor | frontend/lib/auth.ts:33-37 | a session holding the given user, possibly none, and expiry |
| Proxy.SomePrefix | frontend/proxy.ts:10-12 | true iff some route in the list is a prefix of the path |
| Proxy.Guard | frontend/proxy.ts:14-20 | redirects iff the path is protected and the visitor is not logged in; the redirect goes to `/auth/signin` on the request's origin with `callbackUrl` set to the path |
| Proxy.ProtectedIff | frontend/proxy.ts:9-12 | a path is protected iff it starts with `/reader`, `/review` or `/annotate` |
| Proxy.PrefixExamples | frontend/proxy.ts:9-12 | matching is by prefix: `/review/x` and `/reviewer` are protected, `/` is not |
| Proxy.SameProtectedRoutes | frontend/proxy.ts:9-12 | the proxy protects the same paths as the `authorized` callback of frontend/lib/auth.ts:21-24 |
| Proxy.GuardAgreesWithAuthorized | frontend/proxy.ts:14-20 | taking a session with a user as logged in, the proxy redirects exactly the requests the `authorized` callback refuses |
| ReviewCheckRoute.WordExamples | frontend/app/api/review/check/route.ts:52-56 | one example per incorrect word attempt |
| ReviewCheckRoute.GrammarExamples | frontend/app/api/review/check/route.ts:58-61 | one example per incorrect grammar attempt |
| ReviewCheckRoute.CheckReview | frontend/app/api/review/check/route.ts:9-11 | the response is 400 exactly when `userId` is missing or empty |
| ReviewCheckRoute.WordExamplesIndex | frontend/app/api/review/check/route.ts:52-56 | example i holds the japanese, reading and meaning of word attempt i |
| ReviewCheckRoute.GrammarExamplesIndex | frontend/app/api/review/check/route.ts:58-61 | example i holds the name and pattern of grammar attempt i |
| ReviewCheckRoute.HasMistakesIff | frontend/app/api/review/check/route.ts:45-49 | with a user id, the response reports mistakes iff either list is non-empty, and is `{hasMistakes: false}` otherwise |
| ReviewCheckRoute.MistakesShape | frontend/app/api/review/check/route.ts:63-70 | a mistakes response counts both lists and carries one example per attempt, in order |
| Dotenv.SkipSpaces | scripts/process_chapter.py:30 | the first non-whitespace index at or after the start, with only whitespace skipped |
| Dotenv.TrimEnd | scripts/process_chapter.py:30 | the end of the text before its trailing whitespace, with only whitespace dropped |
| Dotenv.Strip | scripts/process_chapter.py:30-35 | `str.strip()` leaves no whitespace at either end |
| Dotenv.StripShape | scripts/process_chapter.py:30-35 | the stripped text is a slice of the input with only whitespace removed before and after |
| Dotenv.StripEmpty | scripts/process_chapter.py:30-31 | a line strips to "" iff it is all whitespace |
| Dotenv.StripTrimmed | scripts/process_chapter.py:34-35 | text with no surrounding whitespace strips to itself |
| Dotenv.BreakLength | scripts/process_chapter.py:29 | a line boundary is one character, or two for "\r\n" |
| Dotenv.NextBreak | scripts/process_chapter.py:29 | the first line-boundary index at or after the start, with no boundary before it |
| Dotenv.SplitLines | scripts/process_chapter.py:29 | `str.splitlines()` gives lines with no boundary characters, and no lines only for empty text |
| Dotenv.SplitOneLine | scripts/process_chapter.py:29 | text without a boundary is a single line |
| Dotenv.SplitFirstLine | scripts/process_chapter.py:29 | a line followed by "\n" splits off first, before the lines of the rest |
| Dotenv.ParseLineSkips | scripts/process_chapter.py:30-32 | a line is skipped iff, once stripped, it is blank, starts with '#' or has no '=' |
| Dotenv.ParseLineSplit | scripts/process_chapter.py:33-35 | an assignment splits the stripped line at its first '=' and strips both halves |
| Dotenv.Parsed | scripts/process_chapter.py:29-35 | one parse per line, in file order |
| Dotenv.ApplyStep | scripts/process_chapter.py:29-36 | each further assignment is a `setdefault` on the environment so far, and nothing once an earlier one raised |
| Dotenv.LinesStep | scripts/process_chapter.py:29-36 | line i applies its assignment on top of the lines before it, unless one of them raised |
| Dotenv.ApplyKeepsExisting | scripts/process_chapter.py:36 | `setdefault` never changes a variable that is already set |
| Dotenv.ApplyKeys | scripts/process_chapter.py:36 | afterwards a key is set only if it was set before or some assignment names it, and when nothing raised every such key is set |
| Dotenv.ApplyFirstWins | scripts/process_chapter.py:36 | an unset key takes the value of the first assignment that names it, when nothing up to it raised |
| Dotenv.LoadedSkipsLine | scripts/process_chapter.py:31-32 | a blank, comment or '='-less line leaves the environment as it was |
| Dotenv.LoadedKeepsExisting | scripts/process_chapter.py:23-36 | loading never overwrites or removes a variable that was already set |
| Dotenv.LoadedKeys | scripts/process_chapter.py:29-36 | loading adds only keys of assigning lines, and when no line raises the variables afterwards are exactly the old ones plus those keys |
| Dotenv.LoadedFirstWins | scripts/process_chapter.py:29-36 | for a key that was not set, the first line assigning it decides its value when no line up to it raised; later lines, and a later line that raises, do not change it |
| Dotenv.ApplyPrefix | scripts/process_chapter.py:29-36 | later assignments keep every variable an earlier prefix set, and change nothing once it raised |
| Dotenv.ApplyStopsAt | scripts/process_chapter.py:36 | the first assignment that raises ends the load with the variables set before it |
| Dotenv.ApplyRaisedAt | scripts/process_chapter.py:36 | a load that raised did so at an assignment rejected on the environment before it |
| Dotenv.LoadedStopsAt | scripts/process_chapter.py:29-36 | the first line whose `setdefault` raises ends the load: the earlier lines' variables stay and no later line applies |
| Dotenv.LoadedRaisedAt | scripts/process_chapter.py:29-36 | a load that raised did so at a line rejected on the variables the lines before it left |
| Dotenv.LoadedLegalNeverRaises | scripts/process_chapter.py:29-36 | a file with no empty key and no NUL character in an assignment never raises |
| Dotenv.EmptyKeyRaises | scripts/process_chapter.py:33-36 | the line "=x" has an empty key, so on an empty environment it raises and sets nothing |
| Dotenv.ValueMayContainEquals | scripts/process_chapter.py:33 | "A=b=c" sets A to "b=c" |
| Dotenv.Environment.constructor | scripts/process_chapter.py:23 | an environment holding exactly the variables already present |
| Dotenv.Environment.LoadDotenv | scripts/process_chapter.py:16-36 | the environment becomes the old one with `setdefault` applied per line in file order, up to the first line that raises, and `raised` says whether one did; with no file it is unchanged |
| Dotenv.SetDefaultLine | scripts/process_chapter.py:30-36 | one loop iteration is the line's `setdefault`, which raises for an unset key that is empty or holds a NUL or whose value holds one, or nothing for a skipped line |
| HomePage.StatusOf | frontend/app/page.tsx:44-51 | the JSON the page receives has `hasMistakes` exactly for a mistakes response of frontend/app/api/review/check/route.ts |
| HomePage.GetReviewMessage | frontend/app/page.tsx:55-72 | empty without a status, mistakes or examples; otherwise the first word's Japanese and the first grammar's pattern, those that exist, word first, joined by " and " |
| HomePage.MistakeLabel | frontend/app/page.tsx:100 | "mistake" iff the count is exactly 1, otherwise "mistakes" |
| HomePage.CheckedMessage | frontend/app/page.tsx:44-72 | against the check route: empty without a user id or mistakes; the message starts with the first incorrect word's Japanese when there is one, and is the first grammar's pattern when there are no word mistakes |
| HomePage.CheckedLabel | frontend/app/page.tsx:100 | against the check route: the label is "mistake" iff there is exactly one incorrect attempt |
| ReviewPage.ReviewQuiz.constructor | frontend/app/review/page.tsx:28-31 | the quiz starts on the first item with no selection, the result hidden and score 0, in a valid state |
| ReviewPage.ReviewQuiz.SelectAnswer | frontend/app/review/page.tsx:50-53 | once the result is shown the selection is kept; otherwise the chosen option becomes the selection; nothing else changes and validity is kept |
| ReviewPage.ReviewQuiz.Submit | frontend/app/review/page.tsx:55-64 | with no selection nothing changes; otherwise the result is shown and the score grows by 1 exactly when the selection is the item's correct answer |
| ReviewPage.ReviewQuiz.Next | frontend/app/review/page.tsx:66-72 | before the last item the index advances and the selection and result are cleared; on the last item nothing changes; the score is kept and the index stays on an item |
| ReviewPage.ReviewQuiz.Restart | frontend/app/review/page.tsx:74-79 | index, selection, result flag and score are all reset |
| ReviewPage.ReviewQuiz.ScoreBounded | frontend/app/review/page.tsx:55-72 | in any reachable state the score is at most the number of items |
| ReviewPage.ReviewQuiz.CompleteScore | frontend/app/review/page.tsx:126 | on completion there is at least one item, the score is at most the item count, and the message is "perfect" iff every item was answered correctly |
| ReviewPage.FinalMessage | frontend/app/review/page.tsx:292-296 | "perfect" iff score equals the count; else "good work" iff score is at least 70% of the count; else "keep studying" |
| ReviewPage.FinalMessageMonotone | frontend/app/review/page.tsx:292-296 | a higher score out of the same count never gets a worse message |
| ReviewRoute.TagWords | frontend/app/api/review/route.ts:53 | each word attempt is tagged 'word', in order |
| ReviewRoute.TagGrammar | frontend/app/api/review/route.ts:54 | each grammar attempt is tagged 'grammar', in order |
| ReviewRoute.Insert | frontend/app/api/review/route.ts:56 | one insertion step of the sort adds exactly the new item |
| ReviewRoute.SortNewestFirst | frontend/app/api/review/route.ts:56 | the sort is a permutation of its input |
| ReviewRoute.InsertSorted | frontend/app/api/review/route.ts:56 | inserting into a newest-first list keeps it newest first |
| ReviewRoute.SortSorted | frontend/app/api/review/route.ts:56 | the sort's result is newest first (`b - a` on `createdAt`) |
| ReviewRoute.MergedShape | frontend/app/api/review/route.ts:52-57 | the merged list has min(total, 10) items, is newest first and is a prefix of the sorted concatenation of word then grammar attempts |
| ReviewRoute.TaggedOrigin | frontend/app/api/review/route.ts:52-55 | a tagged attempt of the concatenation comes from the list of its own kind |
| ReviewRoute.MergedFromInputs | frontend/app/api/review/route.ts:52-57 | every merged item is one of the input attempts, still tagged with its kind |
| ReviewRoute.QuestionFields | frontend/app/api/review/route.ts:92-132 | without a `{`…`}` match the options and answer stay unset; with one, the step fails exactly when parsing the greedy match fails |
| ReviewRoute.ItemOf | frontend/app/api/review/route.ts:60-142 | an item is generated exactly when the reply exists and its question parses; it keeps its attempt's kind tag, attempt id and `createdAt`, and its `topicInfo` holds the word or grammar fields with the parsed options and answer |
| ReviewRoute.Items | frontend/app/api/review/route.ts:60-142 | when every question succeeds there is one item per merged attempt |
| ReviewRoute.ItemsNoneIff | frontend/app/api/review/route.ts:60-142 | `Promise.all` fails exactly when some item's generation fails |
| ReviewRoute.ItemsIndex | frontend/app/api/review/route.ts:60-142 | item i is the one generated for merged attempt i |
| ReviewRoute.Review | frontend/app/api/review/route.ts:15-17 | the response is 401 exactly when the session has no user id |
| ReviewRoute.ReviewItemsShape | frontend/app/api/review/route.ts:52-144 | a successful response has one item per merged attempt, at most ten and newest first; each keeps its kind, attempt id and `createdAt` |
| ReviewRoute.ServerErrorIff | frontend/app/api/review/route.ts:60-151 | for a signed-in learner the 500 "Failed to generate review questions" comes exactly when some merged attempt's reply or parse fails |
| QuestionGeneration.ConceptLines | frontend/lib/questionGeneration.ts:121-134 | one `- [WORD] {japanese} (ID: {id})` line per tagged word, then one `- [GRAMMAR] {name} (ID: {id})` line per tagged grammar structure, in tag order |
| QuestionGeneration.BuildConceptList | frontend/lib/questionGeneration.ts:121-137 | the two push loops produce the concept lines joined by newlines, or "No concepts tagged" when there are none |
| QuestionGeneration.ConceptListPlaceholderIff | frontend/lib/questionGeneration.ts:136 | the list is "No concepts tagged" iff no concept is tagged |
| QuestionGeneration.ConceptListLineCount | frontend/lib/questionGeneration.ts:121-136 | when no id, Japanese form or name has a newline, the list has exactly one line per tagged concept |
| QuestionGeneration.PerformanceSection | frontend/lib/questionGeneration.ts:57-61 | the section always starts with "USER PERFORMANCE:\n" |
| QuestionGeneration.PerformanceSectionEmbeds | frontend/lib/questionGeneration.ts:57-61 | a non-empty context is embedded verbatim after the header |
| QuestionGeneration.PerformanceSectionPlaceholder | frontend/lib/questionGeneration.ts:57-61 | an empty context gives "USER PERFORMANCE:\nNo previous attempts." |
| QuestionGeneration.PromptEmbedsPanelText | frontend/lib/questionGeneration.ts:52-55 | the panel's text sits verbatim right after the prompt's intro |
| QuestionGeneration.GeneratePanelQuestions | frontend/lib/questionGeneration.ts:42-115 | a missing panel fails with "Panel not found", and only then; every other failure is "Question generation failed"; a success has at most 3 questions |
| QuestionGeneration.GenerateSpec | frontend/lib/questionGeneration.ts:99-111 | for an existing panel, success iff the generator answers, its text has a '[' with a ']' after it, and the greedy match parses; the result is then the first min(n, 3) parsed questions |
| QuestionGeneration.MissingPanelIgnoresGenerator | frontend/lib/questionGeneration.ts:42-44 | a missing panel fails before the generator is consulted |
| QuestionDecision.CountCorrect | frontend/lib/questionDecision.ts:66-83 | the correct count never exceeds the attempt count |
| QuestionDecision.CountCorrectAll | frontend/lib/questionDecision.ts:66-83 | the correct count equals the attempt count iff every attempt was correct |
| QuestionDecision.PerformanceOf | frontend/lib/questionDecision.ts:66-87 | the attempt count is the number of attempts; the rate lies in [0, 1], is 0 without attempts and otherwise times the attempt count gives the correct count |
| QuestionDecision.RatioBounds | frontend/lib/questionDecision.ts:68-85 | `correctCount / attempts.length` lies in [0, 1] and multiplies back to the count |
| QuestionDecision.AllPerformance | frontend/lib/questionDecision.ts:57-91 | one performance per tagged word, then one per tagged grammar structure, in tag order |
| QuestionDecision.DecidePanelQuestions | frontend/lib/questionDecision.ts:32-107 | questions are asked exactly when there is no skip reason |
| QuestionDecision.IsMasteredIff | frontend/lib/questionDecision.ts:94-96 | the rate-1-with-two-attempts test holds iff the concept has at least two attempts, all correct; zero attempts (rate 0) is never mastered |
| QuestionDecision.RateOneOfAllCorrect | frontend/lib/questionDecision.ts:95 | a rate that multiplies the attempt count back to itself is exactly 1 |
| QuestionDecision.AllMasteredIff | frontend/lib/questionDecision.ts:91-96 | the `every` test holds iff every tagged word and grammar structure is mastered |
| QuestionDecision.DecisionSpec | frontend/lib/questionDecision.ts:32-107 | each skip reason fires exactly when its rule is the first to match (missing panel; text shorter than 10 UTF-16 code units; no concepts; all mastered), and questions are asked exactly when none matched |
| QuestionDecision.MasterySkipNotVacuous | frontend/lib/questionDecision.ts:48-103 | the mastery skip needs a panel with concepts, and its first concept then has two or more attempts |
| QuestionDecision.UnattemptedConceptAsks | frontend/lib/questionDecision.ts:68-107 | with enough text, a tagged word never attempted makes the panel askable |
| UserContext.CacheKeySeparatesPanels | frontend/lib/userContext.ts:41 | for one learner, two panels share a cache key only if they are the same panel |
| UserContext.CacheKeyInjective | frontend/lib/userContext.ts:41 | when learner ids carry no ':', the key determines both the learner and the panel |
| UserContext.CacheKeyCollision | frontend/lib/userContext.ts:41 | without that condition, ("a:b", "c") and ("a", "b:c") share a key |
| UserContext.RateBounds | frontend/lib/userContext.ts:101-108 | correct/total lies in [0, 1] and multiplies back to the correct count |
| UserContext.WordPerformanceOf | frontend/lib/userContext.ts:97-103 | a word row keeps its id, form and meaning, has rate correct/total in [0, 1] and attempt count total ≥ 1 |
| UserContext.GrammarPerformanceOf | frontend/lib/userContext.ts:104-110 | the same for a grammar row, keeping its id, name and pattern |
| UserContext.WordsOf | frontend/lib/userContext.ts:97-103 | one performance per word row, in the adapter's order |
| UserContext.GrammarOf | frontend/lib/userContext.ts:104-110 | one performance per grammar row, in the adapter's order |
| UserContext.PerformanceOf | frontend/lib/userContext.ts:68-111 | given rows with a positive total in ascending rate order, the data has rates in [0, 1], positive counts and ascending rates |
| UserContext.ClassifyByCounts | frontend/lib/userContext.ts:148-159 | on counts: mastered iff all correct, weak iff fewer than half correct, moderate iff at least half but not all; exactly half is moderate |
| UserContext.RateTimesTotal | frontend/lib/userContext.ts:101 | the rate times the total is the correct count |
| UserContext.RateOne | frontend/lib/userContext.ts:148 | a rate is exactly 1 iff the correct count equals the total |
| UserContext.RateHalf | frontend/lib/userContext.ts:149 | a rate is below 0.5 iff the correct count is below half the total |
| UserContext.RoundPercentOfCounts | frontend/lib/userContext.ts:146-155 | `Math.round(rate*100)` equals (200c + t) div (2t) and lies in [0, 100] |
| UserContext.ScaledRate | frontend/lib/userContext.ts:146 | (rate·100 + ½)·2t equals 200c + t |
| UserContext.WordItems | frontend/lib/userContext.ts:144-145 | each word contributes its "{japanese} ({meaning})" name and its rate, in order |
| UserContext.GrammarItems | frontend/lib/userContext.ts:153-154 | each grammar point contributes its "{name} ({pattern})" name and its rate, in order |
| UserContext.BucketsPartition | frontend/lib/userContext.ts:144-160 | each bucket lists one label per item classified into it, and the three buckets account for every item exactly once |
| UserContext.SomeBucketNonEmpty | frontend/lib/userContext.ts:144-160 | with at least one item some bucket is non-empty |
| UserContext.BucketLabelsAppend | frontend/lib/userContext.ts:144-160 | the words' labels precede the grammar labels within each bucket, each in input order |
| UserContext.BucketLabelsSnoc | frontend/lib/userContext.ts:148-150 | one more item extends only its own bucket, with its name when mastered and its detail label otherwise |
| UserContext.ContextEmptyIff | frontend/lib/userContext.ts:135-177 | the context is empty iff both the word and grammar lists are empty |
| UserContext.WeakWordModerateGrammar | frontend/lib/userContext.ts:144-177 | a word at 3/10 and a grammar point at 3/5 give "The user struggles with: taberu (eat) (30%). The user has partial knowledge of: te-iru (V-te iru) (60%)." |
| UserContext.WeakThenModerate | frontend/lib/userContext.ts:163-177 | one weak item then one moderate one give the struggles sentence, one space, then the partial-knowledge sentence |
| UserContext.ScenarioLabels | frontend/lib/userContext.ts:144-160 | a weak item then a moderate one fill only the weak and moderate buckets, one detail label each |
| UserContext.ScenarioDetails | frontend/lib/userContext.ts:146-155 | 3/10 renders as "(30%)" and 3/5 as "(60%)" |
| UserContext.LabelsStep | frontend/lib/userContext.ts:148-150 | pushing item i adds its label to the list its rate selects and leaves the other two unchanged |
| UserContext.PushLabels | frontend/lib/userContext.ts:144-151 | the loop pushes exactly each bucket's labels, in input order |
| UserContext.SynthesizeFromData | frontend/lib/userContext.ts:134-177 | the synthesizer returns the context text of the data: empty for no data, otherwise the present sentences in the fixed order |
| UserContext.AssembleSentences | frontend/lib/userContext.ts:163-177 | the mastered, struggles and partial sentences, each only when its bucket is non-empty, in that order, joined by one space |
| UserContext.PerformanceCache.constructor | frontend/lib/userContext.ts:30 | the cache starts empty |
| UserContext.PerformanceCache.GetUserPerformanceData | frontend/lib/userContext.ts:41-119 | the adapter runs iff the key has no entry younger than 300000 ms; a fresh entry is returned and nothing changes; otherwise the mapped rows are returned and stored under the key with the completion time, the other keys untouched |
| UserContext.PerformanceCache.SynthesizeUserContext | frontend/lib/userContext.ts:128-178 | the context is that of the cached data when the entry is fresh (with the cache unchanged), and otherwise that of the freshly mapped rows, which are stored under the key with the completion time |
| UserContext.CacheReadTwice | frontend/lib/userContext.ts:41-117 | on an empty cache a read queries; a read 1 ms before the entry's age reaches the TTL is served with the first value; a read at exactly the TTL queries again |
| ChapterStats.TotalCharactersAppend | frontend/lib/chapterStats.ts:51-53 | the character total is additive over a split of the panel list |
| ChapterStats.TotalCharactersNoText | frontend/lib/chapterStats.ts:52 | panels without text count 0, so with no text anywhere the total is 0 |
| ChapterStats.WordLists | frontend/lib/chapterStats.ts:57-58 | the panels' word lists, one per panel, in order |
| ChapterStats.GrammarLists | frontend/lib/chapterStats.ts:67-68 | the panels' grammar lists, one per panel, in order |
| ChapterStats.FirstSeenWellFormed | frontend/lib/chapterStats.ts:56-73 | the map lists each key once, in insertion order, and has a value for each key |
| ChapterStats.FirstSeenKeys | frontend/lib/chapterStats.ts:56-73 | the map's keys are exactly the ids that occur |
| ChapterStats.FirstSeenLevel | frontend/lib/chapterStats.ts:59-71 | each id keeps the level of its first occurrence |
| ChapterStats.DistinctCardinality | frontend/lib/chapterStats.ts:75-76 | a list of distinct keys has as many keys as its set |
| ChapterStats.FirstSeenSize | frontend/lib/chapterStats.ts:75-76 | the map's size is the number of distinct ids |
| ChapterStats.AddConcepts | frontend/lib/chapterStats.ts:58-72 | the inner loop adds one panel's concepts to the map, first occurrence winning |
| ChapterStats.CollectUnique | frontend/lib/chapterStats.ts:56-73 | the nested loops build the first-seen map of all concepts of all panels, in order |
| ChapterStats.KnownLevelsEmpty | frontend/lib/chapterStats.ts:79-85 | the non-null levels are empty iff every key maps to null |
| ChapterStats.Average | frontend/lib/chapterStats.ts:80-88 | the average is null iff there are no levels; otherwise it times the count is the sum |
| ChapterStats.MapAverageNone | frontend/lib/chapterStats.ts:79-88 | the average of a map is null iff no key has a level |
| ChapterStats.Predicted | frontend/lib/chapterStats.ts:92-99 | null iff both averages are null; the lone average when only one exists; between the two when both exist |
| ChapterStats.CalculateChapterStats | frontend/lib/chapterStats.ts:47-110 | the computed statistics are those of the panel list |
| ChapterStats.FlattenMember | frontend/lib/chapterStats.ts:57-63 | a concept is in the flattened list iff some panel's list has it |
| ChapterStats.StatsCounts | frontend/lib/chapterStats.ts:48-76 | `panelCount` is the number of panels, `totalCharacters` the summed text lengths in UTF-16 code units, and the unique counts the numbers of distinct word and grammar ids |
| ChapterStats.WordIdsOfPanels | frontend/lib/chapterStats.ts:57-63 | an id is among the chapter's word ids iff some panel tags it |
| ChapterStats.StatsNullFallbacks | frontend/lib/chapterStats.ts:79-99 | each average is null iff no unique concept has a level; the prediction is null iff both are, and is the lone average when only one exists |
| ChapterStats.StatsFirstLevel | frontend/lib/chapterStats.ts:59-61 | a word id keeps the level of its first occurrence across the chapter |
| PanelQuestionModal.PopoverPosition | frontend/components/PanelQuestionModal.tsx:36-55 | left and top are always at least 20; a popover that would cross the right edge is placed left of the click; in a window at least 440 wide it ends 20 px before the right edge at the latest; in a window at least 640 high it fits vertically; with room below, top is 20 below the click, and otherwise the popover is raised to end 20 px above the bottom edge, but not above 20 |
| PanelQuestionModal.PostedBodyRejected | frontend/components/PanelQuestionModal.tsx:124-131 | the answer body the popover posts has no `userId`, so frontend/app/api/panels/questions/answer/route.ts:17-22 answers 400 and records nothing |
| PanelQuestionModal.BodyWithUser | frontend/components/PanelQuestionModal.tsx:124-131 | the posted body with the learner's id added and nothing else changed |
| PanelQuestionModal.BodyWithUserRecorded | frontend/components/PanelQuestionModal.tsx:112-131 | with the id added, the route answers success with the popover's own `isCorrect`, and a word question tagged with a word records exactly that word attempt |
| PanelQuestionModal.PanelQuiz.constructor | frontend/components/PanelQuestionModal.tsx:23-29 | the popover starts with no questions, no selection, no feedback, no error and not loading |
| PanelQuestionModal.PanelQuiz.MoveTo | frontend/components/PanelQuestionModal.tsx:74-79 | changing the question index clears selection and feedback; setting the same index changes nothing |
| PanelQuestionModal.PanelQuiz.TakeFetchResult | frontend/components/PanelQuestionModal.tsx:81-105 | a failed status sets the route's error or "Failed to fetch questions"; a throw sets its message or "Failed to load questions"; `shouldAsk = false` empties the list and shows the skip reason or "No questions available for this panel"; otherwise the list (or none) is taken and the first question shown; loading ends false |
| PanelQuestionModal.PanelQuiz.SelectAnswer | frontend/components/PanelQuestionModal.tsx:107-136 | only the first answer per question is taken: it sets the selection, `isCorrect` iff the index is the correct answer, shows the feedback and posts the body; later answers change nothing and post nothing |
| PanelQuestionModal.PanelQuiz.Close | frontend/components/PanelQuestionModal.tsx:147-155 | questions, index, selection, feedback and error are reset and the parent is asked to close |
| PanelQuestionModal.PanelQuiz.Next | frontend/components/PanelQuestionModal.tsx:138-145 | before the last question the index advances with selection and feedback cleared; at the last one the popover closes |
| AnnotatePage.Normalize | frontend/app/annotate/page.tsx:127-145 | the saved box has non-negative width and height, its corner is one of the drag's corners, it contains both drag corners, and the page is the displayed page − 1 |
| AnnotatePage.NormalizeSymmetric | frontend/app/annotate/page.tsx:127-130 | dragging from either corner saves the same box |
| AnnotatePage.AnnotationTool.constructor | frontend/app/annotate/page.tsx:36-42 | the tool starts with no panels, index 0, page 1 of 0, no box and not drawing |
| AnnotatePage.AnnotationTool.MouseDown | frontend/app/annotate/page.tsx:87-101 | with the canvas mounted, a zero-size box at the cursor and the drawing flag set; without it nothing changes |
| AnnotatePage.AnnotationTool.MouseMove | frontend/app/annotate/page.tsx:103-115 | while drawing, only the box's end corner moves to the cursor; otherwise nothing changes |
| AnnotatePage.AnnotationTool.MouseUp | frontend/app/annotate/page.tsx:117-119 | drawing stops and the box stays |
| AnnotatePage.AnnotationTool.SavePosition | frontend/app/annotate/page.tsx:121-166 | without a box or a current panel nothing is posted; otherwise the normalised box for the current panel is posted; a failed save changes nothing; a successful one clears the box and advances the index, or after the last panel reloads the list and resets the index to 0 |
| AnnotatePage.AnnotationTool.SkipPanel | frontend/app/annotate/page.tsx:168-173 | the box is cleared and the index advances, never past the last panel |
| AnnotatePage.AnnotationTool.PreviousPage | frontend/app/annotate/page.tsx:293 | the page goes back one, never below 1, and stays within [1, numPages] |
| AnnotatePage.AnnotationTool.NextPage | frontend/app/annotate/page.tsx:303 | the page goes on one, never beyond numPages, and stays within [1, numPages] |
| SeedDatabase.Placeholders | scripts/seedDatabase.ts:71 | a row of width w has exactly w placeholders |
| SeedDatabase.Tuples | scripts/seedDatabase.ts:69-72 | n entries give exactly n VALUES rows |
| SeedDatabase.PlaceholdersIndex | scripts/seedDatabase.ts:71 | the c-th placeholder of a row starting at `$s` is `$(s+c)` |
| SeedDatabase.TuplesIndex | scripts/seedDatabase.ts:64-72 | row i of the VALUES list starts at `$(w*i+1)`, because the counter starts at 1 and advances w per row |
| SeedDatabase.FlattenSnoc | scripts/seedDatabase.ts:74-82 | pushing one more row's values appends them at the end of the flat parameter list |
| SeedDatabase.RowEnd | scripts/seedDatabase.ts:69-82 | position w*i+c of an entry i < n and column c < w lies inside the w*n parameters |
| SeedDatabase.FlattenIndex | scripts/seedDatabase.ts:74-82 | the flat list has w values per entry, and column c of entry i sits at position w*i+c |
| SeedDatabase.FlattenLength | scripts/seedDatabase.ts:74-82 | the flat parameter list holds w values per entry |
| SeedDatabase.PlaceholderBinding | scripts/seedDatabase.ts:64-83 | the c-th placeholder of row i is `$k` with k = w*i+c+1, 1 <= k <= the number of parameters, and parameter k is column c of entry i |
| SeedDatabase.NextTuple | scripts/seedDatabase.ts:71 | the row text is `($p, ..., $(p+w-1))` and the counter ends at p+w |
| SeedDatabase.PushTuple | scripts/seedDatabase.ts:70-72 | after entry i the list holds the first i+1 rows and the counter is w*(i+1)+1 |
| SeedDatabase.Columns | scripts/seedDatabase.ts:54-216 | each multi-row insert names as many columns as each of its rows has values |
| SeedDatabase.PanelParams | scripts/seedDatabase.ts:74-82 | a panel row has seven values, one per panel column |
| SeedDatabase.WordParams | scripts/seedDatabase.ts:116-124 | a word row has seven values, one per word column |
| SeedDatabase.GrammarParams | scripts/seedDatabase.ts:157-164 | a grammar row has six values, one per grammar column |
| SeedDatabase.JoinParams | scripts/seedDatabase.ts:193-230 | a join row has three values, for both join tables |
| SeedDatabase.PanelRows | scripts/seedDatabase.ts:69-83 | one row of panel width per panel |
| SeedDatabase.WordRows | scripts/seedDatabase.ts:112-125 | one row of word width per word |
| SeedDatabase.GrammarRows | scripts/seedDatabase.ts:153-165 | one row of grammar width per grammar point |
| SeedDatabase.JoinRows | scripts/seedDatabase.ts:189-231 | one three-value row per link, of the width of either join table |
| SeedDatabase.InsertOf | scripts/seedDatabase.ts:50-90 | a builder issues no statement exactly when its list is empty, and otherwise a multi-row insert into its own table |
| SeedDatabase.PanelRowsStep | scripts/seedDatabase.ts:74-82 | handling panel i appends that panel's seven values to the parameters of the panels before it |
| SeedDatabase.WordRowsStep | scripts/seedDatabase.ts:116-124 | handling word i appends that word's seven values to the parameters of the words before it |
| SeedDatabase.GrammarRowsStep | scripts/seedDatabase.ts:157-164 | handling grammar point i appends its six values to the parameters of the points before it |
| SeedDatabase.JoinRowsStep | scripts/seedDatabase.ts:193-230 | handling link i appends its freshly drawn id, panel id and concept id to the parameters of the links before it |
| SeedDatabase.SeedPanel | scripts/seedDatabase.ts:49-91 | the counter loop yields exactly the panel insert: none for no panels, else rows numbered from `$1` with the panels' values in order, ON CONFLICT (id) |
| SeedDatabase.SeedWord | scripts/seedDatabase.ts:93-133 | the counter loop yields exactly the word insert, ON CONFLICT ("japanese") |
| SeedDatabase.SeedGrammaticalStructure | scripts/seedDatabase.ts:135-173 | the counter loop yields exactly the grammar insert, ON CONFLICT ("id") |
| SeedDatabase.SeedJoin | scripts/seedDatabase.ts:175-239 | the counter loop yields exactly the join insert for either join table, one drawn id per row, ON CONFLICT DO NOTHING |
| SeedDatabase.SeedDatabase | scripts/seedDatabase.ts:241-251 | the statements sent are the chapter insert followed by each builder's statement in order |
| SeedDatabaseProperties.PanelRowsIndex | scripts/seedDatabase.ts:69-82 | row i of the panel rows holds the values of panel i |
| SeedDatabaseProperties.WordRowsIndex | scripts/seedDatabase.ts:112-124 | row i of the word rows holds the values of word i |
| SeedDatabaseProperties.GrammarRowsIndex | scripts/seedDatabase.ts:153-164 | row i of the grammar rows holds the values of grammar point i |
| SeedDatabaseProperties.JoinRowsIndex | scripts/seedDatabase.ts:189-230 | row i of the join rows holds the id drawn for it and link i's ids |
| SeedDatabaseProperties.EmptyListNoStatement | scripts/seedDatabase.ts:50-209 | each of the five builders issues no statement iff its list is empty |
| SeedDatabaseProperties.InsertBinding | scripts/seedDatabase.ts:64-90 | in any builder's insert, the c-th placeholder of row i is `$k`, k = w*i+c+1, within the parameter count, and parameter k is column c of entry i |
| SeedDatabaseProperties.PanelPlaceholders | scripts/seedDatabase.ts:69-90 | parameter 7i+c+1 of the panel insert is column c of panel i |
| SeedDatabaseProperties.PanelStamped | scripts/seedDatabase.ts:67-81 | the last value of every panel row is the builder's single clock reading |
| SeedDatabaseProperties.WordPlaceholders | scripts/seedDatabase.ts:112-132 | parameter 7i+c+1 of the word insert is column c of word i |
| SeedDatabaseProperties.WordStamped | scripts/seedDatabase.ts:110-123 | the last value of every word row is the builder's single clock reading |
| SeedDatabaseProperties.GrammarPlaceholders | scripts/seedDatabase.ts:153-172 | parameter 6i+c+1 of the grammar insert is column c of grammar point i |
| SeedDatabaseProperties.GrammarStamped | scripts/seedDatabase.ts:151-163 | the last value of every grammar row is the builder's single clock reading |
| SeedDatabaseProperties.JoinPlaceholders | scripts/seedDatabase.ts:189-238 | parameter 3i+c+1 of a join insert is column c of join row i |
| SeedDatabaseProperties.JoinRowValues | scripts/seedDatabase.ts:193-230 | join row i carries the id drawn for it, then its panel id, then its concept id |
| SeedDatabaseProperties.Tables | scripts/seedDatabase.ts:245-250 | one table per statement sent |
| SeedDatabaseProperties.TablesAppend | scripts/seedDatabase.ts:245-250 | the tables of consecutive statement lists concatenate |
| SeedDatabaseProperties.SentTable | scripts/seedDatabase.ts:50-90 | a builder's statement, when there is one, writes that builder's table |
| SeedDatabaseProperties.RunTables | scripts/seedDatabase.ts:245-250 | the tables of a run are the chapter followed by the tables of the builders that issued a statement, in order |
| SeedDatabaseProperties.PlanOrder | scripts/seedDatabase.ts:245-250 | a run writes Chapter, then Panel, Word, GrammaticalStructure, PanelWord and PanelGrammaticalStructure, each only when its list is non-empty |
| SeedDatabaseProperties.JoinIdsDistinct | scripts/seedDatabase.ts:189-231 | with an injective id supply, no id drawn for a word link equals one drawn for a grammar link |
| TransformToSeed.CollectSnoc | scripts/transformToSeed.ts:94-122 | grouping one more occurrence is one more loop step on the groups so far |
| TransformToSeed.CollectIndexed | scripts/transformToSeed.ts:128-154 | every collected key has a panel-id list and a kept object, so the `continue` on a missing object never fires |
| TransformToSeed.AddOk | scripts/transformToSeed.ts:94-97 | one step keeps the keys distinct and equal to both maps' domains, and adds exactly the occurrence's key |
| TransformToSeed.OccursSnoc | scripts/transformToSeed.ts:93-97 | a key occurs in a longer list iff it occurs in the prefix or is the last occurrence's key |
| TransformToSeed.CollectSpec | scripts/transformToSeed.ts:94-122 | the groups are well formed, their keys are exactly the keys that occur, and each list holds that key's panel ids in order |
| TransformToSeed.PanelIdsOfAbsent | scripts/transformToSeed.ts:94 | a key that never occurs has no panel ids (`wordMap.get(...) ?? []`) |
| TransformToSeed.CollectFirst | scripts/transformToSeed.ts:95-122 | the object kept for a key, if any, comes from the first occurrence with that key |
| TransformToSeed.TotalLinksFresh | scripts/transformToSeed.ts:94 | adding a new key's list leaves the link count of the other keys unchanged |
| TransformToSeed.TotalLinksGrow | scripts/transformToSeed.ts:94 | appending a panel id to an existing key's list adds one link |
| TransformToSeed.OkIndexed | scripts/transformToSeed.ts:128-134 | well-formed groups have a list and an object for every key |
| TransformToSeed.TotalLinksAdd | scripts/transformToSeed.ts:94-119 | every loop step adds exactly one link |
| TransformToSeed.TotalLinksNew | scripts/transformToSeed.ts:94 | a key seen for the first time contributes one link |
| TransformToSeed.TotalLinksOfCollect | scripts/transformToSeed.ts:93-145 | the panel-id lists hold one entry per occurrence in total |
| TransformToSeed.LinkBlock | scripts/transformToSeed.ts:140-165 | one join row per panel id of the concept |
| TransformToSeed.RowsLength | scripts/transformToSeed.ts:128-146 | the word join table has as many rows as there are links |
| TransformToSeed.RowsSnoc | scripts/transformToSeed.ts:128-146 | one more key appends its block of rows at the end |
| TransformToSeed.RowsReference | scripts/transformToSeed.ts:140-165 | every join row links a panel id from some key's list to that key's concept id |
| TransformToSeed.WordsOut | scripts/transformToSeed.ts:135-138 | one output word per key |
| TransformToSeed.GrammarsOut | scripts/transformToSeed.ts:155-158 | one output grammar structure per key |
| TransformToSeed.WordsOutSnoc | scripts/transformToSeed.ts:128-138 | one more key appends its output word at the end |
| TransformToSeed.GrammarsOutSnoc | scripts/transformToSeed.ts:148-158 | one more key appends its output grammar structure at the end |
| TransformToSeed.WordsOutIndex | scripts/transformToSeed.ts:129-138 | the i-th output word is the i-th key's kept word with the i-th drawn id |
| TransformToSeed.GrammarsOutIndex | scripts/transformToSeed.ts:149-158 | the i-th output grammar structure is the i-th key's kept structure with the i-th drawn id |
| TransformToSeed.LinkBlockMember | scripts/transformToSeed.ts:140-145 | every row of a concept's block names that concept and a panel from its list |
| TransformToSeed.PushLinks | scripts/transformToSeed.ts:140-165 | the inner loop appends exactly the concept's block of rows |
| TransformToSeed.EmitWordsStep | scripts/transformToSeed.ts:128-146 | handling key i appends its output word and its block of rows |
| TransformToSeed.EmitWords | scripts/transformToSeed.ts:128-146 | the word emission loop yields exactly the output words and word join rows of the groups, in key order |
| TransformToSeed.EmitGrammarsStep | scripts/transformToSeed.ts:148-166 | handling key i appends its output grammar structure and its block of rows |
| TransformToSeed.EmitGrammars | scripts/transformToSeed.ts:148-166 | the grammar emission loop yields exactly the output grammar structures and grammar join rows, in key order |
| TransformToSeed.PanelsOut | scripts/transformToSeed.ts:102-113 | one output panel per flat panel |
| TransformToSeed.PanelsOutIndex | scripts/transformToSeed.ts:88-115 | output panel k is flat panel k with id ids(k) and order index k |
| TransformToSeed.SnocAssoc | scripts/transformToSeed.ts:93-97 | appending an occurrence to concatenated lists regroups |
| TransformToSeed.Record | scripts/transformToSeed.ts:94-122 | one map update realises exactly one grouping step: the key is appended to the order when new, the panel id to its list, and the first object is kept |
| TransformToSeed.WordStep | scripts/transformToSeed.ts:93-100 | word k extends both texts by its form and its meaning and records one occurrence |
| TransformToSeed.GrammarStep | scripts/transformToSeed.ts:118-123 | grammar k records one occurrence |
| TransformToSeed.AddPanelWords | scripts/transformToSeed.ts:90-100 | the word loop yields the concatenated forms, the concatenated meanings, and the groups with the panel's word occurrences added |
| TransformToSeed.AddPanelGrammars | scripts/transformToSeed.ts:117-124 | the grammar loop yields the groups with the panel's grammar occurrences added |
| TransformToSeed.AddPanel | scripts/transformToSeed.ts:87-125 | one panel: the counter and the ids drawn grow by one, its output panel is appended, and both groups absorb its occurrences |
| TransformToSeed.FlatPanelsSnoc | scripts/transformToSeed.ts:80-87 | one more page appends its panels to the flat list |
| TransformToSeed.OccsSnoc | scripts/transformToSeed.ts:87-124 | one more panel appends its word and grammar occurrences, with its own id |
| TransformToSeed.PanelsOutSnoc | scripts/transformToSeed.ts:102-115 | one more panel appends its output panel |
| TransformToSeed.PagePanelsPrefix | scripts/transformToSeed.ts:87 | the panel loop walks the page's panels in order |
| TransformToSeed.AddPage | scripts/transformToSeed.ts:80-126 | one page: a page without a panel list changes nothing, otherwise every panel is handled as `AddPanel` says |
| TransformToSeed.GetSeedJSON | scripts/transformToSeed.ts:61-179 | the loops yield exactly the seed document of the input for the id supply |
| TransformToSeed.Emit | scripts/transformToSeed.ts:128-177 | the two emission loops yield the assembled document, words drawn after the panels and grammar after the words |
| TransformToSeedProperties.FlatPanelsCount | scripts/transformToSeed.ts:80-87 | the flat list holds every panel of every page with a panel list exactly once |
| TransformToSeedProperties.PageWithoutPanels | scripts/transformToSeed.ts:82-85 | a page without panels contributes no panel |
| TransformToSeedProperties.FlatPanelsIndex | scripts/transformToSeed.ts:80-115 | panel j of page i is flat panel number (panels of earlier pages) + j |
| TransformToSeedProperties.SeedPanels | scripts/transformToSeed.ts:88-115 | output panel k has the k-th id, order index k, the input's chapter id, its page number, the joined forms and meanings of its words, and null coordinates |
| TransformToSeedProperties.ConcatJapaneseIsJoin | scripts/transformToSeed.ts:90-98 | a panel's Japanese text is its words' forms concatenated with no separator |
| TransformToSeedProperties.ConcatMeaningIsJoin | scripts/transformToSeed.ts:91-99 | a panel's translation is its words' meanings concatenated with no separator |
| TransformToSeedProperties.WordOccsFrom | scripts/transformToSeed.ts:87-97 | every word occurrence is a word of some panel, keyed by its form, recorded with that panel's id |
| TransformToSeedProperties.WordOccsOf | scripts/transformToSeed.ts:87-97 | every word of every panel is an occurrence |
| TransformToSeedProperties.GrammarOccsFrom | scripts/transformToSeed.ts:117-122 | every grammar occurrence is a structure of some panel with a grammar list, keyed by its name |
| TransformToSeedProperties.GrammarOccsOf | scripts/transformToSeed.ts:117-122 | every structure listed by every panel with a grammar list is an occurrence |
| TransformToSeedProperties.PanelIdsOfMember | scripts/transformToSeed.ts:94-119 | a panel id listed for a key comes from an occurrence of that key |
| TransformToSeedProperties.CollectKeysOrder | scripts/transformToSeed.ts:128-148 | keys are visited in first-appearance order (JavaScript `Map` insertion order) |
| TransformToSeedProperties.KeysOrderWitness | scripts/transformToSeed.ts:94-128 | for keys i < j some occurrence of key i precedes every occurrence of key j |
| TransformToSeedProperties.OldKeysWitness | scripts/transformToSeed.ts:94 | a later occurrence keeps the order of keys already present |
| TransformToSeedProperties.NewKeyWitness | scripts/transformToSeed.ts:94 | a key inserted last comes after every key already present |
| TransformToSeedProperties.LinkedPanelsAppend | scripts/transformToSeed.ts:140-145 | the panels linked to a concept are additive over a split of the rows |
| TransformToSeedProperties.LinkedPanelsNone | scripts/transformToSeed.ts:140-145 | rows naming other concepts link none of its panels |
| TransformToSeedProperties.LinkedPanelsBlock | scripts/transformToSeed.ts:140-145 | a concept's block links its list to it and nothing to any other concept |
| TransformToSeedProperties.RowsLinked | scripts/transformToSeed.ts:128-146 | with fresh ids the rows linked to the i-th key's id are exactly that key's panel-id list |
| TransformToSeedProperties.WordOccursIff | scripts/transformToSeed.ts:93-97 | a form occurs iff some panel has a word with that form |
| TransformToSeedProperties.GrammarOccursIff | scripts/transformToSeed.ts:117-122 | a name occurs iff some panel with a grammar list has a structure with that name |
| TransformToSeedProperties.WordOccsKeyed | scripts/transformToSeed.ts:94 | every word occurrence is keyed by its word's form |
| TransformToSeedProperties.GrammarOccsKeyed | scripts/transformToSeed.ts:119 | every grammar occurrence is keyed by its structure's name |
| TransformToSeedProperties.WordSource | scripts/transformToSeed.ts:135-138 | dropping the id recovers the analysed word (`{id, ...word}`) |
| TransformToSeedProperties.GrammarSource | scripts/transformToSeed.ts:155-158 | dropping the id recovers the analysed structure |
| TransformToSeedProperties.WordGroups | scripts/transformToSeed.ts:94-97 | word keys are distinct, exactly the occurring forms, each with the word of its first occurrence |
| TransformToSeedProperties.GrammarGroups | scripts/transformToSeed.ts:119-122 | grammar keys are distinct, exactly the occurring names, each with the structure of its first occurrence |
| TransformToSeedProperties.WordsOfOccs | scripts/transformToSeed.ts:128-138 | the emitted words have distinct forms, exactly the occurring ones, consecutive ids, and first-occurrence fields |
| TransformToSeedProperties.GrammarsOfOccs | scripts/transformToSeed.ts:148-158 | the emitted structures have distinct names, exactly the occurring ones, consecutive ids, and first-occurrence fields |
| TransformToSeedProperties.SeedParts | scripts/transformToSeed.ts:61-177 | the document is the assembly of the groups of all word and grammar occurrences |
| TransformToSeedProperties.AssembleParts | scripts/transformToSeed.ts:128-175 | each field of the document: panels, words and word rows drawn after the panels, grammar after the words |
| TransformToSeedProperties.AssembleIds | scripts/transformToSeed.ts:88-149 | ids are drawn in one sequence: panel k gets ids(k), then the words, then the structures |
| TransformToSeedProperties.AssembleIdsDistinct | scripts/transformToSeed.ts:57-149 | with a fresh supply no two panels, words or structures share an id |
| TransformToSeedProperties.SeedConceptIdsDistinct | scripts/transformToSeed.ts:129-149 | with a fresh supply the words have distinct ids, and so do the structures |
| TransformToSeedProperties.SeedWords | scripts/transformToSeed.ts:93-138 | one output word per distinct occurring form, in order of appearance, with its first occurrence's fields and an id drawn after the panels |
| TransformToSeedProperties.SeedGrammars | scripts/transformToSeed.ts:117-158 | one output structure per distinct occurring name, with its first occurrence's fields |
| TransformToSeedProperties.AssembledGrammars | scripts/transformToSeed.ts:148-158 | the assembled structures have distinct names, exactly the occurring ones, and first-occurrence fields |
| TransformToSeedProperties.LinksOfOccs | scripts/transformToSeed.ts:140-165 | one row per occurrence, each tracing back to an occurrence of its concept |
| TransformToSeedProperties.LinkedOfOccs | scripts/transformToSeed.ts:140-165 | with fresh ids the rows of the i-th concept list the panel ids of that concept's occurrences |
| TransformToSeedProperties.PanelIdsOfAppend | scripts/transformToSeed.ts:94 | a key's panel ids are additive over a split of the occurrences |
| TransformToSeedProperties.PanelIdsOfPanelWords | scripts/transformToSeed.ts:93-94 | one panel contributes its id once per word with that form |
| TransformToSeedProperties.PanelIdsOfPanelGrammars | scripts/transformToSeed.ts:118-119 | one panel contributes its id once per structure with that name |
| TransformToSeedProperties.WordPanelIds | scripts/transformToSeed.ts:87-97 | a form's panel ids: each panel's id once per matching word, panel by panel |
| TransformToSeedProperties.GrammarPanelIds | scripts/transformToSeed.ts:117-122 | a name's panel ids: each panel's id once per matching structure, panels without grammar contributing none |
| TransformToSeedProperties.WordLinkFrom | scripts/transformToSeed.ts:88-94 | a panel id recorded for a form is the id of a panel with a word of that form |
| TransformToSeedProperties.GrammarLinkFrom | scripts/transformToSeed.ts:88-119 | a panel id recorded for a name is the id of a panel listing that structure |
| TransformToSeedProperties.WordOutKey | scripts/transformToSeed.ts:129-138 | the i-th emitted word has the i-th key as its form and the i-th drawn id |
| TransformToSeedProperties.GrammarOutKey | scripts/transformToSeed.ts:149-158 | the i-th emitted structure has the i-th key as its name and the i-th drawn id |
| TransformToSeedProperties.WordLinksOfOccs | scripts/transformToSeed.ts:128-146 | one word row per occurrence, each to an emitted word it traces back to |
| TransformToSeedProperties.GrammarLinksOfOccs | scripts/transformToSeed.ts:148-166 | one grammar row per occurrence, each to an emitted structure it traces back to |
| TransformToSeedProperties.SeedWordLinks | scripts/transformToSeed.ts:93-145 | the word join table has one row per word occurrence, each joining an output word to a panel containing it |
| TransformToSeedProperties.SeedGrammarLinks | scripts/transformToSeed.ts:117-165 | the grammar join table has one row per grammar occurrence, each joining an output structure to a panel listing it |
| ConsolidateWords.IndexKeys | scripts/consolidateWords.ts:13-19 | the table holds exactly the keys of the inserted entries |
| ConsolidateWords.IndexValue | scripts/consolidateWords.ts:13-19 | the id stored for a key is that of the last inserted entry carrying it |
| ConsolidateWords.IndexHit | scripts/consolidateWords.ts:13-19 | every key in the table maps to the id of the last entry carrying it |
| ConsolidateWords.BuildIndex | scripts/consolidateWords.ts:13-19 | the `set` loop builds exactly that table |
| ConsolidateWords.KeptAppend | scripts/consolidateWords.ts:26-40 | keeping distributes over concatenation, so kept entries stay in order |
| ConsolidateWords.KeptSingle | scripts/consolidateWords.ts:27-39 | one entry is kept iff its key is not in the table |
| ConsolidateWords.KeptMember | scripts/consolidateWords.ts:26-40 | an entry is kept iff it is a new entry whose key the table lacks |
| ConsolidateWords.KeptAll | scripts/consolidateWords.ts:26-40 | when no key is in the table every entry is kept |
| ConsolidateWords.RemapKeys | scripts/consolidateWords.ts:27-37 | the remapping holds exactly the ids of dropped entries |
| ConsolidateWords.RemapValue | scripts/consolidateWords.ts:28-36 | with distinct ids a dropped entry's id maps to the table's id for its key |
| ConsolidateWords.Split | scripts/consolidateWords.ts:26-40 | the loop yields exactly the kept entries and the remapping |
| ConsolidateWords.RemapRow | scripts/consolidateWords.ts:43-61 | a row with a remapped concept id takes the new id, any other row is unchanged, and the panel id never changes |
| ConsolidateWords.RemapRows | scripts/consolidateWords.ts:42-62 | one output row per input row |
| ConsolidateWords.RemapRowsIndex | scripts/consolidateWords.ts:42-51 | row i of the result is row i of the input, redirected |
| ConsolidateWords.RemapRowsEmpty | scripts/consolidateWords.ts:48-50 | with nothing remapped every row is kept as it is |
| ConsolidateWords.RedirectRows | scripts/consolidateWords.ts:42-62 | the loop yields exactly the redirected rows in order |
| ConsolidateWords.Consolidated | scripts/consolidateWords.ts:6-68 | chapter id and panels are untouched and both join tables keep their length |
| ConsolidateWords.SeedDocument.constructor | scripts/consolidateWords.ts:73-74 | a document holding the parsed seed |
| ConsolidateWords.Dedup | scripts/consolidateWords.ts:6-68 | the new seed's four list fields are overwritten with the consolidation computed from the contents before the call |
| ConsolidateWordsProperties.KeptIsSubsequence | scripts/consolidateWords.ts:26-40 | the surviving entries are exactly those whose key is not in the table, unchanged and in their original order |
| ConsolidateWordsProperties.NothingInsertedTwice | scripts/consolidateWords.ts:26-40 | no surviving word has a Japanese form of an inserted word, and no surviving grammar point an inserted name |
| ConsolidateWordsProperties.KeptIff | scripts/consolidateWords.ts:26-40 | a new word survives iff no inserted word has its form; likewise grammar by name |
| ConsolidateWordsProperties.RowRedirected | scripts/consolidateWords.ts:28-58 | a row naming a dropped entry now names the last inserted entry with that key |
| ConsolidateWordsProperties.RowUnchanged | scripts/consolidateWords.ts:48-61 | a row whose concept is kept is unchanged |
| ConsolidateWordsProperties.RowsKeepPanels | scripts/consolidateWords.ts:42-62 | both join tables keep their length, their order and every panel id |
| ConsolidateWordsProperties.WordRowRedirected | scripts/consolidateWords.ts:43-47 | a word row whose word was dropped names an inserted word with the same form, with its panel id kept |
| ConsolidateWordsProperties.GrammarRowRedirected | scripts/consolidateWords.ts:54-58 | a grammar row whose grammar point was dropped names an inserted one with the same name, with its panel id kept |
| ConsolidateWordsProperties.WordRowUnchanged | scripts/consolidateWords.ts:48-50 | a word row whose word survives is unchanged |
| ConsolidateWordsProperties.GrammarRowUnchanged | scripts/consolidateWords.ts:59-61 | a grammar row whose grammar point survives is unchanged |
| ConsolidateWordsProperties.TransformedIdsDistinct | scripts/consolidateWords.ts:1 | a seed produced by the transform has distinct word ids and grammar ids, which the redirection lemmas assume |
| ConsolidateWordsProperties.RemapOfKept | scripts/consolidateWords.ts:26-40 | consolidating an already-consolidated list drops nothing and remaps nothing |
| ConsolidateWordsProperties.ConsolidateIdempotent | scripts/consolidateWords.ts:6-68 | a second consolidation against the same inserted seed changes nothing |

## Left out

- Database access: every Prisma call and raw SQL query is an input. The query results are passed in, and the promises of the aggregation SQL (`HAVING total > 0`, ascending rate order) are the preconditions `WordRowsOk` and `GrammarRowsOk`.
- Executing SQL: `SeedDatabase.SeedDatabase` returns the statements in the order they are sent; it does not connect, send them or close the client.
- The language model and `JSON.parse`: both are parameters that answer `None` on failure. The model's reply in the review route is a function of the item, so the wording of that prompt is not modelled.
- Question prompt: `QuestionGeneration.Prompt` ends with the "INSTRUCTIONS:" heading. The fixed instruction text after it does not depend on the input and is not reproduced.
- Review route question text: the parsed `question` string is computed but never put in the response, so the model does not carry it.
- Floating point:
  - success rates and chapter averages are exact rationals;
  - the 0.6/0.4 weighting of the predicted level is over those rationals, with no rounding error;
  - `Math.round` is `floor(x + 1/2)` on exact values.
- ReviewPage.FinalMessage: the source tests `score >= count * 0.7` in floating point, and the model uses `10 * score >= 7 * count`. The two agree for every count below 5000, far above a ten-item review list. For larger counts the double product can round, and the model does not follow that.
- AnnotatePage.AnnotationTool.SavePosition: coordinates are integers and `pageScale` is 1, so the `Math.floor` of each saved value is the identity. Fractional canvas coordinates are not modelled.
- Time: `Date.now()` and `new Date().toISOString()` are parameters. The `timeSpent` field of the posted answer is read by no route and is left out of the posted body.
- Cache concurrency: two concurrent misses both querying, with the last writer winning, is concurrency and is not modelled. Each `UserContext.PerformanceCache.GetUserPerformanceData` call is atomic.
- Loading and saving flags: the `loading`/`saving` spinners of the pages only drive rendering and are left out, except where a handler clears one on completion.
- ReviewCheckRoute.CheckReview: the catch-all 500 "Failed to check review status" is not modelled, because the queries are inputs that cannot throw.
- PanelQuestionModal.PanelQuiz.TakeFetchResult: the request itself is left out; the method starts from its result (status, body or thrown error).
- ReviewPage.ReviewQuiz.Submit: its contract promises the state invariant only when the result was hidden. The page shows the submit button only then. A second submit through another path could count a point twice, and the model does not close that.
- ReviewPage.ReviewQuiz.Submit: requires the index to be on an item when there is a selection. The source reads `reviewItems[currentIndex]` and would throw otherwise; the page renders the quiz only for a non-empty list.
- Proxy.Guard: its `loggedIn` input stands for `!!req.auth`, whereas `Auth.Authorized` tests `!!auth?.user`. Both are booleans computed by NextAuth and not modelled further. The `config.matcher` path filter is NextAuth/Next.js routing and is not modelled.
- `Auth`: the NextAuth configuration (providers, pages, database session strategy, 30-day `maxAge`) is configuration, not logic.
- UUIDs: `crypto.randomUUID()` is the supply `ids`. That no two draws repeat is the hypothesis `FreshIds` of the lemmas that need it.
- Dotenv: the `OSError` (an empty name, refused by POSIX `setenv` with EINVAL) or `ValueError` (a NUL character in the name or the value) that `os.environ.setdefault` raises, and the end of the script it causes, are the `raised` flag of the load. Which of the two exceptions is raised is not modelled, and neither are the Windows rules.
- Text encoding: strings are sequences of characters, and the JavaScript `length` of one is its UTF-16 code units, `Common.Utf16Length`. The UTF-8 decoding of `read_text` and `fs.readFile` and its errors are not modelled.
- File I/O of the scripts: reading and writing the JSON files in `run` and `fix`, `mkdir`, and the command-line arguments are left out. The models start from the parsed documents.
- `updateChapterStats` and `updateAllChapterStats` write to the database and are not part of this model. `calculateChapterStats` is modelled over the panel list they pass it.
- Rendering: JSX, canvas drawing, the PDF viewer, voice input and the progress bar are left out.

## Findings

| source | as written | input that shows it | evidently intended | confidence | as-written member | corrected member |
|---|---|---|---|---|---|---|
| frontend/components/PanelQuestionModal.tsx:124-131 | the answer body posted to the answer route has no `userId` field | any answer to any popover question | the body carries the learner's id, which frontend/app/api/panels/questions/answer/route.ts:17-22 requires before it records an attempt | not executed | PanelQuestionModal.PostedBodyRejected | PanelQuestionModal.BodyWithUserRecorded |

`PanelQuestionModal.PanelQuiz.SelectAnswer` posts the body as written, because the component has no user id to send. `PanelQuestionModal.BodyWithUser` is the intended body, and `PanelQuestionModal.BodyWithUserRecorded` proves that the answer route records it.
