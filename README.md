# California DMV Class C practice trainer — a Dafny model

The trainer is a browser quiz for drivers converting an out-of-state licence.
It draws 40-question tests, or 10-question drills of one category, from a bank
of 600 generated multiple-choice questions. Questions come in ten categories
and three difficulties. The optional "confidence ramp" orders a test easy,
then medium, then hard. A test is scored against a 90 % pass mark, and the
categories are ranked by how often their questions were missed. Two build
scripts sit beside the app:
- the generator writes the bank deterministically from literal content tables;
- the validator checks the bank before it ships.

This project models the core of all three parts.

| module | file | models |
|---|---|---|
| `Types` | types.dfy | the categories, difficulties, questions and answer records of `src/types.ts` |
| `Seqs` | seqs.dfy | generic sequence algebra: `filter`, `indexOf`, de-duplication (`Array.from(new Set(..))`), the Fisher-Yates swap-down loop |
| `Text` | text.dfy | JavaScript `trim`, the trailing-`?` strip, the capital-spacing replace, upper-casing, decimal digits and `padStart` |
| `Sampler` | sampler.dfy | `shuffle` (an in-place array loop) and `sampleOrNull` |
| `Builder` | builder.dfy | `buildTest`: the filters, the ramp tables and `buildRamp`, the ramp loop, and the all-or-nothing result |
| `Scorer` | scorer.dfy | `scoreAttempt` |
| `Weakness` | weakness.dfy | the last-answer-wins answer map, `missedQuestions`, `rankWeaknesses` with its stable two-key sort, `weaknessBullets` |
| `Validator` | validator.dfy | `scripts/validateQuestionBank.mjs`, with parsed JSON as a `Value` datatype |
| `Generator` | generator.dfy | `scripts/generateQuestions.ts`: `rotate`, `unique`, `buildChoices`, `difficultyByVariant`, `composeScenarioPrefix`, the id and question text, and the generation loop |
| `App` | app.dfy | the pure helpers of `src/App.tsx`, and its hook state as the class `App.Session`, whose methods are the handlers |

Randomness is a parameter. `Math.random` becomes an *index source*
`rng(k, m)`: the index below `m` that draw number `k` selects. A cursor
counts the draws made so far. `Sampler.FloorOfUniformIsIndexSource` shows
that `Math.floor(u * m)` of any stream of draws in [0, 1) is such a source.
The generator's literal tables (concepts, prompts, environments,
complications, distractor pools) are a `Content` parameter. The bank lemmas
assume only that those tables are non-empty (`TablesNonEmpty`). The
four-choice lemma also assumes that every concept offers at least three
distractors other than its answer (`ContentOk`).

## Model

| member | source | states |
|---|---|---|
| Types.CategoriesEnumerated | src/types.ts:1-14 | the category list has ten entries, holds every category, and repeats none |
| Types.CategoryNameInjective | src/types.ts:1-14 | different categories have different names |
| Sampler.Scale | src/engine.ts:16 | `Math.floor(u * m)` with u in [0, 1) is an index below m |
| Sampler.FloorOfUniformIsIndexSource | src/engine.ts:13-16 | flooring scaled uniform draws always selects a valid position, so `Math.random` is a valid index source |
| Sampler.DrawnPicks | src/engine.ts:15-16 | the shuffle's draws, one per step from the last index down; each step i swaps with a position no greater than i |
| Sampler.Shuffled | src/engine.ts:13-20 | the shuffle of a copy of the items has the same length and the same elements, counted with multiplicity |
| Sampler.Shuffle | src/engine.ts:13-20 | the in-place array loop computes exactly `Shuffled`, a permutation of the input, and uses one draw for each index above 0 |
| Sampler.SampleOrNull | src/engine.ts:22-25 | null exactly when more items are asked for than exist (no draw is used then); otherwise `count` items that are a prefix of the shuffle, drawn without replacement |
| Sampler.SampleIsDistinct | src/engine.ts:22-25 | a sample of a list without repeats has no repeats |
| Builder.BuildRamp | src/engine.ts:90-95 | the three counts add up to the total; easy equals hard, and both are floor(0.3 · total) |
| Builder.RampFor | src/engine.ts:63 | the ramp chosen for any total adds up to that total |
| Builder.RampTablesMatchFormula | src/engine.ts:27-28 | the fixed 40- and 10-question tables are what `buildRamp` would compute, so the choice of table never matters |
| Builder.CategoryFiltered | src/engine.ts:51-53 | keeps exactly the questions of the drilled category, or all of them without a drill, never adding copies |
| Builder.DifficultyFiltered | src/engine.ts:55-58 | keeps exactly the questions of the selected difficulty; under mix it keeps all of them |
| Builder.Bucket | src/engine.ts:64-68 | a bucket holds exactly the pool's questions of one difficulty |
| Builder.BucketsPartition | src/engine.ts:64-68 | the three buckets together are the pool, with multiplicity |
| Builder.EffectiveConfidence | src/engine.ts:60 | the ramp applies only when it is asked for and the difficulty is mix; `Builder.BuildTest` and `App.Session.LaunchAttempt` state the flag they report and store in its terms |
| Builder.BlockAt | src/engine.ts:71-77 | ramp positions are easy first, then medium, then hard, in the ramp's block sizes |
| Builder.TakeRamp | src/engine.ts:62-80 | succeeds exactly when every bucket holds its block; position i of the result then has difficulty `BlockAt(i)`, and it is a sub-multiset of the pool |
| Builder.BuildTest | src/engine.ts:43-88 | fails only with the insufficient-pool message. Under the ramp it succeeds exactly when the category pool covers every block, and the result is in ramp order. Otherwise it succeeds exactly when the filtered pool has `total` questions, and the result is a prefix of its shuffle. A success has `total` questions, all from the filtered pool, without extra copies, and reports `confidence && mix` as the applied ramp flag |
| Scorer.CorrectCount | src/engine.ts:99 | at most the number of answers, and equal to it exactly when every answer is correct |
| Scorer.CorrectCountAppend | src/engine.ts:99 | the correct count of two runs of answers is the sum of their counts |
| Scorer.PassingCorrect | src/engine.ts:102 | the pass mark is ceil(0.9 · total) |
| Scorer.ScoreAttempt | src/engine.ts:97-105 | total, correct and wrong counts; passed exactly when at least 90 % of the questions are answered correctly |
| Scorer.PassMarks | src/engine.ts:102-103 | a 40-question test needs 36 correct answers and a 10-question drill needs 9 |
| Scorer.WrongNeverNegative | src/engine.ts:100 | with at most one answer per question, each to a question of the test, the wrong count is between 0 and the number of questions |
| Weakness.WeaknessBullets | src/engine.ts:140-154 | the two study hints of each category, total over the ten categories; no contract beyond totality (see "## Left out") |
| Weakness.LastFor | src/engine.ts:108 | the position of the last record for an id, or "none" when no record names it |
| Weakness.AnswerMap | src/engine.ts:108 | the map's keys are exactly the answered ids, and each holds the last record given for its id |
| Weakness.AnswerMapLastWins | src/engine.ts:108 | a later answer to the same question replaces an earlier one |
| Weakness.MissedQuestions | src/engine.ts:132-138 | keeps exactly the questions whose mapped answer is wrong, each as often as it occurs |
| Weakness.MissedQuestionsConcat | src/engine.ts:134-137 | the filter distributes over concatenating question lists |
| Weakness.UnansweredNeverMissed | src/engine.ts:134-137 | an unanswered question is never missed |
| Weakness.MissedFollowsLastAnswer | src/engine.ts:133-137 | an answered question is missed exactly when its last answer is wrong |
| Weakness.CountsAreFilterLengths | src/engine.ts:111-117 | a category's tally is the number of its questions, and its missed tally is the number of those that are missed |
| Weakness.MissRate | src/engine.ts:124 | zero without questions; otherwise missed / total exactly, and within [0, 1] |
| Weakness.StatsStep | src/engine.ts:111-117 | one loop step keeps the invariant that the stats hold exactly the tallies of the categories met so far, in first-appearance order |
| Weakness.SortByRank | src/engine.ts:126-129 | the sort permutes the entries |
| Weakness.SortByRankSorted | src/engine.ts:126-129 | the result is ordered by miss rate, then missed count, both descending |
| Weakness.SortByRankStable | src/engine.ts:126-129 | entries that tie on both keys keep their map order, the order in which categories first appear |
| Weakness.RankWeaknesses | src/engine.ts:107-130 | one entry per category present among the questions, no category twice, each with its true totals, ordered by the comparator, ties in first-appearance order |
| Validator.CategoryNamesAllowed | scripts/validateQuestionBank.mjs:4-15 | every category name of the app is allowed |
| Validator.AllowedCategoriesInOrder | scripts/validateQuestionBank.mjs:4-15 | the allowed set lists the app's categories, in order |
| Validator.AllowedNamesAreEnumerations | scripts/validateQuestionBank.mjs:4-17 | a name is allowed exactly when it names a category (or a difficulty), and the lists repeat nothing |
| Validator.InReport | scripts/validateQuestionBank.mjs:36-47 | an item's message list holds exactly the messages of the checks that fail |
| Validator.IdMessages | scripts/validateQuestionBank.mjs:36-37 | "missing id" and "duplicate id" are reported exactly when their checks fail |
| Validator.QuestionMessages | scripts/validateQuestionBank.mjs:40-41 | "question too short" and "choices must be exactly 4" are reported exactly when their checks fail |
| Validator.AnswerMessages | scripts/validateQuestionBank.mjs:42-43 | "invalid choice text" and "invalid answerIndex" are reported exactly when their checks fail |
| Validator.NameMessages | scripts/validateQuestionBank.mjs:44-45 | "invalid category" and "invalid difficulty", with the offending value, are reported exactly when their checks fail |
| Validator.ReferenceMessages | scripts/validateQuestionBank.mjs:46-47 | "rationale too short" and "invalid handbookRef" are reported exactly when their checks fail |
| Validator.ReportEmptyIff | scripts/validateQuestionBank.mjs:36-47 | an item yields no message exactly when all ten checks pass |
| Validator.NoIssuesIff | scripts/validateQuestionBank.mjs:36-47 | the same, for the item's own findings |
| Validator.IdsOfMembers | scripts/validateQuestionBank.mjs:32-38 | before an item, the seen set holds exactly the ids of the items before it |
| Validator.BankItemErrors | scripts/validateQuestionBank.mjs:34-48 | every error the loop pushes belongs to an item numbered 1 to n |
| Validator.NoItemErrorsIff | scripts/validateQuestionBank.mjs:34-48 | the loop pushes nothing exactly when every item passes against the ids before it |
| Validator.ItemErrorsLocated | scripts/validateQuestionBank.mjs:34-48 | the errors labelled with item k are exactly that item's messages |
| Validator.DuplicateReported | scripts/validateQuestionBank.mjs:37-38 | item k is reported duplicate exactly when its id is a primitive that an earlier item already carried |
| Validator.CheckItem | scripts/validateQuestionBank.mjs:35-47 | the loop body throws exactly for a null item or a non-array `choices`; otherwise it pushes the item's messages and adds its id to the seen set |
| Validator.CheckItems | scripts/validateQuestionBank.mjs:32-48 | the loop throws exactly when some item throws; otherwise its errors are `BankItemErrors` |
| Validator.CountBy | scripts/validateQuestionBank.mjs:56-64 | the `reduce` tally is the per-value count table |
| Validator.CountsOfCounts | scripts/validateQuestionBank.mjs:56-64 | a value is a key exactly when some item carries it, and its count is the number of items carrying it |
| Validator.CountsSum | scripts/validateQuestionBank.mjs:56-64 | when every value is among some distinct names, the counts add up to the number of items |
| Validator.Validate | scripts/validateQuestionBank.mjs:22-64 | the script's outcome: it throws, it exits with the ordered error list, or it accepts with the total and both count tables |
| Validator.Verdict | scripts/validateQuestionBank.mjs:22-64 | the script's outcome as a function; `Validator.Validate` is proved to compute it, and `Validator.VerdictShape`, `Validator.AcceptedIff` and `Validator.AcceptedCountsSum` state its properties |
| Validator.VerdictShape | scripts/validateQuestionBank.mjs:24-34 | the run throws exactly for a non-array bank or a throwing item; a bank outside 400–700 items is rejected with the size message first, and a bank that does not throw carries the size message exactly when it is outside that window |
| Validator.AcceptedIff | scripts/validateQuestionBank.mjs:24-54 | a bank is accepted exactly when it is an array of 400–700 items that do not throw and every item passes; the printed total is its length |
| Validator.CleanItemIsWellFormed | scripts/validateQuestionBank.mjs:36-47 | an item that passes has a fresh non-empty id, texts long enough once trimmed, four non-blank choices, an integer answer index below 4, and allowed category and difficulty names |
| Validator.CleanBankIsWellTyped | scripts/validateQuestionBank.mjs:44-45 | in a bank without item errors every category and difficulty is an allowed string, so the tallies are defined |
| Validator.CleanBankIsWellFormed | scripts/validateQuestionBank.mjs:34-54 | a bank without item errors has only well-formed items, with pairwise different ids |
| Validator.AcceptedBankIsWellFormed | scripts/validateQuestionBank.mjs:34-54 | the same for every accepted bank |
| Validator.AcceptedCountsSum | scripts/validateQuestionBank.mjs:56-67 | both printed tables of an accepted bank hold only allowed names and add up to the total |
| Validator.NotAnArrayNeverReported | scripts/validateQuestionBank.mjs:24-34 | as written, no run can report "not an array": every non-array bank throws |
| Validator.EmptyObjectAborts | scripts/validateQuestionBank.mjs:24-34 | the bank `{}` throws instead of being reported |
| Validator.IntendedVerdict | scripts/validateQuestionBank.mjs:24-26 | the evidently intended verdict: a non-array is rejected with its message; arrays are judged as written |
| Validator.IntendedVerdictReportsNonArray | scripts/validateQuestionBank.mjs:24-26 | under the intended verdict the message appears exactly for non-arrays, and only a throwing item aborts |
| Generator.Rotate | scripts/generateQuestions.ts:974-977 | rotation keeps the length |
| Generator.RotateSplice | scripts/generateQuestions.ts:974-977 | rotating by s < n moves the first s elements to the end |
| Generator.RotatePermutes | scripts/generateQuestions.ts:974-977 | rotation by less than the length is a permutation |
| Seqs.Unique | scripts/generateQuestions.ts:979-981 | `Array.from(new Set(arr))`: the same elements without repeats, never longer; `Seqs.UniqueInFirstOccurrenceOrder` states that they keep the order of their first occurrences |
| Seqs.UniqueInFirstOccurrenceOrder | scripts/generateQuestions.ts:979-981 | the survivors are listed in the order in which they first occur |
| Generator.Eligible | scripts/generateQuestions.ts:979-984 | the eligible distractors are exactly the distractors other than the answer, without repeats |
| Generator.BaseChoices | scripts/generateQuestions.ts:984-986 | the answer first, then up to three different eligible distractors |
| Generator.ChoicePickAt | scripts/generateQuestions.ts:988-990 | step i of the order shuffle swaps with (seed + 7i) mod (i + 1) |
| Generator.OrderIsPermutation | scripts/generateQuestions.ts:987-991 | the shuffled order is a permutation of 0..3 |
| Generator.ShuffleOrder | scripts/generateQuestions.ts:987-991 | the in-place swap loop computes the seeded order, a permutation of 0..3 |
| Generator.ChoicesFor | scripts/generateQuestions.ts:983-992 | `order.map(idx => base[idx])` gives four slots |
| Generator.IndexOf | scripts/generateQuestions.ts:993 | `indexOf`: -1 exactly when absent; otherwise the first position holding the value |
| Generator.ChoicesProperties | scripts/generateQuestions.ts:983-995 | the answer sits in exactly one slot and the others hold distractors; with three eligible distractors all four slots are filled and different |
| Generator.BuildChoices | scripts/generateQuestions.ts:983-995 | returns those choices and the one index that holds the answer |
| Generator.DifficultyByVariant | scripts/generateQuestions.ts:997-1001 | variants below 15 are easy, below 45 medium, the rest hard; specified through `Generator.LevelCounts` and `Generator.VariantSplit` |
| Generator.LevelCounts | scripts/generateQuestions.ts:997-1001 | of the first n variants, min(n, 15) are easy, the next up to 30 medium, the rest hard |
| Generator.VariantSplit | scripts/generateQuestions.ts:808-809 | the 60 variants of a category split 15 easy, 30 medium, 15 hard |
| Generator.ScenarioPrefix | scripts/generateQuestions.ts:1003-1007 | the environment and complication picked by the seed, joined by a space; specified by `Generator.ScenarioPrefixChoice` |
| Generator.ScenarioPrefixChoice | scripts/generateQuestions.ts:1003-1007 | the prefix is an environment of the difficulty, a space and a complication of the category, and it repeats with period  \|environments\| · \|complications\| in the seed |
| Generator.QuestionText | scripts/generateQuestions.ts:1020-1021 | the full question text; specified by `Generator.QuestionTextShape` |
| Generator.QuestionTextShape | scripts/generateQuestions.ts:1020-1021 | the question is the prefix, a space, the prompt without its trailing `?`s, exactly one `?`, a space and the decision prompt |
| Generator.FormatId | scripts/generateQuestions.ts:1030 | the `CA-` id of a counter; specified by `Generator.FormatIdInjective`, `Generator.FormatIdWidth` and `Text.PaddedDigitsRoundTrip` |
| Generator.FormatIdInjective | scripts/generateQuestions.ts:1030 | different counters give different ids |
| Generator.FormatIdWidth | scripts/generateQuestions.ts:1030 | a counter below 10000 gives `CA-` and four digits |
| Generator.Bank | scripts/generateQuestions.ts:1009-1041 | the bank has ten categories times 60 records |
| Generator.GenerateQuestions | scripts/generateQuestions.ts:1009-1041 | the nested loops with the running id counter push exactly the bank |
| Generator.GenerateCategory | scripts/generateQuestions.ts:1012-1041 | one pass of the outer loop extends the bank prefix by that category's 60 records and advances the counter by 60 |
| Generator.GenerateOne | scripts/generateQuestions.ts:1015-1039 | one pass of the inner loop builds the record for its category, variant and counter |
| Generator.BankSize | scripts/generateQuestions.ts:1012-1014 | the bank holds 600 records, inside the validator's size window |
| Generator.BankIds | scripts/generateQuestions.ts:1030 | record k has id CA-(k+1), and no two records share an id |
| Generator.BankEntry | scripts/generateQuestions.ts:1012-1040 | record k has category k / 60 of the list and the difficulty of variant k mod 60 |
| Generator.CategoryBlock | scripts/generateQuestions.ts:1012-1014 | the records of a category are exactly one contiguous block of 60 |
| Generator.BlockDifficulties | scripts/generateQuestions.ts:1014-1016 | each category's block holds 15 easy, 30 medium and 15 hard records |
| Generator.BankAnswers | scripts/generateQuestions.ts:1026-1031 | with three eligible distractors per concept, every record has four different filled choices and the answer index is the one slot holding the concept's answer |
| Text.Trim | src/App.tsx:38 | `trim` neither lengthens nor leaves white space at either end |
| Text.TrimEmptyIffBlank | scripts/validateQuestionBank.mjs:42 | the trimmed text is empty exactly when the text is all white space |
| Text.TrimIsSlice | src/App.tsx:38 | `trim` removes only a white-space prefix and a white-space suffix |
| Text.StripTrailingQuestionMarks | scripts/generateQuestions.ts:1020 | `replace(/\?+$/, '')` drops exactly the trailing run of `?` |
| Text.OneQuestionMark | scripts/generateQuestions.ts:1020-1021 | the prompt then ends in exactly one `?` |
| Text.SpaceBeforeCapitalsInverse | src/App.tsx:38 | removing the spaces undoes inserting a space before each capital of a space-free text |
| Text.SpaceBeforeEveryCapital | src/App.tsx:38 | after the replace every capital is preceded by a space |
| Text.UpperAscii | src/App.tsx:43 | an ASCII letter a–z becomes its capital; any other character is unchanged |
| Text.DigitsRoundTrip | scripts/generateQuestions.ts:1030 | the decimal text of a counter reads back as the counter |
| Text.PadStart | scripts/generateQuestions.ts:1030 | `padStart` keeps the text as a suffix, filled in front to the width when it is shorter |
| Text.PaddedDigitsRoundTrip | scripts/generateQuestions.ts:1030 | zero-padded decimal text still reads back as the counter |
| Text.PaddedDigitsInjective | scripts/generateQuestions.ts:1030 | different counters give different padded texts |
| App.CategoryLabel | src/App.tsx:37-39 | a space before each capital of the category's name, then trimmed; specified by `App.CategoryLabelInverse` |
| App.NamesHaveNoSpaces | src/types.ts:1-12 | category names contain no white space |
| App.LabelInverse | src/App.tsx:37-39 | removing the spaces from a label gives back a space-free name |
| App.CategoryLabelInverse | src/App.tsx:37-39 | a category's label without spaces is its name; different categories have different labels |
| App.DifficultyLabel | src/App.tsx:41-44 | "Mix" under mix; otherwise the level name with its first letter capitalised and the rest unchanged |
| App.DifficultyLabels | src/App.tsx:41-44 | the four labels are "Easy", "Medium", "Hard" and "Mix", all different |
| App.JsRem | src/App.tsx:225 | JavaScript `%`: Euclidean for non-negative operands, never positive for negative ones |
| App.BreathingPhase | src/App.tsx:223-229 | during the break the phase is Inhale for the first 4 s of each 14-s cycle, Hold for the next 4, Exhale for the last 6 |
| App.BreathingPeriod | src/App.tsx:223-229 | the phase repeats every 14 s of the countdown |
| App.Normalized | src/App.tsx:172-179 | a missing difficulty becomes mix; the confidence flag survives only when it was on and the difficulty is mix; all else is kept |
| App.RestoreRoundTrip | src/App.tsx:172-179 | restoring a saved attempt that keeps the confidence rule gives back the same attempt; otherwise only the flag is cleared |
| App.FindAnswer | src/App.tsx:112-114 | finds a record for the id exactly when one exists, and it is the first record for that id |
| App.RequestQuestions | src/App.tsx:131-139 | asks for 10 questions for a drill and 40 otherwise; succeeds exactly when the pool suffices; a success has that many questions from the filtered pool without extra copies, in ramp order under the ramp and a prefix of the shuffle without it |
| App.Session.constructor | src/App.tsx:47-57 | the initial hook values |
| App.Session.CurrentQuestion | src/App.tsx:111 | defined exactly when an attempt is open and the index is in range |
| App.Session.ScoreIsSound | src/App.tsx:116-119 | while each question has at most one answer, the score's wrong count lies between 0 and the number of questions |
| App.Session.AnswerQuestion | src/App.tsx:203-210 | ignored without a current question or when it is already answered; otherwise appends one record, correct exactly when the choice is the answer index; keeps the one-answer-per-question invariant |
| App.Session.GoNext | src/App.tsx:212-221 | at or after the last question the attempt is finished; otherwise the index advances by one and the explanation is hidden; keeps the index in range |
| App.Session.EnforceConfidenceRule | src/App.tsx:62-68 | a fixed difficulty switches the ramp off, and the rule "ramp only under mix" then holds |
| App.Session.SelectDifficulty | src/App.tsx:62-68 | stores the choice; the ramp survives only under mix |
| App.Session.SetConfidence | src/App.tsx:281-286 | the checkbox changes the flag only under mix, so the rule is kept |
| App.Session.ApplyBuild | src/App.tsx:141-163 | a failure records the build's message, or the insufficient-pool message when that is empty, and changes nothing else; a success opens the attempt at question 1 with no answers and the applied ramp flag |
| App.Session.LaunchAttempt | src/App.tsx:131-164 | the same, with the attempt's size and the ramp flag as buildTest computes them; keeps the confidence rule and establishes both session invariants on success |
| App.Session.RestoreAttempt | src/App.tsx:166-196 | a parsed in-progress save replaces the attempt, answers and index, normalised; an unreadable save is dropped with its message; anything else changes nothing; the confidence rule is kept |

## Left out

- Reading and writing files, `JSON.parse` and `JSON.stringify`, console output and `process.exit` are not modelled. The validator starts from the parsed value and ends with an `Outcome`; the generator ends with the list it would write.
- `localStorage` is not modelled. A restore receives what reading the save returned (`Stored`). The effects that save the attempt on every change (src/App.tsx:83-87), detect a saved attempt on load (70-81) and clear it when an attempt finishes (89-94), and `clearSavedAttempt` (198-201), are not modelled.
- React rendering, the markup, and the timer that counts the break down (src/App.tsx:96-109) are not modelled. `App.BreathingPhase` takes the remaining seconds as input.
- `Math.random` is modelled as an injected index source (see above); the probability distribution of the draws is not modelled.
- IEEE floating point is not modelled. `Builder.BuildRamp`: floor(0.3 · total) is taken as the exact (3 · total) / 10. `Scorer.PassingCorrect`: ceil(0.9 · total) is taken as the exact (9 · total + 9) / 10. The app only asks for totals of 40 and 10, where the two agree.
- `Weakness.MissRate` is an exact rational, not a float quotient. The score's `percentage` and `formatPercent` are not modelled.
- `Weakness.WeaknessBullets`: modelled as a total function over the closed category type. It has no contract beyond totality, because the bullets are fixed text.
- The generator's literal tables are a parameter rather than the 800 lines of text in scripts/generateQuestions.ts:4-972. So the model proves the bank's shape for any tables that satisfy `TablesNonEmpty` (and `ContentOk` for the choices), not for these particular strings.
- `Generator.RotateSplice` and `Generator.RotatePermutes`: stated for shifts below the length. `buildChoices` only passes `seed % length`, which is such a shift.
- Strings are sequences of characters, not of UTF-16 code units, so lengths (the `trim().length` minimums) count characters. `Text.IsSpace` lists the white-space and line-terminator characters that `trim` removes.
- `Text.UpperAscii`: maps only the letters a–z. JavaScript's `toUpperCase` also maps other letters, but only the names `easy`, `medium` and `hard` reach it.
- `App.JsRem`: for a negative dividend the contract only bounds the remainder. The break never shows more than 30 seconds left, so the dividend is never negative.
- `App.Session.RestoreAttempt`: trusts the saved answers and index, as the source does. The one-answer-per-question and index-in-range invariants are not re-established after a restore.
- `App.Session.LaunchAttempt`: the `hasSavedAttempt` flag is untouched here, as in the source. The `showReason` toggle and the exam-review toggle are only reset, never set, because the buttons that set them are part of the markup.
- The validator's object properties other than the eight it reads are not represented.

## Findings

| source | as written | input that shows it | evidently intended | confidence | as-written member | corrected member |
|---|---|---|---|---|---|---|
| scripts/validateQuestionBank.mjs:24-34 | a non-array bank records "Question bank is not an array." but then throws. For `null` it throws at `data.length`; for every other value it throws at `data.entries()`. The message is never printed. | the bank `{}` (any non-array JSON value) | reject the bank with the not-an-array message and exit with status 1 | high, not executed | Validator.NotAnArrayNeverReported, Validator.EmptyObjectAborts | Validator.IntendedVerdict, Validator.IntendedVerdictReportsNonArray |

`Validator.IntendedVerdict` agrees with the as-written verdict on every array. The lemmas about accepted banks (`Validator.AcceptedIff`, `Validator.AcceptedBankIsWellFormed`, `Validator.AcceptedCountsSum`) therefore hold under both readings.
