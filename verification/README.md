# TOEIC study app core in Dafny

This project models the logic core of a TOEIC study application and proves properties about it. The core has four parts.

- **Spaced-repetition scheduler** (`lib/vocabulary/spacedRepetition.ts`), modelled in `spaced_repetition.dfy`.
  - It computes a 0–100 mastery score for a word from its correct and incorrect answer counts.
  - It maps the score to a review interval of 1, 2, 4, 7 or 14 days.
  - It ranks the catalog by priority and keeps the top `count` words, in a normal mode or a weak-first mode.
  - It applies one answer to a progress record.
  - It extracts the weak-word list and computes summary counts.
- **Application statistics** (`contexts/AppContext.tsx`), modelled in `app_context.dfy`.
  - The `AppStats` record and its initial value.
  - The three state updates the provider applies with `setStats`: quiz results, vocabulary statistics and diary entries.
  - The read-only views: today's statistics, recent history and weak words.
  - The provider itself is a class whose `stats` field each update method replaces.
- **Word catalog** (`lib/vocabulary/wordbank.ts`), modelled in `wordbank.dfy`.
  - A generator builds 1000 words in three level blocks, with ids `vocab_0001` to `vocab_1000`.
  - Lookups find words by level, by category or by id.
- **`<div>` balance checker** (`debug_tags.py`), modelled in `debug_tags.dfy`. It is a stack-based scan that matches opening and closing tags line by line.

Support modules:

- `seqs.dfy`: JavaScript's `filter`, `slice`, `findIndex` and `reverse` on sequences.
- `sorting.dfy`: a stable insertion sort standing in for `Array.prototype.sort`, which ECMAScript requires to be stable since its 2019 edition.
- `decimal.dfy`: decimal rendering of naturals and `padStart`.
- `vocabulary_types.dfy`: the `Word` and `Progress` records.
- `wrappers.dfy`: `Option`.

Modelling conventions:

- **Floating-point arithmetic** is replaced by exact arithmetic.
  - The mastery score is the integer `(140c + 2t·min(30,3c) + t) div 2t`, capped at 100, where `t` is the number of answers. This matches `Math.round` of the source's expression, which rounds halves up.
  - Priorities are scaled by 5 so that `80 + (100 - s)/5` stays an integer. `Priority` is proved equal to 5 times the real-valued source formula.
  - Accuracy ratios are Dafny `real`s.
- **The clock** becomes parameters: `now` (milliseconds) and `today` (a `YYYYMMDD` integer). Dates compare as integers in the same order that `localeCompare` gives `YYYY-MM-DD` strings.
- **Two behaviours of the source that the model keeps as written:**
  - `selectWordsForStudy` does not remove duplicate ids (`lib/vocabulary/spacedRepetition.ts:57-96`). The model proves that no catalog position is selected twice. It proves distinct ids only for a catalog whose ids are distinct (`SelectionHasDistinctIds`).
  - `updateProgress` sets `masteryLevel` to `floor(score / 20)` (`lib/vocabulary/spacedRepetition.ts:125-126`), so one correct answer on a fresh record gives level 3.
- **Default arguments** of the source are Dafny default parameters: `count := 10` and `prioritizeWeak := false` for `SelectWordsForStudy`, `limit := 50` for `GetWeakWords`. Because `now` has no default, it comes first in `SelectWordsForStudy`.

## Model

| member | source | states |
|---|---|---|
| SpacedRepetition.MasteryScore | lib/vocabulary/spacedRepetition.ts:6-19 | the score lies in 0..100; it is 0 for a record with no answers; otherwise it is 100 exactly when the rounded real formula reaches 100, and below 100 it is the real formula rounded half up |
| SpacedRepetition.RoundingIsFloor | lib/vocabulary/spacedRepetition.ts:13-18 | the integer quotient used for the score lies within half a point of the real `70c/t + min(30,3c)`, so it is `Math.round` of it |
| SpacedRepetition.ScoreStepMonotone | lib/vocabulary/spacedRepetition.ts:13-18 | one more correct answer never lowers the score |
| SpacedRepetition.ScoreMonotone | lib/vocabulary/spacedRepetition.ts:13-18 | with incorrectCount fixed, more correct answers never give a lower score |
| SpacedRepetition.ScoreExamples | lib/vocabulary/spacedRepetition.ts:6-19 | ten correct and no wrong answers score exactly 100; one correct and no wrong answers score 73 |
| SpacedRepetition.IntervalDays | lib/vocabulary/spacedRepetition.ts:26-38 | the interval is one of 1, 2, 4, 7, 14 days; it is 1 exactly below 20 and 14 exactly from 80 up |
| SpacedRepetition.IntervalMonotone | lib/vocabulary/spacedRepetition.ts:28-38 | a higher score never gets a shorter interval |
| SpacedRepetition.IntervalBoundaries | lib/vocabulary/spacedRepetition.ts:28-38 | scores of exactly 20, 40, 60 and 80 take the longer interval; 19, 39, 59 and 79 take the shorter one |
| SpacedRepetition.NextReviewDate | lib/vocabulary/spacedRepetition.ts:22-45 | the next review is a whole number of days after `now`, between 1 and 14 days after it, 14 days exactly when the score is at least 80 and 1 day exactly when it is below 20 |
| SpacedRepetition.NextReviewMonotone | lib/vocabulary/spacedRepetition.ts:22-45 | with incorrectCount fixed, more correct answers never bring the next review earlier |
| SpacedRepetition.Priority | lib/vocabulary/spacedRepetition.ts:57-90 | the scaled priority equals 5 times the source's real-valued priority; an unstudied word gets 50 (scaled 250); in normal mode an overdue word gets between 80 and 100, and no word gets more than 100 |
| SpacedRepetition.WeakPriorityIgnoresDueDate | lib/vocabulary/spacedRepetition.ts:71-77 | in weak-first mode the priority depends only on the counts, not on nextReview or the clock |
| SpacedRepetition.NormalPriorityUsesDueDate | lib/vocabulary/spacedRepetition.ts:78-87 | in normal mode the same counts give different priorities when overdue (85.4, scaled to 427) and when not (27, scaled to 135) |
| SpacedRepetition.SelectWordsForStudy | lib/vocabulary/spacedRepetition.ts:48-97 | the selection has `slice(0, count)` length: `min(count, n)` for a non-negative count (10 by default), and empty for an empty catalog |
| SpacedRepetition.RankedFacts | lib/vocabulary/spacedRepetition.ts:57-93 | the sorted `scored` array keeps every catalog entry with its own position, by non-increasing priority, with ties in catalog order |
| SpacedRepetition.SelectionDrawnAndOrdered | lib/vocabulary/spacedRepetition.ts:57-97 | each selected word is the catalog word at its recorded position; no position repeats; priorities do not increase along the selection, and equal priorities keep catalog order |
| SpacedRepetition.SelectionIsTop | lib/vocabulary/spacedRepetition.ts:93-96 | a catalog word left out never has a higher priority than a selected one, and on a tie it comes later in the catalog |
| SpacedRepetition.LeftOutRankLower | lib/vocabulary/spacedRepetition.ts:93-96 | over any stable ranking of the scored entries, an entry outside the first `k` ranks no higher than each entry kept, and loses ties by position |
| SpacedRepetition.SelectedPositionsAreRanked | lib/vocabulary/spacedRepetition.ts:96 | the selected positions are those of the first ranked entries |
| SpacedRepetition.SelectionHasDistinctIds | lib/vocabulary/spacedRepetition.ts:57-97 | a catalog with distinct ids yields a selection with distinct ids |
| SpacedRepetition.ConsistentLevels | lib/vocabulary/spacedRepetition.ts:125-127 | for a record whose level and mastered flag come from its score: the level lies in 0..5, it is 5 exactly at score 100, and mastered holds exactly when the level is at least 4 |
| SpacedRepetition.UpdateProgress | lib/vocabulary/spacedRepetition.ts:100-133 | the record of an existing progress keeps its wordId; exactly the counter that `isCorrect` selects goes up by one; lastReviewed is `now`; level and mastered flag agree with the new score; the next review is recomputed from the new counts and is after `now` |
| SpacedRepetition.GetWeakWords | lib/vocabulary/spacedRepetition.ts:136-155 | the result is a sub-multiset of the input; every element is unmastered and answered; its length is `min(limit, number of candidates)`, with `limit` 50 by default |
| SpacedRepetition.GetWeakWordsRanked | lib/vocabulary/spacedRepetition.ts:140-154 | the list goes by ascending accuracy, ties by more wrong answers first; any candidate left out is no weaker than any kept one; with at most `limit` candidates, all of them are kept |
| SpacedRepetition.WeakerFirstIsTotal | lib/vocabulary/spacedRepetition.ts:142-153 | the weak-word comparator is a total preorder, so the sort is well defined |
| SpacedRepetition.SumScores | lib/vocabulary/spacedRepetition.ts:167-169 | the sum of the scores is at most 100 per record |
| SpacedRepetition.CalculateVocabStats | lib/vocabulary/spacedRepetition.ts:158-178 | the total is the list length; studied, mastered and weak are the numbers of records that are answered, mastered, and answered with a score below 40; studied, mastered ≤ total and weak ≤ studied; the average lies in 0..100, is 0 for an empty list, and otherwise lies within half a point of the mean score (rounded half up) |
| SpacedRepetition.SummaryCounts | lib/vocabulary/spacedRepetition.ts:160-165 | each `filter(...).length` equals the number of positions whose record passes the filter |
| SpacedRepetition.RoundedMeanBound | lib/vocabulary/spacedRepetition.ts:167-176 | the rounded mean of scores of at most 100 lies in 0..100 |
| SpacedRepetition.RoundHalfUp | lib/vocabulary/spacedRepetition.ts:169-176 | `(2 sum + d) div 2d` is `Math.round(sum / d)`: it lies within half a point of the real quotient, halves going up |
| AppContext.InitialStatsFacts | contexts/AppContext.tsx:48-68 | the initial stats have every part 1..7 at zero and totalWords equal to the catalog size, and they satisfy the stats invariant |
| AppContext.UpsertToday | contexts/AppContext.tsx:104-121 | if a row for today exists, the first such row gets the answers, correct answers and time added and every other row is unchanged; otherwise exactly one row for today is appended |
| AppContext.AddToToday | contexts/AppContext.tsx:104-121 | the in-place update or `push` on the copied history yields the upserted history |
| AppContext.NewestWeekKeepsNewest | contexts/AppContext.tsx:124 | the kept history has `min(7, n)` rows, newest first, drawn from the input, and every dropped row is no newer than every kept row |
| AppContext.QuizKeepsDatesDistinct | contexts/AppContext.tsx:104-124 | a history with distinct dates keeps distinct dates after a quiz |
| AppContext.ApplyQuiz | contexts/AppContext.tsx:100-140 | the totals, study time and the quiz's part are increased by the quiz results; every other part and every other field are unchanged; the history is the upserted one, newest first and at most 7 rows |
| AppContext.TodayStats | contexts/AppContext.tsx:182-196 | all zeros when no row is for today; otherwise the first row for today's counts and time, with accuracy `correct/answered·100`, or 0 when nothing was answered |
| AppContext.QuizAddsToToday | contexts/AppContext.tsx:99-140 | when the dates are distinct and none is in the future, today's statistics after a quiz are the previous ones plus the quiz's answers, correct answers and time |
| AppContext.TodayRowAfterUpsert | contexts/AppContext.tsx:104-121 | after the upsert, exactly one row is for today and it holds the previous today figures plus the quiz; no row is newer than today |
| AppContext.NewestFirstIsToday | contexts/AppContext.tsx:124 | when one row is for today and none is newer, that row comes first after the sort and truncation |
| AppContext.RecentHistory | contexts/AppContext.tsx:199-201 | the result has `slice(0, days)` length and holds those rows in reverse order |
| AppContext.RecentHistoryChronological | contexts/AppContext.tsx:199-201 | over a newest-first history, the recent history runs oldest first |
| AppContext.LowerRateFirstIsTotal | contexts/AppContext.tsx:149-154 | the vocabulary-statistics comparator is a total preorder |
| AppContext.ApplyVocab | contexts/AppContext.tsx:144-166 | only the vocabulary statistics change and totalWords is kept; masteredWords is the number of records with `isMastered`; the weak list is drawn from the records, holds only unmastered records with a wrong answer, and has `min(50, candidates)` entries |
| VocabularyTypes.MasteredFilterCount | contexts/AppContext.tsx:146 | `filter(p => p.isMastered).length` is the number of mastered records |
| AppContext.VocabWeakRanked | contexts/AppContext.tsx:147-155 | the weak list goes by ascending accuracy; a candidate left out has no lower accuracy than any kept one; with at most 50 candidates, all are kept |
| AppContext.LowestRatesKept | contexts/AppContext.tsx:149-155 | sorting by rate and keeping 50 keeps the lowest rates, sorted, and keeps everything when there are at most 50 |
| AppContext.ApplyDiaryEntry | contexts/AppContext.tsx:169-174 | only the diary changes; it has `min(100, n+1)` entries, the new entry first, followed by the old entries in their order |
| AppContext.WeakWords | contexts/AppContext.tsx:177-179 | for well-formed stats, the weak-word view has at most 50 unmastered records with a wrong answer |
| AppContext.UpdatesKeepWellFormed | contexts/AppContext.tsx:143-174 | the vocabulary and diary updates keep the stats invariant |
| AppContext.AppProvider.constructor | contexts/AppContext.tsx:70-71 | the provider starts from the initial stats, which satisfy the invariant |
| AppContext.AppProvider.UpdateQuizStats | contexts/AppContext.tsx:99-141 | replaces `stats` with the quiz update: totals, study time and the quiz's part increased; vocabulary and diary unchanged; history upserted, sorted and truncated; the invariant is kept |
| AppContext.AppProvider.UpdateVocabStats | contexts/AppContext.tsx:144-166 | replaces `stats` with the vocabulary update and keeps the invariant |
| AppContext.AppProvider.AddDiaryEntry | contexts/AppContext.tsx:169-174 | replaces `stats` with the diary update and keeps the invariant |
| Wordbank.VocabIdRoundTrip | lib/vocabulary/wordbank.ts:117 | reading the number back from `vocab_` plus the zero-padded number gives the number |
| Wordbank.VocabIdInjective | lib/vocabulary/wordbank.ts:117 | different numbers give different ids |
| Wordbank.VocabIdLength | lib/vocabulary/wordbank.ts:117 | ids of numbers below 10000 are ten characters long |
| Wordbank.CreateWord | lib/vocabulary/wordbank.ts:109-130 | the id carries the given number; word, meaning, level and category are copied; synonyms, antonyms and collocations are empty |
| Wordbank.Catalog | lib/vocabulary/wordbank.ts:24-107 | the catalog has 1000 words |
| Wordbank.AppendBaseWords | lib/vocabulary/wordbank.ts:76-79 | the first loop of a level appends the level's hand-written words, numbered on from the id counter, which it advances by their number |
| Wordbank.AppendPlaceholders | lib/vocabulary/wordbank.ts:82-84 | the second loop of a level appends the numbered placeholders up to the level's size, completing the level's block and advancing the id counter to its end |
| Wordbank.AppendLevel | lib/vocabulary/wordbank.ts:75-84 | one level's pair of loops appends the level's block of words and advances the id counter by the block size |
| Wordbank.BuildLevels | lib/vocabulary/wordbank.ts:73-106 | the six loops over three hand-written lists build level 1's 400 words numbered from 1, then level 2's 400 from 401, then level 3's 200 from 801 |
| Wordbank.Generate1000Words | lib/vocabulary/wordbank.ts:24-107 | `generate1000Words` builds exactly the catalog |
| Wordbank.CatalogEntry | lib/vocabulary/wordbank.ts:73-104 | word `k` is the word at its local index within its level block; its id is `vocab_` with number `k+1`, and its level is 1 for the first 400, 2 for the next 400 and 3 for the last 200 |
| Wordbank.CatalogPlaceholder | lib/vocabulary/wordbank.ts:82-84 | a word at local index `i ≥ 10` within its level is named `word_l{L}_{i}`, means `意味{i}`, and has category `WORD_CATEGORIES[i mod 12]` |
| Wordbank.CatalogIdsDistinct | lib/vocabulary/wordbank.ts:73-117 | no two catalog words share an id |
| Wordbank.CatalogLevels | lib/vocabulary/wordbank.ts:76-104 | the catalog's levels run in blocks of 400, 400 and 200 |
| Wordbank.LevelsAreBlocks | lib/vocabulary/wordbank.ts:133-136 | the words of a level are exactly that level's block of the catalog, in catalog order |
| Wordbank.FilterByBlock | lib/vocabulary/wordbank.ts:133-136 | filtering 1000 block-laid words by level yields that level's block |
| Wordbank.LevelFilter | lib/vocabulary/wordbank.ts:135 | filtering three single-level blocks by level keeps exactly the block of that level |
| Wordbank.GetWordsByCategory | lib/vocabulary/wordbank.ts:139-142 | every word returned is a catalog word of that category, and every catalog word of that category is returned |
| Wordbank.GetAllWords | lib/vocabulary/wordbank.ts:145-147 | all 1000 words, the `k`-th with id number `k+1` |
| Wordbank.CatalogIds | lib/vocabulary/wordbank.ts:73-117 | the `k`-th catalog word has id `vocab_` with number `k+1` |
| Wordbank.GetWordById | lib/vocabulary/wordbank.ts:150-153 | a found word is a catalog word with that id; nothing is found exactly when no catalog word has that id |
| Wordbank.GetWordByIdFinds | lib/vocabulary/wordbank.ts:150-153 | the id of number `n` in 1..1000 finds the catalog word at position `n-1` |
| Wordbank.GetWordByIdOnlyCatalogIds | lib/vocabulary/wordbank.ts:150-153 | only ids of the form `vocab_` plus a number in 1..1000 find a word, and that word sits at position number−1 |
| Decimal.NatToString | lib/vocabulary/wordbank.ts:117 | `toString()` of a natural is a non-empty digit string of at most 4 digits below 10000 |
| Decimal.DecimalValueOfNatToString | lib/vocabulary/wordbank.ts:117 | reading the decimal rendering of `n` gives `n` |
| Decimal.PadStart | lib/vocabulary/wordbank.ts:117 | `padStart` leaves strings of at least the width alone and otherwise prefixes fill characters up to the width |
| Decimal.LeadingZeros | lib/vocabulary/wordbank.ts:117 | leading zeros do not change the value a digit string denotes |
| Seqs.SliceEnd | contexts/AppContext.tsx:200 | the end index of `slice(0, end)` is `min(end, n)` for a non-negative end, and `max(0, n + end)` for a negative one |
| Seqs.Filter | lib/vocabulary/wordbank.ts:135 | `filter` keeps exactly the elements satisfying the predicate, as a sub-multiset of the input |
| Seqs.FilterConcat | lib/vocabulary/wordbank.ts:135 | filtering a concatenation is concatenating the filtered parts |
| Seqs.FilterCount | lib/vocabulary/spacedRepetition.ts:160 | the length of a filtered list is the number of positions whose element satisfies the predicate |
| Seqs.FindIndex | contexts/AppContext.tsx:105 | `findIndex` is −1 exactly when no element matches, and otherwise the first matching index |
| Seqs.Reverse | contexts/AppContext.tsx:200 | `reverse` puts element `i` at position `n−1−i` |
| Sorting.SortBySorted | lib/vocabulary/spacedRepetition.ts:93 | under a total preorder, the sort's result is in order |
| Sorting.SortByTieBreak | lib/vocabulary/spacedRepetition.ts:93 | the sort is stable: elements that compare equal keep their input order |
| Sorting.SortByPairwise | contexts/AppContext.tsx:124 | a symmetric relation holding between every two input elements still holds between every two output elements |
| Sorting.TopOfSorted | lib/vocabulary/spacedRepetition.ts:93-96 | the first `k` sorted elements are sorted, drawn from the input, and may precede every input element not kept |
| DebugTags.CheckTags | debug_tags.py:15-33 | the report is the scan's unmatched-close messages followed by the final message, which is "all matched" exactly when the final stack is empty |
| DebugTags.ScanLine | debug_tags.py:21-28 | the inner loop over a line's tags continues the scan by that line's tokens |
| DebugTags.EventsOrdered | debug_tags.py:17-21 | tokens carry line numbers from 1 to the number of lines, in non-decreasing order |
| DebugTags.StackOrdered | debug_tags.py:17-28 | the stack's line numbers do not decrease from bottom to top and none is after the last token's line |
| DebugTags.CheckedStackOrdered | debug_tags.py:15-28 | after a whole page, the stack is ordered and within the page's lines |
| DebugTags.Counts | debug_tags.py:17-28 | opens minus the final stack size equals closes minus the reported errors; every report during the scan is an unmatched closing tag |

## Left out

- Storage I/O: the `localStorage` load and save effects (`contexts/AppContext.tsx:74-96`) and the file read and total counts in `debug_tags.py:3-12`.
- The regular expression at `debug_tags.py:20`: each line is given as its sequence of open and close tokens. Console output becomes a list of report messages.
- The clock: `new Date()` becomes the `now` and `today` parameters. `updateProgress` reads the clock twice (`lastReviewed`, and inside `calculateNextReviewDate`); the model uses one `now` for both.
- Floating point: scores, priorities and rates use exact integers or reals, so JavaScript rounding error is not modelled. Counts are naturals, not arbitrary JavaScript numbers.
- Date strings: dates are `YYYYMMDD` integers. The UTC conversion of `toISOString` is not modelled.
- The React component, context plumbing and rendering (`contexts/AppContext.tsx:203-226`).
- The provider's `stats` replacement models `setStats` with an updater function. React's batching and re-rendering are not modelled.
- The sort calls: each in-place `sort` on a fresh array is modelled as a pure stable sort over sequences (`Sorting.SortBy`).
- AppContext.AddToToday: this member models the `findIndex`, overwrite and `push` steps of `updateQuizStats`. The sort, truncation and record update follow in `AppContext.ApplyQuiz`.
- Wordbank.AppendLevel: requires a base list of at most 10 words, which all three levels have. With a longer list the source's second loop would skip entries 10 onward, and that case is not modelled. `Wordbank.AppendBaseWords` and `Wordbank.BuildLevels` carry the same requirement. The six loops of `generate1000Words` are three calls of this method, each running one loop in `Wordbank.AppendBaseWords` and one in `Wordbank.AppendPlaceholders`. The hand-written lists are parameters of `Wordbank.BuildLevels` rather than locals.
- Wordbank.GetWordsByCategory: states membership in both directions but not the catalog order. Catalog order is stated for levels, by `Wordbank.LevelsAreBlocks`.
- `getWordsByLevel` has no contract of its own. `Wordbank.LevelsAreBlocks` states what it returns.
