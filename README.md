# Chapter quiz: a Dafny model of the quiz session

This project models the core of `script.js`, a browser quiz. Its questions are
grouped into chapters, and each chapter has levels 1 to 10. The model covers:

- **Progress** (`progress.dfy`): the unlock tracker. It maps each chapter
  index to the list of unlocked level numbers. It covers the first-run
  progress of `loadState`, the forced unlock of `startDaily` and the unlock
  rule of `levelComplete`.
- **Bank** (`bank.dfy`): question selection in `startLevel`. It filters the
  bank by chapter index and level, shuffles the result and keeps at most
  `QUESTIONS_PER_LEVEL` (12) questions.
- **Shuffle** (`shuffle.dfy`): `shuffleArray`, the Durstenfeld form of the
  Fisher-Yates shuffle, run in place on an array copy of the input.
- **Scoring** (`scoring.dfy`): the points a click earns in `selectOption`,
  the 15-second countdown and the rounded percent of `levelComplete`.
- **Leaderboard** (`leaderboard.dfy`): `saveLeaderboardEntry`. It appends
  the entry, sorts by percent (highest first), then by time (latest first),
  and keeps the first 200 entries.
- **Quiz** (`quiz.dfy`): the script's module-level state as the fields of
  one `QuizApp` object. Its event handlers are methods, and each method ties
  the new state to the functions above.

The script calls `Math.random` in two places:

- In `shuffleArray`, the index chosen at step `i` is supplied by the caller
  as `pick(i)`. The only constraint is `pick(i) <= i` (`Shuffle.Picks`).
- In `startDaily`, the random chapter and level come in as arguments.

The clock (`new Date()`) is supplied as the argument `now`.
`Math.round(100 * correct / total)` is written as the integer
`(200 * correct + total) / (2 * total)`. Both round halves up. With at most 12
questions, the only exact half is at `total == 8`, and the floating-point
quotient is exact there.

## Model

| member | source | states |
|---|---|---|
| Quiz.QuizApp.constructor | script.js:25-26 | the initial state (with the declarations of script.js lines 2 and 6): chapter names from the fetched bank, no progress, the stored leaderboard, chapter 0 level 1, no questions, cursor 0, a zero score and a stopped timer at 15 seconds |
| Progress.EmptyChapters | script.js:34 | the loop leaves chapters `0..n-1` present, each with an empty list, and no other chapter |
| Progress.Initial | script.js:32-35 | first-run progress has exactly chapters `0..max(n,1)-1`, chapter 0 holds `[1]` and the rest `[]`; the only unlocked pair is chapter 0, level 1; no list repeats a level |
| Quiz.QuizApp.LoadState | script.js:29-37 | stored progress with no chapters is replaced by the first-run progress; otherwise it is kept as stored; nothing else changes |
| Progress.WithChapter | script.js:154 | creating a missing chapter adds exactly that key with `[]` and leaves every existing list alone |
| Progress.Grant | script.js:108 | after the guarded push, the level is unlocked; unlocked pairs are exactly the old ones plus this one; the old list is a prefix of the new one; other chapters are unchanged; an already unlocked level changes nothing; no duplicate is added |
| Progress.GrantIdempotent | script.js:108 | granting the same level twice equals granting it once |
| Progress.Completed | script.js:154-156 | below level 10, the next level is unlocked; at level 10 of a chapter other than the last, level 1 of the next chapter is unlocked; nothing is lost and nothing else is unlocked; the touched lists only grow at their end and untouched chapters keep their lists; no duplicate is added |
| Progress.CompletedKeys | script.js:154-156 | completing a level adds its chapter, and the next chapter when level 10 of a non-last chapter is completed, to the chapters present; no other chapter appears |
| Progress.CompletedIdempotent | script.js:154-156 | completing the same level again unlocks nothing more |
| Quiz.QuizApp.UnlockNext | script.js:154-156 | the guarded appends produce exactly `Completed` of the old progress |
| Quiz.QuizApp.StartDaily | script.js:103-110 | the chosen level is unlocked afterwards, through `Grant` of the old progress (then `Completed` when the level has no questions); every level unlocked before stays unlocked; the level starts as in `StartLevel`: its selected questions, cursor 0, score reset, then a full countdown with the leaderboard unchanged, or (no questions) a stopped timer and a recorded 0% entry |
| Bank.Pool | script.js:96 | the filtered pool is no longer than the bank, and every question in it has the requested chapter index and level |
| Bank.PoolCounts | script.js:96 | the filter keeps each question of the level exactly as often as the bank holds it, and no other question |
| Bank.ChapterNames | script.js:6 | the chapter-name list has no duplicates and holds exactly the names that occur in the bank |
| Shuffle.SwapPermutes | script.js:166 | the destructuring swap only rearranges the sequence |
| Shuffle.ShuffleFromPermutes | script.js:166 | any run of the shuffle loop keeps the length and the multiset of elements |
| Shuffle.TopPickKeepsOrder | script.js:166 | if every step picks its own position, the shuffle returns the input unchanged |
| Shuffle.ShuffleArray | script.js:166 | the in-place loop over the copy returns `Shuffled(a, pick)`, a permutation of `a`, and leaves `a` as it was |
| Bank.LevelQuestions | script.js:98 | the slice keeps 12 questions when the shuffled pool has that many, otherwise all of it |
| Bank.SelectQuestions | script.js:96-98 | at most 12 questions (the minimum of the pool size and 12); all of the requested chapter and level; none taken more often than the bank holds it; the whole pool when it has 12 or fewer; no repeats when the bank has none |
| Quiz.QuizApp.ResetLevel | script.js:94-98 | the new level's questions are the selection for `(ch, lv, pick)`; score and cursor are reset; the countdown value, progress and leaderboard are not in its frame, so they are unchanged |
| Quiz.QuizApp.OpenLevels | script.js:79-80 | opening a chapter's level grid sets the current chapter and nothing else: the level's questions, cursor and score stay, and the state stays valid |
| Quiz.QuizApp.StartLevel | script.js:93-101 | after a reset, the first question is shown with a full countdown; a level with no questions completes at once with a recorded 0% entry and the unlock rule applied |
| Quiz.QuizApp.NextQuestion | script.js:113-129 | past the last question, the timer stops, the entry is recorded and the unlock rule is applied; otherwise the countdown restarts at 15 and nothing else changes |
| Quiz.QuizApp.Next | script.js:55 | the cursor advances by one, and the state then follows `NextQuestion` |
| Scoring.Answer | script.js:136 | `correct` rises by one exactly when the choice is the answer; a wrong choice changes nothing; a right choice adds the non-negative seconds left to `timeBonus` |
| Quiz.QuizApp.SelectOption | script.js:131-140 | the timer stops, and the score becomes `Answer` of the old score with the shown question's answer and the seconds left |
| Scoring.RunBounds | script.js:136 | over a series of clicks, `correct` rises by at most one per click, and `timeBonus` rises by at most 15 for each right answer |
| Scoring.AllRight | script.js:136 | a series of right clicks adds exactly one right answer per click |
| Scoring.OneClickPerQuestion | script.js:136 | with at most one click per question, the level's percent lies in 0..100, and all right gives 100 |
| Scoring.RepeatedClickCountsTwice | script.js:131-136 | two right clicks on a one-question level score two right answers and 200% |
| Scoring.Timer.Tick | script.js:127 | one firing of a running timer takes one second off and stops it when it reaches zero; a stopped timer does not change |
| Scoring.CountdownStopsAtZero | script.js:126-127 | a countdown from `t` runs for exactly `t` firings and ends stopped at 0 |
| Scoring.StoppedTimerStaysStopped | script.js:144 | a stopped timer stays unchanged under any number of firings |
| Quiz.QuizApp.TimerTick | script.js:127 | the state's countdown becomes the `Tick` of the old countdown; nothing else changes |
| Scoring.RoundedPercent | script.js:150 | the result is the integer nearest to `100 * correct / total` (within half a unit); it lies in 0..100 when `0 <= correct <= total` |
| Scoring.PercentRange | script.js:150 | the rounding bounds keep the percent of `0 <= correct <= total` within 0..100 |
| Scoring.FullMarks | script.js:150 | the rounding bounds give exactly 100 when every question was answered right |
| Scoring.PercentAsWritten | script.js:149-150 | the percent is `NaN` exactly when the level has no questions, and otherwise lies in 0..100 when `0 <= correct <= total` |
| Scoring.EmptyLevelScoresNaN | script.js:149-150 | a level with no questions scores `NaN` |
| Scoring.LevelPercent | script.js:149-150 | an empty level scores 0; otherwise the rounded percent, which is 100 when every question was answered right |
| Quiz.QuizApp.LevelComplete | script.js:146-157 | the timer stops; the leaderboard becomes `Record` of the level's entry (`LevelPercent`, time `now`); the progress becomes `Completed` of the old progress |
| Leaderboard.Before | script.js:174 | `a` sorts strictly before `b` exactly when the comparator returns a negative number |
| Leaderboard.ComparatorAntisymmetric | script.js:174 | swapping the comparator's arguments negates its result |
| Leaderboard.Tie | script.js:174 | two entries tie exactly when the comparator returns 0 for them |
| Leaderboard.Insert | script.js:174 | inserting makes the list one entry longer |
| Leaderboard.InsertCounts | script.js:174 | inserting adds exactly the new entry: the multiset grows by that entry |
| Leaderboard.RankSort | script.js:174 | the sort keeps the length of its input |
| Leaderboard.RankSortPermutes | script.js:174 | the sort is a permutation of its input |
| Leaderboard.InsertRanked | script.js:174 | inserting into a ranked list keeps it ranked |
| Leaderboard.RankSortRanked | script.js:174 | the sort's result is ranked by percent (highest first), then by time (latest first) |
| Leaderboard.InsertLast | script.js:174 | an entry that sorts strictly before no entry of the list goes at the end (stability) |
| Leaderboard.RankSortOfRanked | script.js:174 | sorting an already ranked list leaves it unchanged |
| Leaderboard.RankSortStable | script.js:174 | the sort is stable: the entries that tie under the comparator keep their input order |
| Leaderboard.StableSortUnique | script.js:174 | two ranked lists that hold every tie class in the same order are equal |
| Leaderboard.RankSortIsStableSort | script.js:174 | any ranked list that keeps each tie class of the input in input order is `RankSort` of the input, so every stable sort with this comparator agrees with it |
| Leaderboard.Record | script.js:171-175 | the stored list has `min(n + 1, 200)` entries and is a prefix of the sorted list with the new entry |
| Leaderboard.RecordRanked | script.js:171-175 | the stored list is ranked and holds at most 200 entries; it takes no entry more often than the old list plus the new entry hold it; no dropped entry ranks strictly before a kept one |
| Leaderboard.RecordKeepsEntry | script.js:171-175 | while the list has fewer than 200 entries, the new entry is kept |
| Leaderboard.RecordInsertsAtRank | script.js:171-175 | on a ranked list, recording means inserting the entry at its rank and keeping the first 200 |
| Quiz.QuizApp.SaveLeaderboardEntry | script.js:170-175 | the leaderboard becomes `Record` of the old leaderboard and the entry; nothing else changes |

## Left out

- Loading the bank with `fetch` is not modelled. The bank is a constructor argument.
- The DOM rendering is not modelled, for the same reason as the bank: the
  screens, option buttons, feedback text, progress bar and question counter
  (`renderChapters`, the level grid that `openLevels` draws, `renderProgressBar`,
  `renderQuestionCount`, `renderLeaderboardPreview`, `renderLeaderboardFull`)
  write only to the page. Of `openLevels`, only its write to `curChapter` is
  modelled (`Quiz.QuizApp.OpenLevels`).
- The WebAudio beeps and the canvas background animation produce no state that the core reads.
- `localStorage` and JSON serialisation are not modelled. The stored progress
  and leaderboard are an argument and a field. Because `JSON.parse` failures
  are not caught in the source, a corrupt document is not modelled either.
- Settings (`soundToggle`, `confirm`), export and import of the saved data, and
  the "clear progress" button are outside the core.
- `setInterval`/`clearInterval` are replaced by the `timerOn` flag and one
  `TimerTick` per firing. The `autoSkip` feedback only shows the "next" button.
- `levelStartTime` is written but never read, so it is left out.
- Timestamps are integers (milliseconds). The comparator's parsing of ISO
  strings is not modelled.
- `Math.random` is not modelled as randomness. The chosen indices are
  parameters, and the model proves properties for every choice, not the
  uniformity of the shuffle.
- The source comments say "keep top 50", but the code keeps 200. The model follows the code.
- Quiz.QuizApp.SelectOption: requires a shown question (`qIndex < |levelQs|`).
  Options exist only while a question is on screen, and the source would
  throw on `levelQs[qIndex].answer` otherwise.
- Leaderboard.RankSort: a stable insertion sort stands in for
  `Array.prototype.sort`. The ECMAScript standard requires a stable sort from
  its 2019 edition on. `Leaderboard.RankSortIsStableSort` proves that every
  stable sort with this comparator returns what `RankSort` returns.
- Quiz.QuizApp.LevelComplete: an empty level is recorded with `percent` 0, not
  with the `NaN` of the source. In the sort right after the push
  (script.js:174), `b.percent - a.percent` is then `NaN`, which is falsy, so the comparison
  falls through to the time term. The new entry is ranked by time alone and,
  being the newest, most likely goes first. The comparator is then not
  consistent, so the standard leaves the order to the implementation. The
  model ranks the entry as 0 instead. On a full board of non-zero scores it
  drops that entry, where the source keeps it near the top. The entry is
  stored as `null` and shown as "null%".
- Quiz.QuizApp.StartLevel: for a level with no questions the same entry is
  recorded at once, with the same ranking difference as `LevelComplete`.
- Quiz.QuizApp.StartDaily: for a level with no questions, as for `StartLevel`.
- Quiz.QuizApp.NextQuestion: at the end of an empty level, as for `LevelComplete`.
- Quiz.QuizApp.Next: at the end of an empty level, as for `LevelComplete`.

Two behaviours of the code are worth knowing:

- **Empty level.** An empty level should score 0%, but the code computes
  `NaN` (see Findings). The session records the corrected 0 (the members
  named in the lines above).
- **Chapter changed mid-level.** `openLevels` sets `curChapter`, and the
  "next" button is never hidden again once shown (script.js:139, 142), so it
  can still be clicked, also by the Enter key (script.js:243-245). A level left
  this way and finished by "next" records its entry and unlocks under the new
  chapter, although its questions came from the old one. The model allows
  this: `QuizApp` tracks the chapter the questions were selected for
  separately from `curChapter`.
- **Repeated answers.** A second click on an option of the same question is
  scored again, because the code has no "answered" guard. The model keeps
  this behaviour. `Scoring.RepeatedClickCountsTwice` shows the result, and
  `Scoring.OneClickPerQuestion` states the bounds that hold when each
  question is answered once.

## Findings

| source | as written | input that shows it | evidently intended | confidence | as-written member | corrected member |
|---|---|---|---|---|---|---|
| script.js:149-150 | `Math.round((levelScore.correct/total)*100)` with `total == levelQs.length` | a chapter and level with no questions in the bank: `total == 0`, so `0/0` gives `NaN` and the entry is stored with `percent: null` | an empty level scores 0% | not executed | Scoring.PercentAsWritten, Scoring.EmptyLevelScoresNaN | Scoring.LevelPercent |
