# Reaction-training app, modelled in Dafny

This project models the logic of a small browser app that trains reaction time for sprinters. It has four games:

- **simple**: tap when the screen turns green.
- **sprint**: "on your marks", "set", "go", with false starts.
- **color**: tap on green only.
- **dual**: the color game plus remembering the digits shown.

The model also covers the ranking page and the record store behind them. Each part becomes Dafny in the form the source has:

- The scoring library (`Evaluation`) and the ranking page (`Ranking`) are pure functions with contracts and lemmas.
- The store (`Storage.Store`) is a class over a key-to-value map.
- Each game page is a class whose fields are the page's state variables. React setters become field updates.
- Every timer, interval and effect callback is an event method that the environment calls when it fires.
- A method that schedules a timer returns the delay it asks for.
- `Date.now()` is a parameter `now`. Each draw of `Math.random()` is a parameter in `[0, 1)`.
- The id and timestamp that `addRecord` generates are parameters.

The colour rules are shared by the color and dual pages: the palette, the draw that never shows green straight after green, trial judging, and the results figures. They live in `ColorRules`.

Files:

| file | models |
|---|---|
| `Types.dfy` | `lib/types.ts`: records, users, sessions, modes; `Option`; `Math.round` |
| `SeqUtil.dfy` | `Array.prototype.filter` |
| `Evaluation.dfy` | `lib/evaluation.ts` |
| `Storage.dfy` | `lib/storage.ts` |
| `ColorRules.dfy` | what `app/color/page.tsx` and `app/dual/page.tsx` share |
| `SimpleGame.dfy`, `SprintGame.dfy`, `ColorGame.dfy`, `DualGame.dfy` | the four game pages |
| `Ranking.dfy` | `app/ranking/page.tsx` |

Numbers:

- Reaction times are `int` milliseconds.
- Means, accuracies and scores are exact `real`s.
- `Math.round(x)` is `Floor(x + 0.5)`.
- `Math.sqrt` is never taken. The consistency label is stated through the variance: a standard deviation below 20 is a variance below 400, one below 40 is a variance below 1600. The lemma `ConsistencyByStdDev` proves this is the label of the exact root.
- The rounded standard deviation is the unique `n` with `(n - 0.5)^2 <= variance < (n + 0.5)^2`.

## Model

| member | source | states |
|---|---|---|
| `Types.Round` | lib/evaluation.ts:104 | `Math.round`: the integer nearest to `x`, halves rounded up |
| `Types.RoundMonotone` | lib/evaluation.ts:104 | rounding preserves order |
| `SeqUtil.Filter` | lib/storage.ts:51-61 | the kept elements are exactly the elements satisfying the predicate, and the result is no longer than the input |
| `SeqUtil.FilterConcat` | lib/storage.ts:41-53 | filtering distributes over concatenation |
| `Evaluation.EvaluateDualTaskScore` | lib/evaluation.ts:5-35 | 🧠 iff score ≥ 80, 🎯 iff 60 ≤ score < 80, 💪 iff 40 ≤ score < 60, 🌱 iff score < 40; the four tiers partition the numbers |
| `Evaluation.EvaluateReactionTime` | lib/evaluation.ts:37-73 | ⚡ iff ≤ 150, 🔥 iff in (150, 200], 👍 iff in (200, 250], 💪 iff in (250, 300], 🌱 iff > 300; total over all numbers |
| `Evaluation.TierIndex` | lib/evaluation.ts:5-73 | the position of a tier in its best-first list |
| `Evaluation.ReactionTierMonotone` | lib/evaluation.ts:37-73 | a slower time never gets a better tier |
| `Evaluation.DualTierMonotone` | lib/evaluation.ts:5-35 | a higher dual score never gets a worse tier |
| `Evaluation.CalculateSprintImpact` | lib/evaluation.ts:77-89 | both fields are within half a millisecond of rt/1000 and max(0, (rt − 150)/1000); the potential is never negative, and is 0 when rt ≤ 150 |
| `Evaluation.SprintImpactOfInteger` | lib/evaluation.ts:77-89 | for whole milliseconds the advantage is exactly rt/1000; the potential is 0 iff rt ≤ 150, else exactly (rt − 150)/1000 |
| `Evaluation.Min` | lib/evaluation.ts:96 | `Math.min(...times)` is a member of the list and no larger than any element |
| `Evaluation.Max` | lib/evaluation.ts:97 | `Math.max(...times)` is a member of the list and no smaller than any element |
| `Evaluation.Variance` | lib/evaluation.ts:100 | the population variance is never negative |
| `Evaluation.RoundedSqrt` | lib/evaluation.ts:101-107 | `Math.round(Math.sqrt(v))` as the `n` with `(n − ½)² ≤ v < (n + ½)²` |
| `Evaluation.RoundedSqrtUnique` | lib/evaluation.ts:101-107 | that bracket determines the rounded root uniquely |
| `Evaluation.RoundedSqrtIsRoundOfRoot` | lib/evaluation.ts:101-107 | for the exact root `sd` of `v`, `RoundedSqrt(v)` is `Math.round(sd)` |
| `Evaluation.ConsistencyByStdDev` | lib/evaluation.ts:108 | the variance-based label is 安定 iff sd < 20 and 普通 iff 20 ≤ sd < 40, otherwise 不安定 |
| `Evaluation.CalculateStats` | lib/evaluation.ts:92-110 | null iff the list is empty; fastest and slowest are members and bound every time; average is the rounded mean; stdDev and consistency come from the variance |
| `Evaluation.MeanBetweenMinAndMax` | lib/evaluation.ts:95-97 | the unrounded mean lies between the fastest and the slowest time |
| `Evaluation.StatsAverageBetween` | lib/evaluation.ts:95-106 | fastest ≤ average ≤ slowest, after rounding too |
| `Evaluation.StatsOfConstant` | lib/evaluation.ts:92-110 | an all-equal list of `c` gives average `c`, fastest and slowest `c`, stdDev 0, 安定 |
| `Evaluation.StatsExample` | lib/evaluation.ts:92-110 | [200, 210, 190] gives average 200, fastest 190, slowest 210, stdDev 8, 安定 |
| `Storage.StoredUser` | lib/storage.ts:11-15 | getUser gives a user iff the user key is present |
| `Storage.StoredRecords` | lib/storage.ts:28-32 | getRecords gives [] when the records key is absent |
| `Storage.CurrentSession` | lib/storage.ts:64-85 | the stored session if there is one, else the default session with today's date |
| `Storage.AfterSessionRead` | lib/storage.ts:73-84 | the first getCurrentSession writes the default session; a later one changes nothing |
| `Storage.SessionReadIsStable` | lib/storage.ts:73-84 | a second read, on any later date, returns the same session and leaves the store as it is |
| `Storage.WithIdentity` | lib/storage.ts:34-39 | the new record carries the generated id and timestamp |
| `Storage.WithIdentityKeepsFields` | lib/storage.ts:34-39 | addRecord's record keeps every field it was given |
| `Storage.AfterAddRecord` | lib/storage.ts:41-46 | the stored list becomes the old list with the new record appended; the user and session keys are untouched |
| `Storage.AfterMaybeAdd` | lib/storage.ts:34-48 | a game's finishGame changes the store only by appending its record, and only when it built one |
| `Storage.ModeNameInjective` | lib/types.ts:4 | distinct modes have distinct JSON names |
| `Storage.RecordsOfUser` | lib/storage.ts:51-53 | exactly the stored records of that user |
| `Storage.RecordsOfModeName` | lib/storage.ts:55-57 | exactly the stored records whose mode string is the argument |
| `Storage.RecordsOfMode` | lib/storage.ts:59-61 | exactly the stored records of that mode |
| `Storage.ModeNameFilterAgrees` | lib/storage.ts:55-61 | looking a mode up by its name or by its value gives the same list, in stored order |
| `Storage.RecordsOfUserAfterAdd` | lib/storage.ts:41-53 | after addRecord, a user's list gains the new record at its end iff the record is theirs |
| `Storage.Store.constructor` | lib/storage.ts:4-8 | the store starts as the given well-formed map |
| `Storage.Store.GetUser` | lib/storage.ts:11-15 | returns the stored user or none |
| `Storage.Store.SaveUser` | lib/storage.ts:17-20 | writes only the user key, and `getUser` then returns that user |
| `Storage.Store.ClearUser` | lib/storage.ts:22-25 | removes only the user key, and `getUser` then returns none |
| `Storage.Store.GetRecords` | lib/storage.ts:28-32 | returns the stored list, or [] |
| `Storage.Store.AddRecord` | lib/storage.ts:34-49 | returns the fields plus id and timestamp; the stored list becomes old ++ [record]; the user and session keys are unchanged |
| `Storage.Store.GetRecordsByUser` | lib/storage.ts:51-53 | the user's records, in stored order |
| `Storage.Store.GetRecordsByMode` | lib/storage.ts:55-57 | the records whose mode name matches the string, in stored order |
| `Storage.Store.GetRecordsByModeType` | lib/storage.ts:59-61 | the records of the mode, in stored order |
| `Storage.Store.GetCurrentSession` | lib/storage.ts:64-85 | returns the stored session, or writes and returns the default |
| `Storage.Store.SetSession` | lib/storage.ts:87-90 | writes only the session key, and the next read returns that session |
| `Storage.UserRoundTrip` | lib/storage.ts:11-25 | saveUser then getUser gives the user back; clearUser then getUser gives none |
| `Storage.SessionRoundTrip` | lib/storage.ts:64-90 | two reads agree; setSession then a read gives the set session |
| `ColorRules.Palette` | app/color/page.tsx:42-49 | green and red; plus blue for medium and hard; plus yellow for hard |
| `ColorRules.DrawIndex` | app/color/page.tsx:50 | `Math.floor(Math.random() * n)` is a valid index |
| `ColorRules.RandomColor` | app/color/page.tsx:42-51 | the colour is always from the difficulty's palette |
| `ColorRules.InPaletteIsMembership` | app/color/page.tsx:42-49 | the case-by-case palette test agrees with membership in the palette list |
| `ColorRules.ChooseColor` | app/color/page.tsx:78-81 | the do-while loop returns the first draw that is not green after green; every earlier draw was rejected; the colour is from the palette |
| `ColorRules.TapTrial` | app/color/page.tsx:114-128 | a tap trial is judged: correct iff green, with a time iff correct |
| `ColorRules.TimeoutTrial` | app/color/page.tsx:90-98 | a timeout trial is correct iff not green, and has no time |
| `ColorRules.AcceptedKeepsNoGreenAfterGreen` | app/color/page.tsx:78-81 | appending an accepted colour keeps two greens from ever being adjacent |
| `ColorRules.CorrectTrials` | app/color/page.tsx:137 | exactly the correct trials |
| `ColorRules.Accuracy` | app/color/page.tsx:142 | 100·correct/total lies in [0, 100]; it is 100 iff every trial is correct and 0 iff none is |
| `ColorRules.RatioBounds` | app/color/page.tsx:142 | a count over a larger total lies in [0, 1], reaching 1 exactly at the total and 0 exactly at zero |
| `ColorRules.RoundOfPercentage` | app/color/page.tsx:154 | the rounded accuracy lies in 0..100; with at most 100 trials it is 100 iff every trial is correct |
| `ColorRules.SavedReactionTimes` | app/color/page.tsx:137-140 | the saved times come from correct trials that have a time |
| `ColorRules.SavedReactionTimesAppend` | app/color/page.tsx:137-140 | recording a trial appends its time when it is correct and timed, and nothing otherwise: every such time is saved once, in trial order |
| `ColorRules.SavedTimesAreGreenTaps` | app/color/page.tsx:114-140 | for judged trials, one time is saved per tap on green |
| `ColorRules.DisplayedReactionTimes` | app/color/page.tsx:188-191 | the results screen's truthiness filter drops 0 ms times |
| `ColorRules.DisplayedReactionTimesAppend` | app/color/page.tsx:188-191 | recording a trial appends its time when it is correct and timed with a non-zero time, and nothing otherwise |
| `ColorRules.DisplayedEqualsSavedWithoutZero` | app/color/page.tsx:137-191 | the two averages use the same list unless some time is exactly 0 ms |
| `ColorRules.ZeroTimeExample` | app/color/page.tsx:137-191 | taps at 0 and 100 ms save an average of 50 but display 100 |
| `ColorRules.AverageTime` | app/color/page.tsx:143-145 | 0 without times, otherwise between the fastest and the slowest time |
| `ColorRules.ResultsStats` | app/color/page.tsx:184-192 | null iff there are no trials; correct is the number of correct trials, at most the total; accuracy is the rounded `Accuracy`, in 0..100; avgTime is the rounded average of the displayed times |
| `SimpleGame.WaitTime` | app/simple/page.tsx:54 | the wait lies in [2000, 5000) ms |
| `SimpleGame.SimpleRecord` | app/simple/page.tsx:94-109 | a record exists iff there is a user and at least one time; mode simple, with the rounded mean, between the fastest and slowest time |
| `SimpleGame.SimpleRecordOfConstant` | app/simple/page.tsx:98-106 | equal times are saved as that time |
| `SimpleGame.Game.constructor` | app/simple/page.tsx:13-30 | the initial fields, with the user read from the store |
| `SimpleGame.Game.StartGame` | app/simple/page.tsx:32-35 | the countdown screen with the counter at 3 |
| `SimpleGame.Game.CountdownTick` | app/simple/page.tsx:37-46 | the counter goes down by one; the tick that finds it ≤ 1 sets 0 and starts the first trial |
| `SimpleGame.Game.StartTrial` | app/simple/page.tsx:49-55 | waiting, with tooEarly cleared; the go timer is due after the wait |
| `SimpleGame.Game.GoTimerFired` | app/simple/page.tsx:56-59 | go, with the start time stamped |
| `SimpleGame.Game.HandleTap` | app/simple/page.tsx:62-92 | while waiting: tooEarly, nothing appended, still waiting; on go: appends exactly now − startTime and shows the result; otherwise nothing changes |
| `SimpleGame.Game.CooldownElapsed` | app/simple/page.tsx:66-90 | next trial iff currentTrial < 4, otherwise finishGame |
| `SimpleGame.Game.FinishGame` | app/simple/page.tsx:94-109 | complete; the store gains `SimpleRecord` of the times, or nothing |
| `SimpleGame.Game.FinishWith` | app/simple/page.tsx:94-109 | the finishGame of a render with the given times: complete; the store gains `SimpleRecord` of those times, or nothing |
| `SimpleGame.Game.CooldownElapsedAsWritten` | app/simple/page.tsx:83-109 | as written: next trial iff currentTrial < 4, otherwise the record of the captured pre-tap times |
| `SimpleGame.Game.ResetGame` | app/simple/page.tsx:111-116 | intro, no times, trial 0, tooEarly false |
| `SimpleGame.CountdownScenario` | app/simple/page.tsx:32-59 | three ticks after startGame reach the first waiting screen |
| `SimpleGame.LastTrialScenario` | app/simple/page.tsx:77-109 | a hit on the last trial is part of the saved record (the corrected finishGame) |
| `SimpleGame.StaleFinishDropsLoneHit` | app/simple/page.tsx:83-109 | as written, a game whose only hit is the last saves nothing; as intended it saves that time |
| `SimpleGame.StaleLastTrialScenario` | app/simple/page.tsx:77-109 | as written, a last hit is shown but the store gains the record of the times before it |
| `SimpleGame.StaleFinishExample` | app/simple/page.tsx:83-109 | four hits at 200 ms and a last one at 300 ms are saved as 200 ms, not 220 ms |
| `SimpleGame.StaleFinishHarmlessAfterEarlyTap` | app/simple/page.tsx:63-75 | after an early last tap both readings save the same record |
| `SprintGame.SetTime` | app/sprint/page.tsx:47 | the wait between set and go lies in [1000, 3000) ms |
| `SprintGame.TapOutcome` | app/sprint/page.tsx:64-113 | a false start iff the phase is ready or set, or go with elapsed < 100; counted iff go with elapsed ≥ 100; ignored in intro, result and complete |
| `SprintGame.CooldownAfter` | app/sprint/page.tsx:70-111 | 2500 ms after a false start, 2000 ms after a counted tap |
| `SprintGame.FalseStartBoundary` | app/sprint/page.tsx:85 | 99 ms is a false start and 100 ms counts |
| `SprintGame.SprintRecord` | app/sprint/page.tsx:115-129 | like the simple record, in mode sprint; at least 100 ms when every kept time is |
| `SprintGame.Game.constructor` | app/sprint/page.tsx:14-29 | the initial fields, with the user read from the store |
| `SprintGame.Game.StartGame` | app/sprint/page.tsx:31-36 | the ready screen; the first trial is due in 2000 ms |
| `SprintGame.Game.StartTrial` | app/sprint/page.tsx:38-43 | ready, with falseStart cleared; set is due in 1500 ms |
| `SprintGame.Game.SetTimerFired` | app/sprint/page.tsx:43-48 | set, with go due after a wait in [1000, 3000) |
| `SprintGame.Game.GoTimerFired` | app/sprint/page.tsx:48-54 | go, with the start time stamped |
| `SprintGame.Game.HandleTap` | app/sprint/page.tsx:64-113 | judged by `TapOutcome`: a false start marks and shows the result with nothing appended; a counted tap appends its time; every kept time stays ≥ 100 |
| `SprintGame.Game.CooldownElapsed` | app/sprint/page.tsx:70-111 | next trial iff currentTrial < 4, otherwise finishGame, on all three paths |
| `SprintGame.Game.FinishGame` | app/sprint/page.tsx:115-129 | complete; the store gains `SprintRecord` of the times, or nothing |
| `SprintGame.Game.FinishWith` | app/sprint/page.tsx:115-129 | the finishGame of a render with the given times: complete; the store gains `SprintRecord` of those times, or nothing |
| `SprintGame.Game.CooldownElapsedAsWritten` | app/sprint/page.tsx:100-129 | as written: next trial iff currentTrial < 4, otherwise the record of the captured pre-tap times |
| `SprintGame.Game.ResetGame` | app/sprint/page.tsx:131-136 | intro, no times, trial 0, falseStart false |
| `SprintGame.SavedRecordIsCounted` | app/sprint/page.tsx:84-129 | a saved sprint record is at least 100 ms |
| `SprintGame.StaleFinishDropsLoneStart` | app/sprint/page.tsx:104-129 | as written, a game whose only counted start is the last saves nothing |
| `SprintGame.StaleLastStartScenario` | app/sprint/page.tsx:100-129 | as written, a counted last start is shown but the store gains the record of the times before it |
| `SprintGame.LastStartScenario` | app/sprint/page.tsx:100-129 | a counted last start is part of the saved record (the corrected finishGame) |
| `ColorGame.SpeedPoints` | app/color/page.tsx:147 | speed points lie in [0, 50], and are 0 without a time or at 500 ms and above |
| `ColorGame.ColorScoreOf` | app/color/page.tsx:147 | the score lies in 0..100 |
| `ColorGame.ColorScoreMonotone` | app/color/page.tsx:147 | higher accuracy and a faster average never lower the score |
| `ColorGame.ColorScoreExamples` | app/color/page.tsx:147 | all correct at 200 ms scores 80; all correct with no time scores 50 |
| `ColorGame.ColorRecord` | app/color/page.tsx:133-158 | a record exists iff there is a user and a trial; rounded saved average, rounded accuracy in 0..100 (100 iff all correct, for 20 trials), score in 0..100 |
| `ColorGame.Game.constructor` | app/color/page.tsx:22-40 | the initial fields, with the user read from the store |
| `ColorGame.Game.SetDifficulty` | app/color/page.tsx:240-290 | changes only the difficulty, on the intro screen |
| `ColorGame.Game.StartGame` | app/color/page.tsx:53-58 | the countdown screen, with the trials cleared |
| `ColorGame.Game.CountdownTick` | app/color/page.tsx:59-68 | counts down; the last tick starts play |
| `ColorGame.Game.StartNextTrial` | app/color/page.tsx:71-105 | after 20 trials, finishGame; otherwise it shows the first accepted draw, timed from now, with a 3000 ms timeout |
| `ColorGame.Game.TrialEffect` | app/color/page.tsx:107-112 | while playing, shows the next stimulus or finishes |
| `ColorGame.Game.HandleTap` | app/color/page.tsx:114-131 | ignored outside play; otherwise appends the judged tap trial, and trials stay judged with no green after green |
| `ColorGame.Game.TrialTimeout` | app/color/page.tsx:90-102 | appends the judged timeout trial |
| `ColorGame.Game.FinishGame` | app/color/page.tsx:133-158 | complete; the store gains `ColorRecord`, or nothing |
| `ColorGame.Game.ResetGame` | app/color/page.tsx:160-164 | intro, no trials, trial 0 |
| `ColorGame.OneTrialScenario` | app/color/page.tsx:83-131 | green tapped at 250 ms is correct with that time; any other colour left alone is correct without a time |
| `DualGame.TotalTrials` | app/dual/page.tsx:35 | 15, 20 or 25 trials for easy, medium or hard |
| `DualGame.RandomNumber` | app/dual/page.tsx:57-59 | the digit lies in 1..9 |
| `DualGame.StimulusNumber` | app/dual/page.tsx:96-97 | a digit is shown iff the coin is below 0.3, and it is 1..9 |
| `DualGame.DigitOf` | app/dual/page.tsx:99-101 | a shown digit adds exactly one entry |
| `DualGame.Digits` | app/dual/page.tsx:99-101 | the trials' digits, in trial order |
| `DualGame.DigitsAppend` | app/dual/page.tsx:99-150 | recording a trial appends its digit |
| `DualGame.DigitsAreDigits` | app/dual/page.tsx:57-59 | every remembered digit is 1..9 |
| `DualGame.MemoryAccuracy` | app/dual/page.tsx:154-157 | 100 iff the parsed answer, NaN read as 0, equals the sum; else 0 |
| `DualGame.MemoryAccuracyExamples` | app/dual/page.tsx:154-157 | 3 + 5 answered 8 is right and answered blank is wrong; no digits with a blank answer is right |
| `DualGame.SpeedPoints` | app/dual/page.tsx:179 | speed points lie in [0, 20], and are 0 without a time or at 1000 ms and above |
| `DualGame.DualScoreOf` | app/dual/page.tsx:176-180 | the 50/30/20 score lies in 0..100 |
| `DualGame.RightSumAddsThirty` | app/dual/page.tsx:178 | the right sum is worth exactly 30 points |
| `DualGame.DualScoreExample` | app/dual/page.tsx:176-180 | perfect at 100 ms scores 98; perfect colours, wrong sum, no time scores 50 |
| `DualGame.DualRecord` | app/dual/page.tsx:162-191 | a record exists iff there is a user and a trial; accuracy is the rounded mean of the two accuracies, in 0..100; score in 0..100 |
| `DualGame.DualResultsStats` | app/dual/page.tsx:220-230 | the color figures plus the digit sum and count |
| `DualGame.RecordKeepsJudged` | app/dual/page.tsx:88-150 | recording an allowed stimulus keeps every trial judged, with no green after green |
| `DualGame.Game.constructor` | app/dual/page.tsx:22-44 | the initial fields, with the user read from the store |
| `DualGame.Game.SetDifficulty` | app/dual/page.tsx:281-333 | changes only the difficulty, on the intro screen |
| `DualGame.Game.StartGame` | app/dual/page.tsx:61-67 | the countdown screen, with trials and digits cleared |
| `DualGame.Game.CountdownTick` | app/dual/page.tsx:68-77 | counts down; the last tick starts play without drawing (the corrected countdown) |
| `DualGame.Game.CountdownTickAsWritten` | app/dual/page.tsx:61-106 | the last tick runs the first render's startNextTrial, which may append a digit that no trial carries |
| `DualGame.Game.StaleDraw` | app/dual/page.tsx:86-104 | the first render's draw: an easy-palette colour, the coin's digit appended to memoryNumbers, timed from `now`, trials untouched |
| `DualGame.Game.StartNextTrial` | app/dual/page.tsx:80-125 | after the last trial, opens the answer form; otherwise it shows the first accepted colour and the coin's digit, and appends that digit to memoryNumbers |
| `DualGame.Game.ShowStimulus` | app/dual/page.tsx:97-104 | the accepted stimulus goes on screen timed from `now`, its digit is appended to memoryNumbers, and the class invariant, digit list included, is kept |
| `DualGame.Game.PlaceStimulus` | app/dual/page.tsx:97-104 | the same field updates keep every recorded trial judged and the stimulus allowed, and change nothing else |
| `DualGame.Game.TrialEffect` | app/dual/page.tsx:127-132 | while playing with the form closed, shows the next stimulus or opens the form |
| `DualGame.Game.HandleTap` | app/dual/page.tsx:134-152 | ignored unless playing with the form closed; otherwise appends the judged tap trial with its digit; memoryNumbers stays the trials' digits |
| `DualGame.Game.TrialTimeout` | app/dual/page.tsx:109-122 | appends the judged timeout trial with its digit |
| `DualGame.Game.SubmitAnswer` | app/dual/page.tsx:154-160 | memory accuracy is 100 iff the answer is the sum of the digits the trials showed; then finishGame |
| `DualGame.Game.FinishGame` | app/dual/page.tsx:162-191 | complete; the store gains `DualRecord`, or nothing |
| `DualGame.Game.ResetGame` | app/dual/page.tsx:193-200 | intro, no trials, no digits, form closed |
| `DualGame.MemoryNumbersAreDigits` | app/dual/page.tsx:57-101 | every remembered digit is 1..9 |
| `DualGame.CountdownDigitScenario` | app/dual/page.tsx:61-106 | as written: before any trial, memoryNumbers can already hold a digit |
| `DualGame.AnswerScenario` | app/dual/page.tsx:154-160 | corrected: at the answer form the digit list is exactly the trials' digits |
| `DualGame.RepeatedSubmitScenario` | app/dual/page.tsx:154-191 | two submissions of the form save two records |
| `Ranking.SelectByMode` | app/ranking/page.tsx:31-36 | exactly the records of the selected mode, or all of them |
| `Ranking.SelectAllKeepsEverything` | app/ranking/page.tsx:33 | the 'all' filter keeps every record |
| `Ranking.InsertByTime` | app/ranking/page.tsx:37 | insertion keeps the elements (as a multiset) and adds one |
| `Ranking.InsertSorted` | app/ranking/page.tsx:37 | insertion keeps a list sorted |
| `Ranking.InsertWithTime` | app/ranking/page.tsx:37 | insertion changes only its own time class, at that class's front |
| `Ranking.SortByTime` | app/ranking/page.tsx:37 | a sorted permutation of the input |
| `Ranking.SortIsStable` | app/ranking/page.tsx:37 | records with equal times keep their stored order |
| `Ranking.FilteredRecords` | app/ranking/page.tsx:30-38 | as many entries as match, up to 50; a sub-multiset of the matching records, so none repeats beyond its stored count; sorted by time; the first entries of the stable sort |
| `Ranking.LeftOutAreSlower` | app/ranking/page.tsx:37-38 | a matching record left out means the list is full and the record is no faster than the 50th |
| `Ranking.ListKeepsStoredOrder` | app/ranking/page.tsx:37-38 | up to 50 matches, equal times are listed in stored order |
| `Ranking.WithTimeOfPrefix` | app/ranking/page.tsx:37-38 | cutting a list to its first n entries keeps a prefix of each time class |
| `Ranking.ListKeepsStoredOrderPrefix` | app/ranking/page.tsx:31-38 | for any number of matches, the listed records of each time are the first stored ones of that time, in stored order |
| `Ranking.UserRank` | app/ranking/page.tsx:41-43 | 0 iff no user or no listed record of theirs; otherwise one more than the index of their first listed record |
| `Ranking.FindIndex` | app/ranking/page.tsx:42 | `findIndex`: the first matching index, or −1 iff none |
| `Ranking.Find` | app/ranking/page.tsx:46 | `find`: a matching listed record, or none iff there is none |
| `Ranking.FindAgrees` | app/ranking/page.tsx:41-47 | `find` returns the element at `findIndex` |
| `Ranking.BestRecordAtRank` | app/ranking/page.tsx:41-47 | userBestRecord is the record at position userRank − 1 when userRank > 0, else absent |
| `Ranking.BestRecordIsFastest` | app/ranking/page.tsx:37-47 | on the sorted list, the best record is the user's fastest listed time |
| `Ranking.NatToString` | app/ranking/page.tsx:53 | `${rank}` is a non-empty string of decimal digits |
| `Ranking.NatToStringRoundTrip` | app/ranking/page.tsx:53 | reading those digits back gives the rank |
| `Ranking.MedalEmoji` | app/ranking/page.tsx:49-54 | 🥇, 🥈, 🥉 for 1, 2, 3; the rank followed by 位 from 4 on |
| `Ranking.MedalNamesTheRank` | app/ranking/page.tsx:49-54 | from 4 on the label ends in 位 and its digits read back as the rank |
| `Ranking.EvaluationEmojiAgrees` | app/ranking/page.tsx:56-62 | the page's emoji chain always agrees with `evaluateReactionTime(t).emoji` |
| `Ranking.ParticipantCount` | app/ranking/page.tsx:255 | the number of distinct user ids: at most the list length, at least 1 for a non-empty list |
| `Ranking.Times` | app/ranking/page.tsx:262 | the listed times, in order |
| `Ranking.AverageOfList` | app/ranking/page.tsx:261-264 | the rounded mean of the listed times, between the first and the last listed time |
| `Ranking.FastestTime` | app/ranking/page.tsx:271 | the first listed time, 0 for an empty list; on the sorted list the minimum |
| `Ranking.LoadRanking` | app/ranking/page.tsx:19-28 | reads the user and the records, and the session, which is written on first read |

## Left out

- Rendering, CSS, router navigation, the login form and `alert`/`confirm` are not modelled. They are display only. The user check that redirects to `/` is a constructor that reads the user.
- `setTimeout`/`setInterval` scheduling is not modelled. Timer, interval and effect callbacks are event methods that the environment may call in any order their preconditions allow.
- Cancelled timeouts are not modelled. The color and dual cleanup clears the trial timeout, so `TrialTimeout` requires the stimulus to be still open.
- The simple page's go timer is never cancelled in the source. `SimpleGame.Game.GoTimerFired` may fire in any phase, as written.
- `SimpleGame.Game.CooldownElapsed`, `SprintGame.Game.CooldownElapsed`: the `currentTrial` captured by the cooldown closure is not modelled; the model reads the current field. The two differ when two cooldowns are queued for the same trial k, with no reset involved. On the simple page, two early taps on 'waiting' both capture k; so does an early tap followed by a tap on the 'go' opened by the go timer, which is never cancelled. On the sprint page, a false start leaves the set and go timers pending, and they reopen 'set' or 'go' during 'result', so a second tap queues a second cooldown. In the source, each such cooldown advances `currentTrial` by one through a functional update and starts a trial; with k = 3 the second one sees 3 < 4 and starts a sixth trial. The model's second cooldown reads the current 4 and finishes the game, and its invariant `currentTrial < TotalTrials` cannot represent a sixth trial.
- The color page's countdown runs the first render's `startNextTrial` and then the effect draws again. That stale draw is not modelled for the color page: its timeout saw the phase 'intro' and never records, and the effect's draw replaces its colour at once. The dual page's version of it is a finding below.
- `Math.random()` and `Date.now()` are parameters, with range preconditions. No probability distribution is modelled, including the 30 % digit chance.
- The `ChooseColor` loop is modelled as terminating on the given draws. Its precondition requires some accepted draw among them. The source's loop ends with probability 1.
- Floating point is not modelled: `Math.sqrt`, `toFixed` display strings and rounding error. All arithmetic is exact.
- `Evaluation.CalculateSprintImpact`: stated within half a millisecond of the exact conversion, and exactly for whole milliseconds (`SprintImpactOfInteger`). The rounding of non-integer inputs is not stated further.
- `localStorage`, `JSON.parse`/`stringify`, the server branch `typeof window === 'undefined'`, and id and timestamp generation are not modelled. The store is a map, JSON is the identity, and the id, timestamp and today's date are parameters.
- `playStartSound` (an empty stub) is not modelled.
- `parseInt` of the typed answer is the `answer: Option<int>` parameter of `SubmitAnswer`, with none for NaN. The text field itself is not modelled.
- The ranking page's `typeFilter` is not modelled. It is state that no filter reads.
- The ranking page's `getModeName` is not modelled. It is display text.
- `ColorRules.RoundOfPercentage`: the iff "rounded accuracy is 100 exactly when all trials are correct" is proved only for at most 100 trials. From 200 trials on, one mistake already rounds up to 100. The pages use at most 25 trials.
- `RankingEntry` in `lib/types.ts` is not used by the ranking page and is not modelled.
- The missing `ModeType` import in `lib/storage.ts` is a type-level issue only. `getRecordsByModeType` is modelled with the intended type.

## Findings

| source | as written | input that shows it | evidently intended | confidence | as-written member | corrected member |
|---|---|---|---|---|---|---|
| app/simple/page.tsx:83-109 | The cooldown callback calls the `finishGame` of the render in which the last tap was handled. That closure's `reactionTimes` is the list from before the last tap, so the saved record leaves out the final trial's time. | Four early taps, then a hit at 300 ms on the fifth trial: nothing is saved. Four hits at 200 ms and a fifth at 300 ms: saved as 200 ms, though the results screen shows 220 ms. | The record averages every time shown on the results screen. | high, not executed | `SimpleGame.StaleLastTrialScenario` | `SimpleGame.LastTrialScenario` |
| app/sprint/page.tsx:100-129 | The same stale `finishGame` appears on the sprint page. A counted last start is left out of the saved record. | Four false starts, then a counted start of 250 ms: nothing is saved. | The record averages every counted start. | high, not executed | `SprintGame.StaleLastStartScenario` | `SprintGame.LastStartScenario` |
| app/dual/page.tsx:61-106,127-132 | `startGame` is memoized with no dependencies, so the countdown's last tick calls the first render's `startNextTrial`. That call draws a stimulus and may append its digit to `memoryNumbers` through a functional update. The effect then replaces that stimulus immediately and draws again. The expected sum can therefore include a digit that belongs to no trial. | The countdown's own coin is below 0.3: before any trial, `memoryNumbers` already holds one digit. | `memoryNumbers` holds exactly the digits of the trials shown. | medium, not executed | `DualGame.CountdownDigitScenario` | `DualGame.AnswerScenario` |

In the Dafny, each finding has both halves:

- **As written.** `SimpleGame.Game.CooldownElapsedAsWritten`, `SprintGame.Game.CooldownElapsedAsWritten` and `DualGame.Game.CountdownTickAsWritten` model the page as written. The first two save the record of the times their closure captured. The scenarios in the as-written column drive each game through its last tap and cooldown, and derive the record actually saved. `FinalRecordAsWritten` names that record, and `StaleFinishDropsLoneHit`, `StaleFinishExample` and `StaleFinishDropsLoneStart` evaluate it on the inputs above.
- **Corrected.** `FinishGame` reads the current times, and `DualGame.Game.CountdownTick` starts play without drawing. The rest of the model uses these corrected versions. For the dual page the class invariant `MemoryMatches` is kept by every event, including the corrected countdown.
