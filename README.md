# Solo-Lev reward engine in Dafny

This project models the reward and levelling engine of the Solo-Lev habit
tracker. In the tracker, a user completes daily and weekly quests, earns
experience (EXP), levels up and spends stat points on five stats: STR, INT,
CHA, WIL and VIT. The model covers:

- the levelling curve: the threshold per level, the level search, the
  level-up check and the level-up itself;
- the reward rules: the streak bonus, quest EXP, quest evaluation, the
  stat-allocation suggestion and the soft-cap penalty check;
- the weekly evaluation: the daily completion rate, the weekly count, the
  bonus and the penalty list;
- the helpers the engine's callers use: the "HH:MM" time-window check, the
  capped progress percentage and the Monday/Sunday of a week.

Files:

- `types.dfy`, module `Types`: the records of `src/types/index.ts` that the
  engine reads or returns. These are `Stats`, `Quest`, `StatAffect`,
  `QuestPenalty`, `Completion`, `LevelCalculation`, `QuestEvaluation` and
  `WeeklyEvaluation`.
- `game_mechanics.dfy`, module `GameMechanics`: `src/lib/game-mechanics.ts`.
- `utils.dfy`, module `Utils`: the arithmetic and time helpers of
  `src/lib/utils.ts`.

The source builds results step by step in loops or `forEach` calls. The model
writes those operations as methods with loops. Each method is proved against
a reference function, such as `TotalWeight`, `SoftCapFilter`,
`DailyPenalties` or the `IsLevelOf` bracket. Lemmas then prove the promised
properties of those reference functions. Single-expression operations are
functions.

Modelling choices:

- Experience and stats are integers.
- Multipliers, weights and rates are exact reals. `Math.round(x)` is
  `floor(x + 0.5)`.
- Timestamps are integers.
- `Math.floor(n / 7)` is Dafny's `/`, which agrees with it for a positive
  divisor.
- A date is a day count from 1 January 1970 (a Thursday) plus a time of day.
  So `getDay()` is `(day + 4) % 7`, with 0 for Sunday.

Behaviour of the code worth knowing, each proved in the model:

- `shouldLevelUp` never returns true. The level search stops only when the
  next threshold is strictly above the experience, so `expToNext >= 1` for
  every integer experience (`CalculateLevelProgress`, `ShouldLevelUp`). So
  experience landing exactly on a threshold does not make it true either.
- Negative experience is not rejected. The search loop never runs and the
  level comes out as 0.
- The weekly daily-completion rate counts in-window completions of every
  status, not only successes (`RateIgnoresStatus`). It can exceed 1 when a
  quest has several completions (`InWindowForCounts`, `DuplicatesCountTwice`).
- The weekly penalty list looks at the first completion of each daily quest
  in the whole list of completions, not only in the week's window. A later
  success does not lift the penalty (`FirstCompletionDecides`).
- A stat tied for lowest never trips the "more than twice the lowest" rule,
  and the code needs no special case for this. Any non-negative lowest value
  `v` satisfies `v <= 2 * v` (`LowestOnlyCapped`).

## Model

| member | source | states |
|---|---|---|
| GameMechanics.ExpForLevel | src/lib/game-mechanics.ts:7-10 | the threshold is 0 for every level up to 1 and at least 1750 from level 2 on |
| GameMechanics.ExpForLevelStep | src/lib/game-mechanics.ts:7-10 | consecutive thresholds differ by 1750 from level 1 to 2, then by 500·level + 250 |
| GameMechanics.ExpForLevelIncreasing | src/lib/game-mechanics.ts:7-10 | the threshold is strictly increasing from level 1 on |
| GameMechanics.CalculateLevelProgress | src/lib/game-mechanics.ts:15-34 | for exp ≥ 0 the level is ≥ 1 and brackets exp (threshold ≤ exp < next threshold); currentExp, expToNext and the level span are measured from those thresholds; negative exp gives level 0; always currentExp + expToNext == totalExpForLevel and expToNext ≥ 1 |
| GameMechanics.LevelOfUnique | src/lib/game-mechanics.ts:15-34 | at most one level brackets a given experience, so the search result is the only correct one |
| GameMechanics.LevelMonotone | src/lib/game-mechanics.ts:15-34 | more experience never yields a lower level |
| GameMechanics.ThresholdLandsOnLevel | src/lib/game-mechanics.ts:19-24 | experience exactly on a level's threshold lands on that level and on no other |
| GameMechanics.ShouldLevelUp | src/lib/game-mechanics.ts:224-227 | always returns false, because expToNext is never ≤ 0 |
| GameMechanics.LevelUpUser | src/lib/game-mechanics.ts:232-252 | the new level brackets the experience (0 for negative exp); 5 points are granted; each stat grows by its positive allocation and is otherwise unchanged; non-negative stats stay non-negative |
| GameMechanics.Round | src/lib/game-mechanics.ts:62 | Math.round returns the integer within half of x, with halves rounded up |
| GameMechanics.RoundMonotone | src/lib/game-mechanics.ts:62 | rounding preserves order |
| GameMechanics.StreakBonus | src/lib/game-mechanics.ts:40-43 | the bonus is 0 below 7 days and 0.1 per full 7 days below 28 days; it is 0.4 from 28 days on, never exceeds 0.4 and is non-negative for non-negative streaks |
| GameMechanics.StreakBonusMonotone | src/lib/game-mechanics.ts:40-43 | a longer streak never gives a smaller bonus |
| GameMechanics.DifficultyMultiplier | src/lib/game-mechanics.ts:53-57 | the factor lies in 0.8..1.3; it is below 1 exactly for easy, 1 exactly for normal and above 1 exactly for hard |
| GameMechanics.QuestExp | src/lib/game-mechanics.ts:48-63 | the award is within half a point of base × difficulty factor × (1 + streak bonus) |
| GameMechanics.QuestExpNormalShortStreak | src/lib/game-mechanics.ts:48-63 | a normal quest with a streak under 7 days awards exactly its base EXP |
| GameMechanics.QuestExpHardWeekStreak | src/lib/game-mechanics.ts:48-63 | 100 base EXP on a hard quest with a 7-day streak awards 143 |
| GameMechanics.QuestExpDifficultyOrder | src/lib/game-mechanics.ts:53-57 | with non-negative base and streak, easy ≤ normal ≤ hard |
| GameMechanics.UnaffectedWeighsNothing | src/lib/game-mechanics.ts:80-82 | a stat that no affect names accumulates no weight |
| GameMechanics.EvaluateQuest | src/lib/game-mechanics.ts:68-94 | completed iff the completion exists with status success; if completed, EXP is the normal-difficulty award with the streak, no penalty, and each named stat maps to the sum of its affects' weights; otherwise 0 EXP, empty weights and the quest's own penalty |
| GameMechanics.StrengthAndWillpowerWeights | src/lib/game-mechanics.ts:78-83 | affects STR 1.0 and WIL 0.5 weigh STR 1.0, WIL 0.5 and name no other stat |
| GameMechanics.Lowest | src/lib/game-mechanics.ts:113-114 | the lowest stat is at most every stat and equal to one of them |
| GameMechanics.AccumulateWeights | src/lib/game-mechanics.ts:103-110 | the accumulated map has a key for every stat some evaluation weighs, holding the sum over all evaluations |
| GameMechanics.SumWeights | src/lib/game-mechanics.ts:117 | the sum of the map's values is 0 for an empty map and non-negative when every value is |
| GameMechanics.SumWeightsIsRecentTotal | src/lib/game-mechanics.ts:117 | summing the accumulated map's values gives the total recent weight across the five stats |
| GameMechanics.SuggestStatAllocation | src/lib/game-mechanics.ts:99-136 | with positive total weight, exactly the weighted stats get round(share of 5 + 1 if tied for lowest); otherwise exactly the stats tied for lowest get 3 |
| GameMechanics.ProportionalPointsBounded | src/lib/game-mechanics.ts:120-125 | with non-negative weights and a positive total, every suggestion lies between 0 and 6 |
| GameMechanics.StatPenalty | src/lib/game-mechanics.ts:147-158 | a stat's penalty is 0, 0.5 or 1.0; it is 1.0 iff above 30 and above twice the lowest, and 0 iff neither |
| GameMechanics.LowestOnlyCapped | src/lib/game-mechanics.ts:145-158 | with non-negative stats, a stat tied for lowest is penalised only by the cap of 30 |
| GameMechanics.SoftCapFilterSound | src/lib/game-mechanics.ts:147-163 | every listed entry is a visited stat with its own positive penalty |
| GameMechanics.SoftCapFilterComplete | src/lib/game-mechanics.ts:147-163 | every visited stat with a positive penalty is listed |
| GameMechanics.SoftCapFilterOrdered | src/lib/game-mechanics.ts:144-163 | entries come out in the order the stats are visited |
| GameMechanics.NoPenaltyNoEntries | src/lib/game-mechanics.ts:160-162 | with no positive penalty, the list is empty |
| GameMechanics.CheckSoftCapPenalty | src/lib/game-mechanics.ts:142-166 | lists exactly the stats with a positive penalty, each with that penalty, in STR, INT, CHA, WIL, VIT order |
| GameMechanics.EqualStatsNoPenalty | src/lib/game-mechanics.ts:142-166 | five equal stats between 0 and 30 (such as five 10s) give an empty list |
| GameMechanics.OneOverInvestedStat | src/lib/game-mechanics.ts:142-166 | STR 35 against four 10s lists only STR, with penalty 1.0 |
| GameMechanics.InWindowFor | src/lib/game-mechanics.ts:178-188 | a completion is in the result iff it is in the input, inside the inclusive window and of a quest in the set, whatever its status; the result is no longer than the input |
| GameMechanics.InWindowForCounts | src/lib/game-mechanics.ts:178-194 | each kept completion occurs in the result as often as in the input and every other one not at all, so the counted length includes duplicates |
| GameMechanics.InWindowForAppend | src/lib/game-mechanics.ts:178-188 | filtering a concatenation is the concatenation of the filtered parts, so the kept completions stay in their original order |
| GameMechanics.FirstCompletion | src/lib/game-mechanics.ts:202 | find returns the earliest completion of the quest in the whole list, or none when the quest has no completion |
| GameMechanics.DailyPenalties | src/lib/game-mechanics.ts:199-208 | a penalty is collected iff some daily quest carries it and that quest's first completion is missing or not a success; the list is no longer than the quest list |
| GameMechanics.DailyPenaltiesAppend | src/lib/game-mechanics.ts:199-208 | the penalties of a concatenation of quest lists are the penalties of each part, in order |
| GameMechanics.DailyPenaltiesOne | src/lib/game-mechanics.ts:201-207 | one quest contributes exactly its own penalty when it owes one and has one, and nothing otherwise; with DailyPenaltiesAppend this gives one entry per owing quest, in daily-quest order |
| GameMechanics.EvaluateWeeklyProgress | src/lib/game-mechanics.ts:171-219 | rate = in-window daily completions / daily quests (0 with no daily quests); weekly count = in-window weekly completions; bonus is 50 iff rate ≥ 0.8 and count == number of weekly quests, else 0; penalties in daily-quest order; no titles |
| GameMechanics.FirstCompletionDecides | src/lib/game-mechanics.ts:201-207 | an earlier failed completion keeps the penalty even when a success of the same quest follows it in the list |
| GameMechanics.RateIgnoresStatus | src/lib/game-mechanics.ts:178-194 | giving every completion the same status, whatever it is, leaves the number of counted completions unchanged, so the rate and the weekly count ignore status |
| GameMechanics.DuplicatesCountTwice | src/lib/game-mechanics.ts:178-194 | the same quest completed twice in the window counts twice, so the rate and the weekly count can exceed the number of quests |
| Utils.SplitColon | src/lib/utils.ts:53-55 | split(':') returns at least one piece, no piece holds a colon, and the pieces joined with ':' give back the input |
| Utils.SplitJoin | src/lib/utils.ts:53-55 | splitting a join of colon-free pieces gives back the pieces |
| Utils.ParseNumber | src/lib/utils.ts:53-55 | Number() maps the empty string to 0, a digit string to its value, and any other string to NaN |
| Utils.IsWithinTimeWindow | src/lib/utils.ts:48-62 | true iff all three times parse and start ≤ time ≤ end in minutes since midnight; a window whose start is after its end contains nothing |
| Utils.OnlyMinutesMatter | src/lib/utils.ts:57-61 | the answer depends on each argument only through hours × 60 + minutes |
| Utils.ClockMinutes | src/lib/utils.ts:53-59 | a time reads as a number iff it splits into at least two fields on ':' and the first two parse, and then as hours × 60 + minutes; a time with no colon is NaN |
| Utils.ClockMinutesOfFields | src/lib/utils.ts:53-59 | a time made of two colon-free fields reads as hours × 60 + minutes when both fields are numbers, and as NaN otherwise |
| Utils.ClockMinutesOfFormat | src/lib/utils.ts:53-59 | parsing "HH:MM" gives back HH × 60 + MM |
| Utils.WindowIncludesBothEnds | src/lib/utils.ts:61 | the window's start and end times both lie in the window |
| Utils.OvernightWindowIsEmpty | src/lib/utils.ts:57-61 | no time lies in the window "22:00"–"02:00" |
| Utils.MinutesAreNotRangeChecked | src/lib/utils.ts:53-59 | "1:90" counts as 150 minutes, the same as "02:30" |
| Utils.CalculateProgress | src/lib/utils.ts:64-67 | 0 for target 0; never above 100; current/target × 100 for 0 ≤ current ≤ target; 100 at or past a positive target; negative for negative current |
| Utils.Weekday | src/lib/utils.ts:32 | getDay() is between 0 and 6 |
| Utils.GetWeekStart | src/lib/utils.ts:30-37 | the Monday on or before the date, at 00:00:00.000; a Sunday goes back 6 days |
| Utils.GetWeekEnd | src/lib/utils.ts:39-46 | the Sunday on or after the date, at 23:00:00.000; a Sunday stays put |
| Utils.WeekEndSixDaysAfterStart | src/lib/utils.ts:30-46 | the week end of a date is exactly 6 days after its week start |
| Utils.WeekStartUnique | src/lib/utils.ts:30-37 | only one Monday lies in the 6 days up to a date, so the week start is fully determined |

## Left out

- JavaScript numbers are IEEE-754 doubles. The model uses unbounded integers
  and exact reals on purpose. So `3 * 0.1 != 0.3`-style artefacts in
  `calculateStreakBonus` are not modelled, nor is precision loss above 2^53.
  NaN and Infinity are not modelled as experience values. In the source,
  `calculateLevelProgress(Infinity)` never leaves its `while` loop
  (src/lib/game-mechanics.ts:19). NaN gives level 0 with
  `totalExpForLevel` 0 and NaN `currentExp` and `expToNext`
  (src/lib/game-mechanics.ts:25-32). The model's integers have neither value,
  so its level search always ends.
- Non-integer experience, levels, streaks and stat points are not modelled.
  Those inputs are integers in the model.
- `calculateQuestExp`'s default arguments (`'normal'`, a streak of 0) are not
  modelled. Every call in the model passes both arguments.
- ParseNumber: JavaScript's `Number()` also accepts surrounding whitespace,
  signs, decimal fractions, exponents, radix prefixes and "Infinity". The
  model treats every such string as NaN. The model is exact for empty and
  all-digit fields.
- GetWeekStart, GetWeekEnd: dates are a day count plus a time of day. Time
  zones, daylight-saving shifts and the calendar (months, `setDate` on a day
  of month) are not modelled. `setDate(getDate() + k)` is taken as moving
  the day count by `k`.
- `generateDailyQuest`, `generateWeeklyQuest` (src/lib/game-mechanics.ts:257-291)
  only copy fields and set a deadline.
- `formatDate`, `formatTime`, `getTodayInTimezone` depend on `Intl` and the
  time-zone database. `generateId` is random. `sleep` and `debounce` use
  timers. `cn`, `getStatColor` and `getStatIcon` are styling lookups. None of
  these is modelled.
- Quest, completion and user records keep the engine's fields plus a few
  identifying ones (titles, ids, the quest type, a completion's value and a
  user's level), which the engine does not read. Schedule windows, targets,
  criteria, tags and timestamps other than `completedAt` are dropped.
- A completion's status is the enum `CompletionStatus` of the three declared
  values. The source compares a status string case-sensitively with
  `'success'` (src/lib/game-mechanics.ts:73 and :203), and any other string,
  such as `'SUCCESS'`, counts as not a success. The model cannot express other
  strings, so that test is not modelled. The one caller of `evaluateQuest`
  stores `status.toUpperCase()` (src/app/api/quests/complete/route.ts:28) and
  passes that record on (:41), so no completion it records ever counts as a
  success.
- The route handlers, React components and seed script are not part of this
  model. Besides storing and fetching records, the quest-completion route
  computes on its own: it upper-cases the status, adds the quest's EXP to the
  user, rounds each stat weight and adds it to the stats
  (src/app/api/quests/complete/route.ts:44-52), and calls `levelUpUser` only
  when `shouldLevelUp` holds (:56-58), which the model proves never happens.
  None of that route logic is modelled.
