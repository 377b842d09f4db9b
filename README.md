# Barbaura: the progression and persistence core

Barbaura is a single-page wellness tracker with a virtual pet. Everything the
user logs is kept in the browser's local key/value store as JSON documents:
the pet's `userProfile`, the `habits` list, and flat record lists
(`transactions`, `finance-goals`, `workouts`, `calories`, `moods`, `journal`,
`meditations`). Logging an activity appends a record and awards experience
points (XP) to the pet. The pet levels up when its xp reaches `level * 100`.
For habits, a daily streak is computed from their completion dates.

This project models that core in Dafny and proves properties of it:

- `persistence.dfy` (module `Persistence`) models the `Storage` object as a
  class over a map of entries. A write may be refused, because the browser
  can reject it when the quota is exceeded. Unreadable text reads as the
  caller's default.
- `progression.dfy` (module `Progression`) holds the profile, the one-award
  rule of `addXP` and the fixed award per action. It also states the
  "repeat while over the threshold" leveling rule separately, as a
  reference, and relates the two rules.
- `habits.dfy` (module `Habits`) holds habits and completions, the
  "completed today" test and the list update of `completeHabit`. It also has
  `calculateStreak`, written as an in-place sort of an array followed by a
  scan loop.
- `records.dfy` (module `Records`) holds the record lists:
  `deleteTransaction`'s filter, the `slice(-n).reverse()` view and the label
  lookups.
- `app.dfy` (module `App`) holds the operations that read documents from the
  store, change them and write them back: `loadUserProfile`, `addXP`,
  `completeHabit`, `deleteTransaction`, and the effect of the form handlers
  (append the record, then award its XP).
- `wrappers.dfy` holds the `Option` type.

Calendar dates are integer day numbers. The clock readings (`now`, `today`)
are parameters.

Two properties one might expect of the application do not hold of js/app.js;
the model follows the code:

- **One level per award.** `addXP` levels up with a single `if`, not with the
  repeat-while rule (level up while xp reaches the threshold, each time
  against the new level). One award therefore climbs at most one level
  (`Progression.AtMostOneLevel`).
  - On a fresh profile a single award below 300 XP lands where the loop
    does (`Progression.AgreeBelow300`). At 300 the two rules part: the code
    gives level 2 with 200 xp (`Progression.OneStepOn300`) and the loop
    level 3 with 0 (`Progression.StaircaseOn300`). At 350 the code gives
    level 2 with 250 xp (`Progression.OneStepOn350`) and the loop level 3
    with 50 (`Progression.StaircaseOn350`).
  - "250 XP from level 1 reaches level 3" holds under neither rule. Level
    2's threshold is 200, so both rules give level 2 with 150
    (`Progression.OneStepOn250`).
  - Every award the application makes is at most 50. For any such sequence
    the two rules agree (`Progression.ActionsMatchStaircase`).
- **Duplicate completions.** Suppose a habit has two completions dated the
  same day. One might expect the duplicate simply to count again. In the code
  it ends the count instead: with the completions sorted newest first, the
  second entry's day offset repeats where the next offset is expected
  (`Habits.DuplicateEndsStreak`, `Habits.DuplicateTodayExample`).

## Model

| member | source | states |
|---|---|---|
| Persistence.Read | js/app.js:3-10 | what a get returns: the stored document when the key is present and its text parses, the default when the key is absent or its text does not parse |
| Persistence.Storage.Get | js/app.js:3-10 | returns the stored document when the key is present and parses, and the caller's default otherwise; never changes the store |
| Persistence.Storage.Set | js/app.js:11-18 | either the key now holds the new document and `true` is returned, or the write was refused, `false` is returned and the store is unchanged; no other key changes |
| Persistence.Storage.Remove | js/app.js:19-21 | the key is gone; nothing else changes; removing an absent key is a no-op |
| Persistence.Storage.constructor | js/app.js:2-22 | the store starts with the given contents |
| Persistence.ReadAfterWrite | js/app.js:3-18 | round trip: a document written under a key is what a later get of that key returns, whatever default is given |
| Persistence.WriteFrame | js/app.js:3-18 | a write under one key leaves what every other key reads unchanged |
| Persistence.ReadAfterRemove | js/app.js:3-21 | after remove, the key reads as the default and other keys read as before |
| Persistence.UnreadableReadsAsDefault | js/app.js:4-9 | text that does not parse reads exactly like an absent key: the default |
| Persistence.WriteReadRemove | js/app.js:2-22 | a successful write is read back, a refused one reads the old value, a removal reads the default, and another key is untouched |
| Progression.NewProfile | js/app.js:154-164 | the default profile: id "1", a cat named Barbaura, level 1, no xp, no achievements or customizations, and the given creation time |
| Progression.GainXP | js/app.js:225-232 | totalXP grows by the amount; the level rises by exactly one if and only if xp plus the amount reaches `level * 100`, and the threshold is then taken off the new xp; otherwise the level stays and xp grows by the amount; no other field changes |
| Progression.Threshold | js/app.js:228 | the xp needed to leave a level is a whole number of hundreds, at least 100 from level 1 on |
| Progression.GainAll | js/app.js:210-238 | successive `addXP` calls never lower the level, raise it by at most the number of calls, and change no field but level, xp and totalXP |
| Progression.Cost | js/app.js:228 | the xp spent to climb from level 1 to a level is never negative |
| Progression.Award | js/app.js:241-391 | each action's fixed award lies in 1..50: 20 per transaction, 50 per workout, 10 per meal, 15 per mood (the form handlers), 10 per habit and 30 per meditation (js/app.js:640 and 656) |
| Progression.Awards | js/app.js:241-391 | a sequence of actions yields their awards, position by position |
| Progression.AtMostOneLevel | js/app.js:228-232 | any award, whatever its amount, climbs at most one level and never lowers the level |
| Progression.OneStepOn250 | js/app.js:225-232 | 250 XP on a fresh profile gives level 2 with 150 xp, which is also where the repeat-while rule stops |
| Progression.AgreeBelow300 | js/app.js:225-232 | every single award of 0..299 XP on a fresh profile gives the same level and xp as the repeat-while rule |
| Progression.OneStepOn300 | js/app.js:225-232 | 300 XP on a fresh profile gives level 2 with 200 xp, outside level 2's band |
| Progression.StaircaseOn300 | js/app.js:228-232 | under the repeat-while rule, 300 XP from level 1 gives level 3 with 0 |
| Progression.OneStepOn350 | js/app.js:225-232 | 350 XP on a fresh profile gives level 2 with 250 xp, outside level 2's band |
| Progression.StaircaseOn350 | js/app.js:228-232 | under the repeat-while rule, 350 XP from level 1 gives level 3 with 50 |
| Progression.GainConservesProgress | js/app.js:225-232 | no xp is lost on leveling up: the xp spent on past levels plus the current xp grows by exactly the award |
| Progression.BoundedAwardKeepsSettled | js/app.js:225-232 | with a profile inside its band, any award of 0..200 keeps it inside (`0 <= xp < level * 100`) |
| Progression.BoundIsTight | js/app.js:225-232 | at level 1 with 99 xp, an award of 201 leaves the band, so the 200 bound cannot be raised |
| Progression.CostGrows | js/app.js:228 | climbing past a level costs at least that level's threshold |
| Progression.StaircaseSettles | js/app.js:228-232 | the repeat-while rule never lowers the level, ends inside the band and keeps the xp it was given |
| Progression.SettledIsUnique | js/app.js:228-232 | two in-band (level, xp) pairs with the same total progress are equal |
| Progression.TotalIsSum | js/app.js:226 | over any sequence of awards, totalXP grows by exactly their sum |
| Progression.BoundedAwardsKeepSettled | js/app.js:225-232 | a sequence of awards, each within 0..200, keeps the band and adds its sum to the progress |
| Progression.SettledIsStaircase | js/app.js:228-232 | a profile inside its band is exactly where the repeat-while rule puts its total progress |
| Progression.FromNothingMatchesStaircase | js/app.js:225-232 | from any level-1 profile with no xp, bounded awards end inside the band, add their sum to totalXP, and land at the repeat-while rule's result for that sum |
| Progression.SingleStepMatchesStaircase | js/app.js:225-232 | awards of at most 200 from a fresh profile end at exactly the level and xp the repeat-while rule gives for their total, and totalXP is that total |
| Progression.ActionsMatchStaircase | js/app.js:225-232 | for every sequence of the application's actions, the single-`if` rule and the repeat-while rule agree |
| Habits.StreakFrom | js/app.js:614-623 | the scan from a point where `streak` is `expected`: it counts at most the remaining entries, and counts anything only if the first entry is exactly `expected` days old |
| Habits.StreakOf | js/app.js:614-623 | the loop's result: the first r entries are 0, 1, ..., r-1 days before today, and the entry after them (if any) is not r days before today |
| Habits.StreakFromIsRun | js/app.js:614-623 | the entries counted by the scan are exactly 0, 1, 2, ... days before today, and the first entry not counted breaks that pattern |
| Habits.StreakIsLongestRun | js/app.js:614-623 | the streak is n if and only if the first n entries are 0..n-1 days before today and the next one is not; any such prefix is at most the streak |
| Habits.StreakAtMostLength | js/app.js:614-623 | the streak never exceeds the number of completions |
| Habits.StreakOfEmpty | js/app.js:607 | no completions give 0 |
| Habits.CompletedToday | js/app.js:586 | true exactly when some completion is dated today |
| Habits.NotTodayMeansZero | js/app.js:614-623 | with no completion dated today the streak is 0, in any order |
| Habits.TodayStartsStreak | js/app.js:609-623 | sorted and with nothing in the future, a completion dated today gives a streak of at least 1 |
| Habits.DuplicateEndsStreak | js/app.js:614-623 | two adjacent entries with the same date cap the streak at the position of the second |
| Habits.DuplicateTodayExample | js/app.js:614-623 | today, today, yesterday gives a streak of 1 |
| Habits.DaysBack | js/app.js:614-623 | the n days counted back from today are exactly today-n+1..today, n of them |
| Habits.StreakAtMostDistinctDays | js/app.js:614-623 | the streak never exceeds the number of distinct completed days |
| Habits.StreakCountsCompletedDays | js/app.js:606-626 | for sorted, distinct, non-future completions, the streak n is the run of completed days back from today: today..today-n+1 are all completed and today-n is not |
| Habits.SortNewestFirst | js/app.js:609 | sorts the array in place, newest first, as a permutation of the original |
| Habits.InsertNewest | js/app.js:609 | one insertion step extends the sorted prefix by one entry, permutes the array and leaves the entries after it untouched |
| Habits.SwapAdjacent | js/app.js:609 | exchanges two neighbours, a permutation |
| Habits.CalculateStreak | js/app.js:606-626 | leaves the completions sorted newest first as a permutation of the originals; the count returned is the scan of that order (characterized by `Habits.StreakIsLongestRun`) and at most the number of completions |
| Habits.FindHabit | js/app.js:630 | the index of the first habit with the id, or none when no habit has it |
| Habits.WithCompletion | js/app.js:630-637 | the found habit gets the completion appended; every other habit and every other field stays; with no match nothing changes |
| Habits.OneCompletionAdded | js/app.js:630-637 | the total number of completions grows by exactly one when the id is found, and by none otherwise |
| Habits.CompletionMakesCompletedToday | js/app.js:630-637 | after completing a habit today, the habit passes the "completed today" test of js/app.js:586 |
| Records.WithoutId | js/app.js:419 | no record left has the id; the list never grows |
| Records.WithoutIdKeepsOthers | js/app.js:419 | every record without the id keeps its multiplicity: only records carrying the id are removed |
| Records.WithoutIdKeepsOrder | js/app.js:419 | the records kept appear in their original order |
| Records.WithoutIdIdempotent | js/app.js:417-420 | deleting the same id twice is the same as deleting it once |
| Records.WithoutAbsentId | js/app.js:419 | the list is unchanged if and only if no record carries the id |
| Records.WithoutIdAppend | js/app.js:419 | filtering a concatenation filters each part |
| Records.Reverse | js/app.js:398 | the reversed list has the same length, with the i-th entry taken from the i-th position counted from the end |
| Records.NewestFirstView | js/app.js:398 | `slice(-n).reverse()` (also at js/app.js:464, 546, 566 and 667) holds the newest min(n, length) records, newest first (the whole list when n is 0) |
| Records.NewestRecordFirst | js/app.js:398 | a just-appended record heads the view, for every n (with n = 0 the whole list is reversed) |
| Records.Tail | js/app.js:398 | `slice(-n)` is a suffix of the list: the whole list when n is 0 or at least the length, and otherwise exactly the last n entries |
| Records.WorkoutTypeName | js/app.js:479-489 | a listed workout code gives its label from the six-entry table; any other code gives the code itself |
| Records.MealTypeName | js/app.js:530-538 | a listed meal code gives its label from the four-entry table; any other code gives the code itself |
| Records.Label | js/app.js:479-489 | the lookup with fallback, shared by the workout labels and the meal labels of js/app.js:530-538: a known code gives its label, an unknown code gives the code itself |
| Records.LabelsAreNotCodes | js/app.js:479-538 | no workout or meal label is itself a code |
| Records.WorkoutTypeNameIdempotent | js/app.js:479-489 | labelling a workout label again changes nothing; the result is the code or one of the six labels |
| Records.MealTypeNameIdempotent | js/app.js:530-538 | labelling a meal label again changes nothing; the result is the code or one of the four labels |
| App.Key | js/app.js:246-378 | each record list's key differs from the profile and habit keys; only transactions use `transactions` |
| App.KeysAreDistinct | js/app.js:246-378 | distinct categories use distinct keys, so their documents are independent |
| App.StoredProfile | js/app.js:211 | the profile found under `userProfile`, or "missing" when the key is absent, unreadable or `null`, or "misshapen" |
| App.AwardedProfile | js/app.js:210-232 | the profile addXP builds: the stored one, or the default without a creation time, after one award; none for a misshapen document |
| App.AwardAccounting | js/app.js:210-232 | for any amount, the awarded profile's totalXP is the stored total (0 for a default) plus the amount, and its level rose by at most one and did not drop |
| App.AddXP | js/app.js:210-238 | returns the awarded profile and writes it under `userProfile` unless the write is refused; a misshapen document is left as it was; no other key changes |
| App.LoadUserProfile | js/app.js:150-171 | returns the stored profile without writing; when none is stored, creates the default stamped `now` and writes it unless refused; no other key changes |
| App.LoadUserProfileTwice | js/app.js:150-171 | after the first load the store holds its profile or still none; once it holds it, the second load returns that profile and writes nothing; otherwise both are defaults that differ at most in their creation time; only `userProfile` can change |
| App.CompletedHabits | js/app.js:629-637 | with a readable habit list containing the id, the list with the completion appended; otherwise none |
| App.CompleteHabit | js/app.js:628-643 | when the habit is found, writes the updated list and awards 10 XP to the profile (each write may be refused); when it is not found, nothing changes; only the `habits` and `userProfile` keys can change |
| App.AddHabit | js/app.js:370-378 | appends a habit with the given id and name, no completions and the current timestamp to the stored list and writes it back; no other key changes |
| App.Earns | js/app.js:241-391 | exactly the goal and journal forms earn no XP; every other category names the action whose award it earns |
| App.StoredHabits | js/app.js:629 | `Storage.get('habits', [])`: a habit list when the stored document is one, the empty list when the key is absent, and none for a document of another shape |
| App.StoredRecords | js/app.js:418 | `Storage.get(key, [])` for a record list: the list when the stored document is one, the empty list when the key is absent, and none for a document of another shape |
| App.DeleteTransaction | js/app.js:417-420 | writes back the transactions without those carrying the id; no other key changes |
| App.LogRecord | js/app.js:241-391 | each form handler, and the confirmed path of `startMeditation` (js/app.js:647-656), appends the record to its category's list and writes it back, then awards that category's XP through addXP if it earns any; for goals and journal entries no profile is produced and `userProfile` is left alone; only the list's key and `userProfile` can change |

## Left out

- Rendering, the DOM, notifications, navigation and the dashboard are left out: they only display state.
- App.LogRecord: a failure inside rendering is not modelled. The transaction form re-renders the list before awarding XP. A stored transaction whose amount was NaN comes back as `null`, and `transaction.amount.toFixed(2)` (js/app.js:410) then throws. The handler stops with the record written but without the `addXP(20)` of js/app.js:260. The model always awards.
- `currentUser` is left out. It is a display cache that is set to the value the operations return.
- The pet-type listener (js/app.js:200-206) is not modelled: it writes back a profile captured when the listener was registered, which UI-event ordering would be needed to model.
- `confirm()` in `startMeditation` is left out; the model covers the confirmed path (`App.LogRecord` with `Meditations`).
- JSON encoding is not modelled byte for byte. Documents are abstract values, and any unparseable or empty text is `Unreadable`.
- Persistence.Storage.Set: serialization is not exact in the code. `HabitsDoc([])` and `RecordsDoc([])` both become the text `[]`, so an empty list written under one key would read back as either kind. The model keeps the written kind. The application reads each key only as its own kind, so this does not show in its operations.
- Documents of the wrong shape make the model change nothing. In the code a non-array under a list key throws (`find`, `filter` or `push` on it), and an array under `userProfile` is written back unchanged by `addXP`. Undefined fields and NaN arithmetic in the code are not modelled.
- App.LogRecord, App.AddHabit, App.CompleteHabit, App.DeleteTransaction: an array of the wrong kind under a list key (for example a habit list stored under `transactions`) is pushed to, filtered or searched by the code like any array (js/app.js:255, 419, 630), and the mixed list is written back; the model treats it as a document of another shape and changes nothing. The model's documents are typed, so it cannot hold a list mixing records and habits.
- App.AddXP: a stored profile missing a numeric field (NaN in the code) is not modelled; profiles are well-typed values.
- Real time is not modelled. Dates are day numbers and the clock is a parameter.
  - The "today" of `completeHabit` is a UTC date (`toISOString`, js/app.js:633), and `new Date(completion.date)` is UTC midnight of that date (js/app.js:615), while `calculateStreak` measures from local midnight (js/app.js:611-612). West of UTC (negative offsets), a completion made late in the evening is dated tomorrow, giving `diffDays = -1` and a streak of 0. East of UTC (positive offsets), UTC midnight of today comes after local midnight, so a completion dated today gives `diffDays = -1` at every hour, and yesterday's completion counts as today. Modelling this would need time-zone arithmetic.
- Habits.SortNewestFirst: stability is not proved. The code's sort is stable in current engines, but only the ordering and the permutation are stated.
- A habit without a `completions` field (js/app.js:632) is not modelled; every habit has a completion list.
- Amounts are not modelled as floating point. Transaction amounts are opaque record fields, and XP values are unbounded integers instead of JavaScript doubles.
- `calculateBalance`, the percentage and progress-bar arithmetic, goal progress and image tables are not modelled; they are display computations.
- Record.fields values are kept as text; the model never inspects them.
- Records.Label: prototype keys such as `constructor` are not modelled. The code's plain-object lookup would return inherited members for them; the model's map has only the listed codes.
- The `action` tag passed to `addXP` is not modelled; it is unused by the code.
- Achievements and customizations are kept as opaque lists; no code path changes them.
