# URLATE v3l backend: verified model of the scoring and reward core

This project models the scoring and reward core of the URLATE rhythm-game
backend (`src/index.ts` and `src/achievements.ts`) in Dafny and proves
properties of the model.

- **Grading and the integrity gate** (`Grading`, `TrackRecords.PlayRecord`).
  `/playRecord` derives accuracy, rank letter and medal from the six
  judgment counts. It forwards the play to `/record` only when the client's
  claimed rank and accuracy equal the derived ones.
  - Accuracy is kept in integer tenths of a percent.
  - The empty play divides zero by zero, which is `NaN` in JavaScript. It is
    `None` here.
- **The best-record ledger** (`BestLedger`), shared by `/record` and
  `/CPLrecord`. Every play is appended as a row. At most one row per key
  carries the `isBest` flag.
  - A new record replaces the flagged one only when it is strictly higher.
  - The tables are sequences of rows in classes whose methods loop over the
    rows. A select returns the first matching row; an update changes every
    matching row.
- **`/record`** (`TrackRecords`): the ledger keyed by
  (nickname, track, difficulty).
- **`/CPLrecord`** (`CplRecords`): the ledger of community patterns, plus a
  running total per chart in `CPLTotalTrackRecords`. The total grows by the
  improvement `gap` of the pattern's best record. The handler as written
  and a corrected version are both modelled (see Findings).
- **Leaderboard position** (`Leaderboard`): the first hundred rows, and the
  1-based position of the first row with the requested nickname.
- **Coupon redemption** (`Coupon`): limited codes are consumed once;
  `nolimit` codes once per user; skins are never owned twice.
- **Account creation** (`Users`): `/auth/join` checks the sign-in, then the
  nickname pattern `[a-zA-Z0-9_-]{5,12}`, then that the nickname is free.
- **Row index** (`Uuid`): `uuid()` splits a v4 UUID at its hyphens and
  rejoins the groups in the order 2, 1, 0, 3, 4.
- **Achievements** (`Achievements`):
  - the `idDB` catalogue;
  - `isAchieved`;
  - the `observer`, which increments an achievement's count, notifies the
    game server and then records the unlock for the user.

Each table is a class whose methods select and update its rows in place.
Each handler is a module-level method that takes the tables as arguments;
its `ensures` ties the new tables and the outcome to a specification
function of the old tables. The lemmas state what the source promises about those functions.

Inputs standing in for the environment:

- The session's user id is an `Option<string>`.
- The comparison of the session row with the body's user fields is a `bool`
  (`authorized`).
- The project-secret check is a `bool` (`secretOk`).
- Whether the forwarded `/record` request went through is a `bool`
  (`delivered`).
- `notifyOk` is false when the `/emit/achievement` `fetch` rejects, on a
  network failure; a reply with an error status still resolves, and the
  write after it runs.
- The generated UUID and each row's `index` are inputs.
- The order the database returns leaderboard rows in is the input sequence.

## Model

| member | source | states |
|---|---|---|
| Grading.Accuracy | src/index.ts:478-490 | `None` exactly for the empty play; otherwise at most 100.0%, and within half a tenth of the exact weighted ratio (perfect 1, great 0.7, good 0.5, bad 0.3 over all judged notes) |
| Grading.MedalOf | src/index.ts:492-516 | the medal is one of 0, 1, 2, 3, 7 |
| Grading.RankOf | src/index.ts:491-506 | the rank letter: the first of SS (98% and clean), S (95%), A (90%), B (80%), C (70%) whose bound the accuracy reaches, else F; `NaN` reaches none; its bands are proved in `RankBands` |
| Grading.GradeOf | src/index.ts:478-516 | accuracy, rank and medal of one play, composed as the handler computes them |
| Grading.ClaimVerified | src/index.ts:517 | the integrity gate: claimed rank text and claimed accuracy both equal the derived ones |
| Grading.RankBands | src/index.ts:491-506 | each rank is exactly its accuracy band (SS at 98% and clean, S at 95%, A 90%, B 80%, C 70%, each bound closed); F for lower accuracies and for `NaN` |
| Grading.RankMonotone | src/index.ts:493-506 | for fixed judgments, a higher accuracy never gives a lower rank |
| Grading.AllPerfectAccuracy | src/index.ts:484-490 | an all-perfect play scores exactly 100.0% |
| Grading.MedalSeven | src/index.ts:507-516 | medal 7 exactly when every judged note is perfect and there is one; that play is rank SS at 100.0% |
| Grading.MedalTable | src/index.ts:492-516 | medal 0 iff rank F and not clean; 1 iff passed and not clean; 2 iff F and clean; 3 iff passed, clean and not all perfect |
| Grading.TenPerfects | src/index.ts:478-516 | ten perfects grade as 100.0%, SS, medal 7 |
| Grading.NinetyFiveIsS | src/index.ts:493-498 | exactly 95.0% (nine perfects, one good) is rank S |
| Grading.GateExact | src/index.ts:517 | a passing claim names one of the six rank letters and an accuracy from 0.0% to 100.0%; an empty play never passes |
| TrackRecords.PlayRecord | src/index.ts:474-592 | "Failed to Auth" iff not authorized; forwarded iff authorized and the gate passes; the forwarded request carries the claimed rank, derived medal, nickname, track, difficulty and score |
| TrackRecords.Recorded | src/index.ts:609-640 | the `trackRecords` rows after `/record` accepts a request: one ledger submission for the request's (nickname, track, difficulty) with its other columns |
| TrackRecords.RecordedShape | src/index.ts:609-640 | `/record` appends one row with the request's columns, best iff no best row or a strictly lower one; earlier rows keep everything but the flag; other keys are untouched |
| TrackRecords.RecordedWellFlagged | src/index.ts:609-640 | `/record` preserves one best row per key holding its highest record; the new row is best iff it beats every earlier record of its key |
| TrackRecords.Scores100Then80Then150 | src/index.ts:609-640 | scores 100, 80, 150 are flagged best, not best, best; only the 150 row stays best |
| TrackRecords.PutRecord | src/index.ts:595-640 | success iff the secret matches; the ledger becomes `Recorded` of the old ledger, or is unchanged |
| TrackRecords.PlayAndRecord | src/index.ts:474-640 | the verdict is `PlayRecord`; the ledger gains the play only when it was forwarded and delivered |
| BestLedger.FirstBestIndex | src/index.ts:610-616 | -1 iff the key has no best row; otherwise the first best row of the key |
| BestLedger.FirstBest | src/index.ts:610-616 | `result[0].record` of the best-row select, `None` for an empty select |
| BestLedger.BeatsPrior | src/index.ts:616-627 | the new row is best when there is no prior best or the prior is strictly lower |
| BestLedger.ClearBest | src/index.ts:618-625 | every best flag of the key is cleared; nothing else changes |
| BestLedger.WithPlay | src/index.ts:609-640 | one submission: retire the key's best flags only when beaten, then append the new row flagged by `BeatsPrior`; its shape is proved in `WithPlayShape` |
| BestLedger.WithPlayShape | src/index.ts:609-640 | one row appended, best iff `BeatsPrior`; earlier rows differ at most in their flag; other keys untouched; the old rows are untouched when the new row is not best |
| BestLedger.NoBestNoRows | src/index.ts:616-627 | under the invariant, a key without a best row has no rows |
| BestLedger.BestIffBeatsAll | src/index.ts:616-627 | under the invariant, the new row is best iff strictly higher than every earlier record of its key (a tie is not best) |
| BestLedger.WithPlayWellFlagged | src/index.ts:609-640 | a submission preserves: at most one best row per key, every key with rows has one, and it holds the key's highest record |
| BestLedger.BestTable.SelectBest | src/index.ts:610-616 | returns the record of the first best row of the key |
| BestLedger.BestTable.ClearBestFlags | src/index.ts:618-625 | the rows become `ClearBest` of the old rows |
| BestLedger.BestTable.Submit | src/index.ts:609-640 | returns the prior best and the best flag; the rows become `WithPlay` of the old rows |
| CplRecords.FirstTotalIndex | src/index.ts:865-870 | -1 iff the chart has no total row; otherwise its first total row |
| CplRecords.SetTotal | src/index.ts:872-878 | closed-form definition of the update, not a proved property: every total row of the chart gets the new score; other rows unchanged |
| CplRecords.Gap | src/index.ts:829-854 | the improvement: record minus the prior best when it beats it, the whole record with no prior best, else 0 |
| CplRecords.CplAsWritten | src/index.ts:829-886 | the handler as written: ledger submission, then the total of the chart raised by `gap`, or a failure with the pattern row kept when the chart has no total row |
| CplRecords.CplCorrected | src/index.ts:829-886 | the handler with the length check first: the same, except a chart without a total row gets one holding the submitted record |
| CplRecords.SumBestAppend | src/index.ts:855-864 | appending a row adds its contribution to its chart's sum |
| CplRecords.SumBestNone | src/index.ts:851-854 | a chart without pattern rows sums to zero |
| CplRecords.SumBestClear | src/index.ts:841-849 | clearing a pattern's best flags removes their records from its chart's sum |
| CplRecords.KeyBestSumSingle | src/index.ts:831-840 | with at most one best row per pattern, the pattern's best-record sum is its first best record |
| CplRecords.SumBestGrowsByGap | src/index.ts:829-864 | a submission raises its chart's sum of best records by exactly `gap`; other charts' sums are unchanged |
| CplRecords.UncoveredChartEmpty | src/index.ts:865-886 | a chart without a total row has no pattern rows, when every chart with rows has a total |
| CplRecords.AppendTotalShape | src/index.ts:880-885 | inserting the first total row of a chart keeps totals unique and covering |
| CplRecords.SetTotalShape | src/index.ts:872-878 | updating a chart's total keeps totals unique and covering |
| CplRecords.AppendTotalMatch | src/index.ts:880-885 | inserting the chart's total with its new best sum keeps every total equal to its sum |
| CplRecords.SetTotalMatch | src/index.ts:870-878 | setting the chart's total to its new best sum keeps every total equal to its sum |
| CplRecords.NewChartNoBest | src/index.ts:831-854 | a chart without a total row has no best pattern row and a zero sum |
| CplRecords.NewChartShape | src/index.ts:829-886 | first play on a chart: totals stay unique and covering |
| CplRecords.NewChartMatch | src/index.ts:829-886 | first play on a chart: totals still equal the sums of best records |
| CplRecords.NewChartRows | src/index.ts:829-886 | first play on a chart preserves consistency |
| CplRecords.CorrectedNewChart | src/index.ts:829-886 | corrected handler on a chart with no total row preserves consistency |
| CplRecords.KnownChartShape | src/index.ts:829-878 | play on a chart with a total row: totals stay unique and covering |
| CplRecords.KnownChartMatch | src/index.ts:829-878 | play on a chart with a total row: the total grows by `gap`, so totals still equal the sums |
| CplRecords.KnownChartRows | src/index.ts:829-878 | play on a chart with a total row preserves consistency |
| CplRecords.CorrectedKnownChart | src/index.ts:829-878 | corrected handler on a chart with a total row preserves consistency |
| CplRecords.CorrectedConsistent | src/index.ts:829-886 | the corrected handler keeps the ledger well flagged, one total row per chart with rows, and each total equal to its chart's sum of best records |
| CplRecords.AsWrittenWithTotal | src/index.ts:865-878 | with a total row, as written and corrected agree, and the total grows by exactly `gap` |
| CplRecords.AsWrittenWithoutTotal | src/index.ts:855-870 | as written, with no total row: the request fails, the pattern row is still stored, no total row appears |
| CplRecords.FirstChartSubmission | src/index.ts:829-886 | the first submission on empty tables: as written it fails with the totals empty; corrected it inserts the total row with the record |
| CplRecords.TotalTable.SelectRecord | src/index.ts:865-870 | returns the record of the chart's first total row, if any |
| CplRecords.TotalTable.SetRecord | src/index.ts:872-878 | the rows become `SetTotal` of the old rows |
| CplRecords.TotalTable.Add | src/index.ts:880-885 | the row is appended |
| CplRecords.PutCplRecordAsWritten | src/index.ts:815-886 | wrong secret: "Authorize failed", nothing changes; otherwise tables and outcome are `CplAsWritten` of the old tables |
| CplRecords.PutCplRecord | src/index.ts:815-886 | the same with the corrected handler `CplCorrected` |
| Leaderboard.Names | src/index.ts:692-697 | closed-form definition of the projection, not a proved property: the nickname of every row, in order |
| Leaderboard.Top | src/index.ts:700 | the first `min(n, 100)` rows |
| Leaderboard.Leaderboard | src/index.ts:692-700 | position 0 iff no row has the nickname; otherwise the row at position-1 is the first with it; the page is `Top` |
| Leaderboard.TrackBoard | src/index.ts:683-702 | `/records/...`: the leaderboard of the selected best rows, by nickname |
| Leaderboard.TotalBoard | src/index.ts:896-914 | `/CPLrecords/...`: the leaderboard of the selected total rows, by nickname |
| Leaderboard.RankIgnoresLaterRows | src/index.ts:692-697 | rows appended after the nickname's first row do not change its position |
| Leaderboard.OnPageIffRankAtMostHundred | src/index.ts:692-700 | the nickname is on the returned page iff its position is 1 to 100 |
| Leaderboard.TwoPlayers | src/index.ts:904-912 | on the total board, the second player listed is ranked 2 and an absent nickname 0 |
| Coupon.Matching | src/index.ts:719-721 | the selected rows all carry the code |
| Coupon.MatchingMembers | src/index.ts:719-721 | the selected rows are exactly the table's rows of that code |
| Coupon.MarkUsed | src/index.ts:783 | closed-form definition of the update, not a proved property: every row of the code is marked used; other rows unchanged |
| Coupon.SetUsedUser | src/index.ts:785-788 | closed-form definition of the update, not a proved property: every row of the code gets the new user list; other rows unchanged |
| Coupon.Consume | src/index.ts:782-789 | a limited code is marked used; a `nolimit` code gets the user appended to its list, and a `null` list throws after any skin was written |
| Coupon.RedeemSpec | src/index.ts:704-796 | the handler: sign-in, exactly one row, not used, user not listed, then for a skin a user row without it (the skin is written), then `Consume`; each rejection with its outcome |
| Coupon.RedeemedIff | src/index.ts:704-789 | success iff signed in, exactly one row, neither used nor listing the user, a user row without the skin for a skin reward, and an existing list for a `nolimit` code |
| Coupon.RejectionsChangeNothing | src/index.ts:704-775 | "UserID Required", "Invalid code", "Used code" and "Already have" leave both tables unchanged; a code without exactly one row is invalid |
| Coupon.SkinsStayDistinct | src/index.ts:759-781 | if no user owns a skin twice before, none does after |
| Coupon.MatchingSnoc | src/index.ts:719-721 | appending a row adds it to the selection iff it has the code |
| Coupon.MatchingMarkUsed | src/index.ts:783 | after marking, the code's rows are the old ones flagged used |
| Coupon.MatchingSetUsedUser | src/index.ts:785-788 | after listing, the code's rows are the old ones with the new list |
| Coupon.RedeemedCodes | src/index.ts:782-789 | a successful redemption marks a limited code used, or appends the user to a `nolimit` code's list |
| Coupon.RefusedRow | src/index.ts:730-757 | a single row that is used or lists the user is refused as already used |
| Coupon.LimitedCodeSingleUse | src/index.ts:730-783 | after a limited code is redeemed, no user can redeem it again |
| Coupon.NolimitOncePerUser | src/index.ts:743-789 | a `nolimit` redemption appends the user to the list, and the same user's second attempt is "Used code" |
| Coupon.CodeTable.SelectByCode | src/index.ts:719-721 | returns `Matching` of the rows |
| Coupon.CodeTable.MarkUsedRows | src/index.ts:783 | the rows become `MarkUsed` of the old rows |
| Coupon.CodeTable.SetUsedUserRows | src/index.ts:785-788 | the rows become `SetUsedUser` of the old rows |
| Coupon.Redeem | src/index.ts:704-796 | the tables and outcome are `RedeemSpec` of the old tables |
| Util.IndexOf | src/index.ts:697 | `Array.prototype.indexOf`: -1 iff absent, otherwise the first position holding the element (also at lines 745 and 764) |
| Users.Userids | src/index.ts:760-762 | closed-form definition of the projection, not a proved property: the user id of every row, in order; it serves the userid selects here and at `src/achievements.ts:39-41` |
| Users.Nicknames | src/index.ts:148-150 | closed-form definition of the projection, not a proved property: the nickname of every row, in order |
| Users.SignedIn | src/index.ts:124 | `!req.session.userid` rejects a missing and an empty user id alike (also at line 705) |
| Users.ValidName | src/index.ts:137-138 | `/^[a-zA-Z0-9_-]{5,12}$/`: 5 to 12 characters, each a letter, digit, `_` or `-` |
| Users.MatchClassRepeatLength | src/index.ts:137-138 | the anchored repetition matcher for `[a-zA-Z0-9_-]{lo,hi}` accepts exactly the texts of `lo` to `hi` characters of the class |
| Users.ValidNameMatchesPattern | src/index.ts:137-138 | `ValidName` accepts exactly the names the anchored pattern `/^[a-zA-Z0-9_-]{5,12}$/` matches, by the step-by-step matcher |
| Users.NewUser | src/index.ts:152-174 | the inserted row: the session's user id, the nickname, skins `["Default"]`, no achievements |
| Users.JoinSpec | src/index.ts:123-190 | `/auth/join`: sign-in, then the name format, then the nickname must not be taken; on success the new row is appended |
| Users.FirstByUserid | src/index.ts:760-763 | `None` iff no row has the user id; otherwise the first row with it |
| Users.WithSkins | src/index.ts:777-779 | closed-form definition of the update, not a proved property: every row of the user gets the new skin list; other rows unchanged |
| Users.WithAchievements | src/achievements.ts:61-63 | closed-form definition of the update, not a proved property: every row of the user gets the new achievement list; other rows unchanged |
| Users.JoinOutcomes | src/index.ts:123-189 | joined iff signed in, the name matches the pattern and no row has it; a join appends one row with skin "Default" and no achievements; otherwise nothing changes |
| Users.JoinKeepsNicknamesUnique | src/index.ts:148-174 | joining never duplicates a nickname |
| Users.NameExamples | src/index.ts:137-138 | 5 and 12 characters are accepted; 4, 13 and a space are rejected |
| Users.UserTable.SelectByUserid | src/index.ts:760-762 | returns `FirstByUserid` of the rows |
| Users.UserTable.NicknameTaken | src/index.ts:148-151 | true iff some row has the nickname |
| Users.UserTable.Insert | src/index.ts:152-174 | the row is appended |
| Users.UserTable.UpdateSkins | src/index.ts:777-779 | the rows become `WithSkins` of the old rows |
| Users.UserTable.UpdateAchievements | src/achievements.ts:61-63 | the rows become `WithAchievements` of the old rows |
| Users.Join | src/index.ts:123-190 | the table and outcome are `JoinSpec` of the old table |
| Uuid.Split | src/index.ts:71 | at least one piece, none containing the separator, and the pieces join back to the input |
| Uuid.Reorder | src/index.ts:70-73 | the groups 2, 1, 0, 3, 4 of the split UUID concatenated left to right as JavaScript adds them: `undefined` for a missing group, and `NaN` for the first sum when groups 2 and 1 are both missing |
| Uuid.ReorderNoHyphen | src/index.ts:70-73 | text without a hyphen gives `NaN`, the text, then `undefinedundefined` |
| Uuid.SplitJoin | src/index.ts:71 | splitting a join of separator-free parts gives the parts back |
| Uuid.CanonicalSplit | src/index.ts:71 | a canonical v4 UUID splits into its five groups |
| Uuid.ReorderCanonical | src/index.ts:70-73 | the index is groups 2, 1, 0, 3, 4 concatenated: 32 hex digits, no hyphen |
| Uuid.ReorderInjective | src/index.ts:70-73 | distinct canonical UUIDs give distinct indexes |
| Achievements.IsAchieved | src/achievements.ts:25-32 | true iff the context is `TUTORIAL_CLEAR` |
| Achievements.IndexOfContext | src/achievements.ts:8-10 | `idDB[context]` (line 42): the catalogue holds only `TUTORIAL_CLEAR`, at index 0; every other context has no catalogue index (`undefined`, or a member inherited from `Object.prototype`, neither of which is in the user's set) |
| Achievements.ObserveSpec | src/achievements.ts:39-63 | the observer: no user row throws; an unlocked index or an unachieved context returns; otherwise the count is incremented, then the notification, then the extended set is written |
| Achievements.Dedup | src/achievements.ts:43 | no repeats, and the same elements as the list |
| Achievements.Increment | src/achievements.ts:46 | closed-form definition of the update, not a proved property: the count of every row with the index grows by one; other rows unchanged |
| Achievements.DedupOfDistinct | src/achievements.ts:43 | a list without repeats is its own set |
| Achievements.FirstAfterWrite | src/achievements.ts:61-63 | after the write, the user's first row has the written list |
| Achievements.NoOpCases | src/achievements.ts:42-44 | an already-unlocked index, or a context that is not achieved, changes nothing; a context outside `idDB` is never achieved |
| Achievements.FirstUnlock | src/achievements.ts:42-63 | a first unlock adds exactly the index to the user's set, increments its count once, and leaves other users alone |
| Achievements.ObserveTwice | src/achievements.ts:39-64 | observing the same context twice unlocks at most once |
| Achievements.NeverShrinks | src/achievements.ts:39-64 | the user's unlocked set never loses an element |
| Achievements.RetryAfterNotifyFailure | src/achievements.ts:46-63 | a rejected notification `fetch` leaves the count incremented and the set unwritten, so the retry increments the count again |
| Achievements.AchievementTable.IncrementCount | src/achievements.ts:46 | the rows become `Increment` of the old rows |
| Achievements.ToSet | src/achievements.ts:43 | returns `Dedup` of the list |
| Achievements.Observe | src/achievements.ts:34-64 | the tables and outcome are `ObserveSpec` of the old tables |

## Left out

- Grading.Accuracy: rounds the exact ratio half up. It does not model the
  floating-point division, or `toFixed(1)`, which can round a tie down
  because of binary representation.
- The claimed accuracy is an integer number of tenths. A claim that is not
  a multiple of 0.1 never matches, in the code and here alike.
- The body's counts go through `Number(...)`. They are natural numbers
  here; text that does not parse, fractions and negative values are left
  out.
- The comparison of the session's user row with the body
  (`src/index.ts:474-477`) is the `authorized` input. The select behind it
  and the session handling are not part of this model.
- The log file written beside a forwarded play (`src/index.ts:518-523`) is
  I/O and is left out.
- The HTTP call from `/playRecord` to `/record` and its reply parsing are
  replaced by the `delivered` input.
- The `/emit/achievement` notification is replaced by `notifyOk`.
- Dates, `new Date()` columns, session storage and OAuth login are left out.
- `v4()` randomness is left out. The UUID is an input, and `Reorder`
  handles any text as JavaScript's left-to-right `+` does: `undefined` for
  a missing group, and `NaN` when both leading groups are missing.
- Concurrency is left out. Each handler runs alone on the tables; the
  interleaving of two concurrent requests between their select and their
  update is not modelled.
- MySQL comparison rules are left out. Keys compare exactly, where MySQL's
  default collation ignores case and trailing spaces.
- Columns the core does not read are not kept, including those
  `/auth/join` fills with constants or session data (email, settings,
  picture, date, tutorial, background, alias, rating, rankHistory and the
  other statistics). The judge text is kept as the judgment counts.
- Select order: an SQL select without `ORDER BY` promises no row order.
  Wherever the source takes `[0]` of a select (the users selects of
  `/coupon` and of the observer, the best-row and total selects), the
  model takes the first row in insertion order. This matters only when a
  user id, key or chart has several matching rows.
- Achievements.IndexOfContext: `idDB` is a plain object, so `idDB[context]`
  also finds members inherited from `Object.prototype` (a function for
  `"constructor"` or `"toString"`, the prototype for `"__proto__"`). The
  model maps all of them to `None`; none is in the user's set, so the
  observer returns at the same test.
- The database ordering (`orderBy`) of leaderboards is left out. The rows
  arrive already ordered, as the input sequence.
- The select of the achievement's display texts (`src/achievements.ts:47-49`)
  only feeds the notification, and is left out.
- `isAchieved`'s `data` payload is never read by the code and is not a
  parameter.
- The `achievements` column of a user is a list of integers here. A `NULL`
  column parses to `null`, and `new Set(null)` is empty, which is the same
  as a row holding `[]`. A malformed column is left out.
- Users.NewUser: the insert at `src/index.ts:152-174` does not write the
  `achievements` column; the model assumes the column's default is the
  empty list `[]`.
- A `reward`, `usedUser` or `skins` column that fails to parse as JSON is
  left out; for `skins` (`src/index.ts:763`) a `NULL` or malformed value
  makes `indexOf` throw, which the model does not represent. A `usedUser`
  of `null` is `None`.
- The read-only endpoints (profile, settings, single-record and pattern
  lists) are not part of this model.
- The rating, aggregate statistics and alias features are not part of
  this model: the shown code does not compute them.

## Findings

| source | as written | input that shows it | evidently intended | confidence | as-written member | corrected member |
|---|---|---|---|---|---|---|
| src/index.ts:865-886 | `total[0].record` is read before `total.length` is checked, so with no total row the read throws after the pattern row was inserted, and the insert branch never runs | the first `/CPLrecord` submission of a (nickname, track, difficulty) with no `CPLTotalTrackRecords` row, e.g. on empty tables | check for a total row first and insert it with the submitted record when missing | high, not executed | CplRecords.AsWrittenWithoutTotal | CplRecords.CorrectedConsistent |
