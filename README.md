# halaqa-passport-admin core, modelled in Dafny

halaqa-passport-admin is the admin console of an attendance "passport": series
of sessions, a TV screen showing each session's check-in QR code, and
participant records. This project models the logic that decides things in
that console, and proves what that logic promises:

- the leveling curve that turns a participant's check-in count into a level
  and the bounds of that level (`Levels`);
- the check-in window status shown on the TV screen, and the screen's
  auto-refresh loop with its budget of 16 refreshes (`TvSessionDisplay`);
- the recurring-sessions dialog: day arithmetic on `YYYY-MM-DD` dates
  (`CivilDate`), the expansion into occurrences, cancelling and restoring
  them, and the hidden form fields that carry the survivors
  (`RecurringSessions`);
- the authorization predicates: who may manage a series (`SeriesAuth`), and
  the admin and allow-list e-mail checks built on a comma-separated
  environment variable (`EmailList`, `AdminAuth`, `Allowlist`);
- the id deduplication and 50-id batching of the kid lookup (`Kids`);
- the reward-threshold editor (`RewardsForm`), the attendee row's label,
  avatar and nickname editor (`SessionAttendeeRow`), and the series page's
  form guards and status label (`SeriesPage`).

JavaScript built-ins the code relies on (`trim`, `toLowerCase`,
`toUpperCase`, `split`) are in `JsStrings`. The series record is in `Types`;
`Option`, `Min` and `Max` are in `Wrappers`.

Pure code is written as functions with lemmas. Component state that the
source updates step by step is a class: `TvSessionDisplay.AutoRefresh`,
`RecurringSessions.RecurringSessionsModal`, `RewardsForm.ThresholdList` and
`SessionAttendeeRow.AttendeeRow`. Each class has a `Valid()` invariant that
every method keeps. Loops are methods whose `ensures` tie the result to a
specification function: `RecurringSessions.BuildOccurrences` and `Kids.Chunk`.

Inputs from outside the code become parameters:

- environment variables are `Option<string>` arguments (`None` when unset);
- fetch responses and interval firings are method arguments and calls;
- a submitted form is a `map<string, string>`;
- the host's time-zone offset is an argument of `CivilDate.AddDaysInZone`.

Instants are integers (milliseconds since the epoch). Dates are proleptic
Gregorian `(year, month, day)` triples.

`completed` and `isActive` are independent in the code. A series can be
stored both completed and active (`SeriesPage.EveryFlagPairAccepted`), and
the status label then shows "Completed". The model follows the code on this
point, not the documented rule that a completed series is never active.

`Types.Series` has `completed`, `createdBy` and `managers` fields.
lib/data/types.ts does not declare them, but the core reads them.

## Model

| member | source | states |
|---|---|---|
| `Levels.NormalizeExperience` | lib/data/levels.ts:11-12 | a missing count is 0, a count below 1 is 0, and otherwise the total is the floor of the count |
| `Levels.LevelFromTotal` | lib/data/levels.ts:14-30 | the level is at least 1, its bounds are the curve's starts of this level and the next, `currentLevelAt <= total < nextLevelAt`, and `total` is returned as given |
| `Levels.LevelFromExperience` | lib/data/levels.ts:10-31 | the returned total is the normalised input, and the bracket holds |
| `Levels.NoExperience` | lib/data/levels.ts:14-16 | no experience, or less than 1, gives exactly level 1 with bounds 0 and 1 and total 0 |
| `Levels.LevelSpan` | lib/data/levels.ts:20-27 | a level spans 1 XP at level 1, 2 XP at levels 2 to 5, and 3 XP from level 6 on |
| `Levels.LevelStartIncreasing` | lib/data/levels.ts:8-9 | level starts strictly increase with the level |
| `Levels.LevelUnique` | lib/data/levels.ts:18-29 | the only level whose bracket holds a total is the one returned |
| `Levels.LevelMonotone` | lib/data/levels.ts:18-28 | more XP never gives a lower level |
| `Levels.ExperienceMonotone` | lib/data/levels.ts:10-31 | a larger raw input never gives a lower level |
| `Levels.ClimbingAgrees` | lib/data/levels.ts:8-9 | climbing one level at a time from any level at or below the answer reaches the computed level |
| `Levels.CurveIsClimbing` | lib/data/levels.ts:8-9 | the computed level equals the independent climb from level 1, for every total |
| `Levels.Examples` | lib/data/levels.ts:8-9 | the documented starts L1 at 0, L2 at 1, L3 at 3, L4 at 5, L5 at 7, each with the next start |
| `Levels.ExamplesPastLevelFive` | lib/data/levels.ts:8-9 | the documented starts past level 5: L6 at 9, L7 at 12, three apart |
| `TvSessionDisplay.GetStatus` | components/TvSessionDisplay.tsx:17-25 | UNKNOWN iff a bound is missing; UPCOMING iff both are present and `now < openAt`; CLOSED iff `openAt <= now` and `now > closeAt`; OPEN iff `openAt <= now <= closeAt` |
| `TvSessionDisplay.WellFormedWindow` | components/TvSessionDisplay.tsx:22-24 | for `openAt <= closeAt`, exactly one status applies, and both bounds are inside the window |
| `TvSessionDisplay.InvertedWindowIsUpcoming` | components/TvSessionDisplay.tsx:22-23 | with swapped bounds, an instant between them is UPCOMING, because that test comes first |
| `TvSessionDisplay.AutoRefresh.constructor` | components/TvSessionDisplay.tsx:38-41 | polling starts on, with the full budget of 16 and the initial data |
| `TvSessionDisplay.TickAsWritten` | components/TvSessionDisplay.tsx:49-76 | one firing as the code runs it: paused, nothing changes; no budget left, it only pauses; a rejected fetch throws before the budget update, so nothing changes; a response keeps or replaces the data, spends one unit and pauses at 0. The budget stays in 0..16 |
| `TvSessionDisplay.AnsweredWithinBudget` | components/TvSessionDisplay.tsx:63-75 | over any run of firings, the fetches that get a response never outnumber the budget left |
| `TvSessionDisplay.RejectedFetchesNeverPause` | components/TvSessionDisplay.tsx:49-69 | any number of rejected fetches leaves the state as it was, and every one of those firings fetches |
| `TvSessionDisplay.RejectedFetchesExceedBudget` | components/TvSessionDisplay.tsx:49-69 | after a resume, 17 rejected firings make 17 fetches and polling is still on |
| `TvSessionDisplay.SpendingFetchesWithinBudget` | components/TvSessionDisplay.tsx:63-75 | with rejected fetches spending a unit, no run of firings makes more fetches than the budget left |
| `TvSessionDisplay.SpendingPausesAfterBudget` | components/TvSessionDisplay.tsx:63-75 | with rejected fetches spending a unit, polling has paused once there have been more firings than budget left |
| `TvSessionDisplay.AutoRefresh.Tick` | components/TvSessionDisplay.tsx:60-76 | the new state is `TickAsWritten` of the old one. A fetch is made iff polling is on with budget left. `refreshes` grows by one exactly for a fetch that gets a response, and never exceeds 16 |
| `TvSessionDisplay.AutoRefresh.Resume` | components/TvSessionDisplay.tsx:162-170 | offered only while polling is paused; budget back to 16, polling on, data unchanged |
| `CivilDate.NextDay` | components/CreateRecurringSessionsModal.tsx:20 | the day after a valid date is a valid date |
| `CivilDate.PrevDay` | components/CreateRecurringSessionsModal.tsx:20 | the day before a valid date is a valid date |
| `CivilDate.NextPrevInverse` | components/CreateRecurringSessionsModal.tsx:20 | stepping forward then back, or back then forward, returns the same date |
| `CivilDate.AddDays` | components/CreateRecurringSessionsModal.tsx:20 | adding days to a valid date gives a valid date |
| `CivilDate.AddDaysAdditive` | components/CreateRecurringSessionsModal.tsx:20 | adding `a` days and then `b` days is adding `a + b` days |
| `CivilDate.NextDayNumber` | components/CreateRecurringSessionsModal.tsx:20 | the next day has the next day number on an independent count of days |
| `CivilDate.AddDaysNumber` | components/CreateRecurringSessionsModal.tsx:20 | adding `n` days moves the day number by exactly `n` |
| `CivilDate.IsoDate` | components/CreateRecurringSessionsModal.tsx:21 | the first ten characters of the ISO rendering |
| `CivilDate.ParseIsoDate` | components/CreateRecurringSessionsModal.tsx:19 | only a valid calendar date in exactly `YYYY-MM-DD` form is read |
| `CivilDate.ParseFormatsBack` | components/CreateRecurringSessionsModal.tsx:19-21 | formatting a four-digit-year date and reading it back gives the date |
| `CivilDate.FormatParsesBack` | components/CreateRecurringSessionsModal.tsx:19-21 | reading a date and formatting it gives the same string back |
| `CivilDate.AddDaysToIsoDate` | components/CreateRecurringSessionsModal.tsx:18-22 | unreadable input gives no result, where the source throws |
| `CivilDate.AddDaysInZone` | components/CreateRecurringSessionsModal.tsx:18-22 | `addDays` as written, with the host's offset as an argument: unreadable input gives no result, and a result is ten characters long |
| `CivilDate.AddZeroDays` | components/CreateRecurringSessionsModal.tsx:18-22 | adding 0 days returns the input string |
| `CivilDate.AddDaysToIsoDateCounts` | components/CreateRecurringSessionsModal.tsx:18-22 | the result is a readable date exactly `days` days after the input on the day count |
| `CivilDate.InZoneWestAgrees` | components/CreateRecurringSessionsModal.tsx:19-21 | at UTC and west of it, the code as written agrees with calendar addition |
| `CivilDate.InZoneEastIsOneDayEarly` | components/CreateRecurringSessionsModal.tsx:19-21 | east of UTC, the code as written returns the day before the calendar answer, for every input |
| `CivilDate.InZoneCounterexample` | components/CreateRecurringSessionsModal.tsx:18-22 | at UTC+1, adding 0 days to 2024-01-01 gives 2023-12-31 |
| `RecurringSessions.OccurrenceAt` | components/CreateRecurringSessionsModal.tsx:44-50 | occurrence `i` exists iff the date `i * intervalDays` later can be produced. It has that date, open and close instants on it, and is not removed |
| `RecurringSessions.BuildOccurrences` | components/CreateRecurringSessionsModal.tsx:42-51 | it produces exactly `repeatCount` occurrences, and occurrence `i` is the one for index `i`. There is no result exactly when some date cannot be produced |
| `RecurringSessions.OccurrenceShape` | components/CreateRecurringSessionsModal.tsx:44-50 | occurrence `i` has both times on its own date and is not cancelled. Its date is `i * intervalDays` days after the start |
| `RecurringSessions.OccurrenceDatesDistinct` | components/CreateRecurringSessionsModal.tsx:43-44 | with an interval of at least one day, no two occurrences share a date |
| `RecurringSessions.Toggled` | components/CreateRecurringSessionsModal.tsx:56-62 | the length is kept, `removed` flips at the index only, and every other entry is unchanged |
| `RecurringSessions.ToggleTwice` | components/CreateRecurringSessionsModal.tsx:56-62 | toggling the same index twice changes nothing |
| `RecurringSessions.ToggleKeepsSchedule` | components/CreateRecurringSessionsModal.tsx:57-60 | toggling never changes a date or a check-in time |
| `RecurringSessions.Active` | components/CreateRecurringSessionsModal.tsx:74 | exactly the non-cancelled occurrences survive. The result is empty iff every occurrence is cancelled |
| `RecurringSessions.ActiveAppend` | components/CreateRecurringSessionsModal.tsx:74 | filtering distributes over concatenation, so the survivors keep their order |
| `RecurringSessions.Encode` | components/CreateRecurringSessionsModal.tsx:194 | the field value is the open instant, one `|`, then the close instant |
| `RecurringSessions.EncodeSplits` | components/CreateRecurringSessionsModal.tsx:194 | splitting `open|close` on `|` gives back the two instants |
| `RecurringSessions.HiddenInputs` | components/CreateRecurringSessionsModal.tsx:189-196 | one hidden input per occurrence, in order: its value is the encoding, it is disabled iff the occurrence is removed, and it is named `occurrences` unless removed, when it has no name |
| `RecurringSessions.SubmittedAreActive` | components/CreateRecurringSessionsModal.tsx:189-196 | the form submits exactly the encodings of the active occurrences, in order |
| `RecurringSessions.RecurringSessionsModal.constructor` | components/CreateRecurringSessionsModal.tsx:32-38 | the initial state is the reset state |
| `RecurringSessions.RecurringSessionsModal.Reset` | components/CreateRecurringSessionsModal.tsx:64-72 | empty fields, count 4, interval 7, no occurrences, form step |
| `RecurringSessions.RecurringSessionsModal.SetFields` | components/CreateRecurringSessionsModal.tsx:116-135 | the three text fields take the typed values, and nothing else changes |
| `RecurringSessions.RecurringSessionsModal.SetIntervalDays` | components/CreateRecurringSessionsModal.tsx:146 | the interval is `max(1, input)` |
| `RecurringSessions.RecurringSessionsModal.SetRepeatCount` | components/CreateRecurringSessionsModal.tsx:156 | the count is clamped to 1..52 |
| `RecurringSessions.RecurringSessionsModal.GenerateOccurrences` | components/CreateRecurringSessionsModal.tsx:40-54 | with an empty field nothing changes. Any change is to the preview step, with `repeatCount` occurrences as specified by index |
| `RecurringSessions.RecurringSessionsModal.ToggleOccurrence` | components/CreateRecurringSessionsModal.tsx:56-62 | the occurrences become their toggled list |
| `RecurringSessions.RecurringSessionsModal.Back` | components/CreateRecurringSessionsModal.tsx:223 | back to the form step, with the occurrences kept |
| `RecurringSessions.RecurringSessionsModal.SubmitDisabled` | components/CreateRecurringSessionsModal.tsx:217 | submit is disabled iff every occurrence is cancelled |
| `RecurringSessions.RecurringSessionsModal.Submitted` | components/CreateRecurringSessionsModal.tsx:189-196 | the submitted values are the encodings of the active occurrences |
| `SeriesAuth.LowerAll` | lib/auth/series.ts:11-13 | every manager is lower-cased, position by position, into a new list |
| `SeriesAuth.CanManageSeries` | lib/auth/series.ts:3-15 | an admin always passes. Otherwise access is granted iff the owner or a listed manager matches the e-mail, ignoring letter case |
| `SeriesAuth.EmailCaseIrrelevant` | lib/auth/series.ts:9 | e-mails that differ only in case get the same answer |
| `SeriesAuth.OwnerMayManage` | lib/auth/series.ts:9-10 | the owner, in any case, may manage |
| `SeriesAuth.ManagerMayManage` | lib/auth/series.ts:11-14 | a listed manager, in any case, may manage |
| `SeriesAuth.NoManagersMeansOwnerOnly` | lib/auth/series.ts:11 | with no managers list, a non-admin passes iff they are the owner |
| `SeriesAuth.DependsOnlyOnLowerCasedRoster` | lib/auth/series.ts:9-14 | re-casing or reordering the owner and managers never changes the answer |
| `SeriesAuth.Example` | lib/auth/series.ts:3-15 | owner a@x.com with manager b@x.com: a and b pass, and c passes only as an admin |
| `EmailList.NormalizeEntry` | lib/auth/admin.ts:6 | an entry never grows, and it is empty iff it was all whitespace |
| `EmailList.NormalizedShape` | lib/auth/admin.ts:6 | a normalised entry is trimmed and lower-case |
| `EmailList.Entries` | lib/auth/admin.ts:6-7 | the entries are the non-empty normalised pieces |
| `EmailList.ParseList` | lib/auth/admin.ts:4-7 | the list is the comma-split pieces, trimmed, lower-cased, with empties dropped |
| `EmailList.ParsedEntriesNormalized` | lib/auth/admin.ts:4-7 | every parsed entry is non-empty, trimmed and lower-case |
| `EmailList.UntrimmedNeverListed` | lib/auth/admin.ts:9 | an e-mail with surrounding whitespace never matches, because it is lower-cased but not trimmed |
| `EmailList.Listed` | lib/auth/admin.ts:9 | the lower-cased e-mail is one of the parsed entries |
| `EmailList.EmptyRawEmptyList` | lib/auth/admin.ts:3 | an unset or empty variable parses to the empty list |
| `EmailList.ParseJoined` | lib/auth/admin.ts:4-7 | parsing a comma-joined list of normalised entries returns the entries |
| `EmailList.EntriesOfNormalized` | lib/auth/admin.ts:6-7 | already-normalised pieces pass through unchanged |
| `AdminAuth.IsAdminEmail` | lib/auth/admin.ts:1-10 | true iff the e-mail is present, non-empty, and its lower case is in the parsed list |
| `AdminAuth.NoEmailNoAdmin` | lib/auth/admin.ts:2 | a null, undefined or empty e-mail gives false |
| `AdminAuth.UnsetVariableNoAdmin` | lib/auth/admin.ts:8 | with the variable unset, nobody is an admin |
| `AdminAuth.AdminIgnoresCase` | lib/auth/admin.ts:9 | the letter case of the e-mail does not matter |
| `AdminAuth.ListedEntryIsAdmin` | lib/auth/admin.ts:3-9 | any entry of the variable, padded or in any case, is an admin |
| `Allowlist.IsEmailAllowed` | lib/auth/allowlist.ts:1-11 | true iff the e-mail is present, non-empty, and its lower case is in the parsed list |
| `Allowlist.EmptyAllowlistRejects` | lib/auth/allowlist.ts:9 | an empty parsed list lets nobody in |
| `Allowlist.SameAsAdminCheck` | lib/auth/allowlist.ts:1-11 | the allow-list check is the admin check applied to another variable |
| `Kids.Chunk` | lib/data/kids.ts:9-15 | the chunks concatenate to the input. Each has 1..size items, and all but the last have exactly `size`. Their number is `ceil(n/size)`, stated as `n <= count*size < n+size`, and an empty input gives no chunks |
| `Kids.NonEmptyIds` | lib/data/kids.ts:19 | the kept ids are exactly the non-empty ones |
| `Kids.FirstOccurrences` | lib/data/kids.ts:19 | the reference definition holds exactly the values of its input |
| `Kids.FirstOccurrencesOrdered` | lib/data/kids.ts:19 | the reference holds no value twice, in order of first appearance |
| `Kids.InsertAll` | lib/data/kids.ts:19 | `new Set(xs)` as insertions: the set never shrinks and grows by at most one value per insertion |
| `Kids.InsertAllExtends` | lib/data/kids.ts:19 | inserting keeps the values already held in place, and the set ends with exactly the values of both |
| `Kids.InsertAllIsFirstOccurrences` | lib/data/kids.ts:19 | inserting values one by one into an insertion-ordered set gives the reference |
| `Kids.NonEmptyKeepsOrder` | lib/data/kids.ts:19 | dropping empty ids keeps the order of first appearance |
| `Kids.FirstOccurrencesKeepIdOrder` | lib/data/kids.ts:19 | the first occurrences of the non-empty ids follow the order in which they first appear among all ids |
| `Kids.UniqueIds` | lib/data/kids.ts:19 | it equals the reference. The result covers exactly the non-empty ids, holds none twice, and follows their order of first appearance in the input |
| `Kids.LookupBatches` | lib/data/kids.ts:19-22 | the batches concatenate to the unique ids. Each batch has 1..50 ids, and there are `ceil(n/50)` of them |
| `RewardsForm.NumberToString` | components/RewardsForm.tsx:18 | whole numbers are written in decimal with no leading zero, and the digits read back as the number |
| `RewardsForm.NumberToStringInjective` | components/RewardsForm.tsx:18 | different numbers never share a text form |
| `RewardsForm.InitialThresholds` | components/RewardsForm.tsx:16-20 | the list is never empty. It is `[""]` when there are no rewards, and otherwise each reward as text |
| `RewardsForm.Changed` | components/RewardsForm.tsx:22-26 | the length is kept, the index gets the value, and the other entries are unchanged |
| `RewardsForm.Added` | components/RewardsForm.tsx:28-30 | exactly one `""` is appended |
| `RewardsForm.Removed` | components/RewardsForm.tsx:32-34 | exactly the entry at the index is dropped, order kept. An index outside the list changes nothing |
| `RewardsForm.OneRequiredInput` | components/RewardsForm.tsx:53 | exactly one input, the first, is required |
| `RewardsForm.RemoveDisabled` | components/RewardsForm.tsx:59 | the remove buttons are disabled while at most one input is left |
| `RewardsForm.RemoveKeepsOne` | components/RewardsForm.tsx:59 | removing through an enabled button leaves one fewer input, and at least one |
| `RewardsForm.RemoveUndoesAdd` | components/RewardsForm.tsx:28-34 | removing the input just added restores the list |
| `RewardsForm.ChangeBack` | components/RewardsForm.tsx:22-26 | writing back the old text undoes an edit |
| `RewardsForm.LastChangeWins` | components/RewardsForm.tsx:22-26 | of two edits to one input, the second wins |
| `RewardsForm.ChangeOutsideIsIdentity` | components/RewardsForm.tsx:24 | an edit outside the list changes nothing |
| `RewardsForm.ThresholdList.constructor` | components/RewardsForm.tsx:16-20 | the state starts as the initial list, non-empty |
| `RewardsForm.ThresholdList.HandleChange` | components/RewardsForm.tsx:22-26 | the state becomes the changed list and stays non-empty |
| `RewardsForm.ThresholdList.HandleAdd` | components/RewardsForm.tsx:28-30 | the state becomes the list with one more input |
| `RewardsForm.ThresholdList.ClickRemove` | components/RewardsForm.tsx:55-59 | remove is ignored while disabled, and otherwise drops the input. The list is never emptied |
| `SessionAttendeeRow.Suffix` | components/SessionAttendeeRow.tsx:20 | the suffix is the last `min(4, length)` characters of the id |
| `SessionAttendeeRow.Label` | components/SessionAttendeeRow.tsx:21-23 | `nickname (suffix)`, or `Participant (suffix)` for an empty nickname |
| `SessionAttendeeRow.LabelDistinguishesNicknames` | components/SessionAttendeeRow.tsx:21-23 | different non-empty nicknames give different labels |
| `SessionAttendeeRow.EmptyNicknameLooksLikeParticipant` | components/SessionAttendeeRow.tsx:21-23 | no nickname looks exactly like the nickname "Participant" |
| `SessionAttendeeRow.Avatar` | components/SessionAttendeeRow.tsx:75 | one character: the upper-cased first character of the nickname, or "P", and never a lower-case letter |
| `SessionAttendeeRow.AttendeeRow.constructor` | components/SessionAttendeeRow.tsx:16-19 | a missing nickname is empty, the draft equals it, and the row is neither editing nor saving |
| `SessionAttendeeRow.AttendeeRow.StartEditing` | components/SessionAttendeeRow.tsx:88 | edit mode on, with the draft kept |
| `SessionAttendeeRow.AttendeeRow.SetValue` | components/SessionAttendeeRow.tsx:51 | the draft takes the typed text |
| `SessionAttendeeRow.AttendeeRow.BeginSave` | components/SessionAttendeeRow.tsx:25-28 | an empty or all-whitespace draft, or a save in flight, does nothing. Otherwise saving goes on and the trimmed, non-empty draft is sent |
| `SessionAttendeeRow.AttendeeRow.FinishSave` | components/SessionAttendeeRow.tsx:29-41 | an ok response sets the nickname to the sent value and leaves edit mode. Another response only clears saving. A rejected fetch changes nothing |
| `SessionAttendeeRow.AttendeeRow.Cancel` | components/SessionAttendeeRow.tsx:60-63 | the draft goes back to the shown nickname and edit mode ends |
| `SeriesPage.Field` | app/admin/series/page.tsx:8 | a missing field reads as empty |
| `SeriesPage.CreateSeriesRequest` | app/admin/series/page.tsx:6-23 | a request is made iff the trimmed name and start date are non-empty. It carries them trimmed, and the flag is on iff the field is exactly "on" |
| `SeriesPage.UpdateSeriesRequest` | app/admin/series/page.tsx:25-33 | a request is made iff the trimmed id is non-empty. It carries both flags as read |
| `SeriesPage.BlankNameRefused` | app/admin/series/page.tsx:12-14 | an all-whitespace name is refused |
| `SeriesPage.CheckboxOn` | app/admin/series/page.tsx:10 | a checkbox is on iff its field is present and exactly "on", as on lines 28-29 too |
| `SeriesPage.CheckboxIsExact` | app/admin/series/page.tsx:10 | only the exact text "on" turns a checkbox on |
| `SeriesPage.EveryFlagPairAccepted` | app/admin/series/page.tsx:28-31 | every combination of the two flags is accepted and passed through, including completed with active |
| `SeriesPage.StatusLabel` | app/admin/series/page.tsx:60 | "Completed" iff completed, "Active" iff active and not completed, and "Inactive" otherwise |
| `SeriesPage.CompletedAndActiveShowsCompleted` | app/admin/series/page.tsx:60 | a series updated to both flags shows "Completed" |
| `JsStrings.Trim` | lib/auth/admin.ts:6 | the result is trimmed, no longer than the input, empty iff the input is all whitespace, and a trimmed input is returned unchanged |
| `JsStrings.TrimIdempotent` | lib/auth/admin.ts:6 | trimming twice is trimming once |
| `JsStrings.ToLower` | lib/auth/admin.ts:6 | the length is kept, and each character is lower-cased |
| `JsStrings.ToUpper` | components/SessionAttendeeRow.tsx:75 | the length is kept, and each character is upper-cased |
| `JsStrings.ToLowerIdempotent` | lib/auth/admin.ts:6 | lower-casing twice is lower-casing once |
| `JsStrings.ToLowerKeepsShape` | lib/auth/admin.ts:6 | lower-casing keeps emptiness and trimmedness |
| `JsStrings.Split` | lib/auth/admin.ts:5 | there is at least one piece, no piece holds the separator, and joining the pieces gives the input |
| `JsStrings.SplitJoin` | lib/auth/admin.ts:5 | splitting a join of separator-free parts returns the parts |

## Left out

- Firestore reads and writes: `createNewSeries`, `updateSeriesStatus` and the `db.getAll` loop of lib/data/kids.ts. The model stops at the request or the batches.
- `redirect`, `fetch`, `setInterval` and the one-second clock, QR rendering and `JSON.stringify`. Responses and timer firings are method arguments.
- Locale formatting: `formatPreviewDate`, `toLocaleString` and the server-time labels are defined by the platform.
- `JsStrings.ToLower` / `JsStrings.ToUpper`: Unicode case mapping is not modelled. They change ASCII letters only, so non-ASCII letters and `toUpperCase` expanding one character into two are not covered.
- `RecurringSessions.OccurrenceAt`: dates the occurrences by calendar addition, the corrected `addDays` of the Findings table. At UTC or west of it this is what the source does (`CivilDate.InZoneWestAgrees`); east of UTC each date is one day later than the source's (`CivilDate.InZoneEastIsOneDayEarly`). `BuildOccurrences` and `RecurringSessionsModal.GenerateOccurrences` inherit this.
- `SessionAttendeeRow.Suffix`: indexes Unicode code points, where `slice(-4)` counts UTF-16 code units. An id ending in a character outside the Basic Multilingual Plane gets a different suffix.
- `SessionAttendeeRow.Avatar`: takes the first code point, where `charAt(0)` takes the first UTF-16 code unit. For a nickname starting with an emoji the source shows a lone surrogate and the model the whole character.
- `Number(...)` on arbitrary input, `NaN` and infinities. `Math.max(1, NaN)` in the count and interval inputs, and the non-finite branch of levels.ts, are outside the model. The clamped inputs are integers.
- `RewardsForm.NumberToString`: writes whole numbers only, where `String` of a fractional or exponent-sized reward has other forms.
- ISO instant parsing on the TV screen. Instants are integers already, and an empty-string bound, which the source also treats as missing, is `None`. An unparsable bound is not modelled.
- `CivilDate.ParseIsoDate`: only accepts canonical `YYYY-MM-DD` with a year from 0 to 9999. Other strings the platform's `Date` parser might accept are treated as unreadable.
- `CivilDate.AddDaysToIsoDate`: checks the `Date` range on whole calendar days, not on the exact millisecond bounds.
- `Kids.Chunk`: requires `size >= 1`. With a smaller size the source loops forever on a non-empty list and returns `[]` on an empty one. Its only caller uses 50.
- `TvSessionDisplay.AutoRefresh.Tick`: reads the budget directly, where the source reads it through a ref updated after each render. Interleavings of a slow fetch with the next firing are out of scope. Each firing is taken as complete before the next, and an unhandled rejection only ends that firing.
- `SessionAttendeeRow.AttendeeRow.FinishSave`: takes the outcome of the save that was begun, with no ordering between overlapping saves. The Save button is disabled while one is in flight.
- Components with no rules, such as the help and welcome modals, toasts and the login page, are outside the model.

## Findings

| source | as written | input that shows it | evidently intended | confidence | as-written member | corrected member |
|---|---|---|---|---|---|---|
| components/CreateRecurringSessionsModal.tsx:18-22 | `addDays` builds local midnight of the date and renders it with `toISOString`, which gives the UTC date | "2024-01-01" plus 0 days on a host at UTC+1 gives "2023-12-31": every occurrence lands one day early east of UTC | pure calendar addition, the same in every time zone | not executed | `CivilDate.AddDaysInZone` (`CivilDate.InZoneCounterexample`, `CivilDate.InZoneEastIsOneDayEarly`) | `CivilDate.AddDaysToIsoDate` (`CivilDate.AddZeroDays`, `CivilDate.AddDaysToIsoDateCounts`) |
| components/TvSessionDisplay.tsx:49-75 | a fetch that rejects, or an ok response whose body is not JSON, throws out of `refresh()` before `setPollsRemaining`, so that firing spends no budget | with the network down every firing rejects: 17 firings after a resume make 17 fetches and polling stays on, every 15 seconds, indefinitely | a failed refresh counts against the same budget as a successful one, so polling pauses after at most 16 fetches | medium; not executed | `TvSessionDisplay.TickAsWritten` (`TvSessionDisplay.RejectedFetchesNeverPause`, `TvSessionDisplay.RejectedFetchesExceedBudget`) | `TvSessionDisplay.TickSpending` (`TvSessionDisplay.SpendingFetchesWithinBudget`, `TvSessionDisplay.SpendingPausesAfterBudget`) |
