# Time-tracking app: a verified model of its timer core

The time-tracking app lets a signed-in person run two timers, a general task timer and a
project timer. A timer can be paused and resumed. When it stops, the row closes with a
completion status. There are two front ends.

- The server (`user.controller.js`) stores every timer as a row of the `time_logs` table. Each row is owned by a user or an administrator and is of the general or the project kind. A row is *open* while its `end_time` is null. It is *running* while its `start_time` is set, and *paused* otherwise. `total_seconds` banks the time of the running intervals that have ended.
- The plain-JavaScript page (`app.js`) mirrors the server's timers. It computes the elapsed and remaining time shown to the user, stops a project automatically when its estimate runs out, and decides which buttons are visible.
- The React front end keeps an in-memory mock store (`AppContext.tsx`). Its user dashboard has a local stopwatch that records a log when stopped. Its admin dashboard aggregates the logs and validates the account forms.
- Three smaller pieces are modelled too:
  - the administrator's SQL aggregations (`admin.controller.js`);
  - the role gate (`role.js`);
  - the schema importer (`setup-db.js`).

The model is split into modules, one per source file, plus shared helper modules.

- `Seqs` holds `filter`, `reduce`-sums, reversal and the set of images.
- `Text` holds the JavaScript string operations the sources use: `trim`, `split`, `join`, `padStart`, `String(n)`, `parseInt`, and `length` and `substring` in UTF-16 code units.
- `Format` holds `formatTime` and `formatDuration`. `formatTime` is written the same way in `app.js` and `UserDashboard.tsx`.
- `TimeLog` holds the server rows and their single-row transitions.
- `TimerController` holds the table as a class. Its methods `Start`, `Pause`, `Resume`, `Stop` and `TimerStatus` are the endpoints, and the report is a function.
- `ClientTimer` models `app.js`.
- `AppContext`, `UserDashboard` and `AdminDashboard` model the React store and pages. The store and each page are classes whose methods change their fields.
- `AdminController`, `Role` and `SetupDb` model the remaining pieces.

The central invariant is `TimeLog.ValidLogs`: every owner has at most one open row per kind. The table's `Valid()` is that invariant. Every command preserves it and never decreases a row's banked time. No command changes any row's live total at the instant it runs.

## Model

| member | source | states |
|---|---|---|
| `Text.Trim` | time-tracking-app/setup-db.js:33 | `trim()` leaves no whitespace at either end (the full ECMAScript whitespace and line-terminator set), and yields empty exactly when every character is whitespace |
| `Text.Split` | time-tracking-app/setup-db.js:32 | `split(';')` yields at least one piece; no piece holds the separator; joining the pieces with it gives the input back |
| `Text.SplitUnique` | time-tracking-app/setup-db.js:32 | any separator-free pieces that join to `s` are exactly `split` of `s` |
| `Text.Utf16Length` | time-tracking-app/frontend/src/app/pages/AdminDashboard.tsx:111 | `s.length` counts UTF-16 code units: between the number of characters and twice that |
| `Text.Utf16LengthBmp` | time-tracking-app/frontend/src/app/pages/AdminDashboard.tsx:111 | `length` equals the number of characters exactly when every character lies inside the Basic Multilingual Plane |
| `Text.Utf16Prefix` | time-tracking-app/setup-db.js:43 | the characters `substring(0, n)` keeps are a prefix of the string |
| `Text.Utf16PrefixFits` | time-tracking-app/setup-db.js:43 | that prefix takes at most `n` code units |
| `Text.Utf16PrefixWhole` | time-tracking-app/setup-db.js:43 | a string of at most `n` code units is kept whole |
| `Text.Utf16PrefixLongest` | time-tracking-app/setup-db.js:43 | the prefix is the longest that fits: one more character would exceed `n` units |
| `Text.Utf16PrefixBmp` | time-tracking-app/setup-db.js:43 | inside the Basic Multilingual Plane, the prefix is the first `min(length, n)` characters |
| `Seqs.FindIndex` | time-tracking-app/frontend/src/app/context/AppContext.tsx:95 | `find`, by position: the first element satisfying the predicate, and none exactly when no element does |
| `Text.ParseIntOrZeroDigits` | time-tracking-app/frontend/app.js:430-431 | `parseInt(...) \|\| 0` reads a decimal numeral back as its value, and the empty field as 0 |
| `Format.Decompose` | time-tracking-app/frontend/app.js:6-8 | for a non-negative count: minutes and seconds are below 60 and `3600h + 60m + s` is the count |
| `Format.JsRem` | time-tracking-app/frontend/app.js:7 | JavaScript `%`: agrees with the mathematical remainder on non-negative numbers, keeps the dividend's sign and stays below the divisor in size |
| `Format.TwoOfNat` | time-tracking-app/frontend/app.js:9 | `padStart(2, '0')` of a non-negative number is a digit string of at least two digits with that value, exactly two below 100 |
| `Format.FormatTimeRoundTrip` | time-tracking-app/frontend/app.js:5-10 | reading the `HH:MM:SS` text of a non-negative count back (three digit fields, minutes and seconds two digits each) gives the count |
| `Format.ParseClockOf` | time-tracking-app/frontend/app.js:5-10 | three digit fields joined with colons, minutes and seconds two digits each, read back as `3600h + 60m + s` |
| `Format.FormatTimeNegative` | time-tracking-app/frontend/app.js:5-10 | a negative count is not clamped: it prints with negative fields (`-5` gives `-1:-1:-5`) |
| `Format.FormatDurationShape` | time-tracking-app/frontend/src/app/pages/UserDashboard.tsx:87-91 | `formatDuration` is `<hours>h <minutes>m` with the minutes below 60 |
| `Format.FormatDurationDropsSeconds` | time-tracking-app/frontend/src/app/pages/UserDashboard.tsx:87-91 | two counts with the same whole minutes print the same: seconds are dropped |
| `TimeLog.OwnerOf` | time-tracking-app/backend/controllers/user.controller.js:12 | the row owner is `admin_id` exactly for the admin role, and is always the caller's own id |
| `TimeLog.CategoryOf` | time-tracking-app/backend/controllers/user.controller.js:13-14 | a row is of the project kind exactly when its `project_name` is not null |
| `TimeLog.RequestCategory` | time-tracking-app/backend/controllers/user.controller.js:9 | a start request opens a project timer exactly when its project name is present and non-empty |
| `TimeLog.OrNull` | time-tracking-app/backend/controllers/user.controller.js:25 | `x \|\| null`: a present non-empty string is kept, anything else becomes null |
| `TimeLog.OrDefault` | time-tracking-app/backend/controllers/user.controller.js:25 | `x \|\| fallback`: a present non-empty string is kept, anything else becomes the fallback (`''` for the work description here, `'finished'` for the completion status at line 101) |
| `TimeLog.LiveTotal` | time-tracking-app/backend/controllers/user.controller.js:160 | live total = banked seconds plus `now - start_time` while running (open with a start), banked seconds otherwise |
| `TimeLog.FindFirst` | time-tracking-app/backend/controllers/user.controller.js:13-16 | `active[0]`: the first row, in table order, of that owner and kind that is open (any, running or paused); none exactly when no row qualifies |
| `TimeLog.FindFrom` | time-tracking-app/backend/controllers/user.controller.js:13-16 | the scan from a position finds the first qualifying row at or after it, and nothing exactly when none qualifies there |
| `TimeLog.NewRecord` | time-tracking-app/backend/controllers/user.controller.js:21-25 | the inserted row: running from `now`, `initial_start_time = now`, 0 banked, `in_progress`, dated `today`, estimate defaulting to 0, description `''` and project fields null when not given, the owner's column set |
| `TimeLog.Paused` | time-tracking-app/backend/controllers/user.controller.js:48-54 | pause banks exactly `now - start_time` and clears the start, nothing else changes; the live total then stays frozen at its value at `now` |
| `TimeLog.Resumed` | time-tracking-app/backend/controllers/user.controller.js:77 | resume sets `start_time = now` and keeps the bank; for a paused row the live total is unchanged at `now` and grows one-for-one afterwards |
| `TimeLog.DescriptionAfterStop` | time-tracking-app/backend/controllers/user.controller.js:102-111 | `COALESCE(? , work_description)` with `x \|\| null`: only a non-empty description replaces the stored one |
| `TimeLog.Stopped` | time-tracking-app/backend/controllers/user.controller.js:107-122 | stop closes the row at `now`, banks the trailing interval only when running, keeps `start_time`, writes status and description; the live total is frozen afterwards |
| `TimeLog.SelectedIsUnique` | time-tracking-app/backend/controllers/user.controller.js:13-19 | under the invariant, two rows matching one owner, kind and mode are the same row |
| `TimeLog.SingleOpenAppend` | time-tracking-app/backend/controllers/user.controller.js:13-25 | appending a row when its owner has no open row of its kind keeps at most one open row per owner and kind |
| `TimeLog.SingleOpenUpdate` | time-tracking-app/backend/controllers/user.controller.js:47-54 | replacing one row by a closed row, or by an open row of the same owner and kind in place of an open one, keeps the invariant |
| `TimeLog.PauseGapExcluded` | time-tracking-app/backend/controllers/user.controller.js:48-113 | start at `a`, pause at `b`, resume at `c`, stop at `d` banks exactly `(b - a) + (d - c)`: the pause gap is excluded |
| `TimerController.Store.constructor` | time-tracking-app/backend/controllers/user.controller.js:21-25 | an empty table whose next auto-increment id is 1, satisfying the invariant |
| `TimerController.Store.Start` | time-tracking-app/backend/controllers/user.controller.js:5-31 | rejected with 400 "A general/project timer is already active." and the table unchanged when the owner has an open row of that kind; otherwise exactly the `NewRecord` row is appended with the next id and "General/Project timer started"; keeps the invariant, banks and live totals |
| `TimerController.Store.Pause` | time-tracking-app/backend/controllers/user.controller.js:33-60 | rejected with "No running … timer found." and nothing changed when no running row exists; otherwise exactly that first row becomes `Paused` at `now` |
| `TimerController.Store.Resume` | time-tracking-app/backend/controllers/user.controller.js:62-83 | rejected with "No paused … timer found." when no paused row exists; otherwise exactly that first row becomes `Resumed` at `now` |
| `TimerController.Store.Stop` | time-tracking-app/backend/controllers/user.controller.js:85-130 | rejected with "No active … timer found." when no open row exists; otherwise exactly `active[0]` becomes `Stopped` with the defaulted status, returned with "Timer stopped" |
| `TimerController.Store.TimerStatus` | time-tracking-app/backend/controllers/user.controller.js:180-219 | the `forEach` over the open rows fills each slot with the last open row of its kind, as `StatusOf` states |
| `TimerController.SessionOf` | time-tracking-app/backend/controllers/user.controller.js:193-205 | `isRunning` exactly when `start_time` is set; for an open row the session's live seconds equal the row's live total at every instant |
| `TimerController.LastShown` | time-tracking-app/backend/controllers/user.controller.js:192-212 | the surviving row of a slot is the last open row of that kind; empty exactly when there is none |
| `TimerController.StatusAgreesWithCommands` | time-tracking-app/backend/controllers/user.controller.js:185-212 | under the invariant the row the status shows is the row the commands act on (`active[0]`), so the overwriting is harmless |
| `TimerController.StatusSlots` | time-tracking-app/backend/controllers/user.controller.js:187-211 | under the invariant a slot is active exactly when an open row of that kind exists, and running exactly when a running one does |
| `TimerController.NameOf` | time-tracking-app/backend/controllers/user.controller.js:153-154 | the name lookup finds the name of an account with that id, and nothing exactly when no account has it |
| `TimerController.ReportOwner` | time-tracking-app/backend/controllers/user.controller.js:157 | the report reads `admin_id` exactly for an admin without a `userId` query, `user_id` otherwise |
| `TimerController.Listed` | time-tracking-app/backend/controllers/user.controller.js:158-163 | the report rows are exactly the target owner's rows inside the day, week or month window |
| `TimerController.WithLiveTotals` | time-tracking-app/backend/controllers/user.controller.js:159-160 | each report row carries its row's live total at `now` |
| `TimerController.UserReport` | time-tracking-app/backend/controllers/user.controller.js:132-177 | rows newest first, each with its live total; `totalSeconds` is the sum of the live totals; the name is the account's, else "Administrator" for an admin and "Unknown User" otherwise |
| `TimerController.SumOfRows` | time-tracking-app/backend/controllers/user.controller.js:165 | summing the rows' `live_total_seconds` is summing the live totals of the listed rows |
| `TimerController.ReportTotalGrows` | time-tracking-app/backend/controllers/user.controller.js:160-165 | each row's live total is at least its banked seconds and grows with `now`, so the reported total does too |
| `Role.CheckRole` | time-tracking-app/backend/middleware/role.js:1-8 | `next()` exactly when a session with a user of the required role exists; otherwise 403 "Forbidden. Insufficient permissions." |
| `Role.GatesDisjoint` | time-tracking-app/backend/middleware/role.js:3 | no session passes two gates for different roles, so `checkRole('admin')` and `checkRole('user')` exclude each other |
| `Role.UserGateGivesUserOwner` | time-tracking-app/backend/routes/user.routes.js:7 | behind `checkRole('user')` the owner is always `user_id`, so the `admin_id` branches of the timer controller are unreachable |
| `AdminController.BankedFor` | time-tracking-app/backend/controllers/admin.controller.js:124-130 | one user's `COALESCE(SUM(total_seconds), 0)` over the joined rows: the banked seconds of that user's rows in the window, never negative, and 0 when none joins |
| `AdminController.AdminReports` | time-tracking-app/backend/controllers/admin.controller.js:124-137 | exactly one row per account, in account order, with its banked total |
| `AdminController.AdminTotalBelowUserReport` | time-tracking-app/backend/controllers/admin.controller.js:126 | the administrator's figure counts banked seconds only, so it never exceeds the user's own live report over the same window |
| `AdminController.UnknownFilterCountsAll` | time-tracking-app/backend/controllers/admin.controller.js:114-122 | an unknown filter adds no window: all the user's rows count |
| `AdminController.Dashboard` | time-tracking-app/backend/controllers/admin.controller.js:5-18 | total users is the account count; total hours times 3600 is the sum of all banked seconds, 0 without logs, never negative, and at least any one user's report figure |
| `ClientTimer.ElapsedMonotone` | time-tracking-app/frontend/app.js:277-284 | the displayed elapsed seconds (`baseSeconds + floor((now - start) / 1000)` while running) never go backwards as time advances |
| `ClientTimer.ProjectDisplay` | time-tracking-app/frontend/app.js:286-305 | with an estimate the display shows `max(0, estimate - elapsed)`: the remaining time while below the estimate, 0 once the estimate is reached, never negative; without one it counts up; the auto-stop fires exactly when an estimate exists, the timer runs and the shown time is 0, that is, exactly when a running timer has reached its estimate |
| `ClientTimer.AutoStopBoundary` | time-tracking-app/frontend/app.js:296-301 | a one-minute running project shows 1 second left just before the minute and fires at the minute |
| `ClientTimer.FromSession` | time-tracking-app/frontend/app.js:201-242 | an active slot sets active, the banked seconds, running, the start in milliseconds and, for the project state, the estimate (the task state carries none, so 0); an inactive slot clears only active, running and the start |
| `ClientTimer.ClientAgreesWithServer` | time-tracking-app/frontend/app.js:277-282 | after a sync, at any millisecond of server second `now` the page shows the server row's live total |
| `ClientTimer.TaskVisibility` | time-tracking-app/frontend/app.js:334-353 | inactive shows only Start; running shows Pause, Finish and Stop; paused shows Resume, Finish and Stop |
| `ClientTimer.ProjectVisibility` | time-tracking-app/frontend/app.js:363-380 | project Start exactly when inactive, Stop exactly when active |
| `ClientTimer.ButtonsMatchServer` | time-tracking-app/frontend/app.js:325-381 | after a sync with a valid table, each visible button is exactly one the server accepts (Start iff nothing open, Pause iff running, Resume iff paused, Finish and Stop iff open) |
| `ClientTimer.ModesSplit` | time-tracking-app/backend/controllers/user.controller.js:39-40 | under the invariant, an open row is found by exactly one of the running and paused lookups, and neither finds one when nothing is open |
| `ClientTimer.Payload` | time-tracking-app/frontend/app.js:384-454 | each button's request: Finish sends `finished`, Stop `not_completed`, project Stop `finished` without a description; a project start is refused exactly when the name is empty, else its estimate is `h*3600 + m*60` with unreadable fields as 0 |
| `ClientTimer.ProjectStartIsProject` | time-tracking-app/frontend/app.js:427-440 | a project start that is sent always opens a project timer on the server |
| `ClientTimer.EstimateFieldsRoundTrip` | time-tracking-app/frontend/app.js:233-236 | the hour and minute fields written from an estimate read back as the estimate rounded down to whole minutes |
| `ClientTimer.ClientTimers.constructor` | time-tracking-app/frontend/app.js:198-199 | both states start inactive, stopped, without a start and with no seconds or estimate |
| `ClientTimer.ClientTimers.InitTimer` | time-tracking-app/frontend/app.js:201-253 | both states become the synchronised `FromSession` images of the server's slots; an inactive slot leaves that state inactive, stopped, without a start |
| `ClientTimer.ClientTimers.StopProjectAutomatically` | time-tracking-app/frontend/app.js:307-323 | posts the project stop with `not_completed` and the fixed "time limit reached" description; on success the project state becomes inactive and stopped |
| `AppContext.FindByCredentials` | time-tracking-app/frontend/src/app/context/AppContext.tsx:95 | `users.find`: the FIRST entry, in list order, whose username and password both match; nothing exactly when there is none |
| `AppContext.Login` | time-tracking-app/frontend/src/app/context/AppContext.tsx:89-102 | admin login succeeds only for `admin`/`admin` and opens account 1; user login succeeds exactly when an entry matches both fields and opens the first such entry; anything else fails |
| `AppContext.SeededAdminLogsInAsUser` | time-tracking-app/frontend/src/app/context/AppContext.tsx:54 | on the seeded list `admin`/`admin` also opens a user session for account 1, and `user`/`user` does not open an admin one |
| `AppContext.MaxId` | time-tracking-app/frontend/src/app/context/AppContext.tsx:111 | `Math.max(...ids, 0)`: at least 0, at least every id, and either 0 or one of the ids |
| `AppContext.MaxUserId` | time-tracking-app/frontend/src/app/context/AppContext.tsx:111 | the largest account id, or 0: at least 0, at least every account's id, and 0 or some account's id |
| `AppContext.MaxLogId` | time-tracking-app/frontend/src/app/context/AppContext.tsx:130 | the same for the log ids, which `addTimeLog` numbers from |
| `AppContext.Merge` | time-tracking-app/frontend/src/app/context/AppContext.tsx:119 | `{ ...user, ...updates }`: each given field replaces the entry's own, the others stay |
| `AppContext.MergeIdempotent` | time-tracking-app/frontend/src/app/context/AppContext.tsx:118-120 | applying the same update twice is applying it once |
| `AppContext.UpdateWhere` | time-tracking-app/frontend/src/app/context/AppContext.tsx:118-120 | same length; entries with the id are merged, all others unchanged in place |
| `AppContext.UpdateKeepsIds` | time-tracking-app/frontend/src/app/context/AppContext.tsx:119 | an update that does not set the id keeps every id, so unique ids stay unique |
| `AppContext.LogsByUser` | time-tracking-app/frontend/src/app/context/AppContext.tsx:144-146 | exactly the logs with that `userId` |
| `AppContext.GetUserStats` | time-tracking-app/frontend/src/app/context/AppContext.tsx:148-157 | `sessionsToday` counts the user's logs dated today (at most all the user's logs); total hours times 3600 is the sum of the user's durations |
| `AppContext.DeleteCascades` | time-tracking-app/frontend/src/app/context/AppContext.tsx:122-125 | after the cascade the deleted user has no logs and every other user keeps exactly theirs |
| `AppContext.FindById` | time-tracking-app/frontend/src/app/context/AppContext.tsx:135 | `users.find`: the first entry with that id; nothing exactly when there is none |
| `AppContext.HoursPatch` | time-tracking-app/frontend/src/app/context/AppContext.tsx:137-140 | merging it adds `duration / 3600` hours and sets "Just now", nothing else |
| `AppContext.AppStore.Seeded` | time-tracking-app/frontend/src/app/context/AppContext.tsx:51-71 | a store without saved state starts with the five seeded accounts, the five seeded logs and nobody signed in |
| `AppContext.AppStore.Restored` | time-tracking-app/frontend/src/app/context/AppContext.tsx:46-71 | a store with saved state starts with exactly the saved accounts, logs and session |
| `AppContext.AppStore.SignIn` | time-tracking-app/frontend/src/app/context/AppContext.tsx:89-102 | succeeds exactly when `Login` does, and then signs that account in; the lists are unchanged |
| `AppContext.AppStore.SignOut` | time-tracking-app/frontend/src/app/context/AppContext.tsx:104-106 | nobody is signed in afterwards; the lists are unchanged |
| `AppContext.AppStore.AddUser` | time-tracking-app/frontend/src/app/context/AppContext.tsx:108-116 | appends the account with id `max + 1`, above every existing id, 0 hours and "Never"; unique ids stay unique |
| `AppContext.AppStore.UpdateUser` | time-tracking-app/frontend/src/app/context/AppContext.tsx:118-120 | the account list becomes `UpdateWhere`; logs and session unchanged |
| `AppContext.AppStore.DeleteUser` | time-tracking-app/frontend/src/app/context/AppContext.tsx:122-125 | removes the accounts with that id and every log with that `userId`, all others kept in order |
| `AppContext.AppStore.AddTimeLog` | time-tracking-app/frontend/src/app/context/AppContext.tsx:127-142 | appends the log with id `max + 1`, keeping log ids unique; the first account with that id gets the hours patch |
| `UserDashboard.FilteredLogs` | time-tracking-app/frontend/src/app/pages/UserDashboard.tsx:30-44 | the user's logs kept by the daily, weekly or monthly window, and all of them for any other filter |
| `UserDashboard.TodayStats` | time-tracking-app/frontend/src/app/pages/UserDashboard.tsx:52-64 | sessions count today's logs; the time is `formatDuration` of their summed durations; the streak is the fixed 7 |
| `UserDashboard.TodayAgreesWithStore` | time-tracking-app/frontend/src/app/pages/UserDashboard.tsx:46-64 | today's session count on the dashboard equals the store's `sessionsToday` for the same user |
| `UserDashboard.Dashboard.constructor` | time-tracking-app/frontend/src/app/pages/UserDashboard.tsx:12-17 | the stopwatch starts stopped, not paused, at 0 seconds, with an empty description and no start |
| `UserDashboard.Dashboard.SetDescription` | time-tracking-app/frontend/src/app/pages/UserDashboard.tsx:15 | the description input replaces the description and nothing else |
| `UserDashboard.Dashboard.HandleStart` | time-tracking-app/frontend/src/app/pages/UserDashboard.tsx:93-101 | refused exactly when the description trims to empty; otherwise running, not paused and started now, seconds and description untouched |
| `UserDashboard.Dashboard.HandlePause` | time-tracking-app/frontend/src/app/pages/UserDashboard.tsx:103-105 | sets paused and nothing else |
| `UserDashboard.Dashboard.HandleResume` | time-tracking-app/frontend/src/app/pages/UserDashboard.tsx:107-109 | clears paused and nothing else |
| `UserDashboard.Dashboard.Tick` | time-tracking-app/frontend/src/app/pages/UserDashboard.tsx:66-78 | the counter advances by one exactly when running and not paused |
| `UserDashboard.Dashboard.HandleStop` | time-tracking-app/frontend/src/app/pages/UserDashboard.tsx:111-131 | without a signed-in user nothing happens; otherwise a log whose duration is the counted seconds is recorded through `addTimeLog` (from the start, or now when never started), then the stopwatch resets |
| `AdminDashboard.FilteredUsers` | time-tracking-app/frontend/src/app/pages/AdminDashboard.tsx:31 | every account except id 1 |
| `AdminDashboard.ActiveIds` | time-tracking-app/frontend/src/app/pages/AdminDashboard.tsx:49-51 | the distinct `userId`s among today's logs, no more of them than today's logs |
| `AdminDashboard.DashboardStats` | time-tracking-app/frontend/src/app/pages/AdminDashboard.tsx:33-59 | total users is the non-admin count; total hours times 3600 sums the windowed durations; today's activity sums today's; active users counts the distinct ids of today |
| `AdminDashboard.OtherFilterCountsAll` | time-tracking-app/frontend/src/app/pages/AdminDashboard.tsx:39-46 | any filter but day, week and month counts every log |
| `AdminDashboard.DayFilterIsToday` | time-tracking-app/frontend/src/app/pages/AdminDashboard.tsx:39-50 | with the day filter the hour figure and today's activity agree |
| `AdminDashboard.UserReports` | time-tracking-app/frontend/src/app/pages/AdminDashboard.tsx:61-72 | one row per non-admin account in order, each with the hours of that account's logs only, whatever the filter |
| `AdminDashboard.ReportsAgreeWithStore` | time-tracking-app/frontend/src/app/pages/AdminDashboard.tsx:61-72 | each report row's hours equal the store's `getUserStats` total for that account |
| `AdminDashboard.AddUserError` | time-tracking-app/frontend/src/app/pages/AdminDashboard.tsx:74-83 | "Please fill in all fields" exactly when a field is empty; else "Username already exists" exactly when the username is taken; accepted otherwise |
| `AdminDashboard.AddKeepsUsernamesUnique` | time-tracking-app/frontend/src/app/pages/AdminDashboard.tsx:79-85 | an accepted account keeps usernames unique |
| `AdminDashboard.EditError` | time-tracking-app/frontend/src/app/pages/AdminDashboard.tsx:90-94 | accepted exactly when an account is selected with a non-empty name and email |
| `AdminDashboard.ResetError` | time-tracking-app/frontend/src/app/pages/AdminDashboard.tsx:110-114 | accepted exactly when `newPassword.length`, counted in UTF-16 code units, is at least 4; otherwise the fixed alert text |
| `AdminDashboard.ResetCountsCodeUnits` | time-tracking-app/frontend/src/app/pages/AdminDashboard.tsx:111 | two characters outside the Basic Multilingual Plane are four code units and pass the check; three ASCII letters do not |
| `AdminDashboard.ResetPasswordThenLogin` | time-tracking-app/frontend/src/app/pages/AdminDashboard.tsx:110-121 | with unique usernames, after a reset the account's username with the new password signs in as that account |
| `AdminDashboard.Dashboard.constructor` | time-tracking-app/frontend/src/app/pages/AdminDashboard.tsx:14-22 | every dialog closed, the form and password input empty and nothing selected |
| `AdminDashboard.Dashboard.HandleAddUser` | time-tracking-app/frontend/src/app/pages/AdminDashboard.tsx:74-88 | alerts the check's error and changes nothing, or adds the account, closes the dialog and clears the form; unique usernames and ids stay unique |
| `AdminDashboard.Dashboard.HandleEditUser` | time-tracking-app/frontend/src/app/pages/AdminDashboard.tsx:90-102 | alerts and changes nothing, or writes back only name and email of the selected account, closes the dialog and clears the selection |
| `AdminDashboard.Dashboard.HandleDeleteUser` | time-tracking-app/frontend/src/app/pages/AdminDashboard.tsx:104-108 | deletes the selected account with its logs, closes the dialog and clears the selection |
| `AdminDashboard.Dashboard.HandleResetPassword` | time-tracking-app/frontend/src/app/pages/AdminDashboard.tsx:110-121 | a password under 4 UTF-16 code units alerts and changes nothing; otherwise only the password of the selected account changes, the dialog closes, selection and input clear, and success is announced |
| `SetupDb.TrimAll` | time-tracking-app/setup-db.js:33 | each piece trimmed, same count |
| `SetupDb.Statements` | time-tracking-app/setup-db.js:31-34 | every statement is non-empty, has no whitespace at either end and holds no `;`; the statements are exactly the non-blank trimmed pieces between semicolons |
| `SetupDb.StatementsRoundTrip` | time-tracking-app/setup-db.js:31-34 | statements written as `s1;…;sn;` plus trailing whitespace are cut back into exactly those statements, in order |
| `SetupDb.Excerpt` | time-tracking-app/setup-db.js:43 | `substring(0, 50) + '...'`: a prefix of the statement that fits in 50 UTF-16 code units and is the longest that does, then the ellipsis; for text inside the Basic Multilingual Plane, the first 50 characters |
| `SetupDb.ErrorLines` | time-tracking-app/setup-db.js:36-46 | at most one error line per statement |
| `SetupDb.ErrorLinesReported` | time-tracking-app/setup-db.js:39-44 | every error line is the excerpt and message of a statement whose failure is neither `ER_TABLE_EXISTS_ERROR` nor `ER_DUP_ENTRY` |
| `SetupDb.ErrorLinesQuiet` | time-tracking-app/setup-db.js:36-46 | no error line is written exactly when every failure is one of those two codes |
| `SetupDb.ImportSchema` | time-tracking-app/setup-db.js:36-46 | the loop sends every statement in order whatever fails, and writes exactly `ErrorLines` |

## Left out

- Database, HTTP, sessions and `isAuthenticated`. The table is an in-memory sequence. `NOW()` and `CURDATE()` are parameters `now` (seconds) and `today` (a day number).
- The clock. `Store` keeps a ghost `clock`, and every command requires `now` not to be earlier than it. So `NOW()` never runs backwards, and a banked interval is never negative.
- Row order. A `SELECT` without `ORDER BY` is taken in insertion order, so `active[0]` is the first matching row. `ORDER BY created_at DESC` is reverse insertion order. `GROUP BY u.id` produces rows in account order.
- `UPDATE … WHERE id = ?` is modelled as an update of that one row. The row ids are unique under the invariant.
- Concurrency. Each command runs atomically; interleaved requests, including the unguarded check-then-insert of `startTimer`, are not modelled.
- Server errors. The 500 "Server error" path, for a failing query, is not modelled.
- JSON request values other than strings, absent values and integers are not modelled. JavaScript truthiness is modelled for `''` and absent values only. A non-numeric `userId` query (`NaN`) is not modelled.
- The admin override of `getReports`. It is modelled, but the user routes, the report route included, sit behind `checkRole('user')`, so no admin session reaches it.
- Password hashing, the login and account endpoints of `auth.controller.js`, and the account and password endpoints of `admin.controller.js` are not part of this model: bcrypt is foreign code.
- Migration, schema-integrity and diagnostic scripts are not part of this model. They are DDL and I/O against a live database.
- Floating point.
  - Hour figures are exact `real` numbers: `totalHours` in the mock store and both dashboards, and the administrator's total hours.
  - The `toFixed(1)` and `toFixed(2)` renderings are left out.
  - The server's own `totalHours` string in the report is left out; its `totalSeconds` is modelled.
- Calendar arithmetic. The server's dates are integer day numbers, and its week and month windows are `today - 7` and `today - 30`. The React store's `'YYYY-MM-DD'` dates are the integers YYYYMMDD, which compare in the same order as the strings. The React pages' week-ago and month-ago bounds are parameters.
- Browser side.
  - DOM rendering, `setInterval` and `clearInterval`, `fetch` and `alert` are left out.
  - Writing the store back to `localStorage` is left out. Reading it is `AppStore.Restored`, and a missing entry is `AppStore.Seeded`. Each saved list is passed in as it was read.
  - A request that fails (`apiCall` throwing) is modelled only where the code reacts to it, in `stopProjectAutomatically`.
  - The page reloads after each button click, via `initTimer`, are left out.
- `SetupDb.Excerpt`: when a surrogate pair straddles the fiftieth code unit, `substring` keeps the pair's first half alone. A Dafny `char` cannot hold a lone surrogate, so the excerpt then stops before the pair, one unit short of the source's.
- `toLocaleTimeString`. The start and end labels of a recorded log are rendered by a function parameter.
- `parseInt`. Only decimal numerals are read; the `0x` prefix and non-ASCII digits are left out. Whitespace is the ECMAScript white-space and line-terminator set.
- `SetupDb.Statements`: the contract states which pieces become statements, not their order. The order is stated by `SetupDb.StatementsRoundTrip` for schema text written from statements.
- `SetupDb.ImportSchema`: the server's answer to each statement is an input sequence. The database state it depends on, and the connection and `CREATE DATABASE` steps around the loop, are left out.
- `ClientTimer.ProjectDisplay`: "shown ≤ estimate" is stated only for non-negative elapsed time. A start instant later than the browser clock makes the elapsed time negative, and the code then shows more than the estimate.
- Presentational components, routing and the login pages are not part of this model.
