# Timexa time tracker: a verified model of the store, the timer and the derived figures

Timexa is a browser time tracker. Users are Admins or Members. Projects hold
tasks, tasks are assigned to users, and users start, pause, resume and stop
a timer on a task. Each timer run is a time log. Everything lives in one
in-memory `data` record of users, projects, tasks, time logs and departments,
inside `services/api.ts`. The pages derive figures from that record:

- the live session clock of a task;
- the total time per task;
- report breakdowns per project, member and task;
- the dashboard counts.

This project models that store and those figures in Dafny and proves what
they promise.

- `types.dfy` (module `Types`) holds the records and the two enumerations.
  Optional fields are `Option`s, and `None` stands for an absent key.
- `seqs.dfy` (module `Seqs`) holds `find`/`findIndex` as `IndexWhere` and
  `filter` as `Filter`, with their contracts.
- `timer.dfy` (module `Timer`) is the state machine of one time log.
  - A log is Running (no end time, not paused), Paused (no end time, paused)
    or Stopped (end time set).
  - Pause, resume and stop return `None` when the move is illegal.
  - Durations grow by whole seconds: the elapsed milliseconds divided by
    1000, rounded down.
- `api.dfy` (module `Api`) is the store.
  - The timer, user, member-deletion and task operations first get a
    specification function on the `Data` record: the new record and the
    result as values. The department operations get one on the department
    list. `AddMember` and `AddTask` have none: their contracts state the
    appended record directly.
  - Then class `Store` holds `var data: Data`. Its methods change `data` the
    way the source changes its module-level record, and each method is proved
    equal to its specification function or to the new record its contract
    states.
  - The ghost predicate `Store.Valid()` is the state invariant. Time log ids
    are unique, at most one log per (task, user) pair is unstopped, no
    stopped log is paused, and the department list has no duplicates.
  - Every mutating method keeps `Valid()`. `StartTimer` also needs a fresh
    log id to keep it.
- `timercontrol.dfy` (module `TimerControl`) is the per-task timer widget.
  - It covers the session time it shows and the buttons it offers.
  - Class `TaskTimerControl` holds the widget state (`activeLog`,
    `sessionTime`) and its handlers, which call the `Store`.
- `format.dfy` (module `Format`) holds the two duration texts. "HH:MM:SS" is
  used by the timer widget and the member dashboard. "<h>h <m>m" is used by
  the task list, the reports page and the admin dashboard. Each comes with a
  reader, and a round-trip lemma says what the text means.
- `taskspage.dfy` (module `TasksPage`) holds the task list's id-to-name maps
  and the loop that totals completed logs per task.
- `reports.dfy` (module `Reports`) holds the reports page.
  - It covers the period filter and the three breakdowns, which accumulate
    into a name-keyed dictionary in insertion order.
  - The task ranking by hours is cut to ten entries.
  - It also covers the member's total and the member's completed tasks.
- `dashboard.dfy` (module `Dashboard`) holds the admin counts and total time,
  the project name lookup with its fallback, and the choice of dashboard by
  role.

Parameters stand for what the source reads from the environment:

- the clock (`Date.now()`) is `now`;
- generated ids (`log-…`, `user-…`, `task-…`) are `freshId`;
- the signed-in user is `viewer` or `user`;
- a report period's threshold is `Period.Since(threshold)`. It is midnight
  today for 'day' and midnight of this week's Monday for 'week'. For 'month'
  and 'year' it is the first of this month or January 1st at the current
  time of day, because the page does not reset the hours in those two cases.

## Model

| member | source | states |
|---|---|---|
| `Types.StatusLabelRoundTrip` | types.ts:6-10 | The three task statuses carry distinct labels 'To Do', 'In Progress', 'Done': reading a status's label back gives that status. |
| `Types.ParseStatus` | types.ts:6-10 | A label that is read back as a status is exactly that status's label. |
| `Seqs.IndexWhere` | services/api.ts:186 | `find`/`findIndex`: the index of the first element that passes the test, or none when no element does. |
| `Seqs.Filter` | services/api.ts:191 | `filter`: every kept element passes the test and comes from the input, every passing element is kept, and nothing is dropped only when everything passes. |
| `Seqs.FilterAppend` | services/api.ts:191 | Filtering a concatenation filters each part and concatenates the results. With `Seqs.FilterSingleton` this fixes the result: the passing elements, each as often as it occurs, in input order. |
| `Seqs.FilterSingleton` | services/api.ts:191 | A one-element list keeps its element exactly when it passes the test. |
| `Seqs.FilterPairwise` | services/api.ts:217 | Filtering keeps the relative order of what it keeps, so a relation between every earlier and later element survives it. |
| `Timer.Elapsed` | services/api.ts:255 | `Math.floor((now - start) / 1000)`: the result is the unique r with r*1000 <= now-start < r*1000+1000, and it is non-negative when the clock has not gone backwards. |
| `Timer.NewLog` | services/api.ts:238-246 | startTimer's new log is Running and well-formed, with the given id, task and user, start time `now` and duration 0. |
| `Timer.Pause` | services/api.ts:252-261 | pauseTimer applies exactly to a Running log. It then yields a Paused log with the same identity and start time, and adds the elapsed whole seconds to the duration. |
| `Timer.Resume` | services/api.ts:263-272 | resumeTimer applies exactly to a Paused log. It then yields a Running log with the same identity that restarts at `now` and keeps its duration. |
| `Timer.Stop` | services/api.ts:274-286 | stopTimer applies exactly to an unstopped log and yields a well-formed Stopped log ending at `now` that keeps its start time. A paused log keeps its duration exactly; a running log adds the elapsed whole seconds. |
| `Timer.StepProperties` | services/api.ts:252-286 | No move applies to a stopped log. Every move keeps the log's identity, yields a log that is never both stopped and paused, and never re-activates a stopped log. |
| `Timer.StepDurationMonotone` | services/api.ts:252-285 | With a clock at or after the log's start, no move lowers the duration. |
| `Timer.PauseResumePause` | services/api.ts:252-272 | Pause, resume, pause: the duration is the old one plus the rounded-down length of each running interval. |
| `Timer.StoppedIsTerminal` | services/api.ts:274-286 | After a stop, pause, resume and stop are all refused. |
| `Timer.StartPauseResumeStopScenario` | services/api.ts:231-286 | Start at 0 s, pause at 10 s, resume at 10 s, stop at 25 s: durations 10 then 25, end time 25 s. |
| `Timer.TotalDuration` | pages/DashboardPage.tsx:17 | `reduce((sum, log) => sum + log.duration, 0)`: with no negative durations the sum is not negative. |
| `Timer.NoNegativeDurationsMeans` | pages/DashboardPage.tsx:17 | The premise used for the sums holds exactly when every log's duration is at least 0. |
| `Timer.TotalDurationAppend` | pages/DashboardPage.tsx:17 | The summed duration of two lists joined is the sum of their sums. |
| `Format.ClockParts` | components/TaskTimerControl.tsx:13-18 | Hours, minutes < 60 and seconds < 60 that add back up to the given seconds. |
| `Format.FormatClock` | components/TaskTimerControl.tsx:13-18 | The "HH:MM:SS" text has at least eight characters, and exactly eight below 100 hours. `Format.FormatClockRoundTrip` states what it denotes. |
| `Format.Field2` | components/TaskTimerControl.tsx:14-16 | `toString().padStart(2, '0')` gives at least two digits, and exactly two below 100. |
| `Format.Field2Value` | components/TaskTimerControl.tsx:14-16 | The padded digits denote the number they were made from. |
| `Format.FormatClockRoundTrip` | components/TaskTimerControl.tsx:13-18 | The "HH:MM:SS" text reads back, field by field, as `Format.ClockParts` of the seconds: at least two hour digits, then exactly two digits each for the minutes (0..59) and the seconds (0..59). Read as h*3600 + m*60 + s it is exactly the seconds shown. The member dashboard's formatter at pages/DashboardPage.tsx:101-106 is the same function. |
| `Format.HourMinuteParts` | pages/TasksPage.tsx:8-12 | Whole hours and minutes < 60 with h*3600 + m*60 <= s < h*3600 + m*60 + 60. |
| `Format.FormatHoursMinutes` | pages/TasksPage.tsx:8-12 | The "<h>h <m>m" text contains an 'h' and ends in 'm'. `Format.FormatHoursMinutesRoundTrip` states what it denotes. |
| `Format.FormatHoursMinutesRoundTrip` | pages/TasksPage.tsx:8-12 | The "<h>h <m>m" text reads back as exactly those hours and minutes. The same function is formatTime at pages/ReportsPage.tsx:145-149 and pages/DashboardPage.tsx:29-33. |
| `Format.NatToStringRoundTrip` | components/TaskTimerControl.tsx:14 | `toString()` of a non-negative integer gives digits that denote that integer. |
| `Format.NatToString` | components/TaskTimerControl.tsx:14 | `toString()` of a non-negative integer is a non-empty string of decimal digits with no leading zero. |
| `Format.PadStart2` | components/TaskTimerControl.tsx:14-16 | `padStart(2, '0')` keeps the text as its suffix, pads with '0' on the left up to two characters and never truncates. |
| `Format.PadStart2Value` | components/TaskTimerControl.tsx:14-16 | Padding a digit string with '0' keeps the number it denotes. |
| `Api.LoadedDepartments` | services/api.ts:131 | A saved department list is kept as it is. Only a missing one falls back to the seed departments. |
| `Api.FindUser` | services/api.ts:290 | `findIndex` by user id: the first index with the id, or none when no user has it. |
| `Api.FindTask` | services/api.ts:367 | `findIndex` by task id: the first index with the id, or none when no task has it. |
| `Api.FindProject` | pages/ReportsPage.tsx:89 | `find` by project id: the first index with the id, or none when no project has it. |
| `Api.FindLog` | services/api.ts:253 | `find` by log id: the first index with the id, or none when no log has it. |
| `Api.FindActive` | services/api.ts:226-229 | getActiveLogForTask finds the first log of the task and user whose end time is null, or reports that none exists. |
| `Api.FilterKeepsLogsValid` | services/api.ts:340-385 | Dropping logs keeps ids unique, one active log per pair and every log well-formed. |
| `Api.WithDepartment` | services/api.ts:207-213 | The new list starts with the old one and lists the name, with at most one name more. |
| `Api.WithoutDepartment` | services/api.ts:215-223 | The new list no longer lists the name and is no longer than the old one. |
| `Api.WithDepartmentProperties` | services/api.ts:207-213 | addDepartment adds the name only if it is absent. The name is then listed, nothing else changes, a second call is a no-op and the list stays duplicate-free. |
| `Api.WithoutDepartmentProperties` | services/api.ts:215-223 | deleteDepartment removes every occurrence of the name and keeps all other names. The list shrinks iff the name was listed, is unchanged otherwise, and stays duplicate-free. |
| `Api.Transitioned` | services/api.ts:252-286 | A timer move keeps the number of logs and changes nothing when it fails. A successful move finds the first log with the id, replaces it by the moved log (`Timer.Step`: pause banks the elapsed seconds and sets paused, resume restarts at `now`, stop sets the end time) and returns that moved log. |
| `Api.TransitionedChangesOnlyTarget` | services/api.ts:252-286 | A timer move touches only the first log with the id, which becomes the moved log. It fails, changing nothing, exactly when no log has the id or the move is illegal for that log. |
| `Api.TransitionedKeepsValid` | services/api.ts:252-286 | Pause, resume and stop keep the time log invariant. |
| `Api.TransitionedDurationsMonotone` | services/api.ts:252-286 | With a clock past every start time, no log's duration decreases. |
| `Api.StopActiveClearsPair` | services/api.ts:233-236 | On a valid list, stopping the pair's first active log (found again by its id) leaves the pair with no active log. |
| `Api.Started` | services/api.ts:231-250 | startTimer adds exactly one log, at the end: an active log with the fresh id that starts `now`. |
| `Api.StartedKeepsValid` | services/api.ts:231-250 | startTimer with a fresh id keeps the invariant, in particular at most one active log per (task, user). |
| `Api.StartedActiveIsNew` | services/api.ts:231-250 | After startTimer the pair's active log is the new one, appended at the end, running from `now` with duration 0. A previously active log of the pair has been stopped at `now`. |
| `Api.StartedKeepsOthers` | services/api.ts:231-250 | startTimer changes no earlier log when the pair has no active log. Otherwise only logs with the stopped log's id can change, and on a valid list only the stopped log itself. |
| `Api.Overlay` | services/api.ts:294 | A key present in the update overrides; an absent key keeps the original value. |
| `Api.ProfileMerged` | services/api.ts:289-299 | updateUser takes every field from the update except the password, which stays the stored one. |
| `Api.KeptPassword` | services/api.ts:319 | `update.password || original.password`: an absent or empty password keeps the stored one. |
| `Api.MemberMerged` | services/api.ts:311-325 | updateMember keeps the update's id, name, email, role and avatar. Each optional profile field comes from the update when it sets it and otherwise from the stored user. The password is the update's when it is non-empty and otherwise the stored one. Apart from the password the record is updateUser's merge. |
| `Api.MemberMergedNeverErasesPassword` | services/api.ts:318-319 | updateMember never removes a stored password. A password it leaves is either the stored one or a non-empty new one. |
| `Api.AfterUpdateUser` | services/api.ts:289-325 | An update that finds no user changes nothing. One that does returns a stored user with the id, keeps the number of users and leaves tasks and logs alone. |
| `Api.UpdateUserProperties` | services/api.ts:289-325 | Both updates succeed iff a user has the id, and nothing changes for an unknown id. On success exactly the first user with the id is replaced, by the profile merge for updateUser and the member merge for updateMember; every other user, including later ones with the same id, is kept. updateUser keeps every password. Projects, tasks, logs and departments are untouched. |
| `Api.AdminCountPositive` | services/api.ts:331 | The Admin count is at least one iff some user is an Admin. |
| `Api.HeirId` | services/api.ts:345-346 | When some user is an Admin, the id tasks are handed to is that of the first Admin in the list; with no Admin it is ''. |
| `Api.AfterDeleteMember` | services/api.ts:327-354 | A refused deletion changes nothing. Projects and departments never change, no user or log is added, and the number of tasks is kept. |
| `Api.Removed` | services/api.ts:338-351 | Past the guard, the users become the filter without the id, and nothing changes when no user had it. |
| `Api.DeleteMemberOutcome` | services/api.ts:327-354 | deleteMember succeeds iff the user exists and is not the last Admin, and fails without change otherwise. On success the users and the logs are exactly the filters without that user, in order. Each of their tasks goes to the first remaining Admin (or ''), and every other task, project and department is unchanged. |
| `Api.Reassigned` | services/api.ts:342-348 | Reassignment keeps the number and ids of the tasks, and leaves no task with the deleted user unless the heir is that same id. |
| `Api.ReassignTasks` | services/api.ts:342-348 | The forEach over the tasks hands every task of the deleted user to the first remaining Admin (or ''), keeps every other task, and keeps the list's length and order. |
| `Api.DeleteMemberLeavesNoTrace` | services/api.ts:338-351 | After a successful deleteMember of a non-empty id, no task is assigned to that id and no log belongs to it. |
| `Api.AdminSurvives` | services/api.ts:329-336 | With unique user ids, when the guard lets a deletion through, an Admin with another id exists. |
| `Api.DeleteMemberKeepsAnAdmin` | services/api.ts:327-354 | With unique user ids and at least one Admin, deleteMember leaves at least one Admin. |
| `Api.DuplicateIdRemovesLastAdmin` | services/api.ts:327-354 | A Member and the only Admin sharing the id 'x': the guard looks at the Member, the deletion succeeds, and no Admin is left. |
| `Api.AfterDeleteMemberIntended` | services/api.ts:327-354 | With the guard checking what the filter removes, a deletion never leaves the store without an Admin when it had one, whatever the ids. |
| `Api.AfterDeleteTask` | services/api.ts:376-386 | A failed deletion changes nothing, users, projects and departments never change, and a successful one removes at least one task. |
| `Api.DeleteTaskOutcome` | services/api.ts:376-386 | deleteTask reports true iff a task has the id. The tasks and logs then become exactly the filters without that task, in order, and all else is kept; otherwise nothing changes. |
| `Api.AfterUpdateTask` | services/api.ts:366-374 | A failed update changes nothing. A successful one returns the given task, which is now stored; the number of tasks, the users and the logs are kept. |
| `Api.UpdateTaskOutcome` | services/api.ts:366-374 | updateTask succeeds iff a task has the id. It then replaces exactly the first task with the id, wholesale, keeps every other task (including later ones with the same id) and the logs; otherwise nothing changes. |
| `Api.Store.Valid` | services/api.ts:231-286 | The store invariant: log ids are unique, each task and user pair has at most one unstopped log, every log is well-formed (a stopped log is not paused) and the department list has no duplicates. |
| `Api.Store.Seed` | services/api.ts:132-141 | With nothing saved, the store starts from the seed data, which satisfies the invariant. |
| `Api.Store.Restore` | services/api.ts:126-131 | A saved snapshot is restored as it is, with the department default. |
| `Api.Store.GetTask` | services/api.ts:185-188 | The result is the first stored task with the id, and is absent iff no task has the id. |
| `Api.Store.GetTasksForUser` | services/api.ts:190-192 | The result is the filter of the stored tasks by assignee: exactly the user's tasks, in stored order and multiplicity (see `Seqs.FilterAppend`). |
| `Api.Store.GetTimeLogsForUser` | services/api.ts:198-200 | The result is the filter of the stored logs by user: exactly the user's logs, in stored order and multiplicity. |
| `Api.Store.GetActiveLogForTask` | services/api.ts:226-229 | The result is the first stored log of the pair whose end time is null, and is absent iff the pair has none. |
| `Api.Store.AddDepartment` | services/api.ts:207-213 | Returns the name, and appends it only when absent. |
| `Api.Store.DeleteDepartment` | services/api.ts:215-223 | Returns true iff the name was listed, and drops it. |
| `Api.Store.PauseTimer` | services/api.ts:252-261 | Changes only the time logs, as Transitioned with the pause move, and returns the paused log or null. |
| `Api.Store.ResumeTimer` | services/api.ts:263-272 | Changes only the time logs, as Transitioned with the resume move. |
| `Api.Store.StopTimer` | services/api.ts:274-286 | Changes only the time logs, as Transitioned with the stop move. |
| `Api.Store.StartTimer` | services/api.ts:231-250 | Stops the pair's active log and appends the new running log. It changes nothing else and keeps the invariant when the id is fresh. |
| `Api.Store.UpdateUser` | services/api.ts:289-299 | The new record is the profile merge at the first user with the id, or no change and null. |
| `Api.Store.AddMember` | services/api.ts:301-309 | Appends the member under the fresh id and returns it. |
| `Api.Store.UpdateMember` | services/api.ts:311-325 | The new record is the member merge at the first user with the id, or no change and null. |
| `Api.Store.DeleteMember` | services/api.ts:327-354 | The guard, the filter, the reassignment loop over the tasks and the log cleanup together give AfterDeleteMember. |
| `Api.Store.AddTask` | services/api.ts:356-364 | Appends the task under the fresh id and returns it. |
| `Api.Store.UpdateTask` | services/api.ts:366-374 | Replaces the first task with the id, or makes no change and returns null. |
| `Api.Store.DeleteTask` | services/api.ts:376-386 | Removes the task and, only if it existed, its logs. |
| `TimerControl.SessionTime` | components/TaskTimerControl.tsx:35-37 | With no active log the session time is 0. |
| `TimerControl.SessionTimeIsStopDuration` | components/TaskTimerControl.tsx:29-34 | The session time shown for an active log equals the duration stopping it now would record: banked seconds plus the running interval when not paused. |
| `TimerControl.SessionTimeContinuous` | components/TaskTimerControl.tsx:29-34 | Pausing or resuming at `now` leaves the shown time unchanged. |
| `TimerControl.PausedSessionTimeFrozen` | components/TaskTimerControl.tsx:29-34 | A paused log shows exactly its duration, whatever the clock. |
| `TimerControl.SessionTimeMonotone` | components/TaskTimerControl.tsx:29-34 | With a clock that does not go backwards, the shown time never decreases. |
| `TimerControl.ControlsFor` | components/TaskTimerControl.tsx:93-115 | Start alone iff there is no active log; Resume and Stop iff the active log is paused. |
| `TimerControl.ControlsMatchLegalSteps` | components/TaskTimerControl.tsx:93-115 | No active log shows Start only. For an active log, the buttons shown (Resume/Stop when paused, Pause/Stop when running) are exactly the moves the store accepts. |
| `TimerControl.TaskTimerControl.constructor` | components/TaskTimerControl.tsx:20-22 | The widget starts with no active log and a session time of 0. |
| `TimerControl.TaskTimerControl.FetchActiveLog` | components/TaskTimerControl.tsx:24-38 | Without a user, nothing changes. Otherwise the widget holds the store's active log for the pair and its session time. |
| `TimerControl.TaskTimerControl.HandleStart` | components/TaskTimerControl.tsx:58-63 | Without a user, nothing changes. Otherwise the store runs startTimer, and on a valid store the widget then shows the new running log at 0. |
| `TimerControl.TaskTimerControl.HandlePause` | components/TaskTimerControl.tsx:65-70 | Without an active log, nothing changes. Otherwise the store pauses that log, keeps its invariant, and the widget is refreshed. |
| `TimerControl.TaskTimerControl.HandleResume` | components/TaskTimerControl.tsx:72-77 | Without an active log, nothing changes. Otherwise the store resumes that log, keeps its invariant, and the widget is refreshed. |
| `TimerControl.TaskTimerControl.HandleStop` | components/TaskTimerControl.tsx:79-85 | Without an active log, nothing changes. Otherwise the store stops that log and the widget clears to no log and 0. |
| `TasksPage.NameMap` | pages/TasksPage.tsx:44-56 | The id-to-name map has exactly the ids that occur in the list. |
| `TasksPage.LastEntryWins` | pages/TasksPage.tsx:44-56 | An id maps to the name of the last entry with that id. |
| `TasksPage.Pairs` | pages/TasksPage.tsx:44-56 | The (id, name) pairs the two reduces assign, one per element, in list order. |
| `TasksPage.ProjectMap` | pages/TasksPage.tsx:44-49 | The project map has a key for exactly the ids of the projects. |
| `TasksPage.UserMap` | pages/TasksPage.tsx:51-56 | The user map has a key for exactly the ids of the users. |
| `TasksPage.DisplayName` | pages/TasksPage.tsx:131 | The shown name is never empty. |
| `TasksPage.ProjectColumn` | pages/TasksPage.tsx:131 | The project column shows 'N/A' when no project has the id. Otherwise it shows the name of the last project with the id, or 'N/A' when that name is empty. |
| `TasksPage.AssigneeColumn` | pages/TasksPage.tsx:134 | The same rule for the assignee column over the users. |
| `TasksPage.CompletedTotalSnoc` | pages/TasksPage.tsx:61-65 | One more log adds its duration to its own task's total only when its end time is set and non-zero. Running and paused logs add nothing. |
| `TasksPage.NoCountedLogsNoTime` | pages/TasksPage.tsx:145 | A task without completed logs totals 0. |
| `TasksPage.TaskTimeMap` | pages/TasksPage.tsx:59-68 | The loop's map gives every task (absent reads as 0) the summed duration of its completed logs, and has an entry exactly for the tasks that have one. |
| `Reports.FilteredLogs` | pages/ReportsPage.tsx:44-82 | 'all' returns the logs unchanged. A period is the filter of the logs by start time: exactly the logs starting at or after its threshold, in their order. |
| `Reports.Tally` | pages/ReportsPage.tsx:91-92 | Adding under a name adds at most one entry. |
| `Reports.TallyNames` | pages/ReportsPage.tsx:91 | Adding under a name keeps names distinct and in place, and adds the name if it was missing. |
| `Reports.TallyLookup` | pages/ReportsPage.tsx:91-92 | Adding under a name raises that name's value by the seconds and no other name's value. |
| `Reports.TallySum` | pages/ReportsPage.tsx:91-92 | Adding under a name raises the grand total by the seconds. |
| `Reports.Grouped` | pages/ReportsPage.tsx:84-95 | A breakdown has no more entries than there are logs. |
| `Reports.GroupedMeaning` | pages/ReportsPage.tsx:84-95 | A breakdown has one entry per name, and a name's value is the summed duration of the logs with that key. A name is present iff some log has it, and the entries add up to all keyed logs' seconds. |
| `Reports.GroupedEntries` | pages/ReportsPage.tsx:96-99 | Each entry holds its own name's summed seconds. |
| `Reports.KeyedSumAll` | pages/ReportsPage.tsx:86-95 | When every log has a key, the keyed seconds are all the seconds. |
| `Reports.AddTo` | pages/ReportsPage.tsx:91-92 | Creating a missing name at zero and then adding the seconds is the tally. |
| `Reports.GroupedStep` | pages/ReportsPage.tsx:86-93 | One more log leaves the breakdown unchanged when it has no key, and otherwise tallies its duration under its key. |
| `Reports.GroupDurations` | pages/ReportsPage.tsx:86-95 | The forEach accumulation loop computes the breakdown. |
| `Reports.ProjectOf` | pages/ReportsPage.tsx:87-90 | A log has a project name iff its task is found and that task's project is found. The name is then that of the first project with the id of the first task with the log's task id. |
| `Reports.MemberOf` | pages/ReportsPage.tsx:106-107 | A log has a member name iff a user has its user id. The name is then the first such user's. |
| `Reports.TaskOf` | pages/ReportsPage.tsx:122-123 | A log has a task title iff a task has its task id. The title is then the first such task's. |
| `Reports.ProjectReport` | pages/ReportsPage.tsx:84-100 | The project breakdown, for every viewer; projects sharing a name share one entry. |
| `Reports.MemberReport` | pages/ReportsPage.tsx:102-116 | Empty unless the viewer is an Admin. Otherwise seconds per member name, skipping logs whose user is not found. |
| `Reports.Hundredths` | pages/ReportsPage.tsx:130 | Hours to two decimals, as whole hundredths: the nearest hundredth of seconds/3600. |
| `Reports.Insert` | pages/ReportsPage.tsx:131 | Inserting an entry adds exactly that entry, once, and keeps all others. |
| `Reports.InsertSorted` | pages/ReportsPage.tsx:131 | Inserting into a list sorted by hours descending keeps it sorted. |
| `Reports.SortByHours` | pages/ReportsPage.tsx:131 | The ranking has as many entries as the breakdown. |
| `Reports.SortByHoursCorrect` | pages/ReportsPage.tsx:131 | The ranking is sorted by hours descending and is a permutation of the breakdown. |
| `Reports.FirstTen` | pages/ReportsPage.tsx:131 | `slice(0, 10)`: the first min(10, n) entries. |
| `Reports.TaskReport` | pages/ReportsPage.tsx:118-132 | Empty unless the viewer is an Admin. Otherwise the task breakdown, ranked and cut to ten. |
| `Reports.TaskReportIsTopTen` | pages/ReportsPage.tsx:118-132 | At most ten entries, sorted by hours, each one a task title's total. Every entry left out has no more hours than any entry shown. |
| `Reports.MemberTotalTime` | pages/ReportsPage.tsx:134-137 | For a Member, the sum of the filtered logs' durations (`Timer.TotalDuration`, the reduce); 0 for anyone else; never negative when no log has a negative duration. |
| `Reports.MemberTotalMatchesProjectReport` | pages/ReportsPage.tsx:134-137 | For a Member whose every log has a task and a project, memberTotalTime equals the sum of the project breakdown. |
| `Reports.MemberCompletedTasks` | pages/ReportsPage.tsx:139-142 | Empty unless the viewer is a Member. Otherwise the filter of the tasks: exactly those assigned to the viewer with status Done, in order, with no date filter. |
| `Dashboard.AdminStats` | pages/DashboardPage.tsx:17-24 | The user, project and task counts are the lengths of the lists, and the time tracked is the summed duration of all logs. |
| `Dashboard.TimeTrackedSplits` | pages/DashboardPage.tsx:17 | The time tracked is the stopped logs' seconds plus the seconds already banked by running and paused logs. |
| `Dashboard.TimeTrackedAfterTransition` | pages/DashboardPage.tsx:17 | A successful timer move changes the time tracked by exactly the seconds it banks. |
| `Dashboard.TotalDurationUpdate` | pages/DashboardPage.tsx:17 | Replacing one log changes the sum by the difference of the two durations. |
| `Dashboard.ProjectName` | pages/DashboardPage.tsx:93-95 | The first project with the id names the task. 'Unknown Project' is shown when none matches or the name is empty. |
| `Dashboard.ProjectNameAgreesWithTaskList` | pages/DashboardPage.tsx:93-95 | With unique project ids, the dashboard and the task list show the same project name. When one falls back ('Unknown Project'), so does the other ('N/A'). |
| `Dashboard.DashboardFor` | pages/DashboardPage.tsx:132-140 | No page without a user. An Admin gets the admin dashboard; every other role gets the member dashboard. |

## Left out

- Persistence is not modelled. That covers `saveData`, the JSON parsing in `loadData` and the login session key in `localStorage`, which are browser I/O. `Store.Restore` takes the parsed lists as parameters.
- `sleep`, promises and `structuredClone` copies are not modelled. Each operation runs atomically, and Dafny values are already copies.
- `login`, `logout` and `getLoggedInUser` are not modelled: they are authentication plumbing.
- The whole-list getters (`getUsers`, `getProjects`, `getTasks`, `getAllTimeLogs`, `getDepartments`) are not separate members. They return the lists of `Store.data` as they are.
- `Store.StartTimer`: the source reads `Date.now()` once for the id and once for the start time, and stopTimer reads it again. The model uses one `now` and takes the id as `freshId`.
- Collisions between timestamp-derived ids are not modelled.
- `Store.StartTimer` keeps the invariant only for a fresh id. The `log-<ms>` id can repeat within one millisecond.
- `Api.Store.AddMember` and `Api.Store.AddTask` place the fresh id over the record's id. The source spreads the caller's data after the generated id, so an id key the caller smuggled in would win. Its types forbid that key.
- `Api.Overlay` does not model a key that is present with the value `undefined`. The model has no such value: an optional field is present with a string or absent.
- The calendar arithmetic for the report periods is not modelled. It is JavaScript `Date` work in local time; `Period.Since(threshold)` takes its result. That includes the month and year thresholds keeping the current time of day, so logs from earlier hours of the first day are dropped.
- The member dashboard's "time tracked today" (`toDateString` comparison) is not modelled, for the same reason.
- Report values are not modelled as floating point. They stay whole seconds, which is what the page sums.
- `Reports.Hundredths`: `toFixed(2)` is modelled as exact rounding to the nearest hundredth, ties away from zero. On a double, a value that is a tie in decimal may round the other way.
- `Reports.SortByHoursCorrect` proves the ranking sorted and a permutation, but not that equal hours keep their order. The insertion sort does keep that order, like the stable `Array.prototype.sort`.
- `Reports.ProjectReport` lists names in insertion order, and so do the other breakdowns. `Object.entries` puts integer-like keys (such as a project named "2024") first, in numeric order. That reordering is not modelled.
- `Format.FormatClockRoundTrip` covers non-negative seconds only, and so does `Format.FormatHoursMinutesRoundTrip`. A negative total arises only when the clock runs backwards, and JavaScript's truncating `%` then shows negative fields.
- The `setInterval` one-second tick of the timer widget is not modelled: it is a timer artefact. The model recomputes the session time from the store at a given `now`.
- Names that clash with `Object.prototype` members are not modelled. That covers a project, user or task named `constructor` or `toString` as a key of the plain-object maps in the task list and the reports. Such a key reads as an inherited function there, and the model treats every name alike.
- React state, routing, forms and charts are not modelled. That covers the modal forms, the members, projects, departments and profile pages, the layout, and the auth context. Their only logic (trimming a department name, sending a password only when non-empty) is covered by the store contracts.

## Findings

| source | as written | input that shows it | evidently intended | confidence | as-written member | corrected member |
|---|---|---|---|---|---|---|
| services/api.ts:327-354 | The last-Admin guard inspects only the first user with the id, but the filter then removes every user with that id. | Users `[Member "x", Admin "x"]` where the Admin is the only one, then `deleteMember("x")`: the guard sees a Member, both users are removed, and no Admin remains. | A deletion never leaves the store without an Admin. | not executed; duplicate ids need two users created in the same millisecond or edited data | `Api.DuplicateIdRemovesLastAdmin` | `Api.AfterDeleteMemberIntended` |

`Api.Store.DeleteMember` keeps the guard as written, so that the store method matches the source. `Api.AdminSurvives` and `Api.DeleteMemberKeepsAnAdmin` show that the written guard is enough when user ids are unique. `Api.AfterDeleteMemberIntended` keeps an Admin without that assumption.
