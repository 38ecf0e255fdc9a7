# Excel Gantt Chart project dashboard: a Dafny model

This project models the state logic of a single-page project dashboard. The
dashboard holds a list of tasks, usually imported from a spreadsheet, and draws
them on a Gantt timeline. It records project meetings with a start/pause/stop
recorder. Each meeting proposes status changes for tasks, and a summary card
rates the latest meeting. Each task keeps an audit trail: a manual edit appends
one entry per field whose value changes, and attaching a meeting's proposals
only fills the task's pending-proposal slot.

Modules:

- `JsText` (`js_text.dfy`): the JavaScript string built-ins the dashboard
  uses. These are `toString` of a whole number and `padStart`, each with a
  parsing partner, and `trim`, characterised by what it removes.
- `Tasks` (`tasks.dfy`): the records (Task, AuditEntry, TaskProposal,
  Meeting) and JavaScript values with their truthiness.
  - The manual-edit rule of `handleTaskUpdate`: change detection, audit
    entries and the spread of the updates.
  - The proposal attachment of `handleMeetingComplete`.
  - The sample project.
- `SpreadsheetImport` (`spreadsheet_import.dfy`): the mapping from
  spreadsheet rows to tasks, with its column aliases and defaults.
- `Timeline` (`timeline.dfy`): `getTaskPosition`, the placement of a bar on
  the shared axis, in exact rational arithmetic.
- `Dashboard` (`dashboard.dfy`): the page's state as a class `ProjectManager`
  with the handlers that replace its fields, and the audit-entry loop as a
  method.
- `Recorder` (`recorder.dfy`): the recorder as a class `MeetingRecorder`
  whose methods are the start, pause, tick and stop transitions, plus
  `formatTime` and the meeting that stop emits.
- `Summary` (`summary.dfy`): the summary card's counts and its overall status
  badge.

JavaScript values are modelled by the datatype `Tasks.Value`, and Dafny's
equality on it stands for `!==`. A `Date` carries an identity (`ref`) beside
its epoch milliseconds. A freshly built Date with the same instant is therefore
still a different value, as `!==` sees it. Every operation that runs
`new Date()` on an edit, an import or a recording takes a parameter `refs`:
the first identity not yet in use. Each Date it creates gets its own identity
from `refs` on:
- an import gives row i the identities `refs + 3i` (start date), `refs + 3i + 1`
  (end date) and `refs + 3i + 2` (audit timestamp);
- a manual edit gives the k-th entry of the task at list index i the identity
  `refs + i*n + k`, with n the number of updates;
- a stopped recording gives its two proposal timestamps, the proposed end date
  and the meeting date `refs` to `refs + 3`.

The sample project is the exception: its eleven Dates have the fixed
identities 1 to 11 (see "## Left out").

Task fields are `Value`s because the edit and import code stores whatever the
spreadsheet cell or the update holds.

## Model

| member | source | states |
|---|---|---|
| JsText.NatToString | app/page.tsx:182 | the decimal text of a number is a non-empty digit string that starts with 0 only for 0 |
| JsText.ParseNatToString | app/page.tsx:182 | the decimal text of n reads back as n |
| JsText.NatToStringInjective | app/page.tsx:182 | distinct numbers have distinct decimal texts, so counter-built ids differ |
| JsText.NatToStringShort | components/meeting-recorder.tsx:93 | numbers below 10 print in one digit, below 100 in at most two |
| JsText.PadStart | components/meeting-recorder.tsx:93 | the padded text has length max(len, width), ends with the original, and is pad characters before it |
| JsText.ZeroPaddedNumber | components/meeting-recorder.tsx:93 | a zero-padded number is still all digits and reads back as the number |
| JsText.LeadingZeros | components/meeting-recorder.tsx:93 | leading zeros do not change the value of a digit string |
| JsText.IsSpace | components/meeting-recorder.tsx:134 | the characters `trim()` removes: the ECMAScript white space and line terminators; TrimStart, TrimEnd and TrimEmpty are stated in terms of it |
| JsText.TrimStart | components/meeting-recorder.tsx:134 | removes exactly the leading white space: a suffix, all-space before it, not starting with space |
| JsText.TrimEnd | components/meeting-recorder.tsx:134 | removes exactly the trailing white space: a prefix, all-space after it, not ending with space |
| JsText.Trim | components/meeting-recorder.tsx:134 | the trimmed title is no longer than the title and neither starts nor ends with white space |
| JsText.TrimEmpty | components/meeting-recorder.tsx:134 | a title trims to the empty string exactly when it is all white space |
| Tasks.Truthy | app/page.tsx:183-190 | JavaScript truthiness: undefined, null, false, 0 and "" are falsy, every other value is truthy |
| Tasks.Or | app/page.tsx:183-190 | `a \|\| b` is a when a is truthy and b otherwise |
| Tasks.Key | app/page.tsx:242-248 | the property name `Object.entries` reports for each task field; KeyInjective proves the names distinct |
| Tasks.KeyInjective | app/page.tsx:242-248 | distinct task fields have distinct property names |
| Tasks.Get | app/page.tsx:243-249 | `task[field]` for every field but the trail, with a pending proposal read as itself and none read as undefined; GetSet relates it to Set |
| Tasks.Set | app/page.tsx:256-258 | one property of `{...task, ...updates}`: the named data field takes the value, and an `auditTrail` value is dropped because line 259 replaces the trail; GetSet states the effect |
| Tasks.GetSet | app/page.tsx:256-258 | setting one property changes that data field only and never the audit trail |
| Tasks.Differs | app/page.tsx:243 | the test of the edit loop: the field is not the trail and its current value is not the new one under `!==` |
| Tasks.ChangedUpdates | app/page.tsx:242-243 | the updates that pass the test of line 243, in their order; ChangedUpdatesMembership and ChangedUpdatesKeepOrder characterise it |
| Tasks.ChangedUpdatesKeepOrder | app/page.tsx:242-243 | the changed updates are the updates at a strictly increasing run of positions, and that run holds every position whose update changes the task |
| Tasks.ManualEntry | app/page.tsx:244-252 | the entry of one changed field: id `audit-<now>-<field>`, a new Date, kind manual, the field name, old and new value, the reason |
| Tasks.ChangeEntries | app/page.tsx:240-254 | the entries of an edit are at most one per update, each manual, with the edit's reason and no meeting id |
| Tasks.Merge | app/page.tsx:256-259 | the spread of the updates with line 259's replacement of the trail folded in: an `auditTrail` value among the updates is dropped, so the merged task keeps the old trail until the change entries are appended |
| Tasks.UpdatedTask | app/page.tsx:256-261 | the edited task has no pending proposal, and its trail extends the old one by at most one entry per update |
| Tasks.ChangedUpdatesMembership | app/page.tsx:242-243 | an update is counted as a change exactly when it is not the trail and its value differs from the task's |
| Tasks.AuditEntryPerChange | app/page.tsx:240-254 | the edit logs one manual entry per changed update, in order, with the field name, the old and new values, the reason, the id `audit-<now>-<field>` and the k-th new Date as timestamp |
| Tasks.NoEntryForAuditTrail | app/page.tsx:243 | no audit entry ever names the `auditTrail` field |
| Tasks.EntryIdsDistinct | app/page.tsx:245 | the entries of one edit have pairwise distinct ids |
| Tasks.EntryTimestampsFresh | app/page.tsx:246 | every entry of one edit has its own Date object, numbered from `refs` and holding the edit's clock |
| Tasks.ChangedUpdatesDistinctKeys | app/page.tsx:242 | filtering the updates keeps their keys distinct |
| Tasks.NoChangeNoEntry | app/page.tsx:243 | an edit that changes no field logs nothing |
| Tasks.MergeSetsFields | app/page.tsx:256-258 | after the spread every named data field holds its new value, every other field and the trail are kept |
| Tasks.UpdatedTaskFacts | app/page.tsx:256-261 | the edited task holds the new values, keeps the rest, has the old trail followed by the change entries, and no pending proposal |
| Tasks.UpdateTasks | app/page.tsx:237-265 | the edited list has the length of the old one |
| Tasks.UpdateTasksFrame | app/page.tsx:238-264 | only tasks with the given id are edited; others, order and length are kept, every trail only grows, and an unknown id changes nothing |
| Tasks.MergeAgreeing | app/page.tsx:256-258 | spreading values a task already holds leaves it unchanged |
| Tasks.UpdateIdempotent | app/page.tsx:236-266 | for an edit that supplies no proposedChanges value, repeating it logs nothing and leaves the task as it was |
| Tasks.UpdateTasksIdempotent | app/page.tsx:236-266 | for an edit that supplies no proposedChanges value, repeating it on the list is a no-op |
| Tasks.ProposalUpdateNotIdempotent | app/page.tsx:256-261 | an edit that supplies a pending proposal logs it again on every repetition, because the edit always clears it |
| Tasks.FindProposal | app/page.tsx:223 | `find` returns nothing exactly when no proposal names the id, and otherwise the first proposal that does |
| Tasks.AttachProposals | app/page.tsx:222-231 | attaching keeps the length of the task list |
| Tasks.AttachProposalsFacts | app/page.tsx:222-231 | each task gets the first proposal naming it; unnamed tasks are unchanged; nothing but the pending slot changes |
| Tasks.SampleTasks | app/page.tsx:78-164 | the sample project has three tasks with ids "1", "2", "3" and no pending proposal |
| SpreadsheetImport.ImportEntry | app/page.tsx:191-201 | the one system entry of an imported task: id `audit-<row number>`, field "imported", null before, "imported from Excel" after, reason "Initial import" |
| SpreadsheetImport.Cell | app/page.tsx:183-190 | `row[column]`, with a column the row lacks read as undefined |
| SpreadsheetImport.CellTime | app/page.tsx:184-185 | a truthy date cell gives the time it parses to, any other cell the import's clock |
| SpreadsheetImport.ImportRow | app/page.tsx:181-202 | an imported task has a truthy name, duration, assignee, priority and status, a truthy or zero progress, and Date start and end |
| SpreadsheetImport.FirstTruthyPicksEarliest | app/page.tsx:183-190 | an alias chain yields the cell of the earliest truthy column, or the default when there is none |
| SpreadsheetImport.ImportRowDefaults | app/page.tsx:182-201 | each field of an imported task is its alias chain with its fixed default; the dates hold the parsed cell time or, for a falsy cell, the import's clock |
| SpreadsheetImport.ImportRows | app/page.tsx:181 | one task per row |
| SpreadsheetImport.ImportRowsIdsAndAudit | app/page.tsx:181-201 | imported tasks are numbered 1..n in row order with distinct ids, no proposal, and one system "imported" entry |
| SpreadsheetImport.ImportedTasks | app/page.tsx:204-207 | an unreadable file yields the sample project; a read file one task per row |
| SpreadsheetImport.OnlyTaskColumn | app/page.tsx:183-194 | a row with only a Task column gets that name and every default, and two distinct Dates holding the import's clock |
| SpreadsheetImport.ZeroDurationFallsThrough | app/page.tsx:186 | a Duration of 0 is falsy and becomes 1 |
| SpreadsheetImport.ImportDatesDistinct | app/page.tsx:184-194 | every Date of an import is a distinct object: start, end and audit timestamp of a row differ, no two rows share one, and all are numbered from `refs` |
| SpreadsheetImport.FallbackDatesAreDistinctObjects | app/page.tsx:184-185 | a row without date cells gets two Date objects holding the same instant, so setting its start to its end date is logged as a change |
| Timeline.AllTimes | app/page.tsx:401 | the dates list holds each task's start then end, in task order |
| Timeline.MinOf | app/page.tsx:402 | the minimum is below every element and is one of them |
| Timeline.MaxOf | app/page.tsx:403 | the maximum is above every element and is one of them |
| Timeline.AxisStart | app/page.tsx:402 | `minDate`, the least start or end time of the listed tasks; OnAxis proves every task lies at or after it |
| Timeline.Span | app/page.tsx:404 | the axis length is never negative |
| Timeline.OnAxis | app/page.tsx:401-404 | every start and end of a listed task lies within the axis |
| Timeline.Position | app/page.tsx:398-413 | an empty list gives left 0 and width 0; otherwise the width is at least 2% |
| Timeline.Percent | app/page.tsx:409-410 | `(x / totalDuration) * 100` on exact numbers; PercentBounds, PercentMonotone and PercentSum state its properties |
| Timeline.PercentBounds | app/page.tsx:409-410 | a part of the axis is between 0% and 100% of it |
| Timeline.PercentMonotone | app/page.tsx:409 | percentages keep the order of the parts |
| Timeline.PercentSum | app/page.tsx:409-410 | percentages of parts add up to the percentage of their sum |
| Timeline.PositionBounds | app/page.tsx:406-412 | a listed task's bar starts within [0, 100], has width within [2, 100], and ends by 100 unless widened to the 2% minimum |
| Timeline.PositionKeepsOrder | app/page.tsx:406-409 | bars are offset in the order of their start dates |
| Timeline.TwoTaskExample | app/page.tsx:398-413 | tasks of 1-10 and 5-20 January give offsets 0 and 400/19 and widths 900/19 and 1500/19 percent |
| Dashboard.CollectAuditEntries | app/page.tsx:240-254 | the loop collects exactly the change entries, at most one per update, each manual with the reason |
| Dashboard.ProjectManager.constructor | app/page.tsx:71-73 | the page starts with no tasks, no meetings and no file name |
| Dashboard.ProjectManager.LoadSampleData | app/page.tsx:214-217 | the sample project is loaded under the name "sample-project.xlsx" |
| Dashboard.ProjectManager.HandleFileUpload | app/page.tsx:166-212 | no file changes nothing; otherwise the file name is kept and the tasks become the imported rows or the sample project |
| Dashboard.ProjectManager.HandleMeetingComplete | app/page.tsx:219-234 | the meeting is appended to the history and its proposals attached to the tasks |
| Dashboard.ProjectManager.HandleTaskUpdate | app/page.tsx:236-266 | the tasks become the manual edit of the old list; meetings and file name are kept |
| Dashboard.SampleTaskTwoEdit | app/page.tsx:111-130 | editing sample task "2" to progress 90 with its unchanged status sets the progress and appends exactly one progress entry |
| Dashboard.SampleProgressEdit | app/page.tsx:111-130 | raising sample task "2" from 80 to 90 while resending its unchanged status logs exactly one progress entry and touches no other task |
| Dashboard.SampleSession | app/page.tsx:214-234 | after loading, editing task "2" and completing a meeting that does not name it, the task's trail is the sample trail plus the progress entry |
| Recorder.FormatTime | components/meeting-recorder.tsx:90-94 | minutes padded to two digits, a colon, seconds padded to two digits; its meaning is stated by FormatTimeReadsBack |
| Recorder.FormatTimeReadsBack | components/meeting-recorder.tsx:90-94 | the clock text is minutes, a colon, two seconds digits; it reads back as minutes*60+seconds with seconds below 60, and is 5 characters below 100 minutes |
| Recorder.PaddedField | components/meeting-recorder.tsx:93 | a field padded to two digits is all digits, reads back as the number, and is exactly two characters below 100 |
| Recorder.MockProposals | components/meeting-recorder.tsx:50-72 | the analysis yields two proposals, both stamped with the meeting's id, with confidences in [0, 1] and two distinct new timestamps holding the clock |
| Recorder.MeetingTitle | components/meeting-recorder.tsx:76 | the title is the entered one when non-empty and "Project Meeting - " followed by the date text otherwise, so never empty |
| Recorder.RecordedMeeting | components/meeting-recorder.tsx:74-83 | the meeting has the elapsed seconds as duration, the entered title or its fallback, a new Date holding the clock, and the id `meeting-<now>` shared by its proposals |
| Recorder.MockProposalsMatchNoSampleTask | components/meeting-recorder.tsx:53-63 | the proposals name "1.2" and "1.3", so completing a meeting leaves the sample project unchanged |
| Recorder.MeetingRecorder.Valid | components/meeting-recorder.tsx:115-148 | what the controls keep: only a recording is paused, the timer runs exactly while recording, and a recording has a title that is not all white space |
| Recorder.MeetingRecorder.CanStart | components/meeting-recorder.tsx:133-134 | the Start button is shown and enabled: not recording, and the trimmed title is not empty |
| Recorder.MeetingRecorder.constructor | components/meeting-recorder.tsx:20-23 | the recorder starts idle, unpaused, at 0 seconds, with an empty title |
| Recorder.MeetingRecorder.SetTitle | components/meeting-recorder.tsx:114-115 | the title changes only while not recording |
| Recorder.MeetingRecorder.Start | components/meeting-recorder.tsx:26-36 | start turns recording on and pause off and starts the timer, keeping the elapsed time |
| Recorder.MeetingRecorder.Pause | components/meeting-recorder.tsx:38-40 | pause only flips the pause flag; the timer keeps running |
| Recorder.MeetingRecorder.Tick | components/meeting-recorder.tsx:30-32 | a tick adds one second whenever the timer runs, paused or not |
| Recorder.MeetingRecorder.Stop | components/meeting-recorder.tsx:42-88 | stop emits the meeting with the entered title and the elapsed seconds, then resets the time to 0 and the title to "" |
| Recorder.RecordWithPause | components/meeting-recorder.tsx:26-88 | a recording with a paused stretch emits the entered title, and a duration that counts the paused seconds too |
| Summary.LatestMeeting | components/meeting-summary.tsx:27 | the last meeting of the history; the card is shown only when there is one |
| Summary.LatestIsCompleted | components/meeting-summary.tsx:27 | after a meeting completes, the card shows that meeting |
| Summary.CountWithStatus | components/meeting-summary.tsx:99 | a status count is at most the number of proposals |
| Summary.SetbackCount | components/meeting-summary.tsx:31-33 | the setback count is at most the number of proposals |
| Summary.SetbackIsDelaysPlusBlockers | components/meeting-summary.tsx:31-33 | setbacks are the Delays Identified plus the Blockers Found |
| Summary.NoSetbackMeansNone | components/meeting-summary.tsx:31-35 | no setback is counted exactly when no proposal is delayed or blocked |
| Summary.OverallStatus | components/meeting-summary.tsx:29-39 | the badge of `getOverallStatus`; its three cases are stated by OverallStatusCases |
| Summary.IsSetback | components/meeting-summary.tsx:32 | the filter test: a proposal whose proposed status is "Delayed" or "Blocked"; SetbackIsDelaysPlusBlockers and NoSetbackMeansNone state what it counts |
| Summary.HalfComparison | components/meeting-summary.tsx:36 | `d < t / 2` on numbers holds exactly when 2d < t |
| Summary.OverallStatusCases | components/meeting-summary.tsx:29-39 | On Track iff no setback; Minor Issues iff some but fewer than half; At Risk iff at least half |
| Summary.AllSetbacksCounted | components/meeting-summary.tsx:31-33 | when every proposal is a setback, all of them are counted |
| Summary.AllSetbacksAtRisk | components/meeting-summary.tsx:36-38 | a meeting whose proposals are all setbacks is At Risk |
| Summary.RoundedMinutes | components/meeting-summary.tsx:60 | the shown minutes are within half a minute of the duration |
| Summary.ConfidencePercent | components/meeting-summary.tsx:120 | the shown percentage is the nearest whole percent, halves rounded up |
| Summary.RecordedMeetingAtRisk | components/meeting-summary.tsx:29-39 | a recorded meeting shows two tasks, one delay, no blocker, is At Risk, and shows confidences 85% and 92% |

## Left out

- Rendering is not modelled: the JSX, the tabs, the task table, the theme classes and the design selector. This is presentation, not state.
- Reading the file (`FileReader`, `XLSX.read`, `sheet_to_json`) is a library call. A row arrives as a map from column name to cell. A file the library cannot read arrives as `Unreadable`.
- Dashboard.ProjectManager.HandleFileUpload: the file name is set before the asynchronous `onload` runs. The model does both in one step.
- The clock is a parameter. Every `Date.now()` and every `new Date()` of one call reads the same `nowMs`. The source reads the clock once per entry, per Date and per meeting id, and these readings may differ by a millisecond. The locale date text of the title fallback is a parameter too.
- Date identities come from the caller's supply `refs`. The model numbers the Dates of one call from `refs` on and proves them distinct from each other. It does not check that `refs` lies above every identity already in use.
- `new Date(cell)` of the import is the parameter `toTime`, which gives only the time; the identity comes from the supply. An invalid date (NaN time) is not modelled.
- Tasks.SampleTasks: its eleven Dates have the fixed identities 1 to 11, and `LoadSampleData` and the unreadable-file branch of `ImportedTasks` take no identity supply. The page builds these Dates anew on every render, so two loads of the sample project give different Date objects in JavaScript but equal ones in the model.
- The `console.error` of the import's catch branch (`app/page.tsx:206`) is logging only and is not modelled; the branch's effect, falling back to the sample project, is.
- Arrays (dependencies) and proposals inside a task are compared by contents. JavaScript's `!==` compares their identity.
- Every number is a mathematical integer or an exact real. Floating point, NaN and `Infinity` are not modelled.
- Timeline.Position: requires a positive axis span. The source divides by the span unguarded, so a project whose dates all coincide gets NaN styles: the start offset and the duration of every task are 0 too, so `left` is 0/0 and `Math.max(NaN, 2)` is NaN. The model does not cover that case.
- The canned transcript and summary text of the simulated analysis are parameters of `Stop`. The proposals and the constants they carry are modelled.
- Recorder.MeetingRecorder.Start, Pause and Stop: require the state in which the page shows or enables their buttons.
  - Start: not recording, with a title that does not trim to nothing.
  - Pause and Stop: recording.
- The interval is modelled by the flag `timerActive` and the method `Tick`. Wall-clock timing is not modelled.
- `components/task-manager.tsx` is not part of this model. Accepting or rejecting a proposal therefore appears only through `handleTaskUpdate`.
- `userId` of an audit entry and `audioBlob` of a meeting are never set by the core. They are omitted.
- The `Math.round` of durations and confidences is modelled on exact numbers, not on doubles.
