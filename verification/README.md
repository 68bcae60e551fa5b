# A verified model of nixadmin

nixadmin is a daemon that keeps a NixOS machine well: it restarts failed services, records
what it saw and did, edits the package list on request, and answers questions with a model
on the device or, with consent, a remote one. This project models the parts of it that keep
state over time and proves what they promise, on all inputs, all runs and all interleavings.
`dafny verify dfyconfig.toml` checks everything.

| file | subject |
|---|---|
| `Options.dfy`, `Sequences.dfy`, `Strings.dfy` | shared helpers: optional values, concatenation, white space |
| `EventLog.dfy` | the event store: append, filtered and capped reads, pruning |
| `AutofixEngine.dfy`, `RestartGuard.dfy`, `AuditRows.dfy`, `RestartBudget.dfy`, `RestartStorm.dfy` | the self-healing loop, what each of its audit rows tells, how many restarts its guard allows over whole runs, and the storms at which that is too many |
| `Timeline.dfy`, `Paging.dfy`, `Ledger.dfy` | the delta log of failures, cursor paging, the kept-well ledger |
| `PackageEditor.dfy`, `EditMeaning.dfy`, `AppAction.dfy` | the line editor and its inverse, what its patterns and edits mean by characters and lines, and the edit, validate, confirm, switch, revert transaction |
| `HelperChannel.dfy`, `SessionGate.dfy` | the frames of the privileged helper, and test before switch with concurrent sessions |
| `Routing.dfy`, `QueryLog.dfy`, `Dispatch.dfy`, `DispatchLaw.dfy`, `DispatchWaits.dfy` | the life of a query: where it goes, the law of its log, the query as a function of all it waits for, that this keeps the law, and what each wait brings |
| `QuerySession.dfy` | the web hub's exchange of questions and answers between threads |
| `Suppression.dfy`, `Episodes.dfy`, `ToolCalls.dfy` | the bounded table of log times, episode grouping, assembling streamed tool calls |

What the environment decides is a parameter: the clock, what systemd and the helper report,
what a model says, what a person answers, and what the rest of the daemon does while one part
waits. Objects whose methods change their fields are classes; each method is proved equal to a
function of the old state, and the theorems are about that function over all its runs.

## Where the code does less than it says

For each the exact condition is proved under which the promise holds, and an input is given at
which it does not.

- The restart guard is meant to allow `max_attempts` restarts per unit and window
  (`src/nixadmin/autofix.py:31`), but reads only the newest 50 audit rows. Let a storm of period
  p, at least two seconds, be a unit that fails again every p seconds and whose restarts succeed. It takes 52 failures,
  or one more than the limit if that is above 50, to record a restart too many. The limit is kept
  in every run of the poll loop that handles each unit at most every p seconds, if and only if a
  storm of that period does not fit the window (`PromiseIsExact`). If one does, the loop keeps the
  limit over stretches of n audit rows, in all its runs, if and only if n is less than a storm
  takes (`BudgetSpanIsExact`), and the storm is itself a run that breaks it (`StormBreaksBudget`,
  `PromiseBreaksPastCap`). With the default window of an hour and failures 40 seconds apart every
  limit up to 89 is such a case.
- A page is ordered by time and id but continued by id alone. Walking gives the whole timeline
  for all page sizes below 1000 if and only if time never decreases along the ids
  (`PagingNeedsClock`; `ClockSteppedBack` has two rows with times 5 and 3). At 1000 no cursor is
  ever given (`NoCursorAtCap`), and of a longer table the oldest row is never seen (`LostAtCap`;
  `OneRowIsLost` has a table of 1001 rows).
- The ledger is fed from three capped scans. It equals the ledger of the whole store if and only
  if every dropped row counts in no tally and, while nothing is failing, is no attention moment
  later than all that were scanned and than some row of the store (`KeptWellIsExact`); 1001
  attention rows are a store where it differs (`CapsShow`).
- `edit_packages` does not reject odd names. Adding a name that is not empty and not listed, and
  then removing it, gives the text back if and only if the name is trimmed, holds no line break
  and does not start with `];` (`RoundTrip`). A file with an empty list is an input for every
  other name, such as one that starts with a space (`OddNameStays`, `SpaceIsOdd`).
- A failed switch is said to restore the file. The file is read with translated line ends, so it
  is restored byte for byte if and only if it held no carriage return (`RevertIsExact`;
  `ReturnIsLost` is a run that loses one). Once written, the file is the old or the confirmed text
  as the switch decides, if and only if the progress note is delivered and the switch raises
  nothing unexpected (`FileIsAllOrNothing`); in `EditStays` the note raises and the edit stays.
- `_apply_decision` runs the remote chain after every yes. What was offered is what runs if and
  only if the query was wanted on the device (`YesRunsRemote`). Otherwise the question was
  whether to use the model on the device, and a yes calls the remote model although it is not
  usable (`UnusableRemote`), as it does in the life that `UnusableIsCalled` gives.
- Hints that collide are said to be settled as local before auto before remote
  (`src/nixadmin/routing.py:70`). They are, unless auto and remote are both hinted, local is not,
  nothing was asked for and the device is the default: then the remote chain is wanted, and without
  a question (`CollisionsAreAsPromised`, `AbroadIsReached`).
- A query is meant to be closed by one message. None is even attempted if and only if it never got
  its session's lock, and a second one is if and only if the send of its own went wrong
  (`LifeIsLawful`); `NeverClosed` and `ClosedTwice` are such lives.
- The failure log is meant to describe the failed units. A recorder that starts over an older log
  with an empty snapshot, as after a restart of the daemon, leaves a log that replays to the live
  failures if and only if every unit the log still shows failing is failing
  (`RecordFailureTransitions`); `RestartOverOldLog` is a recorder for which it does not.
- In the web hub an answer is meant for the question on the screen. It was queued after that
  question came if and only if nothing was queued then (`OwnAnswer`); `StaleAnswer` is a run in
  which it was not.

## How far a licence reaches

A switch is promised only after a test that succeeded earlier in the session
(`src/nixadmin/safety.py:7`). For a switch sent through `rebuild` that is kept in every
interleaving (`TestBeforeSwitch`, `LicensedSwitch`). The edit transaction sends its switch through
`apply_switch`, past that rule: it needs a yes of its own (`LicensedEdit`), which follows a
validation apart, and goes out in sessions that have seen no test (`EditNeedsNoTest`). Records of
both kinds of switch are in the one machine, and neither licence is broken by the other.

The promise is about the latest test recorded. It is the latest one sent as well if and only if that
one's report arrived, and then that test succeeded (`LatestAttempt`, `SwitchAfterLatestTest`); a
report may be lost (`LostTestKeepsLicence`).

## Model

| member | source | states |
|---|---|---|
| `EventLog.EventStore.Append` | src/nixadmin/store.py:148-175 | an open store gains exactly one row with the next id; a closed one returns 0 and is untouched |
| `EventLog.EventStore.Recent` | src/nixadmin/store.py:177-215 | the matching rows, newest first, cut at the limit clamped to 1..1000; nothing once closed |
| `EventLog.ReadMeaning` | src/nixadmin/store.py:191-215 | a read returns matching rows only, in (time, id) descending order, as many as fit, and whatever it leaves out is older than all it returns |
| `EventLog.ReadByFields` | src/nixadmin/store.py:191-215 | what a read returns has the unit and kind asked for, is not older than asked for and comes before the given id, and of such rows none is left out below 1000 and the limit |
| `EventLog.EventStore.Earliest` | src/nixadmin/store.py:217-229 | the least time in the table |
| `EventLog.MinTsMeaning` | src/nixadmin/store.py:227-229 | the minimum is attained, bounds every row, and is absent only for an empty table |
| `EventLog.EventStore.PruneOlder` | src/nixadmin/store.py:231-246 | exactly the rows before the cutoff go, and their number is returned |
| `EventLog.PruneOrdered` | src/nixadmin/store.py:242-246 | under a monotone clock pruning removes a prefix of all that was ever inserted |
| `EventLog.PruneMeaning` | src/nixadmin/store.py:242-246 | exactly the rows not older than the cutoff stay, and as many go as are older |
| `EventLog.ExpireMeaning` | src/nixadmin/server.py:737-742 | a retention pass keeps exactly what is not older than its days |
| `EventLog.EventStore.Close` | src/nixadmin/store.py:262-265 | the store is closed and its rows stay as they are |
| `AutofixEngine.AutofixEngine.Seed` | src/nixadmin/autofix_engine.py:38-41 | the units failing at startup count as seen and none is handled |
| `AutofixEngine.AutofixEngine.RunOnce` | src/nixadmin/autofix_engine.py:43-56 | one tick takes seen set, handled units and log to what the tick function says |
| `AutofixEngine.TickMeaning` | src/nixadmin/autofix_engine.py:43-56 | after a tick `seen` is the sample, and exactly the units not seen before were handled, each once, in order |
| `AutofixEngine.DistinctInOrder` | src/nixadmin/autofix_engine.py:46-49 | each unit of a sample is taken where it is first listed, in that order |
| `AutofixEngine.FreshInOrder` | src/nixadmin/autofix_engine.py:48-51 | those not seen before are handled in that order, and no other |
| `AutofixEngine.AutofixEngine.HandleUnit` | src/nixadmin/autofix_engine.py:58-105 | counts the restarts in the guard's rows, lets the rest of the daemon go on meanwhile, then leaves the row for inform or for the restart outcome, or none |
| `AutofixEngine.CountRestarts` | src/nixadmin/autofix_engine.py:61-63 | the number of rows whose action is a restart |
| `AutofixEngine.AutofixEngine.DecideAndReport` | src/nixadmin/autofix_engine.py:64-95 | skip leaves no row, inform one with both counts, a restart one with its verified outcome, and a raising restart none |
| `AutofixEngine.AutofixEngine.Poll` | src/nixadmin/server.py:760-773 | any number of turns, a failing sample included, are the turns of the state function |
| `AutofixEngine.RunMeaning` | src/nixadmin/autofix_engine.py:43-95 | over any run `seen` is the last sample that could be taken, each unit not in the sample before was handled, and the log is that of one sequence of store events |
| `AutofixEngine.HandledOncePerEdge` | src/nixadmin/autofix_engine.py:38-56 | over any run each unit is handled once per rising edge of its failure, no more and no less |
| `AuditRows.VerdictMeans` | src/nixadmin/autofix_engine.py:64-95 | no row where the engine is off or the restart raised; a restart row, with its outcome, severity and attempt, exactly where the scope is allowed and neither count has reached the limit; an inform row with both counts otherwise |
| `AuditRows.GuardReads` | src/nixadmin/autofix_engine.py:59-63 | the guard reads audit rows of the unit that are in the window, at most fifty, and leaves out none while there is room or that is newer than one it reads |
| `AuditRows.RestartsAreCounted` | src/nixadmin/autofix_engine.py:61-63 | its count is the number of those rows whose action is a restart |
| `AuditRows.RunIsExplained` | src/nixadmin/autofix_engine.py:58-95 | the audit rows of every run are those of its handlings that leave one, one each and in order, and each tells the decision on the counts of its moment and the outcome |
| `AuditRows.PollingIsExplained` | src/nixadmin/server.py:760-773 | the same for the poll loop from any seed |
| `RestartGuard.GuardCounts` | src/nixadmin/autofix_engine.py:59-63 | on an ordered table the guard counts the restarts among the last fifty in-window rows of the unit name |
| `RestartBudget.ReportFits` | src/nixadmin/autofix_engine.py:58-95 | the row that handling a unit adds keeps that unit within its budget |
| `RestartBudget.RestartBudgetOverRuns` | src/nixadmin/autofix_engine.py:43-95 | in every run, with any appends and prunes of others in between, at most 51 consecutive audit rows of a unit within one window hold at most `max_attempts` restarts, pruned rows included |
| `RestartBudget.PollingKeepsBudget` | src/nixadmin/server.py:760-773 | the same for the poll loop from any seed |
| `RestartStorm.BudgetSpanIsExact` | src/nixadmin/autofix.py:31-33 | if a storm of period p fits the window, all runs of the poll loop keep the limit over stretches of n audit rows if and only if n is less than a storm takes |
| `RestartStorm.PromiseIsExact` | src/nixadmin/autofix.py:31-33 | every run of the poll loop that handles a unit at most every p seconds keeps the documented limit if and only if the window is shorter than a storm of period p |
| `RestartStorm.StormBreaksBudget` | src/nixadmin/autofix_engine.py:43-95 | the storm is a run of the poll loop, with ticks that alternately find the unit failing and well, and records one restart too many in one window |
| `RestartBudget.PromiseUpToCap` | src/nixadmin/autofix.py:31-33 | a run that leaves at most 51 audit rows of the unit in any window has kept the documented limit |
| `RestartStorm.GuardCap` | src/nixadmin/autofix_engine.py:60-63 | the guard sees every in-window restart of every table with n such rows if and only if n is at most 50 |
| `RestartStorm.PromiseBreaksPastCap` | src/nixadmin/autofix_engine.py:60-63 | for every limit and period whose storm fits the window there is a run of the poll loop that breaks the limit |
| `Timeline.TimelineService.RecordFailureTransitions` | src/nixadmin/timeline.py:23-37 | one row per change; replaying the log gives the new snapshot if it gave the old one, and in general if and only if it differed from the old one only where the new one does; no row is idle then, and each new row says what the snapshot does of its unit |
| `Timeline.TimelineService.RecordRun` | src/nixadmin/timeline.py:23-37 | after any run of completed calls, with other writers between and within them, the log replays to the last snapshot and every unit's rows alternate starting with observed |
| `Timeline.TimelineService.constructor` | src/nixadmin/timeline.py:17-21 | over an empty store the log describes the empty snapshot |
| `Timeline.TimelineService.ReportObserved` | src/nixadmin/timeline.py:27-31 | one observed row for each newly failed unit |
| `Timeline.TimelineService.ReportCleared` | src/nixadmin/timeline.py:32-36 | one cleared row for each recovered unit |
| `Timeline.RestartOverOldLog` | src/nixadmin/timeline.py:17-37 | a new recorder that finds nothing failing over a log that shows a unit failing leaves it so |
| `Timeline.ReplayIsParity` | src/nixadmin/timeline.py:23-37 | a unit's rows alternate starting with observed, and it is failing if and only if their number is odd |
| `Timeline.TogglesIsAlternation` | src/nixadmin/timeline.py:23-37 | no row is idle if and only if every unit's rows alternate starting with observed |
| `Timeline.TimelineService.Page` | src/nixadmin/timeline.py:39-46 | the page with its cursor, as the page function says |
| `Paging.PageIsGood` | src/nixadmin/timeline.py:39-46 | below 1000 a page without a cursor leaves nothing out, and one with a cursor holds exactly the rows of the unit asked for, before the given id, from the cursor up |
| `Paging.PageIsFull` | src/nixadmin/timeline.py:42-45 | a page with a cursor is as long as the limit |
| `Paging.NoCursorAtCap` | src/nixadmin/timeline.py:42-45 | at a limit of 1000 or more no cursor is ever returned |
| `Paging.LostAtCap` | src/nixadmin/timeline.py:42-45 | at a limit of 1000 a longer table loses its oldest row without a cursor |
| `Paging.OneRowIsLost` | src/nixadmin/timeline.py:42-45 | such a table of 1001 rows |
| `Paging.StepsFollow` | src/nixadmin/store.py:148-246 | whatever is appended and pruned between two pages, new rows have newer ids and no old one comes back |
| `Paging.CursorWalk` | src/nixadmin/timeline.py:39-46 | a walk under any appends and prunes, each page with its own limit below 1000, ends, goes down in ids, returns only rows present at the start, and misses one only if it was pruned before its page |
| `Paging.StepsKeepTidy` | src/nixadmin/store.py:148-246 | appends and prunes under a clock that does not step back keep the table in order of ids and times |
| `Paging.WalkOverSteps` | src/nixadmin/timeline.py:39-46 | so does a walk between whose pages any steps of the store happen, with nothing assumed of the tables after the first |
| `Paging.PagingNeedsClock` | src/nixadmin/store.py:206-214 | walking a table gives it whole for all limits below 1000 if and only if its times never decrease along its ids |
| `Paging.ClockSteppedBack` | src/nixadmin/store.py:206-214 | two rows with times 5 and 3 are not walked whole |
| `Ledger.Summarize` | src/nixadmin/ledger.py:75-146 | the one-pass loop computes the ledger of the rows |
| `Ledger.OrderDoesNotMatter` | src/nixadmin/ledger.py:83-91 | the ledger is the same for every order of the rows |
| `Ledger.HonestStreak` | src/nixadmin/ledger.py:119-135 | a positive streak of n days means nothing failing now, no attention row within n days, and a start less than n + 1 days back; and it is positive whenever a full day has passed |
| `Ledger.LedgerMeans` | src/nixadmin/ledger.py:75-146 | each member of the ledger, for all rows: the start of the streak by its precedence, whole days, the three tallies as numbers of in-window rows, and the headline |
| `Ledger.WritersAreAccounted` | src/nixadmin/autofix_engine.py:71-95 | every row the engine and the two restart commands write is either a silent success or an attention moment, never both |
| `Ledger.DaemonIsAccounted` | src/nixadmin/server.py:309-312 | what the rest of the daemon writes, the rows of the two restart commands or rows of other kinds, is accounted for |
| `Ledger.RowsAreTold` | src/nixadmin/ledger.py:44-56 | a verified restart of the engine is a success; a failed one, an inform and a restart by a person are attention; rows of other kinds are neither |
| `Ledger.ConservationOverRuns` | src/nixadmin/ledger.py:98-115 | on every log a run leaves, in-window autofix rows plus restart rows are `auto_restarts` plus `attention` |
| `Timeline.TimelineService.KeptWell` | src/nixadmin/timeline.py:48-63 | the three scans, the first time and the fold give the served ledger, each read seeing the store after whatever happened since the one before |
| `Ledger.ServedTallies` | src/nixadmin/timeline.py:48-63 | whatever happens between the reads, each tally is that of the table its own read saw, and attention is the sum over two such tables |
| `Ledger.UndisturbedIsOneState` | src/nixadmin/timeline.py:48-63 | steps that leave the scanned rows and the first time alone leave the ledger that of one state |
| `Ledger.OtherKindsDoNotDisturb` | src/nixadmin/timeline.py:48-63 | appends of rows of other kinds, none earlier than the first of the table, are such steps |
| `Ledger.KeptWellIsExact` | src/nixadmin/timeline.py:48-63 | the served ledger is that of the whole store if and only if every dropped row counts in no tally and, if nothing is failing, is no attention moment unless a scanned one is as late or no row is earlier |
| `Ledger.CapsShow` | src/nixadmin/ledger.py:34-36 | with 1001 attention rows the served ledger misses one |
| `Ledger.KeptWellWithinCaps` | src/nixadmin/ledger.py:34-36 | in particular whenever each scan has at most 1000 rows to return |
| `PackageEditor.Find` | src/nixadmin/actions.py:172-176 | the first line at or after the start that the pattern hits, or none |
| `PackageEditor.FindList` | src/nixadmin/actions.py:142-148 | the opening and the closing line, or which of them is missing |
| `PackageEditor.EditPackages` | src/nixadmin/actions.py:136-169 | the edited text, or the error, as the edit function says |
| `PackageEditor.SplitIsProper` | src/nixadmin/actions.py:142 | splitting keeps every character and yields whole lines |
| `PackageEditor.SplitOfJoin` | src/nixadmin/actions.py:169 | joined proper lines split into the same lines again |
| `PackageEditor.AddMeaning` | src/nixadmin/actions.py:150-161 | one entry, with the list's indent and the text's line break, is put at the end of the list and nothing else changes |
| `PackageEditor.RemoveMeaning` | src/nixadmin/actions.py:162-169 | exactly the lines of that name leave the list and the lines around it stay |
| `PackageEditor.RoundTrip` | src/nixadmin/actions.py:136-169 | removing a name that is not empty, after adding it where it was absent, returns the exact text if and only if the name is clean |
| `PackageEditor.OddNameStays` | src/nixadmin/actions.py:136-169 | no name that is not clean comes off an empty list again without a trace |
| `PackageEditor.AddIsIdempotent` | src/nixadmin/actions.py:151-153 | adding twice is adding once |
| `PackageEditor.AddsCommuteWithRemove` | src/nixadmin/actions.py:142-169 | add p, add q, remove p is add q, indent and line breaks included |
| `PackageEditor.AddInsertsName` | src/nixadmin/actions.py:150-161 | the package set gains exactly the name and the lines outside the list are untouched |
| `PackageEditor.RemoveDeletesName` | src/nixadmin/actions.py:162-168 | the package set loses exactly the name |
| `EditMeaning.OpeningMeans` | src/nixadmin/actions.py:143 | a line opens the list if and only if the name stands in it, after it only white space up to an equals sign, and a bracket later on the same line |
| `EditMeaning.ClosingMeans` | src/nixadmin/actions.py:146 | a line closes it if and only if only white space comes before `];` |
| `EditMeaning.EditErrors` | src/nixadmin/actions.py:142-165 | for every text: no line opens a list, the first that does is followed by none that closes one, or the name to remove is not on it; and no other error |
| `EditMeaning.AddIsMeant` | src/nixadmin/actions.py:150-161 | a name on the list changes nothing; otherwise a line of its indent, the name and the text's line break goes in before the closing line |
| `EditMeaning.RemoveIsMeant` | src/nixadmin/actions.py:162-169 | the lines of the list that do not hold the name alone stay in their order, and all others go |
| `AppAction.RunAppAction` | src/nixadmin/actions.py:184-282 | file, effects and reply are those of the transaction function, for every behaviour of every callback |
| `AppAction.Propose` | src/nixadmin/actions.py:205-239 | edit, validation, suggestion and question give the text to apply or the reason to stop |
| `AppAction.Carry` | src/nixadmin/actions.py:241-282 | write and switch; on failure the original back, and a rollback if the generation moved |
| `AppAction.OnlyConsentedTextIsWritten` | src/nixadmin/actions.py:205-247 | each write is of a text validated and then confirmed, or of the original after a failed switch |
| `AppAction.RunIsAccounted` | src/nixadmin/actions.py:196-239 | by what the callbacks did: the file is written if and only if the answer was yes and the edit was found valid, or was found not to be and the edit with another name proposed was; that text is what is written; and when each reply before the write is given |
| `AppAction.WrittenReplies` | src/nixadmin/actions.py:243-282 | when each reply after the write is given |
| `AppAction.FileIsAllOrNothing` | src/nixadmin/actions.py:241-282 | the file ends as the confirmed text if the switch returned and as the original otherwise; once written, if and only if the callbacks are well behaved |
| `AppAction.RollbackOnlyIfMoved` | src/nixadmin/actions.py:243-270 | a rollback is tried if and only if the switch failed, one is available, the generation reading changed and the note was delivered |
| `AppAction.RevertIsExact` | src/nixadmin/actions.py:205-247 | after a failed switch the file is restored byte for byte if and only if it held no carriage return |
| `AppAction.TranslatedConcat` | src/nixadmin/actions.py:205 | a text is read part by part wherever it is not cut inside a line end |
| `AppAction.LineEndsAreTranslated` | src/nixadmin/actions.py:205 | both line ends with a carriage return are read as a line feed, and every other character as itself |
| `AppAction.EditStays` | src/nixadmin/actions.py:241-242 | a run in which the progress note raises and the edit stays |
| `AppAction.ReturnIsLost` | src/nixadmin/actions.py:205-247 | a run whose revert loses a carriage return |
| `AppAction.ReadTextHasNoLoneReturn` | src/nixadmin/actions.py:205 | the text that is edited never has a lone carriage return, so the set laws apply to it |
| `HelperChannel.RunHelper` | src/nixadmin/safety.py:97-145 | the reading loop gives what the fold over the lines gives, each error included, and the one that a line too long for the reader lets through |
| `HelperChannel.ReadMeaning` | src/nixadmin/safety.py:97-145 | there is a result if and only if all lines are good, the peer closed in order and an exit status came; the output is all that was streamed, stripped, and the code is the last one that came |
| `HelperChannel.ReadFails` | src/nixadmin/safety.py:111-128 | the first bad line decides: no object, a refusal, a stream that is no text, an exit status that is no number |
| `HelperChannel.ReadEnds` | src/nixadmin/safety.py:129-145 | where all lines are good: a timeout, a broken connection, a line too long, or no exit status |
| `HelperChannel.NoFalseResult` | nix/nixadmin-helper.py:167-222 | wherever the frames of a rebuild are cut off, a result comes back only if all arrived, with the helper's code and the whole output |
| `HelperChannel.TextsMean` | nix/nixadmin-helper.py:167-268 | what is streamed: a word of waiting if it had to, then why it could not be started, or the journal with a last remark if it failed |
| `HelperChannel.ApplySwitch` | src/nixadmin/safety.py:68-78 | a nonzero code is an error and an empty output reads as done |
| `HelperChannel.SwitchSucceedsOnlyIfActive` | nix/nixadmin-helper.py:91-100 | the switch succeeds if and only if the unit was started, was read as active, and the whole report arrived |
| `HelperChannel.SwitchReports` | nix/nixadmin-helper.py:91-100 | what a report that arrives whole comes to: the stripped output or `(done)`, or a failure with the code of the start or of the unit, never zero |
| `SessionGate.SessionState.Rebuild` | src/nixadmin/safety.py:37-66 | what one call adds to its session's record, when it is refused, cancelled or finished, and that flag and record stay in step |
| `SessionGate.MoveKeepsInv` | src/nixadmin/safety.py:37-66 | any move of any query, rebuild or edit, keeps every session's record licensed and its flag stable between check and dispatch |
| `SessionGate.TestBeforeSwitch` | src/nixadmin/server.py:373-388 | in every interleaving of all sessions each session's record is licensed |
| `SessionGate.LicensedSwitch` | src/nixadmin/safety.py:47-60 | in a licensed record a switch follows a yes of its own, and the last test recorded before it succeeded |
| `SessionGate.LicensedBoot` | src/nixadmin/safety.py:52-55 | a boot follows a yes of its own |
| `SessionGate.CallSends` | src/nixadmin/safety.py:37-66 | what one call sends, by its action: a switch on a recorded success and a yes, a boot on a yes, a test or a revert always; only a test's report is recorded, as a success if its code was zero |
| `SessionGate.LicensedEdit` | src/nixadmin/actions.py:235-245 | in a licensed record the switch of an edit follows a yes of its own |
| `SessionGate.EditNeedsNoTest` | src/nixadmin/safety.py:68-78 | such a switch goes out in a session without any test |
| `SessionGate.CallAddsEffects` | src/nixadmin/safety.py:37-66 | a call left alone in the machine adds what the call does when it is made |
| `SessionGate.LockIsNeeded` | src/nixadmin/session.py:47-51 | without the session lock a failing test of another query slips in and the switch is unlicensed |
| `SessionGate.LatestAttempt` | src/nixadmin/safety.py:56-61 | at a switch the last record after the last test sent is a success if and only if there is one, and it comes at once or never |
| `SessionGate.SwitchAfterLatestTest` | src/nixadmin/safety.py:47-61 | in every interleaving the last test sent before a switch succeeded if and only if its report arrived |
| `SessionGate.LostTestKeepsLicence` | src/nixadmin/safety.py:56-61 | a report may be lost: then the earlier success stands and a switch passes |
| `Routing.ResolveDesired` | src/nixadmin/routing.py:58-80 | pinned means asked for local, or nothing asked and a privacy hint; remote is wanted if asked for, or if nothing else decides and a hint or the default says so |
| `Routing.CollisionsAreAsPromised` | src/nixadmin/routing.py:68-79 | colliding hints are settled as documented unless auto and remote are hinted, local is not, nothing is asked for and the default is local; there the remote chain is wanted |
| `Routing.Resolve` | src/nixadmin/routing.py:92-130 | a query proceeds if and only if the chain it wants is ready, the other chain is offered if and only if it alone is, and when none is it waits for the local chain or fails for the remote one |
| `QueryLog.ClosingIsLast` | src/nixadmin/server.py:373-388 | in a lawful log the closing messages are the last events and no other event is one |
| `QueryLog.ShownIsSent` | src/nixadmin/server.py:546-562 | what leaves after a preview is the very text it showed, be it empty, which is what redaction made of the query, without history and context |
| `QueryLog.NothingLeavesUnasked` | src/nixadmin/server.py:526-601 | a query wanted on the device calls the remote model only straight after a yes: with the text of the preview alone, or as it is after the question about the other chain |
| `QueryLog.ResultsAreScrubbed` | src/nixadmin/server.py:668-670 | after a preview every tool result is scrubbed before it goes to the remote model |
| `QueryLog.DeclinedToolIsIdle` | src/nixadmin/safety.py:54-55 | after a no to a tool's question the model is given that nothing was done |
| `QueryLog.YesRunsRemote` | src/nixadmin/server.py:592-595 | a yes to a change of chain runs what was offered if and only if the query was wanted on the device |
| `QueryLog.UnusableRemote` | src/nixadmin/server.py:592-595 | an unusable remote model is called only after a yes to using the local one |
| `QueryLog.RecordIsHonest` | src/nixadmin/server.py:672-684 | the recorded answer is what was said, and the recorded text of a remote answer is the text that left |
| `Dispatch.Dispatcher.constructor` | src/nixadmin/server.py:209-211 | a new query has met nothing yet |
| `Dispatch.Dispatcher.Confirm` | src/nixadmin/connections.py:44-47 | what a question comes to, given all that is waited for |
| `Dispatch.Dispatcher.AwaitResponse` | src/nixadmin/connections.py:49-57 | the answer, a cancellation while waiting being a no that does not stop the query |
| `Dispatch.Dispatcher.Speak` | src/nixadmin/server.py:668-678 | one turn of a model: a piece sent on, or a tool that is put to work, after a yes where it asks, awaited, and its result handed over if it comes |
| `Dispatch.Dispatcher.Stream` | src/nixadmin/server.py:672-678 | the whole answer, piece by piece, and how it ended |
| `Dispatch.Dispatcher.Record` | src/nixadmin/server.py:680-684 | both sides to the history and the exchange to the log, each unless the one before failed |
| `Dispatch.Dispatcher.RunLocal` | src/nixadmin/server.py:605-639 | the local chain as a function of all that is waited for |
| `Dispatch.Dispatcher.RunRemote` | src/nixadmin/server.py:641-685 | the remote chain: a text given goes alone, otherwise the query's goes with history and context |
| `Dispatch.Dispatcher.OfferEscalation` | src/nixadmin/server.py:526-562 | redaction, preview, and what the answer to it leads to |
| `Dispatch.Dispatcher.StayLocal` | src/nixadmin/server.py:564-574 | a local answer if that is allowed and possible, otherwise the plain message |
| `Dispatch.Dispatcher.ApplyDecision` | src/nixadmin/server.py:576-601 | the chain that a decision leads to, or how the query ended |
| `Dispatch.Dispatcher.ConfirmOther` | src/nixadmin/server.py:592-600 | a yes gives the remote chain, a no the local one, ready or waited for |
| `Dispatch.Dispatcher.RunQuery` | src/nixadmin/server.py:390-471 | remedy, change or read, as a function of all that is waited for |
| `Dispatch.Dispatcher.Dispatch` | src/nixadmin/server.py:373-388 | lock, query, and the answer to whatever escapes from it |
| `Dispatch.Serve` | src/nixadmin/server.py:209-211 | a query from the message to its end has the life that the function gives |
| `DispatchWaits.ConfirmedMeans` | src/nixadmin/connections.py:44-57 | a yes is one that was given: the question went out and the wait for its answer brought a yes; a cancellation then is a no |
| `DispatchWaits.ConfirmedOtherMeans` | src/nixadmin/server.py:592-600 | a no gives the local chain at once if it is ready then, and otherwise after a wait for it |
| `DispatchWaits.ClassifiedMeans` | src/nixadmin/server.py:408-418 | with a local model the query is classified by it, and the person is told while it warms up |
| `DispatchWaits.PermittedMeans` | src/nixadmin/safety.py:52-66 | a tool that asks first is put to work on a yes and only then, and its result is what the wait for it brings |
| `DispatchWaits.TurnedMeans` | src/nixadmin/server.py:668-678 | pieces are sent on as they come, a tool's result is handed over as it comes, and the local model has no tools |
| `DispatchWaits.FactsMean` | src/nixadmin/server.py:605-632 | the local model answers from the facts as gathered; if those are blank it is not asked and the person is told |
| `DispatchWaits.RemoteIsGiven` | src/nixadmin/server.py:657-678 | the text as it is goes with the history and the context as they were fetched |
| `DispatchWaits.PreviewIsCleaned` | src/nixadmin/server.py:518-524 | a preview shows what the local model made of the text, or the scrub where there is no local model |
| `DispatchWaits.CarriedMeans` | src/nixadmin/server.py:483-516 | a change or a restart sends its status lines, asks its questions and awaits their answers, and is told as it came out if that could be noted |
| `DispatchWaits.KeptMeans` | src/nixadmin/server.py:680-684 | each record of an exchange is made after its wait came back and the next is not begun before |
| `DispatchLaw.StreamedKeeps` | src/nixadmin/server.py:672-678 | the answer that is kept is what was sent, and tools and their questions change nothing else |
| `DispatchLaw.RanLocalKeeps` | src/nixadmin/server.py:605-639 | nothing leaves the device, and a normal return has closed the query after an answer of the local model, or after the word that the facts could not be had |
| `DispatchLaw.RanRemoteShown` | src/nixadmin/server.py:641-685 | after a yes to the preview the text shown leaves and is recorded, and the query is closed for the remote chain |
| `DispatchLaw.OfferedEscalationKeeps` | src/nixadmin/server.py:526-562 | the preview is shown if and only if there is a remote chain, and what redaction made of the text leaves if and only if the answer is yes |
| `DispatchLaw.ConfirmedOtherKeeps` | src/nixadmin/server.py:592-600 | the remote chain comes out with consent only, the local one never after a yes |
| `DispatchLaw.AppliedDecisionKeeps` | src/nixadmin/server.py:576-601 | the chain that proceeds or is waited for, or the one answered for; otherwise the query is over, by an error of its own if and only if nothing is available |
| `DispatchLaw.RanQueryKeeps` | src/nixadmin/server.py:390-471 | a remedy calls no model; a change leaves the device if and only if its preview was agreed to; a read that was closed by its chain has left if and only if a question was answered with yes or the remote chain was wanted and usable |
| `DispatchLaw.AssessedKeeps` | src/nixadmin/server.py:456-469 | a read of the local chain is offered to the remote one if and only if there is one, and the local model judged that it cannot answer |
| `DispatchLaw.LifeIsLawful` | src/nixadmin/server.py:373-388 | for every schedule of waits the log is lawful; no closing message is attempted if and only if the lock was never obtained, two are if and only if the query's own closing send went wrong, and otherwise one; a remedy calls no model, and a change lets leave only what its preview showed |
| `DispatchLaw.NothingLeavesUnagreed` | src/nixadmin/server.py:526-601 | in every life the remote model is called as the preview showed, straight after a yes to it and with every tool result scrubbed from then on, or with the text as it is, straight after a yes to the other chain or unasked where the query's own fields want it there and it is usable; the latter never for a change, and neither for a remedy |
| `DispatchLaw.HomeIsKept` | src/nixadmin/server.py:420-423 | a query that was asked for on the device, that is private by its hints, or that nothing places while the device is the default, calls the remote model only straight after a yes |
| `DispatchLaw.AbroadIsReached` | src/nixadmin/server.py:420-471 | any other read, where the remote chain is usable, leaves as it is without a question, and has left whenever it came back normally |
| `DispatchLaw.OnlyTheDoubtedIsOffered` | src/nixadmin/server.py:449-469 | in every life of a read that came back normally a preview was answered if and only if it came to the local chain, there was another, and the local model was not sure |
| `DispatchLaw.LifeEnds` | src/nixadmin/server.py:377-385 | a cancellation closes the query with a bare done, an error with an error, and otherwise it has closed itself |
| `DispatchLaw.UnusableIsCalled` | src/nixadmin/server.py:592-595 | a life in which a yes to the local model calls the unusable remote one |
| `DispatchLaw.ClosedTwice` | src/nixadmin/server.py:377-385 | a life with two closing messages |
| `DispatchLaw.NeverClosed` | src/nixadmin/server.py:374-375 | a life, cancelled before the lock, with none |
| `DispatchLaw.EmptyIsSent` | src/nixadmin/server.py:657-662 | an empty redaction is shown and sent as it is, and the text does not go in its stead |
| `QuerySession.Session.Messages` | src/nixadmin/web/session.py:75-105 | the streaming loop, with other threads between its blocks, is a run of the machine and leaves the state that the turns give |
| `QuerySession.Session.TakeTurn` | src/nixadmin/web/session.py:85-105 | one turn: what others do first, the line if there is one and the socket is open, and the close when it was the last |
| `QuerySession.Session.Handle` | src/nixadmin/web/session.py:92-103 | one line: a question waits for its entry, a closing message ends the stream |
| `QuerySession.Session.Exchange` | src/nixadmin/web/session.py:94-101 | the oldest entry is taken: an answer is written and the stream goes on, a cancellation or no entry in time gives up |
| `QuerySession.Session.Interfere` | src/nixadmin/web/session.py:109-145 | answers, cancels and closes of other threads are runs of the machine |
| `QuerySession.IntrudedMeans` | src/nixadmin/web/session.py:109-145 | an answer is queued; a cancellation is written, unless closed, and queued; a close closes |
| `QuerySession.QuietTurnMeans` | src/nixadmin/web/session.py:85-105 | after a closing line, without a line or on a closed socket the session is finished and closed and nothing was written; other lines change nothing |
| `QuerySession.QuestionTurnMeans` | src/nixadmin/web/session.py:92-105 | a question gets the oldest entry and the stream goes on; without one, or at a cancellation, the daemon is told unless the session was closed, and it is finished and closed |
| `QuerySession.TerminalIsLast` | src/nixadmin/web/session.py:102-105 | a closing line is the last that is looked at |
| `QuerySession.AnswersInOrder` | src/nixadmin/web/session.py:75-119 | in every interleaving the k-th answer written is the k-th entry ever queued, so none from behind a cancellation, and there are at most as many as questions |
| `QuerySession.NothingAfterClose` | src/nixadmin/web/session.py:121-150 | nothing is written once the session is closed |
| `QuerySession.NothingAfterCancel` | src/nixadmin/web/session.py:93-101 | no answer is written once a cancellation was taken or the wait ran out |
| `QuerySession.NothingAfterTerminal` | src/nixadmin/web/session.py:102-105 | after a closing line no question is passed on and no answer written, in any interleaving |
| `QuerySession.AbandonedIsTold` | src/nixadmin/web/session.py:97-101 | where nobody answers the daemon is told before the stream ends, unless the session is closed or the stream broke |
| `QuerySession.OwnAnswer` | src/nixadmin/web/session.py:93-101 | an answer was queued after its question came if and only if nothing was queued then; otherwise the question gets the oldest entry |
| `QuerySession.StaleAnswer` | src/nixadmin/web/session.py:93-101 | a run in which an answer queued before any question is what the first one gets |
| `Suppression.OperationalState.ShouldLog` | src/nixadmin/observability.py:29-39 | a warning is held back if and only if its key was let through less than the interval ago and fewer than 128 other keys were since; the table stays at 128 |
| `Suppression.HeldBackMeans` | src/nixadmin/observability.py:29-39 | on the history alone: the key's last place is less than the interval ago and fewer than 128 keys came after it |
| `Suppression.TableTells` | src/nixadmin/observability.py:32-38 | the bounded table knows a key if and only if fewer than 128 other keys were let through since it |
| `Suppression.NextTable` | src/nixadmin/observability.py:35-38 | update, move to end and evict give the last 128 keys of the longer history |
| `Suppression.LastEachSorted` | src/nixadmin/observability.py:35-36 | under a monotone clock the order of the table is that of its times |
| `Suppression.SinceMeaning` | src/nixadmin/observability.py:29-39 | the keys counted are those let through after the key's last place in the history |
| `Episodes.GroupEpisodes` | src/nixadmin/web/assets/timeline.js:39-52 | the groups flatten to the input, each is a chain of one unit and scope with gaps of at most 900 s, and no neighbours could be joined |
| `Episodes.GroupIsOfOneUnit` | src/nixadmin/web/assets/timeline.js:42-49 | every event of a group has its unit and scope, and what is no episode is a single event |
| `Episodes.StartsIffApart` | src/nixadmin/web/assets/timeline.js:41-50 | an event starts a group if and only if it and the one before are not both of the life cycle of one service in one scope at most 900 s apart |
| `Episodes.GroupingIsUnique` | src/nixadmin/web/assets/timeline.js:39-52 | there is only one such grouping |
| `ToolCalls.Calls.Accumulate` | src/nixadmin/llm/remote.py:130-141 | one more fragment keeps each call the whole of its own fragments and the calls in the order of their first ones |
| `ToolCalls.Calls.Stream` | src/nixadmin/llm/remote.py:107-114 | so does a whole stream |
| `ToolCalls.WholeMore` | src/nixadmin/llm/remote.py:134-141 | a fragment appends its name and arguments and replaces the id if it has one |
| `ToolCalls.ReshuffleSameSlots` | src/nixadmin/llm/remote.py:130-141 | streams that keep each call's own order give the same calls |
| `ToolCalls.NeighboursSwap` | src/nixadmin/llm/remote.py:130-141 | neighbouring fragments of different calls may change places |

## Left out

- SQLite errors and the null store: store operations succeed, and times are whole seconds.
- RestartBudget.RestartBudgetOverRuns: is about recorded rows, since a restart whose check raises leaves none (src/nixadmin/remediation.py:162-168), and assumes a clock that does not step back, a window of at most a day and the engine as only writer of audit rows.
- AutofixEngine.AutofixEngine.RunOnce: does not model the broadcast after a row is written, nor an error in it that would end the tick early; the store is open, since the daemon stops the engine first.
- AutofixEngine.AutofixEngine.HandleUnit: the same for the broadcast.
- AutofixEngine.AutofixEngine.DecideAndReport: the same for the broadcast.
- RestartStorm.StormBreaksBudget: each row is written two seconds after the guard's read; the failures may be any period apart that is at least that, and 40 seconds leave room for two polls of 15 seconds and a restart that is tried and checked for some seconds (src/nixadmin/remediation.py:162).
- Timeline.TimelineService.RecordFailureTransitions: rows that are idle after a restart of the daemon are not counted, and the store is open, as the daemon closes it last.
- Ledger.Summarize: the headline is a value, and the tally texts are not modelled.
- PackageEditor.RemoveMeaning: assumes that no carriage return stands alone, which is so for every text the transaction reads (`ReadTextHasNoLoneReturn`).
- PackageEditor.RemoveDeletesName: the same.
- AppAction.RunAppAction: no second writer to the file, and git, the worktree and the diff text are verdicts of the environment; messages to the person are values. Both writes of the file (src/nixadmin/actions.py:241, 247) are assumed to succeed whole.
- AppAction.FileIsAllOrNothing: the same; a write that fails or stops halfway would break it although the callbacks behave.
- HelperChannel.NoFalseResult: what arrives is a prefix of the frames; a stream frame that is lost while a later exit frame is not is outside it. A whole frame whose line end is lost counts as whole.
- HelperChannel.RunHelper: which member of the helper's reply is malformed is kept, its wording is not; the frames of a plain unit restart are not modelled.
- SessionGate.TestBeforeSwitch: the helper's own lock and what a rebuild does are not modelled.
- Dispatch.Dispatcher.Speak: what a tool makes is an input that is awaited; which tool it is and its arguments are not modelled.
- Dispatch.Dispatcher.Dispatch: a message is noted when its send is attempted; a send that is cancelled while it waits for the connection's send lock (src/nixadmin/connections.py:39), or whose message exceeds the wire limit, writes nothing, so closing messages are counted as attempted. The texts of status lines, questions other than the preview, and errors are not modelled.
- Dispatch.Dispatcher.RunQuery: what the text parses to, what the classifier says and what redaction and scrubbing yield are inputs.
- QuerySession.Session.Messages: connecting, decoding of lines and a failing socket write are one step that ends the stream.
- The pattern behind `^\s*\];` and `home\.packages\s*=.*\[` is written out as predicates; no other regular expression is modelled.
- The wire protocol's encoding, the web hub's session registry and URL file, monitors, tray, overlay, pages and command line: easy or user interface.
- The suppression counters, the session's remembered routing choices and the time of the last test: nothing reads them in what is modelled.
