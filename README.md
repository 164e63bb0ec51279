# ScriptPilot core, modelled in Dafny

ScriptPilot is a script-scheduling dashboard. It has three parts:

- a Next.js front end and API;
- a SQLite store;
- a small Python agent that receives scripts over HTTP and runs them.

The repository also carries two validators from an older Discord bot.

This project models the parts of that system that are deterministic logic once I/O is taken out:

- **Agent** (`ScriptAgent`). From a script name it picks the extension and the interpreter command line. It builds the child environment from the `PARAM_*` parameters. It classifies a run into a `success`/`error` result. It validates the `/execute` request.
- **Record store** (`Database`). A `DatabasePool` class holds the four tables as maps keyed by id, with the schema's uniqueness and foreign-key constraints as its invariant. Each query is a method. Deletes cascade as `ON DELETE CASCADE` says. Agent, task and script listings are proved sorted and a permutation of their table or join; the unfiltered execution listing is proved sorted and the 100 newest rows, and the per-task one a sorted permutation of that task's joined rows. A `Singleton` class models the static instance.
- **API routes** (`AgentsRoute`, `TasksRoute`, `ScriptsRoute`, `ExecutionsRoute`). Each handler is a method over the store. It covers every status code the handler can return for an already-parsed body (see "## Left out" for unparsable bodies), and states the store is unchanged on every error path.
- **Upcoming tasks** (`UpcomingTasks`). The `parseNextRun` heuristic works over integer milliseconds and a UTC calendar (`Clock`). The method follows the source's date mutations and is proved equal to a definition by meaning: the first midnight, or the first Sunday midnight, after now. Also modelled: the `formatTimeUntil` buckets and the filter / stable sort / take-5 pipeline.
- **Display rules** (`TaskTable`, `Display`, `RecentTasks`, `AgentTable`, `LogViewer`, `Dashboard`, `CreateTaskDialog`):
  - cron-to-text via a model of JavaScript `parseInt`;
  - the "time ago" buckets and duration units;
  - status-to-icon and status-to-badge maps;
  - the dashboard counters;
  - the create-task form.
- **Bot validators** (`BotCommands`, `BotMain`, `CommandLoader`). They walk the command list in order. The first command lacking a non-empty string `name` (checked first) or `description` stops everything. `main` issues its two `put` calls and the login only after the list passes.

Helper modules:

- `Wrappers`: `Option`.
- `Strings`:
  - prefix/suffix tests and ASCII upper case;
  - decimal rendering with its round trip;
  - JavaScript white space;
  - `split`/`join` on one character, with both round trips.
- `Seqs`: `filter`.
- `Sorting`: a stable insertion sort, listing a map in order, and taking the first n of it.
- `Clock`: day index, start of day, weekday.
- `Http`: response bodies.

Inputs the source gets from the outside world become parameters of the model:

- the clock (`now`, in ms);
- ids from `randomUUID` (`newId`);
- the handshake with an agent;
- the subprocess outcome and its duration;
- whether a local script file exists and what it holds;
- how a `fetch` or `put` call went;
- whether `JSON.parse` accepts a text;
- what requiring a module yields.

## Model

| member | source | states |
|---|---|---|
| ScriptAgent.ScriptExtension | agent/agent.py:136-146 | the extension is always ".py", ".sh" or ".js"; ".py" exactly for names ending ".py", ".js" exactly for names ending ".js"; every other name (".bash", ".sh", unknown) gets ".sh" |
| ScriptAgent.Command | agent/agent.py:70-78 | the interpreter table by extension; `CommandForName` proves which branch each script name reaches |
| ScriptAgent.CommandForName | agent/agent.py:66-78 | the command line always has two words, the second being the temp file; the first is the agent's Python for ".py", "node" for ".js" and "/bin/bash" otherwise, so the direct-execute branch is never reached; the file is made executable exactly for names not ending ".py" or ".js" |
| ScriptAgent.PyStr | agent/agent.py:83 | `str(value)` of a JSON parameter (text as is, integers in decimal, `True`/`False`, `None`); used by `OverlayLastWins` |
| ScriptAgent.ParamName | agent/agent.py:83 | the variable name is "PARAM_" followed by the key, each character upper-cased |
| ScriptAgent.Overlay | agent/agent.py:81-83 | the parameters assigned in order onto the parent environment; its meaning is stated by `OverlayKeys`, `OverlayOthers` and `OverlayLastWins`, and `ChildEnvironment` is proved equal to it |
| ScriptAgent.ChildEnvironment | agent/agent.py:81-83 | the loop builds exactly the overlay of the parameters, in order, onto a copy of the parent environment |
| ScriptAgent.OverlayKeys | agent/agent.py:81-83 | the child's variables are the parent's plus one `PARAM_` name per parameter |
| ScriptAgent.OverlayOthers | agent/agent.py:81-83 | a variable no parameter names keeps the parent's value, or stays absent |
| ScriptAgent.NonParamVariablesUnchanged | agent/agent.py:81-83 | variables not starting with `PARAM_` are passed through unchanged |
| ScriptAgent.OverlayLastWins | agent/agent.py:82-83 | a parameter's variable holds `str(value)` of that parameter unless a later key upper-cases to the same name (the later one wins) |
| ScriptAgent.Classify | agent/agent.py:96-134 | every result echoes the execution id and carries the duration; success exactly on return code 0, with the stdout and no error; a non-zero code gives error with stdout and stderr; a timeout gives the fixed five-minute message and no output; an exception gives its message and no output |
| ScriptAgent.FirstMissing | agent/agent.py:173-176 | reports the first required field, in list order, that is absent, and nothing only when all are present |
| ScriptAgent.HandleExecute | agent/agent.py:164-199 | no or empty body gives 400 "No JSON data provided"; then `script_name` before `execution_id`, each missing one giving 400 naming it; empty content with no local file gives 404 with status error and runs nothing; otherwise the script is launched with the overlaid environment and the reply is the classified result |
| Database.CascadeKeepsTablesValid | scripts/init-db.js:52-69 | deleting an agent keeps every constraint, and removes exactly its tasks and the executions of that agent or of those tasks; nothing left refers to it |
| Database.TaskCascadeKeepsTablesValid | scripts/init-db.js:68 | deleting a task keeps every constraint and removes exactly the task's executions, leaving the others as they were |
| Database.JoinsDropNothing | lib/database.ts:111-116 | with the foreign keys in place the task join has one row per task and the execution join one row per execution, carrying the agent's hostname |
| Database.ViewsOfTask | lib/database.ts:161-169 | the task-filtered execution listing is the full join restricted to that task |
| Database.TaskViews | lib/database.ts:110-117 | the rows of the tasks-with-agents join; `JoinsDropNothing` proves one row per task |
| Database.ExecutionViews | lib/database.ts:150-159 | the rows of the executions-with-tasks-and-agents join; `JoinsDropNothing` and `ViewsOfTask` state its rows |
| Database.OrdersArePreorders | lib/database.ts:61 | the orders by hostname, by name, by `created_at` and by `started_at` are total preorders |
| Database.WithStatus | lib/database.ts:92-101 | sets status, `last_seen` and `updated_at` of the row and nothing else |
| Database.Finish | lib/database.ts:182-191 | sets status, output, error message, `finished_at` and duration; id, task, agent and `started_at` are kept |
| Database.FinishOverwrites | lib/database.ts:182-191 | finishing twice leaves exactly the second call's values (there is no once-only guard) |
| Database.DatabasePool.constructor | lib/database.ts:11-14 | a new store satisfies every constraint and its tables are empty |
| Database.DatabasePool.AgentGetAll | lib/database.ts:60-62 | every agent exactly once, ordered by hostname |
| Database.DatabasePool.AgentGetById | lib/database.ts:64-66 | the row with that id, or nothing when there is none |
| Database.DatabasePool.AgentGetByIp | lib/database.ts:68-70 | the agent with that ip, or nothing exactly when no agent has it |
| Database.DatabasePool.AgentCreate | lib/database.ts:72-90 | the insert succeeds exactly when the hostname is present, the id is new and the ip is unused; it then adds exactly that row with `last_seen` now; otherwise, and for the other tables always, nothing changes |
| Database.DatabasePool.AgentUpdateStatus | lib/database.ts:92-101 | only the named agent changes, by `WithStatus`; an unknown id changes nothing |
| Database.DatabasePool.AgentDelete | lib/database.ts:103-105 | removes the agent and cascades to its tasks and their executions and its own executions; scripts are untouched |
| Database.DatabasePool.TaskGetAll | lib/database.ts:110-117 | every task joined with its agent exactly once, newest `created_at` first |
| Database.DatabasePool.TaskGetById | lib/database.ts:119-121 | the row with that id, or nothing when there is none |
| Database.DatabasePool.TaskCreate | lib/database.ts:123-141 | the insert succeeds exactly when the id is new and the agent exists, and then adds exactly that row |
| Database.DatabasePool.TaskDelete | lib/database.ts:143-145 | removes the task and, by cascade, exactly its executions |
| Database.DatabasePool.ExecutionGetAll | lib/database.ts:150-159 | the 100 newest executions (all of them when there are fewer), newest first; every execution left out started no later than every one shown |
| Database.DatabasePool.ExecutionGetByTaskId | lib/database.ts:161-170 | every execution of that task exactly once, and only those, newest first |
| Database.DatabasePool.ExecutionCreate | lib/database.ts:172-180 | the insert succeeds exactly when the id is new and task and agent exist; the new row has `started_at` now and no output, error, finish time or duration |
| Database.DatabasePool.ExecutionUpdateFinished | lib/database.ts:182-191 | only the execution with that id changes, by `Finish`, even when it had already finished; an unknown id changes nothing |
| Database.DatabasePool.ScriptGetAll | lib/database.ts:196-198 | every script exactly once, ordered by name |
| Database.DatabasePool.ScriptGetById | lib/database.ts:200-202 | the row with that id, or nothing when there is none |
| Database.DatabasePool.ScriptGetByName | lib/database.ts:204-206 | the script with that name, or nothing exactly when no script has it |
| Database.DatabasePool.ScriptCreate | lib/database.ts:208-216 | the insert succeeds exactly when the id is new and the name unused, and then adds exactly that row |
| Database.Singleton.GetInstance | lib/database.ts:16-21 | the first call creates an empty, valid store; every later call returns that same store |
| AgentsRoute.NewAgent | app/api/agents/route.ts:38-50 | the row a registration inserts: the handshake's host data, status "online", `last_seen` now; `Post` states when it is inserted |
| AgentsRoute.Post | app/api/agents/route.ts:16-58 | a falsy ip gives 400 and a registered ip 409, both without contacting the agent; a failed handshake gives 400 "Failed to connect to agent"; otherwise exactly one row is added (status "online", port defaulting to 5000, the handshake's host data) and returned with 201; no error path changes the store |
| AgentsRoute.Get | app/api/agents/route.ts:6-14 | 200 with every agent, ordered by hostname |
| TasksRoute.NewTask | app/api/tasks/route.ts:39-50 | the inserted task takes the body's fields, with description, content, parameters and schedule defaulting to "" and the stored `active` NULL exactly for an explicit `null`, and truthy exactly when it is absent or `true` |
| TasksRoute.Post | app/api/tasks/route.ts:15-58 | a falsy name, agent id or script name gives 400 before the agent is looked up; an unknown agent gives 404; otherwise exactly that task is added and returned with 201; no error path changes the store |
| TasksRoute.Get | app/api/tasks/route.ts:5-13 | 200 with every task joined with its agent, newest first |
| ScriptsRoute.NewScript | app/api/scripts/route.ts:30-38 | the inserted script takes the body's name, content and type, with description and parameters defaulting to "" |
| ScriptsRoute.Post | app/api/scripts/route.ts:15-46 | a missing name, content or type gives 400; a taken name gives 409; otherwise exactly that script is added and returned with 201; no error path changes the store |
| ScriptsRoute.PostAll | app/api/scripts/route.ts:24-27 | after any sequence of POSTs script names are still unique, and the table grew by exactly the number of 201 replies |
| ScriptsRoute.Get | app/api/scripts/route.ts:5-13 | 200 with every script, ordered by name |
| ExecutionsRoute.Get | app/api/executions/route.ts:4-21 | a failed query gives 500; a non-empty `task_id` gives exactly that task's executions; an absent or empty one gives the newest 100; both newest first |
| UpcomingTasks.NextMidnight | components/upcoming-tasks.tsx:37-42 | the result is a midnight strictly after now and at most a day later, on the next day |
| UpcomingTasks.NextMidnightIsFirst | components/upcoming-tasks.tsx:37-42 | no midnight lies between now and the result |
| UpcomingTasks.NextSundayMidnight | components/upcoming-tasks.tsx:44-50 | the result is a Sunday midnight 1 to 7 days ahead, so a Sunday gets the next Sunday |
| UpcomingTasks.NextSundayMidnightIsFirst | components/upcoming-tasks.tsx:44-50 | no Sunday midnight lies between now and the result |
| UpcomingTasks.NextRun | components/upcoming-tasks.tsx:29-56 | no next run exactly for an empty schedule; every next run is strictly after now |
| UpcomingTasks.ParseNextRun | components/upcoming-tasks.tsx:29-56 | the step-by-step date arithmetic gives exactly `NextRun`: "daily" (checked first) or "0 0 * * *" the next midnight, "weekly" or "0 0 * * 0" the next Sunday midnight, anything else now plus one hour |
| UpcomingTasks.WeeklyStepsAgree | components/upcoming-tasks.tsx:46-48 | `(7 - getDay()) % 7 \|\| 7` days ahead lands on the next Sunday midnight |
| UpcomingTasks.FallbackForOtherSchedules | components/upcoming-tasks.tsx:37-55 | every non-empty schedule that contains neither "daily" nor "weekly" and is neither "0 0 * * *" nor "0 0 * * 0" runs exactly one hour from now |
| UpcomingTasks.TwoAmCronRunsInAnHour | components/upcoming-tasks.tsx:52-55 | "0 2 * * *" is given now plus one hour |
| UpcomingTasks.TimeUntilBucket | components/upcoming-tasks.tsx:74-88 | under an hour gives floor minutes, under a day floor hours (1 to 23), otherwise floor days |
| UpcomingTasks.FormatTimeUntil | components/upcoming-tasks.tsx:74-88 | the label for a run at `date` from its own clock reading `later`; `TimeUntilBucket` states the buckets |
| UpcomingTasks.FallbackTimeUntil | components/upcoming-tasks.tsx:34-88 | a fallback run, one hour after `parseNextRun`'s reading, reads "in 1 hours" exactly when `formatTimeUntil` reads the same instant, and "in 59 minutes" when its reading is up to a minute later |
| UpcomingTasks.RunsNoLaterIsPreorder | components/upcoming-tasks.tsx:116 | the comparison by next run is a total preorder |
| UpcomingTasks.WithNextRun | components/upcoming-tasks.tsx:101-114 | one entry per task: its next run, or null when it has none |
| UpcomingTasks.Present | components/upcoming-tasks.tsx:115 | keeps exactly the non-null entries |
| UpcomingTasks.Card | components/upcoming-tasks.tsx:105-113 | the fields a shown task keeps, with its time-until label; used by `UpcomingCards` |
| UpcomingTasks.UpcomingCards | components/upcoming-tasks.tsx:97-118 | one card per upcoming task, in order, the ranking taken at reading `now` and the labels at reading `later` |
| UpcomingTasks.Ranked | components/upcoming-tasks.tsx:97-116 | active scheduled tasks with their next runs, stably sorted; `RankedCandidates`, `UpcomingShape` and `TiesKeepListOrder` state its contents and order |
| UpcomingTasks.Upcoming | components/upcoming-tasks.tsx:117 | the first five of the ranking; `UpcomingProperties` and `UpcomingIsEarliest` state its size, order and that no hidden task runs earlier |
| UpcomingTasks.NothingDropped | components/upcoming-tasks.tsx:97-115 | every task with a schedule gets a next run, so the null filter drops nothing |
| UpcomingTasks.RankedCandidates | components/upcoming-tasks.tsx:97-116 | every ranked entry is an active, scheduled input task carrying its own next run |
| UpcomingTasks.UpcomingProperties | components/upcoming-tasks.tsx:97-117 | the list has min(5, number of scheduled tasks) entries, sorted by next run, and is a prefix of the full ranking |
| UpcomingTasks.UpcomingShape | components/upcoming-tasks.tsx:97-117 | the ranking has one entry per active scheduled task, and the list is its first min(5, n) entries |
| UpcomingTasks.UpcomingIsEarliest | components/upcoming-tasks.tsx:116-117 | a task left out runs no earlier than any task shown |
| UpcomingTasks.ManualTasksNeverUpcoming | components/upcoming-tasks.tsx:97 | a task with an empty schedule never appears |
| UpcomingTasks.TiesKeepListOrder | components/upcoming-tasks.tsx:116 | tasks due at the same instant keep their order from the task list |
| TaskTable.ParseInt | components/task-table.tsx:95 | JavaScript `parseInt`: leading white space, an optional sign, then hex after "0x" or decimal digits as far as they go, NaN when there are none; `ParseIntOfDigits` and `ParseIntOfNumeral` state its values on numerals |
| TaskTable.ParseIntOfDigits | components/task-table.tsx:95 | `parseInt` of a run of decimal digits is its value |
| TaskTable.ParseIntOfNumeral | components/task-table.tsx:95 | `parseInt` reads back the decimal rendering of every natural number |
| TaskTable.DayName | components/task-table.tsx:94-95 | the day table indexed by the parsed weekday, "undefined" off the table; `DayNameOfNumeral` states it on numerals |
| TaskTable.FormatSchedule | components/task-table.tsx:82-100 | the cron-to-text rendering; `ManualOnly`, `DailyAt`, `WeekdayBranch`, `WeeklyAt`, `OtherFiveFieldSchedulesUnchanged` and `NotFiveFieldsUnchanged` state every branch |
| TaskTable.FieldsSplit | components/task-table.tsx:86-88 | five space-free fields joined by spaces split back into exactly those fields |
| TaskTable.ManualOnly | components/task-table.tsx:83 | an empty schedule reads "Manual only" |
| TaskTable.DailyAt | components/task-table.tsx:90-92 | "0 H * * *" with H not "*" reads "Daily at H:00", H copied verbatim |
| TaskTable.WeekdayBranch | components/task-table.tsx:93-96 | "0 H * * W" with H and W not "*" renders the day lookup of W followed by " at H:00" |
| TaskTable.WeeklyAt | components/task-table.tsx:93-96 | "0 H * * W" with W a numeral 0 to 6 reads as W's day name followed by " at H:00" |
| TaskTable.OtherFiveFieldSchedulesUnchanged | components/task-table.tsx:88-99 | five fields with minute not "0", hour "*", or a restricted day or month are shown as written |
| TaskTable.NotFiveFieldsUnchanged | components/task-table.tsx:86-87 | a schedule that does not split into exactly five pieces is shown as written |
| TaskTable.SplitLosesNothing | components/task-table.tsx:86 | the pieces of the split are space-free and join back to the schedule |
| TaskTable.DayNameOfNumeral | components/task-table.tsx:94-95 | the day lookup gives a name for numerals 0 to 6 and "undefined" from 7 on |
| TaskTable.UndefinedWeekday | components/task-table.tsx:93-96 | a weekday field the lookup finds no day for renders "undefined at H:00" |
| TaskTable.WeekdayPastSixUndefined | components/task-table.tsx:93-96 | as written, weekday 7 or more renders "undefined at H:00" |
| TaskTable.WeekdaySevenBranchUndefined | components/task-table.tsx:88-96 | as written, a five-field "0 H * * W" schedule whose weekday `parseInt` reads as 7 renders "undefined at H:00" |
| TaskTable.CorrectedDayOf | components/task-table.tsx:94-95 | the corrected lookup names a day exactly for parsed values 0 to 7 (7 being Sunday again); it differs from the source's lookup only at 7, where the source gives "undefined" |
| TaskTable.FormatScheduleCorrected | components/task-table.tsx:82-100 | the corrected renderer differs from the source only on a five-field schedule whose weekday `parseInt` reads as 7, which the source renders "undefined at H:00" and the correction "Sun at H:00" |
| TaskTable.CorrectedWeekdayBranch | components/task-table.tsx:93-96 | "0 H * * W" with H and W not "*" renders the corrected lookup of W followed by " at H:00" |
| TaskTable.CorrectedParsedSeven | components/task-table.tsx:93-96 | any weekday `parseInt` reads as 7 ("7", "07", "7-9") renders "Sun at H:00" under the correction |
| TaskTable.CorrectedWeekdaySeven | components/task-table.tsx:93-96 | the corrected renderer shows weekday 7 as "Sun at H:00" |
| TaskTable.CorrectedAgreesOnNumerals | components/task-table.tsx:93-96 | the correction agrees with the source on every weekday numeral other than 7 |
| Display.ElapsedBucket | components/recent-tasks.tsx:38-44 | under a minute (or in the future) is "Just now"; then whole minutes under an hour, whole hours under a day, whole days after; each count brackets the elapsed time |
| Display.ElapsedMonotone | components/recent-tasks.tsx:41-44 | a longer elapsed time never falls in an earlier bucket |
| Display.SinceLabel | components/recent-tasks.tsx:34-45 | an absent timestamp gives the component's missing text, an unparseable one "NaN days ago", a future one "Just now" |
| Display.DurationUnitOf | components/recent-tasks.tsx:47-52 | absent or 0 is "N/A"; other values under 1000 are milliseconds, under 60000 seconds, anything else minutes; the value is kept |
| Display.DurationUnitMonotone | components/log-viewer.tsx:67-72 | for positive durations a longer one never gets a smaller unit |
| RecentTasks.Recent | components/recent-tasks.tsx:25 | the first min(3, n) executions, in the order received |
| RecentTasks.RecentPrefix | components/recent-tasks.tsx:25 | executions after the third never change what is shown |
| RecentTasks.StatusIcon | components/recent-tasks.tsx:74-80 | a check exactly for "success", a spinner exactly for "running", a cross for everything else (including "failed") |
| RecentTasks.FormatTimeAgo | components/recent-tasks.tsx:34-45 | the shared elapsed-time label with "Unknown" for an absent timestamp; `TimeAgoEdges` states its edges |
| RecentTasks.FormatDuration | components/recent-tasks.tsx:47-52 | the shared duration unit; `Display.DurationUnitOf` states its thresholds |
| RecentTasks.TimeAgoEdges | components/recent-tasks.tsx:34-45 | an absent timestamp reads "Unknown", a future one "Just now", one a minute or more ago never "Just now" |
| AgentTable.StatusBadge | components/agent-table.tsx:123 | the default badge exactly for "online", destructive otherwise |
| AgentTable.StatusIcon | components/agent-table.tsx:109-113 | the wifi icon exactly for "online", wifi-off otherwise |
| AgentTable.BadgeAgreesWithIcon | components/agent-table.tsx:109-123 | badge and icon always agree |
| AgentTable.OrUnknown | components/agent-table.tsx:127-134 | an absent or empty value shows "Unknown", any other value itself |
| AgentTable.FormatLastSeen | components/agent-table.tsx:71-82 | the shared elapsed-time label with "Never" for an absent timestamp; `LastSeenMatchesTimeAgo` relates it to the recent-tasks label |
| AgentTable.LastSeenMatchesTimeAgo | components/agent-table.tsx:71-82 | apart from the absent case ("Never" against "Unknown"), the last-seen label is the recent-tasks label; a future `last_seen` reads "Just now" |
| LogViewer.GetIcon | components/log-viewer.tsx:41-52 | the warning icon exactly for statuses other than success, failed and running |
| LogViewer.GetBadgeVariant | components/log-viewer.tsx:54-65 | the outline badge exactly for statuses other than success, failed and running |
| LogViewer.IconsAndBadgesDistinguishStatuses | components/log-viewer.tsx:41-65 | the three known statuses get three different icons and three different badges, and two statuses share an icon exactly when they share a badge |
| LogViewer.FormatDuration | components/log-viewer.tsx:67-72 | the shared duration unit; `Display.DurationUnitOf` states its thresholds |
| LogViewer.DurationCell | components/log-viewer.tsx:117-119 | the cell `duration && …` renders, as written; `ZeroDurationRendersZero` and `CorrectedDiffersOnlyAtZero` state where it goes wrong |
| LogViewer.ZeroDurationRendersZero | components/log-viewer.tsx:117-119 | as written, a duration of 0 renders the text "0" |
| LogViewer.DurationCellCorrected | components/log-viewer.tsx:117-119 | the corrected cell is never bare text, is empty exactly for an absent or zero duration, and otherwise shows the duration's unit |
| LogViewer.CorrectedDiffersOnlyAtZero | components/log-viewer.tsx:117-119 | the correction differs from the source exactly at a duration of 0 |
| Dashboard.ComputeStats | app/page.tsx:26-57 | a failed fetch counts as an empty list; the counters are the number of agents, of agents with status "online", of tasks with non-zero `active`, and of executions with status "failed" that started after now minus one day |
| Dashboard.OnlineCount | app/page.tsx:42 | the online filter's length is the number of positions holding an "online" agent |
| Dashboard.ActiveCount | app/page.tsx:43 | the active filter's length is the number of positions holding a task with non-zero `active` |
| Dashboard.FailedCount | app/page.tsx:46-50 | the failure filter's length is the number of positions holding a failed execution started after the cut-off |
| Dashboard.AllOnline | app/page.tsx:41-42 | when every agent is online both agent counters agree |
| Dashboard.FailedCountAdds | app/page.tsx:48-50 | counting recent failures over two batches is the sum of the counts |
| Dashboard.UptimeOf | app/page.tsx:104 | no share is computed, and 0 is shown, exactly when there are no agents |
| CreateTaskDialog.OnlineAgents | components/create-task-dialog.tsx:64 | the picker offers exactly the agents whose status is "online" |
| CreateTaskDialog.OnlineAgentsKeepOrder | components/create-task-dialog.tsx:64 | the picker keeps the listing's order |
| CreateTaskDialog.AllOnlineAllOffered | components/create-task-dialog.tsx:64 | when every agent is online the whole listing is offered |
| CreateTaskDialog.FindScript | components/create-task-dialog.tsx:84 | the first script with that id, or nothing exactly when none has it |
| CreateTaskDialog.SelectScript | components/create-task-dialog.tsx:83-92 | `handleScriptSelect`; `SelectScriptEffect` states what it changes |
| CreateTaskDialog.SelectScriptEffect | components/create-task-dialog.tsx:83-92 | a known script copies its name and content into the form and changes nothing else; an unknown id leaves the form unchanged |
| CreateTaskDialog.RequestFor | components/create-task-dialog.tsx:99-124 | blank parameters text is sent as an empty object; an empty schedule is sent as null, any other as itself |
| CreateTaskDialog.Dialog.constructor | components/create-task-dialog.tsx:44-57 | the dialog starts closed and idle with the initial form |
| CreateTaskDialog.Dialog.Submit | components/create-task-dialog.tsx:94-138 | unparseable parameters send nothing and leave the form as it was; otherwise the request is sent, and an ok reply closes the dialog and resets the form to exactly its initial values; `loading` is always cleared |
| BotCommands.Check | src/lib/main/botmain.js:7-17 | a command is rejected exactly when its name or its description is not a non-empty string, and for its name first |
| BotCommands.FirstInvalid | src/lib/main/botmain.js:6-18 | the rejection reported is that of the lowest-indexed rejected command, or none exactly when all pass |
| BotCommands.FirstInvalidConcat | src/lib/main/botmain.js:6-18 | scanning a concatenation reports the first part's rejection if it has one, else the second part's at its offset |
| BotMain.Trace | src/lib/main/botmain.js:1-39 | the actions of `main` in order; `InvalidSendsNothing`, `PutsInOrder` and `EndsInLoginOrExit` state its properties and `Run` is proved equal to it |
| BotMain.Run | src/lib/main/botmain.js:1-39 | the validation loop and the awaited calls produce exactly `Trace`: exit on the first invalid command, else clear, register, log in, exiting with 1 on a failed `put` |
| BotMain.InvalidSendsNothing | src/lib/main/botmain.js:6-21 | with an invalid command there is no `put` and no login, and the error names the first invalid index |
| BotMain.PutsInOrder | src/lib/main/botmain.js:21-34 | every `put` carries only valid commands, the empty one comes first, and the login happens exactly when validation and both calls succeed |
| BotMain.EndsInLoginOrExit | src/lib/main/botmain.js:34-38 | a run ends in the login exactly when nothing was logged as an error, and otherwise in `exit(1)` |
| CommandLoader.JsEntries | src/lib/commands/commandloader.js:4 | the directory entries ending in ".js", in order; `NonJsFilesIgnored` states that the others make no difference |
| CommandLoader.Modules | src/lib/commands/commandloader.js:5-6 | the required modules, one per entry and in entry order |
| CommandLoader.Load | src/lib/commands/commandloader.js:1-20 | only `.js` files are loaded; on success the result is their modules in directory order, each with a non-empty string name and description; otherwise it throws for the first rejected module, naming the name check before the description check |
| CommandLoader.LoadAll | src/lib/commands/commandloader.js:5-20 | the loop returns every module of the files in order, or stops at the first rejected one |
| CommandLoader.AllPresent | src/lib/commands/commandloader.js:8-18 | every command of a list that passes has a non-empty string name and description |
| CommandLoader.NonJsFilesIgnored | src/lib/commands/commandloader.js:4 | a file not ending in `.js` makes no difference wherever it appears in the directory |
| Seqs.FilterLength | app/page.tsx:42-50 | the length of a filter is the number of positions whose element satisfies the predicate |
| Strings.JoinSplit | components/task-table.tsx:86 | joining the pieces of a split gives back the string |
| Strings.SplitJoin | components/task-table.tsx:86 | splitting a join of separator-free pieces gives back the pieces |
| Sorting.SortStable | components/upcoming-tasks.tsx:116 | the sort keeps the input order among equal elements |
| Sorting.ListMapTop | lib/database.ts:156-157 | the first n rows of a map in order: sorted, min(n, size) rows drawn from the map, none of the others ordered before them |

## Left out

- TaskAgent is not a class: `execute_script` never writes its fields, and `running_tasks` is never read or written, so the agent's operations are functions and methods without state.
- Effects that become parameters:
  - subprocess, temporary files, `chmod` and deleting the file;
  - reading a local script;
  - the clock and `randomUUID`;
  - the HTTP handshake (`AgentClient.getInfo`);
  - `fetch`, `JSON.parse`, `require` and the Discord REST client.
- Logging, `alert`, `router.refresh` and React re-rendering are not modelled.
- Non-string JSON values in the `/execute` body are not modelled (the fields are text, and parameters a typed list). The handler's catch-all 500 branch is not modelled either.
- Unicode: `Strings.Upper` upper-cases ASCII only. Python's `str.upper` maps more characters.
- Floating point: the `toFixed(1)` text of the seconds and minutes durations is left out; the model stops at the unit. The uptime percentage's rounding is also left out.
- UpcomingTasks.UpcomingCards: every `parseNextRun` call is taken at one reading `now` and every `formatTimeUntil` call at one reading `later`. The source reads the clock afresh for each task, so tasks processed a millisecond apart are not told apart.
- Dates: the locale and time zone of `Date`, and the `formatNextRun` text, are not modelled. Days are UTC days of 86400000 ms, with no daylight-saving time. SQLite timestamp text is modelled as already parsed to milliseconds.
- The store starts empty. Whatever an existing database file holds is not modelled.
- SQL text is ordered by code point (`LexLe`). Ties in `ORDER BY` are unspecified, so the listings promise sorted and a permutation, not a particular order among ties.
- An explicit `"port": null` in the agent registration body is not modelled. An absent port defaults to 5000.
- TasksRoute.NewTask: an `active` value that is neither absent, `null` nor a boolean (a number or a string) is not modelled.
- Concurrency: each POST handler is modelled as running alone against the store. The source awaits between its check and its insert (the agents handler also awaits the agent handshake there). So a second POST with the same ip or script name can pass the 409 check during that gap, or the agent can be deleted after the tasks handler's 404 check. The insert then fails on the UNIQUE or foreign-key constraint, and the handler answers 500 "Failed to create …" instead of 409 or 404. The store's invariants still hold, because the create methods model those constraint failures. The model also assumes the re-read after the insert sees the row just written.
- A POST body that `request.json()` cannot parse makes the agents, tasks and scripts handlers answer 500 "Failed to create …" with the store unchanged; the model takes the body as already parsed.
- The GET routes' 500 paths are not modelled, except for executions, where it is a parameter.
- `app/api/tasks/[id]/execute/route.ts`, which dispatches an execution and records its result, is not part of this model. Without it, it cannot be shown that the dashboard's "failed" count ever sees the status the route writes.
- The pages that only fetch and render lists (agent status card, sidebar, script library), `main.go` and the other Discord bot files are not part of this model.
- Database.DatabasePool.ExecutionUpdateFinished: `lib/database.ts:182-191` has no guard against finishing an execution twice, so a second call overwrites the first (see `Database.FinishOverwrites`).
- UpcomingTasks.FallbackForOtherSchedules: `components/upcoming-tasks.tsx:52-55` reads no cron field, so every schedule other than the keyword and exact-string cases runs in an hour, "0 2 * * *" included.
- Dashboard.ComputeStats: `new Date(started_at) > yesterday` compares against exactly `now` minus 86400000 ms. A calendar day across a daylight-saving change is not modelled.

## Findings

| source | as written | input that shows it | evidently intended | confidence | as-written member | corrected member |
|---|---|---|---|---|---|---|
| components/task-table.tsx:94-95 | the weekday numeral indexes a seven-entry table, so cron's 7 (Sunday) finds no entry | "0 2 * * 7" renders "undefined at 2:00" | a weekday `parseInt` reads as 7 is Sunday, so "0 2 * * 7" reads "Sun at 2:00"; every other schedule renders as before | not executed | TaskTable.WeekdayPastSixUndefined | TaskTable.CorrectedWeekdaySeven |
| components/log-viewer.tsx:117-119 | `{execution.duration && …}` yields the number itself when the duration is 0, and React renders it | an execution with duration 0 shows a stray "0" in its header | nothing is shown for a zero duration | not executed | LogViewer.ZeroDurationRendersZero | LogViewer.DurationCellCorrected |
