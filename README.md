# Monitoring agent: task registration and activity capture

A Dafny model of the decision logic in `monitoring_system_open_source.py`, a
Windows monitoring agent with two entry modes:

- **Registration mode** (`program task <TaskName> <FullPathToExe> [StartTime]`)
  checks the arguments. It then registers a hidden scheduled task that runs the
  executable as `SYSTEM` at the highest run level, with one time trigger and one
  exec action. The exec action's working directory comes from the executable's
  path. Registration uses create-or-update mode (`6`).
- **Monitoring mode** (any other invocation) logs a login event. On each tick it
  reads the foreground window title and classifies it as browser-like or
  application-like. It logs one browser or application record per tick. When the
  operator interrupts, it logs a logout event.

Modules:

- `Wrappers` (`wrappers.dfy`): `Option`.
- `Activity` (`activity.dfy`, pure):
  - the case-sensitive substring test and the browser classifier;
  - the fallback title used when the window read fails;
  - the three record shapes;
  - the specification of a whole session log, with its lemmas.
- `ActivityLog` (`activity_log.dfy`, imperative):
  - the log collection, a class whose `entries: seq<Record>` only grows by
    `InsertOne`;
  - the `log_*` helpers, `capture_activity`, login/logout and the monitoring loop.
- `ScheduledTask` (`scheduled_task.dfy`, mixed):
  - the task-definition datatypes and the working-directory derivation;
  - the scheduler service, a class whose root folder is a `map<string, TaskDef>`;
  - `create_hidden_task`, which builds the definition by successive field updates.
- `Cli` (`cli.dfy`): the argument analysis of `scheduled_task_mode`, that mode
  itself, and `main`'s dispatch, named `Run`.

Abstractions:

- Time is integer seconds.
- `datetime.now()` and `os.getlogin()` become inputs: a `Stamp` for each
  login/logout event, a `Sample` for each tick, and `now` for registration.
- The window-system read is a `WindowRead`: either a title or a failure with its
  message.
- `datetime.fromisoformat` is an input function `parseIso: string -> Option<int>`.
- Whether the scheduler can be reached and whether it accepts a definition are
  fixed fields of `TaskService`. Both are decided by the OS.
- The unbounded `while True` loop runs once per element of `samples`, the ticks
  that ran before the interrupt. The logout comes after the last tick.

The model follows the code as written:

- An application sample logs the local path `"screenshot.png"`. The code never
  calls `upload_to_cloudinary` from `capture_activity`, so there is no upload
  step and no upload-error fallback in a record.
- A failed registration is logged and re-raised (lines 162-164). No cleanup of a
  partly registered task is attempted, and the model adds none.
- An interrupt during the loop is followed by one logout record (lines 259-260).

## Model

| member | source | states |
|---|---|---|
| `Activity.Contains` | monitoring_system_open_source.py:211 | Python's `p in s` on strings: true exactly when `p` occurs in `s` at some index; the empty pattern occurs everywhere |
| `Activity.AnyContained` | monitoring_system_open_source.py:211 | `any(m in title for m in markers)`: true exactly when some marker of the list occurs in the title |
| `Activity.IsBrowserLike` | monitoring_system_open_source.py:211 | the classifier; a browser-like title is at least as long as the shortest marker, `"Edge"`, so shorter titles are application-like (its full characterisation is `BrowserLikeIff`) |
| `Activity.BrowserLikeIff` | monitoring_system_open_source.py:211 | a title is browser-like iff it contains `"Chrome"`, `"Firefox"` or `"Edge"` as a case-sensitive substring |
| `Activity.NoMarkerInitialNotBrowserLike` | monitoring_system_open_source.py:211 | a title without any of the characters `C`, `F`, `E` is application-like |
| `Activity.EmptyTitleIsApplication` | monitoring_system_open_source.py:211 | the empty title is application-like |
| `Activity.NotepadIsApplication` | monitoring_system_open_source.py:211 | `"Notepad"` is application-like |
| `Activity.ChromeTitleIsBrowser` | monitoring_system_open_source.py:211 | `"Google Chrome — Example"` is browser-like |
| `Activity.ActiveWindowTitle` | monitoring_system_open_source.py:167-173 | a successful read yields the window text; a failed read yields a non-empty string containing the failure cause, never an exception |
| `Activity.DegradedTitleClassifiedByCause` | monitoring_system_open_source.py:173 | the degraded title `"Unable to get active window: " + cause` is browser-like exactly when the cause is |
| `Activity.LoginRecord` | monitoring_system_open_source.py:189-192 | the login document: a user event `"login"` with process `"login_process"`, the current user and time |
| `Activity.LogoutRecord` | monitoring_system_open_source.py:195-198 | the logout document: a user event `"logout"` with process `"logout_process"`, the current user and time; it differs from the login document of the same stamp |
| `Activity.ActivityRecord` | monitoring_system_open_source.py:207-221 | one tick yields one activity record with the tick's user and title; it is a browser record iff the title is browser-like; a browser record's URL is the title; an application record's screenshot is `"screenshot.png"`; `end_time == start_time + 10` |
| `Activity.ActivityRecords` | monitoring_system_open_source.py:256-258 | the ticks of the loop give one record each |
| `Activity.ActivityRecordsAt` | monitoring_system_open_source.py:256-258 | the j-th record of the loop is the record of the j-th tick |
| `Activity.ActivityRecordsHaveNoUserEvent` | monitoring_system_open_source.py:201-221 | the capture ticks log no login or logout event |
| `Activity.SessionLogShape` | monitoring_system_open_source.py:254-260 | a session log is one login event with process `"login_process"`, then one record per tick, each with `end_time == start_time + 10 >= start_time`, then one logout event with process `"logout_process"`, so it holds exactly two user events |
| `Activity.AllBrowserSession` | monitoring_system_open_source.py:211-216 | when every tick is classified as a browser tick, every record between login and logout is a browser record whose URL equals its window title |
| `ActivityLog.LogCollection.constructor` | monitoring_system_open_source.py:62 | no document of this run has been inserted yet; `entries` holds the documents this process inserts, not what the remote collection already held |
| `ActivityLog.LogCollection.InsertOne` | monitoring_system_open_source.py:76 | `insert_one` appends exactly the given document and keeps the earlier ones |
| `ActivityLog.LogUserEvent` | monitoring_system_open_source.py:66-77 | appends one user event with the given user, event, process name and timestamp |
| `ActivityLog.LogBrowserTabActivity` | monitoring_system_open_source.py:79-91 | appends one browser record with the given fields |
| `ActivityLog.LogAppActivity` | monitoring_system_open_source.py:93-105 | appends one application record with the given fields |
| `ActivityLog.CaptureScreenshot` | monitoring_system_open_source.py:175-179 | returns the fixed local path `"screenshot.png"` |
| `ActivityLog.SimulateUserLogin` | monitoring_system_open_source.py:189-193 | appends the login event `("login", "login_process")` for the current user and time |
| `ActivityLog.SimulateUserLogout` | monitoring_system_open_source.py:195-199 | appends the logout event `("logout", "logout_process")` for the current user and time |
| `ActivityLog.CaptureActivity` | monitoring_system_open_source.py:201-222 | appends exactly one record, the tick's `ActivityRecord`, with no upload step, and keeps earlier entries |
| `ActivityLog.CaptureTicks` | monitoring_system_open_source.py:256-258 | the `while True` loop: the ticks before the interrupt append exactly their records, in tick order, and keep the earlier entries |
| `ActivityLog.MonitoringMode` | monitoring_system_open_source.py:254-260 | after n ticks and an interrupt the log has gained exactly `[login] ++ n activity records ++ [logout]` |
| `ActivityLog.BrowserSessionScenario` | monitoring_system_open_source.py:254-260 | a fresh log after an all-browser session holds one login, then the ticks' records in tick order, all browser records with `active_url == active_window` and ten-second spans, then one logout |
| `ScheduledTask.TextBeforeLastBackslash` | monitoring_system_open_source.py:147 | `rsplit("\\", 1)[0]`: a proper prefix of the path, followed by a backslash, after which no backslash occurs |
| `ScheduledTask.WorkingDirectory` | monitoring_system_open_source.py:146-149 | with a backslash in the path, `wd + "\\" + rest == exe_path` and `rest` has no backslash; without one, `wd == ""` (a bare file name has no working directory) |
| `ScheduledTask.WorkingDirectoryOfJoin` | monitoring_system_open_source.py:146-147 | round trip: joining a directory and a bare file name with `\` and deriving the working directory gives the directory back |
| `ScheduledTask.AgentPathWorkingDirectory` | monitoring_system_open_source.py:146-147 | `C:\tools\agent.exe` has working directory `C:\tools` |
| `ScheduledTask.NewTask` | monitoring_system_open_source.py:129 | `scheduler.NewTask(0)` yields a definition with no triggers and no actions, so the single `Create` of lines 141 and 144 leaves exactly one of each |
| `ScheduledTask.StartTimeOrDefault` | monitoring_system_open_source.py:139-140 | a given start time is kept; an absent one becomes now + 60 seconds |
| `ScheduledTask.HiddenTaskDeterminedByInputs` | monitoring_system_open_source.py:129-149 | task name, path and start time fix every field of the registered definition |
| `ScheduledTask.TaskService.constructor` | monitoring_system_open_source.py:121 | the service starts with the given reachability, acceptance and root folder |
| `ScheduledTask.TaskService.Connect` | monitoring_system_open_source.py:121-125 | connecting succeeds exactly when the service is reachable |
| `ScheduledTask.TaskService.RegisterTaskDefinition` | monitoring_system_open_source.py:150-159 | registration in create-or-update mode (`6`): on acceptance the name is bound to the definition, replacing any earlier one; on rejection the folder is unchanged |
| `ScheduledTask.CreateHiddenTask` | monitoring_system_open_source.py:118-164 | connection failure and rejection are reported and leave the folder unchanged; otherwise only `task_name` changes, bound to a definition by `Corporate IT`, described `Hidden Task: <name>`, run as `SYSTEM` with logon type 5 and run level 1, hidden and enabled, not stopped on batteries, with exactly one enabled time trigger at the start time (default now + 60 s) and exactly one exec action on `exe_path` with the derived working directory |
| `ScheduledTask.ReRegistrationScenario` | monitoring_system_open_source.py:150-159 | registering a name twice leaves one entry for it, the second call's definition, and keeps the other tasks |
| `Cli.ParseTaskArgs` | monitoring_system_open_source.py:227-240 | fewer than 4 arguments is a usage error; 5 or more with an unparsable start time is a start-time error; otherwise name and path are `argv[2]`, `argv[3]` and the start time is the parsed `argv[4]`, or absent with exactly 4 arguments |
| `Cli.TaskArgsDefaults` | monitoring_system_open_source.py:232-240 | with exactly 4 arguments the task starts at now + 60 s; arguments after the fifth are ignored |
| `Cli.IsTaskMode` | monitoring_system_open_source.py:250 | registration mode is chosen exactly when there is a first argument and it is `task`; with no arguments the program monitors |
| `Cli.ScheduledTaskMode` | monitoring_system_open_source.py:225-246 | exit 1 with nothing registered on bad arguments, an unreachable scheduler or a rejected definition; otherwise exit 0 with the hidden task registered under `argv[2]` and nothing else changed |
| `Cli.Run` | monitoring_system_open_source.py:249-260 | with `argv[1] == "task"` only registration runs and nothing is logged; otherwise the scheduler is untouched, the log gains exactly the session log, and the exit code is 0 |
| `Cli.AgentRegistrationScenario` | monitoring_system_open_source.py:250-251 | `task Agent C:\tools\agent.exe` with no start time on an empty scheduler exits 0 and leaves exactly one task, `Agent`, a hidden task whose one action runs that path in `C:\tools` and whose one trigger fires at now + 60 s |

## Left out

- Installing missing packages with `pip` (lines 11-33): environment bootstrapping.
- Cloudinary and MongoDB configuration and clients (lines 53-62). The database is only the append-only `LogCollection`.
- `upload_to_cloudinary` (lines 181-186): nothing in the core calls it. Its `"Upload error: "` fallback is not modelled.
- The COM calls (`Dispatch`, `Connect`, `GetFolder`, `NewTask`) are reduced to `TaskService`.
  - The empty user and password and logon type 5 passed to `RegisterTaskDefinition` are not modelled.
  - `NewTask(0)` is taken to return a definition with no triggers and no actions. Lines 141 and 144 each add one with `Create`, so "exactly one trigger, exactly one action" rests on that. Its other field values are placeholders that lines 130-138 overwrite.
  - A rejected `RegisterTaskDefinition` is taken to register nothing: the COM call is treated as atomic. The "rejection leaves the folder unchanged" results of `CreateHiddenTask` and `ScheduledTaskMode` rest on that.
  - A failure of `GetFolder` or `NewTask` is folded into the service rejecting the definition.
- `win32gui` and `os.getlogin` are inputs.
- `pyautogui.screenshot()` and the file save are not modelled: the image is not represented, only the path.
- Exceptions thrown by `os.getlogin` (lines 190, 196, 207), by the screenshot or by `insert_one`. Inside the loop these end the session without a logout record. At the login (line 254, outside the `try`) they stop the program before the first tick. The model takes the user name as an input that is always present and assumes every call succeeds.
- TaskService.RegisterTaskDefinition: only create-or-update mode (`6`) is modelled, the only mode the source passes (line 155); other modes are not accepted.
- An interrupt that arrives in the middle of a tick: the model interrupts only between ticks, during the 60-second `time.sleep`.
- The sleep cadence: timing is not modelled.
- `setup_logging`, the diagnostic log file and all `print` output: diagnostics only.
- `isoformat` rendering and calendar arithmetic: timestamps are integer seconds.
- The import-failure message for `win32gui` (lines 46-49): environment bootstrapping.
