/**
 * The two entry modes of the program: registration mode
 * (`program task <TaskName> <FullPathToExe> [StartTime]`) and monitoring mode
 * (anything else). Parsing an ISO-8601 start time is an input function
 * `parseIso` that yields seconds, or nothing when the text does not parse.
 */
module Cli {
  import opened Wrappers
  import opened Activity
  import opened ActivityLog
  import opened ScheduledTask

  /** What the registration mode extracts from the argument vector. */
  datatype TaskArgs = TaskArgs(taskName: string, exePath: string, startTime: Option<int>)

  /** The argument analysis of `scheduled_task_mode`: the arguments, or why the process exits with 1. */
  datatype ParsedArgs = Args(args: TaskArgs) | UsageError | InvalidStartTime

  /**
   * `argv[1] == "task"` selects registration mode; with no arguments, or a
   * first argument other than `task`, the program monitors.
   */
  predicate IsTaskMode(argv: seq<string>): (r: bool)
    ensures |argv| <= 1 ==> !r
    ensures |argv| > 1 ==> (r <==> argv[1] == "task")
  {
    |argv| > 1 && argv[1] == "task"
  }

  /**
   * The argument checks of `scheduled_task_mode`: at least four arguments,
   * task name and path at positions 2 and 3, an optional start time at 4.
   */
  function ParseTaskArgs(argv: seq<string>, parseIso: string -> Option<int>): (r: ParsedArgs)
    ensures r == UsageError <==> |argv| < 4
    ensures r == InvalidStartTime <==> |argv| >= 5 && parseIso(argv[4]).None?
    ensures r.Args? ==> r.args.taskName == argv[2] && r.args.exePath == argv[3]
    ensures r.Args? && |argv| == 4 ==> r.args.startTime.None?
    ensures r.Args? && |argv| >= 5 ==> r.args.startTime == parseIso(argv[4])
  {
    if |argv| < 4 then UsageError
    else if |argv| >= 5 then
      match parseIso(argv[4])
      case None => InvalidStartTime
      case Some(t) => Args(TaskArgs(argv[2], argv[3], Some(t)))
    else Args(TaskArgs(argv[2], argv[3], None))
  }

  /**
   * With exactly four arguments the task starts one minute after `now`, and
   * arguments past the fifth are ignored.
   */
  lemma TaskArgsDefaults(argv: seq<string>, extra: seq<string>, parseIso: string -> Option<int>, now: int)
    requires |argv| >= 4
    ensures |argv| == 4 ==> StartTimeOrDefault(ParseTaskArgs(argv, parseIso).args.startTime, now) == now + 60
    ensures |argv| >= 5 ==> ParseTaskArgs(argv + extra, parseIso) == ParseTaskArgs(argv, parseIso)
  {
    if |argv| >= 5 {
      assert (argv + extra)[2] == argv[2] && (argv + extra)[3] == argv[3] && (argv + extra)[4] == argv[4];
    }
  }

  /**
   * The effect of registration mode on the scheduler's root folder, and its
   * exit code: 1 for bad arguments or any scheduler failure, in which case
   * nothing is registered; 0 once the hidden task has been registered.
   */
  ghost predicate TaskModeEffect(argv: seq<string>, parseIso: string -> Option<int>, now: int,
                                 reachable: bool, accepting: bool,
                                 before: map<string, TaskDef>, after: map<string, TaskDef>, exitCode: int)
  {
    var parsed := ParseTaskArgs(argv, parseIso);
    if parsed.Args? && reachable && accepting then
      var a := parsed.args;
      exitCode == 0 &&
      a.taskName in after && after == before[a.taskName := after[a.taskName]] &&
      IsHiddenTask(after[a.taskName], a.taskName, a.exePath, StartTimeOrDefault(a.startTime, now))
    else
      exitCode == 1 && after == before
  }

  /** `scheduled_task_mode`: check the arguments, then register the hidden task. */
  method ScheduledTaskMode(service: TaskService, argv: seq<string>, parseIso: string -> Option<int>, now: int)
    returns (exitCode: int)
    modifies service
    ensures TaskModeEffect(argv, parseIso, now, service.reachable, service.accepting,
                           old(service.rootFolder), service.rootFolder, exitCode)
  {
    if |argv| < 4 {
      return 1;
    }
    var taskName := argv[2];
    var exePath := argv[3];
    var startTime: Option<int>;
    if |argv| >= 5 {
      var parsed := parseIso(argv[4]);
      if parsed.None? {
        return 1;
      }
      startTime := parsed;
    } else {
      startTime := None;
    }
    var outcome := CreateHiddenTask(service, taskName, exePath, startTime, now);
    exitCode := if outcome.Registered? then 0 else 1;
  }

  /**
   * `main`: registration mode does only the registration and logs nothing;
   * otherwise the monitoring session runs and the scheduler is untouched.
   * The monitoring inputs are those of the login, of each tick before the
   * interrupt, and of the logout.
   */
  method Run(argv: seq<string>, parseIso: string -> Option<int>, now: int, service: TaskService,
             log: LogCollection, login: Stamp, samples: seq<Sample>, logout: Stamp)
    returns (exitCode: int)
    modifies service, log
    ensures IsTaskMode(argv) ==>
      log.entries == old(log.entries) &&
      TaskModeEffect(argv, parseIso, now, service.reachable, service.accepting,
                     old(service.rootFolder), service.rootFolder, exitCode)
    ensures !IsTaskMode(argv) ==>
      exitCode == 0 &&
      service.rootFolder == old(service.rootFolder) &&
      log.entries == old(log.entries) + SessionLog(login, samples, logout)
  {
    if IsTaskMode(argv) {
      exitCode := ScheduledTaskMode(service, argv, parseIso, now);
      return;
    }
    MonitoringMode(log, login, samples, logout);
    exitCode := 0;
  }

  /**
   * Registration mode with `task "Agent" "C:\tools\agent.exe"` and no start
   * time on an empty scheduler exits 0 and leaves exactly one task, "Agent": a
   * hidden task on that path, in `C:\tools`, that first runs a minute after `now`.
   */
  method AgentRegistrationScenario(parseIso: string -> Option<int>, now: int)
    returns (exitCode: int, after: map<string, TaskDef>)
    ensures exitCode == 0
    ensures after.Keys == {"Agent"}
    ensures IsHiddenTask(after["Agent"], "Agent", "C:\\tools\\agent.exe", now + 60)
    ensures after["Agent"].actions[0].workingDirectory == "C:\\tools"
  {
    var service := new TaskService(true, true, map[]);
    var log := new LogCollection();
    var argv := ["monitor.py", "task", "Agent", "C:\\tools\\agent.exe"];
    exitCode := Run(argv, parseIso, now, service, log, Stamp("", 0), [], Stamp("", 0));
    after := service.rootFolder;
    AgentPathWorkingDirectory();
  }
}
