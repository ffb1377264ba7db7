/**
 * Registration of the hidden scheduled task: the task-definition record, the
 * working directory derived from the executable path, and the OS scheduler
 * service reduced to its root folder, a map from task name to definition.
 */
module ScheduledTask {
  import opened Wrappers

  const TaskTriggerTime: int := 1
  const TaskActionExec: int := 0
  const TaskLogonServiceAccount: int := 5
  const TaskRunLevelHighest: int := 1
  /** The registration mode the source passes: create the task or overwrite it. */
  const TaskCreateOrUpdate: int := 6
  /** Default delay before the first run when no start time is given, in seconds. */
  const DefaultStartDelay: int := 60

  // ---------------------------------------------------------------------------
  // Working directory
  // ---------------------------------------------------------------------------

  /** `s.rsplit("\\", 1)[0]`: the text before the last backslash of `s`. */
  function TextBeforeLastBackslash(s: string): (head: string)
    requires '\\' in s
    ensures |head| < |s| && s[..|head|] == head && s[|head|] == '\\'
    ensures '\\' !in s[|head| + 1..]
    decreases |s|
  {
    var last := |s| - 1;
    if s[last] == '\\' then s[..last]
    else
      assert '\\' in s[..last] by {
        var i :| 0 <= i < |s| && s[i] == '\\';
        assert s[..last][i] == '\\';
      }
      var head := TextBeforeLastBackslash(s[..last]);
      assert s[|head| + 1..] == s[..last][|head| + 1..] + [s[last]];
      head
  }

  /**
   * The working directory of the exec action: the executable's directory when
   * its path holds a backslash, and the empty string otherwise.
   */
  function WorkingDirectory(exePath: string): (wd: string)
    ensures '\\' !in exePath ==> wd == ""
    ensures '\\' in exePath ==>
      |wd| < |exePath| && exePath == wd + "\\" + exePath[|wd| + 1..] && '\\' !in exePath[|wd| + 1..]
  {
    if '\\' in exePath then
      var wd := TextBeforeLastBackslash(exePath);
      assert exePath == exePath[..|wd|] + [exePath[|wd|]] + exePath[|wd| + 1..];
      wd
    else ""
  }

  /** Joining a directory and a bare file name with a backslash and deriving the working directory gives the directory back. */
  lemma {:induction false} WorkingDirectoryOfJoin(dir: string, file: string)
    requires '\\' !in file
    ensures WorkingDirectory(dir + "\\" + file) == dir
  {
    var p := dir + "\\" + file;
    assert p[|dir|] == '\\';
    var wd := WorkingDirectory(p);
    assert wd == p[..|wd|];
  }

  lemma AgentPathWorkingDirectory()
    ensures WorkingDirectory("C:\\tools\\agent.exe") == "C:\\tools"
  {
    WorkingDirectoryOfJoin("C:\\tools", "agent.exe");
    assert "C:\\tools" + "\\" + "agent.exe" == "C:\\tools\\agent.exe";
  }

  // ---------------------------------------------------------------------------
  // Task definitions
  // ---------------------------------------------------------------------------

  datatype Trigger = Trigger(kind: int, startBoundary: int, enabled: bool)

  datatype ExecAction = ExecAction(kind: int, path: string, workingDirectory: string)

  /** The fields of a scheduler task definition that the source sets. */
  datatype TaskDef = TaskDef(
    author: string,
    description: string,
    userId: string,
    logonType: int,
    runLevel: int,
    hidden: bool,
    enabled: bool,
    stopIfGoingOnBatteries: bool,
    disallowStartIfOnBatteries: bool,
    triggers: seq<Trigger>,
    actions: seq<ExecAction>)

  /**
   * `scheduler.NewTask(0)`: a fresh definition holds no triggers and no
   * actions; its other fields are placeholders that the caller overwrites.
   */
  function NewTask(): (d: TaskDef)
    ensures d.triggers == [] && d.actions == []
  {
    TaskDef("", "", "", 0, 0, false, true, true, true, [], [])
  }

  /** `start_time`, or now plus one minute when it is absent. */
  function StartTimeOrDefault(startTime: Option<int>, now: int): (start: int)
    ensures startTime.Some? ==> start == startTime.value
    ensures startTime.None? ==> start == now + 60
  {
    match startTime
    case Some(t) => t
    case None => now + DefaultStartDelay
  }

  /**
   * What the registered definition of a hidden task for `exePath` looks like:
   * fixed metadata and principal, hidden and enabled, battery suspension off,
   * exactly one enabled time trigger at `start` and exactly one exec action.
   */
  predicate IsHiddenTask(def: TaskDef, taskName: string, exePath: string, start: int)
  {
    def.author == "Corporate IT" &&
    def.description == "Hidden Task: " + taskName &&
    def.userId == "SYSTEM" &&
    def.logonType == TaskLogonServiceAccount &&
    def.runLevel == TaskRunLevelHighest &&
    def.hidden && def.enabled &&
    !def.stopIfGoingOnBatteries && !def.disallowStartIfOnBatteries &&
    |def.triggers| == 1 &&
    def.triggers[0].kind == TaskTriggerTime && def.triggers[0].startBoundary == start && def.triggers[0].enabled &&
    |def.actions| == 1 &&
    def.actions[0].kind == TaskActionExec && def.actions[0].path == exePath &&
    def.actions[0].workingDirectory == WorkingDirectory(exePath)
  }

  /** The description of a hidden task fixes every field of its definition. */
  lemma HiddenTaskDeterminedByInputs(d1: TaskDef, d2: TaskDef, taskName: string, exePath: string, start: int)
    requires IsHiddenTask(d1, taskName, exePath, start) && IsHiddenTask(d2, taskName, exePath, start)
    ensures d1 == d2
  {
    assert d1.triggers == [d1.triggers[0]] && d2.triggers == [d2.triggers[0]];
    assert d1.actions == [d1.actions[0]] && d2.actions == [d2.actions[0]];
  }

  // ---------------------------------------------------------------------------
  // The scheduler service
  // ---------------------------------------------------------------------------

  /** Result of `create_hidden_task`: the registered task's name, or the exception raised. */
  datatype Outcome = Registered(name: string) | ConnectFailed | RegistrationFailed

  /**
   * The OS task scheduler. Whether it can be reached and whether it accepts a
   * definition are decided outside the program, so they are fixed inputs here;
   * the root folder is the state registration changes.
   */
  class TaskService {
    const reachable: bool
    const accepting: bool
    var rootFolder: map<string, TaskDef>

    constructor (reachable: bool, accepting: bool, rootFolder: map<string, TaskDef>)
      ensures this.reachable == reachable && this.accepting == accepting && this.rootFolder == rootFolder
    {
      this.reachable := reachable;
      this.accepting := accepting;
      this.rootFolder := rootFolder;
    }

    /** `Connect()`: succeeds exactly when the service is reachable. */
    method Connect() returns (ok: bool)
      ensures ok == reachable
    {
      ok := reachable;
    }

    /**
     * `RegisterTaskDefinition(name, def, mode, ...)` in create-or-update mode: when the
     * service accepts the definition, `name` is bound to `def`, replacing any
     * earlier task of that name; otherwise nothing is registered.
     */
    method RegisterTaskDefinition(name: string, def: TaskDef, mode: int) returns (ok: bool)
      requires mode == TaskCreateOrUpdate
      modifies this
      ensures ok == accepting
      ensures rootFolder == if ok then old(rootFolder)[name := def] else old(rootFolder)
    {
      ok := accepting;
      if ok {
        rootFolder := rootFolder[name := def];
      }
    }
  }

  /**
   * `create_hidden_task`: build the definition field by field and register it
   * in create-or-update mode. A connection failure or a rejected definition is
   * reported and leaves the root folder as it was.
   */
  method CreateHiddenTask(service: TaskService, taskName: string, exePath: string, startTime: Option<int>, now: int)
    returns (outcome: Outcome)
    modifies service
    ensures !service.reachable ==> outcome == ConnectFailed
    ensures service.reachable && !service.accepting ==> outcome == RegistrationFailed
    ensures service.reachable && service.accepting ==> outcome == Registered(taskName)
    ensures outcome.Registered? ==>
      taskName in service.rootFolder &&
      service.rootFolder == old(service.rootFolder)[taskName := service.rootFolder[taskName]] &&
      IsHiddenTask(service.rootFolder[taskName], taskName, exePath, StartTimeOrDefault(startTime, now))
    ensures !outcome.Registered? ==> service.rootFolder == old(service.rootFolder)
  {
    var connected := service.Connect();
    if !connected {
      return ConnectFailed;
    }
    var taskDef := NewTask();
    taskDef := taskDef.(author := "Corporate IT");
    taskDef := taskDef.(description := "Hidden Task: " + taskName);
    taskDef := taskDef.(userId := "SYSTEM");
    taskDef := taskDef.(logonType := TaskLogonServiceAccount);
    taskDef := taskDef.(runLevel := TaskRunLevelHighest);
    taskDef := taskDef.(hidden := true);
    taskDef := taskDef.(enabled := true);
    taskDef := taskDef.(stopIfGoingOnBatteries := false);
    taskDef := taskDef.(disallowStartIfOnBatteries := false);
    var start := StartTimeOrDefault(startTime, now);
    var trigger := Trigger(TaskTriggerTime, 0, true);
    trigger := trigger.(startBoundary := start);
    trigger := trigger.(enabled := true);
    taskDef := taskDef.(triggers := taskDef.triggers + [trigger]);
    var action := ExecAction(TaskActionExec, "", "");
    action := action.(path := exePath);
    if '\\' in exePath {
      action := action.(workingDirectory := TextBeforeLastBackslash(exePath));
    } else {
      action := action.(workingDirectory := "");
    }
    taskDef := taskDef.(actions := taskDef.actions + [action]);
    var ok := service.RegisterTaskDefinition(taskName, taskDef, TaskCreateOrUpdate);
    if !ok {
      return RegistrationFailed;
    }
    outcome := Registered(taskName);
  }

  /**
   * Registering the same name twice on a working scheduler leaves one entry
   * for it, the definition of the second call; other tasks are kept.
   */
  method ReRegistrationScenario(before: map<string, TaskDef>, taskName: string,
                                exePath1: string, start1: Option<int>, exePath2: string, start2: Option<int>, now: int)
    returns (after: map<string, TaskDef>)
    ensures after.Keys == before.Keys + {taskName}
    ensures forall n :: n in before && n != taskName ==> after[n] == before[n]
    ensures IsHiddenTask(after[taskName], taskName, exePath2, StartTimeOrDefault(start2, now))
  {
    var service := new TaskService(true, true, before);
    var o1 := CreateHiddenTask(service, taskName, exePath1, start1, now);
    var o2 := CreateHiddenTask(service, taskName, exePath2, start2, now);
    after := service.rootFolder;
  }
}
