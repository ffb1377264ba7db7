/**
 * The capture loop and the log collection it appends to. The remote store is
 * an append-only sequence of records; every `log_*` helper inserts exactly one
 * document into it.
 */
module ActivityLog {
  import opened Activity

  /** The remote `user_logs` collection, reduced to the documents inserted so far. */
  class LogCollection {
    var entries: seq<Record>

    constructor ()
      ensures entries == []
    {
      entries := [];
    }

    /** `insert_one`: appends one document. */
    method InsertOne(doc: Record)
      modifies this
      ensures entries == old(entries) + [doc]
    {
      entries := entries + [doc];
    }
  }

  /** `log_user_event`: one login/logout document. */
  method LogUserEvent(log: LogCollection, username: string, event: string, processName: string, timestamp: int)
    modifies log
    ensures log.entries == old(log.entries) + [UserEvent(username, event, processName, timestamp)]
  {
    log.InsertOne(UserEvent(username, event, processName, timestamp));
  }

  /** `log_browser_tab_activity`: one browser document. */
  method LogBrowserTabActivity(log: LogCollection, username: string, activeWindow: string, activeUrl: string,
                               startTime: int, endTime: int)
    modifies log
    ensures log.entries == old(log.entries) + [BrowserTab(username, activeWindow, activeUrl, startTime, endTime)]
  {
    log.InsertOne(BrowserTab(username, activeWindow, activeUrl, startTime, endTime));
  }

  /** `log_app_activity`: one application document. */
  method LogAppActivity(log: LogCollection, username: string, activeWindow: string, screenshot: string,
                        startTime: int, endTime: int)
    modifies log
    ensures log.entries == old(log.entries) + [AppActivity(username, activeWindow, screenshot, startTime, endTime)]
  {
    log.InsertOne(AppActivity(username, activeWindow, screenshot, startTime, endTime));
  }

  /**
   * `capture_screenshot`: the image itself is not modelled; what the caller
   * sees is the fixed local path it was saved under.
   */
  method CaptureScreenshot() returns (filePath: string)
    ensures filePath == "screenshot.png"
  {
    filePath := ScreenshotPath;
  }

  /** `simulate_user_login`. */
  method SimulateUserLogin(log: LogCollection, now: Stamp)
    modifies log
    ensures log.entries == old(log.entries) + [LoginRecord(now)]
  {
    LogUserEvent(log, now.username, "login", "login_process", now.time);
  }

  /** `simulate_user_logout`. */
  method SimulateUserLogout(log: LogCollection, now: Stamp)
    modifies log
    ensures log.entries == old(log.entries) + [LogoutRecord(now)]
  {
    LogUserEvent(log, now.username, "logout", "logout_process", now.time);
  }

  /**
   * `capture_activity`: classify the foreground title and append exactly one
   * record for it; earlier entries are untouched. No upload step is performed:
   * an application record carries the local screenshot path.
   */
  method CaptureActivity(log: LogCollection, sample: Sample)
    modifies log
    ensures log.entries == old(log.entries) + [ActivityRecord(sample)]
  {
    var username := sample.username;
    var activeWindow := ActiveWindowTitle(sample.window);
    var startTime := sample.time;
    if IsBrowserLike(activeWindow) {
      var activeUrl := activeWindow;
      var endTime := startTime + CaptureSpan;
      LogBrowserTabActivity(log, username, activeWindow, activeUrl, startTime, endTime);
    } else {
      var screenshotPath := CaptureScreenshot();
      var endTime := startTime + CaptureSpan;
      LogAppActivity(log, username, activeWindow, screenshotPath, startTime, endTime);
    }
  }

  /**
   * The `while True` loop of `main`: one capture per tick, in order. `samples`
   * holds the inputs of the ticks that ran before the interrupt.
   */
  method CaptureTicks(log: LogCollection, samples: seq<Sample>)
    modifies log
    ensures log.entries == old(log.entries) + ActivityRecords(samples)
  {
    var i := 0;
    while i < |samples|
      invariant 0 <= i <= |samples|
      invariant log.entries == old(log.entries) + ActivityRecords(samples[..i])
    {
      CaptureActivity(log, samples[i]);
      ActivityRecordsStep(samples, i);
      i := i + 1;
    }
    assert samples[..i] == samples;
  }

  /**
   * The monitoring mode of `main`: a login event, then one capture per tick,
   * then a logout event once the operator interrupts.
   */
  method MonitoringMode(log: LogCollection, login: Stamp, samples: seq<Sample>, logout: Stamp)
    modifies log
    ensures log.entries == old(log.entries) + SessionLog(login, samples, logout)
  {
    SimulateUserLogin(log, login);
    CaptureTicks(log, samples);
    SimulateUserLogout(log, logout);
    assert log.entries == old(log.entries) + ([LoginRecord(login)] + ActivityRecords(samples) + [LogoutRecord(logout)]);
  }

  /**
   * A session of ticks that all see browser titles leaves exactly one login,
   * the browser records in tick order, and one logout.
   */
  method BrowserSessionScenario(login: Stamp, samples: seq<Sample>, logout: Stamp) returns (entries: seq<Record>)
    requires forall j :: 0 <= j < |samples| ==> ActivityRecord(samples[j]).BrowserTab?
    ensures |entries| == |samples| + 2 && entries[0] == LoginRecord(login) && entries[|entries| - 1] == LogoutRecord(logout)
    ensures UserEventCount(entries) == 2
    ensures forall j :: 1 <= j <= |samples| ==>
      entries[j] == ActivityRecord(samples[j - 1]) &&
      entries[j].BrowserTab? && entries[j].activeUrl == entries[j].activeWindow &&
      entries[j].endTime == entries[j].startTime + CaptureSpan
  {
    var log := new LogCollection();
    MonitoringMode(log, login, samples, logout);
    entries := log.entries;
    assert entries == SessionLog(login, samples, logout);
    SessionLogShape(login, samples, logout);
    AllBrowserSession(login, samples, logout);
    forall j | 1 <= j <= |samples|
      ensures entries[j] == ActivityRecord(samples[j - 1])
      ensures entries[j].endTime == entries[j].startTime + CaptureSpan
    {
      assert entries[(j - 1) + 1] == ActivityRecord(samples[j - 1]);
    }
  }
}
