/**
 * The pure decision logic of the capture pipeline: the substring test used to
 * classify a foreground-window title as browser-like, the fallback title used
 * when the window system cannot be read, and the shape of the records written
 * to the activity log.
 */
module Activity {

  /** Fixed allow-list of browser markers, matched case-sensitively. */
  const BrowserMarkers: seq<string> := ["Chrome", "Firefox", "Edge"]

  /** Prefix of the degraded title produced when the foreground window cannot be read. */
  const WindowFailurePrefix: string := "Unable to get active window: "

  /** Fixed local file name every screenshot is saved under. */
  const ScreenshotPath: string := "screenshot.png"

  /** Simulated length of one activity sample, in seconds. */
  const CaptureSpan: int := 10

  // ---------------------------------------------------------------------------
  // Substring test (Python's `p in s` on two strings)
  // ---------------------------------------------------------------------------

  /** `p` occurs in `s` starting at index `k`. */
  predicate OccursAt(s: string, p: string, k: int)
  {
    0 <= k && k + |p| <= |s| && s[k..k + |p|] == p
  }

  /** Python's substring test `p in s`; the empty pattern occurs in every string. */
  function Contains(s: string, p: string): (r: bool)
    ensures r <==> exists k :: OccursAt(s, p, k)
    decreases |s|
  {
    if |p| > |s| then false
    else if s[..|p|] == p then assert OccursAt(s, p, 0); true
    else
      var r := Contains(s[1..], p);
      assert forall k :: OccursAt(s[1..], p, k) ==> OccursAt(s, p, k + 1);
      assert forall k :: OccursAt(s, p, k) && k > 0 ==> OccursAt(s[1..], p, k - 1);
      r
  }

  /** `any(m in title for m in markers)`. */
  function AnyContained(title: string, markers: seq<string>): (r: bool)
    ensures r <==> exists i :: 0 <= i < |markers| && Contains(title, markers[i])
  {
    if markers == [] then false
    else
      var r := Contains(title, markers[0]) || AnyContained(title, markers[1..]);
      assert forall i :: 0 < i < |markers| ==> markers[i] == markers[1..][i - 1];
      r
  }

  /**
   * The classifier of the capture step: a title is browser-like exactly when
   * one of the markers occurs in it as a case-sensitive substring.
   */
  predicate IsBrowserLike(title: string): (r: bool)
    ensures r ==> |title| >= |"Edge"|
  {
    AnyContained(title, BrowserMarkers)
  }

  lemma BrowserLikeIff(title: string)
    ensures IsBrowserLike(title) <==>
      (Contains(title, "Chrome") || Contains(title, "Firefox") || Contains(title, "Edge"))
  {
    assert BrowserMarkers[0] == "Chrome" && BrowserMarkers[1] == "Firefox" && BrowserMarkers[2] == "Edge";
  }

  /** A pattern cannot occur in a string that lacks the pattern's first character. */
  lemma AbsentInitialNotContained(s: string, p: string)
    requires |p| > 0 && forall j :: 0 <= j < |s| ==> s[j] != p[0]
    ensures !Contains(s, p)
  {
  }

  /** A string with no marker's first character cannot contain any marker. */
  lemma NoMarkerInitialNotBrowserLike(title: string)
    requires forall j :: 0 <= j < |title| ==> title[j] != 'C' && title[j] != 'F' && title[j] != 'E'
    ensures !IsBrowserLike(title)
  {
    AbsentInitialNotContained(title, "Chrome");
    AbsentInitialNotContained(title, "Firefox");
    AbsentInitialNotContained(title, "Edge");
    BrowserLikeIff(title);
  }

  lemma EmptyTitleIsApplication()
    ensures !IsBrowserLike("")
  {
    NoMarkerInitialNotBrowserLike("");
  }

  lemma NotepadIsApplication()
    ensures !IsBrowserLike("Notepad")
  {
    NoMarkerInitialNotBrowserLike("Notepad");
  }

  lemma ChromeTitleIsBrowser()
    ensures IsBrowserLike("Google Chrome — Example")
  {
    assert OccursAt("Google Chrome — Example", "Chrome", 7);
    BrowserLikeIff("Google Chrome — Example");
  }

  // ---------------------------------------------------------------------------
  // Reading the foreground window
  // ---------------------------------------------------------------------------

  /** What the window system returns: a title, or an exception with its message. */
  datatype WindowRead = Title(text: string) | ReadFailed(cause: string)

  /**
   * `get_active_window_title`: the title when the read succeeds, otherwise a
   * descriptive string that carries the cause instead of raising.
   */
  function ActiveWindowTitle(w: WindowRead): (title: string)
    ensures w.Title? ==> title == w.text
    ensures w.ReadFailed? ==> |title| > 0 && Contains(title, w.cause)
  {
    match w
    case Title(t) => t
    case ReadFailed(cause) =>
      var title := WindowFailurePrefix + cause;
      assert OccursAt(title, cause, |WindowFailurePrefix|);
      title
  }

  /** An occurrence in `prefix + s` lies inside `s` when the prefix lacks the pattern's first character. */
  lemma PrefixAddsNoOccurrence(prefix: string, s: string, p: string)
    requires |p| > 0 && forall j :: 0 <= j < |prefix| ==> prefix[j] != p[0]
    requires Contains(prefix + s, p)
    ensures Contains(s, p)
  {
    var t := prefix + s;
    var k :| OccursAt(t, p, k);
    assert t[k] == t[k..k + |p|][0] == p[0];
    assert t[k..k + |p|] == s[k - |prefix|..k - |prefix| + |p|];
    assert OccursAt(s, p, k - |prefix|);
  }

  /** An occurrence in `s` is still one after anything is prepended. */
  lemma PrefixKeepsOccurrence(prefix: string, s: string, p: string)
    requires Contains(s, p)
    ensures Contains(prefix + s, p)
  {
    var t := prefix + s;
    var k :| OccursAt(s, p, k);
    assert t[k + |prefix|..k + |prefix| + |p|] == s[k..k + |p|];
    assert OccursAt(t, p, k + |prefix|);
  }

  /** Prepending text that lacks a pattern's first character neither creates nor removes an occurrence. */
  lemma PrefixKeepsContains(prefix: string, s: string, p: string)
    requires |p| > 0 && forall j :: 0 <= j < |prefix| ==> prefix[j] != p[0]
    ensures Contains(prefix + s, p) <==> Contains(s, p)
  {
    if Contains(prefix + s, p) {
      PrefixAddsNoOccurrence(prefix, s, p);
    }
    if Contains(s, p) {
      PrefixKeepsOccurrence(prefix, s, p);
    }
  }

  /**
   * Prepending text that holds no first character of any marker neither makes
   * nor unmakes a browser-like title.
   */
  lemma PrefixKeepsClassification(prefix: string, s: string)
    requires forall j :: 0 <= j < |prefix| ==> prefix[j] != 'C' && prefix[j] != 'F' && prefix[j] != 'E'
    ensures IsBrowserLike(prefix + s) <==> IsBrowserLike(s)
  {
    PrefixKeepsContains(prefix, s, "Chrome");
    PrefixKeepsContains(prefix, s, "Firefox");
    PrefixKeepsContains(prefix, s, "Edge");
    BrowserLikeIff(prefix + s);
    BrowserLikeIff(s);
  }

  /** A degraded title is classified by its cause alone. */
  lemma DegradedTitleClassifiedByCause(cause: string)
    ensures IsBrowserLike(ActiveWindowTitle(ReadFailed(cause))) <==> IsBrowserLike(cause)
  {
    PrefixKeepsClassification(WindowFailurePrefix, cause);
  }

  // ---------------------------------------------------------------------------
  // Log records
  // ---------------------------------------------------------------------------

  /** The three document shapes inserted into the activity log; times in seconds. */
  datatype Record =
    | UserEvent(username: string, event: string, processName: string, timestamp: int)
    | BrowserTab(username: string, activeWindow: string, activeUrl: string, startTime: int, endTime: int)
    | AppActivity(username: string, activeWindow: string, screenshot: string, startTime: int, endTime: int)

  /** One sampling tick's inputs: who is logged in, what the window read gave, and the clock. */
  datatype Sample = Sample(username: string, window: WindowRead, time: int)

  /** One session-boundary event's inputs: who is logged in and the clock. */
  datatype Stamp = Stamp(username: string, time: int)

  /** The document `simulate_user_login` inserts. */
  function LoginRecord(s: Stamp): (r: Record)
    ensures r.UserEvent? && r.event == "login" && r.processName == "login_process"
    ensures r.username == s.username && r.timestamp == s.time
  {
    UserEvent(s.username, "login", "login_process", s.time)
  }

  /** The document `simulate_user_logout` inserts. */
  function LogoutRecord(s: Stamp): (r: Record)
    ensures r.UserEvent? && r.event == "logout" && r.processName == "logout_process"
    ensures r.username == s.username && r.timestamp == s.time
    ensures r != LoginRecord(s)
  {
    UserEvent(s.username, "logout", "logout_process", s.time)
  }

  /** The single record one capture tick produces. */
  function ActivityRecord(s: Sample): (r: Record)
    ensures !r.UserEvent?
    ensures r.username == s.username && r.activeWindow == ActiveWindowTitle(s.window)
    ensures r.BrowserTab? <==> IsBrowserLike(r.activeWindow)
    ensures r.BrowserTab? ==> r.activeUrl == r.activeWindow
    ensures r.AppActivity? ==> r.screenshot == ScreenshotPath
    ensures r.startTime == s.time && r.endTime == s.time + CaptureSpan
  {
    var title := ActiveWindowTitle(s.window);
    if IsBrowserLike(title) then BrowserTab(s.username, title, title, s.time, s.time + CaptureSpan)
    else AppActivity(s.username, title, ScreenshotPath, s.time, s.time + CaptureSpan)
  }

  /** The records of consecutive ticks, in order. */
  function ActivityRecords(samples: seq<Sample>): (rs: seq<Record>)
    ensures |rs| == |samples|
  {
    if samples == [] then []
    else ActivityRecords(samples[..|samples| - 1]) + [ActivityRecord(samples[|samples| - 1])]
  }

  /** One more tick appends that tick's record. */
  lemma ActivityRecordsStep(samples: seq<Sample>, i: nat)
    requires i < |samples|
    ensures ActivityRecords(samples[..i + 1]) == ActivityRecords(samples[..i]) + [ActivityRecord(samples[i])]
  {
    assert samples[..i + 1][..i] == samples[..i];
  }

  lemma {:induction false} ActivityRecordsAt(samples: seq<Sample>, j: nat)
    requires j < |samples|
    ensures ActivityRecords(samples)[j] == ActivityRecord(samples[j])
    decreases |samples|
  {
    if j < |samples| - 1 {
      ActivityRecordsAt(samples[..|samples| - 1], j);
    }
  }

  /** Everything one monitoring session writes: login, one record per tick, logout. */
  function SessionLog(login: Stamp, samples: seq<Sample>, logout: Stamp): seq<Record>
  {
    [LoginRecord(login)] + ActivityRecords(samples) + [LogoutRecord(logout)]
  }

  /** Number of login/logout events in a sequence of records. */
  function UserEventCount(rs: seq<Record>): nat
  {
    if rs == [] then 0
    else UserEventCount(rs[..|rs| - 1]) + (if rs[|rs| - 1].UserEvent? then 1 else 0)
  }

  lemma {:induction false} ActivityRecordsHaveNoUserEvent(samples: seq<Sample>)
    ensures UserEventCount(ActivityRecords(samples)) == 0
    decreases |samples|
  {
    if samples != [] {
      var rs := ActivityRecords(samples);
      assert rs[..|rs| - 1] == ActivityRecords(samples[..|samples| - 1]);
      ActivityRecordsHaveNoUserEvent(samples[..|samples| - 1]);
    }
  }

  /**
   * A session log is bracketed by exactly one login and one logout event, and
   * every record between them is the tick's activity with a ten-second span.
   */
  lemma SessionLogShape(login: Stamp, samples: seq<Sample>, logout: Stamp)
    ensures var log := SessionLog(login, samples, logout);
      |log| == |samples| + 2 &&
      log[0] == UserEvent(login.username, "login", "login_process", login.time) &&
      log[|log| - 1] == UserEvent(logout.username, "logout", "logout_process", logout.time) &&
      UserEventCount(log) == 2 &&
      forall j :: 0 <= j < |samples| ==>
        log[j + 1] == ActivityRecord(samples[j]) &&
        log[j + 1].endTime == log[j + 1].startTime + CaptureSpan &&
        log[j + 1].endTime >= log[j + 1].startTime
  {
    var log := SessionLog(login, samples, logout);
    forall j | 0 <= j < |samples|
      ensures log[j + 1] == ActivityRecord(samples[j])
      ensures log[j + 1].endTime == log[j + 1].startTime + CaptureSpan
    {
      SessionLogAt(login, samples, logout, j);
    }
    SessionLogUserEvents(login, samples, logout);
  }

  /** The entry after the login is the record of the corresponding tick. */
  lemma SessionLogAt(login: Stamp, samples: seq<Sample>, logout: Stamp, j: nat)
    requires j < |samples|
    ensures SessionLog(login, samples, logout)[j + 1] == ActivityRecord(samples[j])
  {
    ActivityRecordsAt(samples, j);
    assert SessionLog(login, samples, logout)[j + 1] == ActivityRecords(samples)[j];
  }

  /** A session log holds exactly two user events, its login and its logout. */
  lemma SessionLogUserEvents(login: Stamp, samples: seq<Sample>, logout: Stamp)
    ensures UserEventCount(SessionLog(login, samples, logout)) == 2
  {
    var log := SessionLog(login, samples, logout);
    var acts := ActivityRecords(samples);
    ActivityRecordsHaveNoUserEvent(samples);
    assert log[..|log| - 1] == [LoginRecord(login)] + acts;
    UserEventCountConcat([LoginRecord(login)], acts);
  }

  lemma {:induction false} UserEventCountConcat(a: seq<Record>, b: seq<Record>)
    ensures UserEventCount(a + b) == UserEventCount(a) + UserEventCount(b)
    decreases |b|
  {
    if b != [] {
      assert (a + b)[..|a + b| - 1] == a + b[..|b| - 1];
      UserEventCountConcat(a, b[..|b| - 1]);
    } else {
      assert a + b == a;
    }
  }

  /**
   * When every tick sees a browser-like title, every record between login and
   * logout is a browser record whose URL is its window title.
   */
  lemma AllBrowserSession(login: Stamp, samples: seq<Sample>, logout: Stamp)
    requires forall j :: 0 <= j < |samples| ==> ActivityRecord(samples[j]).BrowserTab?
    ensures var log := SessionLog(login, samples, logout);
      forall j :: 1 <= j <= |samples| ==> log[j].BrowserTab? && log[j].activeUrl == log[j].activeWindow
  {
    var acts := ActivityRecords(samples);
    forall j | 0 <= j < |samples| ensures acts[j].BrowserTab? && acts[j].activeUrl == acts[j].activeWindow {
      ActivityRecordsAt(samples, j);
    }
    var log := SessionLog(login, samples, logout);
    assert forall j :: 1 <= j <= |samples| ==> log[j] == acts[j - 1];
  }
}
