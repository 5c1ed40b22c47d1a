/**
 * The React user dashboard: a local start / pause / stop stopwatch that records a log into the
 * in-memory store when stopped, the date-window filter of the log list, and today's summary.
 */
module UserDashboard {
  import opened Wrappers
  import opened Seqs
  import opened Text
  import opened Format
  import opened AppContext

  /** The list filter: "daily" is today, "weekly" and "monthly" start at the given bounds. */
  predicate WindowKeeps(filter: string, date: int, today: int, weekAgo: int, monthAgo: int) {
    if filter == "daily" then date == today
    else if filter == "weekly" then date >= weekAgo
    else if filter == "monthly" then date >= monthAgo
    else true
  }

  /** `filteredLogs`: the user's logs inside the window, in their order; all of them otherwise. */
  function FilteredLogs(userLogs: seq<LogEntry>, filter: string, today: int, weekAgo: int, monthAgo: int): (r: seq<LogEntry>)
    ensures |r| <= |userLogs|
    ensures forall l :: l in r <==> l in userLogs && WindowKeeps(filter, l.date, today, weekAgo, monthAgo)
    ensures filter != "daily" && filter != "weekly" && filter != "monthly" ==> r == userLogs
  {
    var keep := (l: LogEntry) => WindowKeeps(filter, l.date, today, weekAgo, monthAgo);
    if filter != "daily" && filter != "weekly" && filter != "monthly" then
      FilterAll(userLogs, keep);
      Filter(userLogs, keep)
    else Filter(userLogs, keep)
  }

  /** `todayStats`: time worked today as "Xh Ym", today's session count, and the fixed streak. */
  datatype TodaySummary = TodaySummary(time: string, sessions: nat, streak: int)

  function TodayStats(userLogs: seq<LogEntry>, today: int): (t: TodaySummary)
    ensures t.sessions == |Filter(userLogs, (l: LogEntry) => l.date == today)|
    ensures t.time == FormatDuration(SumBy(Filter(userLogs, (l: LogEntry) => l.date == today), (l: LogEntry) => l.duration))
    ensures t.streak == 7
  {
    var todays := Filter(userLogs, (l: LogEntry) => l.date == today);
    TodaySummary(FormatDuration(SumBy(todays, (l: LogEntry) => l.duration)), |todays|, 7)
  }

  /**
   * The dashboard's session count for today is the store's `sessionsToday` for the same user:
   * both count the user's logs dated today.
   */
  lemma {:induction false} TodayAgreesWithStore(logs: seq<LogEntry>, uid: int, today: int)
    ensures TodayStats(LogsByUser(logs, uid), today).sessions == GetUserStats(logs, uid, today).sessionsToday
  {
    FilterFilter(logs, (l: LogEntry) => l.userId == uid, (l: LogEntry) => l.date == today,
      (l: LogEntry) => l.userId == uid && l.date == today);
  }

  /** The dashboard's own state. */
  class Dashboard {
    var isRunning: bool
    var isPaused: bool
    var seconds: int
    var description: string
    var startTime: Option<int>

    constructor ()
      ensures !isRunning && !isPaused && seconds == 0 && description == "" && startTime == None
    {
      isRunning := false;
      isPaused := false;
      seconds := 0;
      description := "";
      startTime := None;
    }

    /** The description input. */
    method SetDescription(text: string)
      modifies this
      ensures description == text
      ensures isRunning == old(isRunning) && isPaused == old(isPaused) && seconds == old(seconds) && startTime == old(startTime)
    {
      description := text;
    }

    /**
     * `handleStart`: refused when the description is blank after trimming; otherwise running,
     * not paused, started at `nowMs`, the seconds counter left as it was.
     */
    method HandleStart(nowMs: int) returns (accepted: bool)
      modifies this
      ensures accepted <==> Trim(old(description)) != ""
      ensures accepted ==> isRunning && !isPaused && startTime == Some(nowMs)
      ensures !accepted ==> isRunning == old(isRunning) && isPaused == old(isPaused) && startTime == old(startTime)
      ensures seconds == old(seconds) && description == old(description)
    {
      if Trim(description) == "" {
        accepted := false;
        return;
      }
      isRunning := true;
      isPaused := false;
      startTime := Some(nowMs);
      accepted := true;
    }

    /** `handlePause`: only the paused flag is set. */
    method HandlePause()
      modifies this
      ensures isPaused
      ensures isRunning == old(isRunning) && seconds == old(seconds) && description == old(description) && startTime == old(startTime)
    {
      isPaused := true;
    }

    /** `handleResume`: only the paused flag is cleared. */
    method HandleResume()
      modifies this
      ensures !isPaused
      ensures isRunning == old(isRunning) && seconds == old(seconds) && description == old(description) && startTime == old(startTime)
    {
      isPaused := false;
    }

    /** One second of the effect's interval: the counter advances only while running and not paused. */
    method Tick()
      modifies this
      ensures seconds == if old(isRunning) && !old(isPaused) then old(seconds) + 1 else old(seconds)
      ensures isRunning == old(isRunning) && isPaused == old(isPaused)
      ensures description == old(description) && startTime == old(startTime)
    {
      if isRunning && !isPaused {
        seconds := seconds + 1;
      }
    }

    /**
     * `handleStop`: with a signed-in user, records a log of the counted seconds and the
     * description, dated today, from the start instant (or now when never started) to now,
     * then resets the stopwatch. Without a signed-in user nothing happens. `render` is the
     * `toLocaleTimeString` rendering of an instant.
     */
    method HandleStop(app: AppStore, today: int, nowMs: int, render: int -> string)
      modifies this, app
      ensures old(app.currentUser).None? ==>
        app.timeLogs == old(app.timeLogs) && app.users == old(app.users) &&
        isRunning == old(isRunning) && isPaused == old(isPaused) && seconds == old(seconds) &&
        description == old(description) && startTime == old(startTime)
      ensures old(app.currentUser).Some? ==>
        var entry := NewLog(old(app.currentUser).value.id, today, old(description), old(seconds),
                            render(old(startTime).GetOr(nowMs)), render(nowMs));
        app.timeLogs == old(app.timeLogs) + [LogEntry(MaxLogId(old(app.timeLogs)) + 1, entry.userId, entry.date,
                                                     entry.description, entry.duration, entry.startTime, entry.endTime)] &&
        app.timeLogs[|app.timeLogs| - 1].duration == old(seconds) &&
        (var owner := FindById(old(app.users), entry.userId);
         app.users == if owner.None? then old(app.users)
                      else UpdateWhere(old(app.users), entry.userId, HoursPatch(owner.value, entry.duration))) &&
        !isRunning && !isPaused && seconds == 0 && description == "" && startTime == None
      ensures app.currentUser == old(app.currentUser)
    {
      if app.currentUser.None? {
        return;
      }
      var start := startTime.GetOr(nowMs);
      var entry := NewLog(app.currentUser.value.id, today, description, seconds, render(start), render(nowMs));
      app.AddTimeLog(entry);
      isRunning := false;
      isPaused := false;
      seconds := 0;
      description := "";
      startTime := None;
    }
  }
}
