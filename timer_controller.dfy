/**
 * The timer commands and queries a signed-in person calls: start, pause, resume and stop one
 * of their two timers, read back which timers are open, and list their rows with live totals.
 * The table is a sequence of rows in insertion order; every command runs atomically.
 */
module TimerController {
  import opened Wrappers
  import opened Seqs
  import opened TimeLog

  /** The JSON answer of a command: 200 with a message, or an error with its HTTP status. */
  datatype Reply =
    | Success(message: string)
    | StopSuccess(message: string, status: string)
    | Rejected(code: int, error: string)

  /** The lower-case word used in error messages. */
  function Noun(c: Category): string {
    match c
    case General => "general"
    case Project => "project"
  }

  /** The capitalised word used in the start message. */
  function Title(c: Category): string {
    match c
    case General => "General"
    case Project => "Project"
  }

  /** Accumulated time never shrinks: rows keep their ids and their banked totals only grow. */
  predicate NeverLoses(before: seq<Record>, after: seq<Record>) {
    |before| <= |after| &&
    forall i :: 0 <= i < |before| ==> after[i].id == before[i].id && after[i].totalSeconds >= before[i].totalSeconds
  }

  /** No row's live total at `now` is changed: a command never adds or removes time it acts on. */
  predicate LiveTotalsKept(before: seq<Record>, after: seq<Record>, now: int) {
    |before| <= |after| &&
    forall i :: 0 <= i < |before| ==> LiveTotal(after[i], now) == LiveTotal(before[i], now)
  }

  /** The `time_logs` table with its auto-increment counter. */
  class Store {
    var logs: seq<Record>
    var nextId: nat
    /** The latest instant any command ran at; `NOW()` never runs backwards. */
    ghost var clock: int

    ghost predicate Valid()
      reads this
    {
      ValidLogs(logs, nextId, clock)
    }

    constructor (start: int)
      ensures Valid() && logs == [] && nextId == 1 && clock == start
    {
      logs := [];
      nextId := 1;
      clock := start;
    }

    /**
     * `startTimer`. Rejected when the owner already has an open row of the requested kind;
     * otherwise one new row is appended.
     */
    method Start(who: Principal, req: StartRequest, now: int, today: int) returns (reply: Reply)
      requires Valid() && clock <= now
      modifies this
      ensures Valid() && clock == now
      ensures var o, c := OwnerOf(who), RequestCategory(req);
        if FindFirst(old(logs), o, c, AnyOpen).Some? then
          reply == Rejected(400, "A " + Noun(c) + " timer is already active.") &&
          logs == old(logs) && nextId == old(nextId)
        else
          reply == Success(Title(c) + " timer started") &&
          logs == old(logs) + [NewRecord(old(nextId), o, req, now, today)] && nextId == old(nextId) + 1
      ensures NeverLoses(old(logs), logs) && LiveTotalsKept(old(logs), logs, now)
    {
      var o, c := OwnerOf(who), RequestCategory(req);
      clock := now;
      if FindFirst(logs, o, c, AnyOpen).Some? {
        reply := Rejected(400, "A " + Noun(c) + " timer is already active.");
        return;
      }
      var r := NewRecord(nextId, o, req, now, today);
      assert CategoryOf(r) == c;
      SingleOpenAppend(logs, r);
      logs := logs + [r];
      nextId := nextId + 1;
      reply := Success(Title(c) + " timer started");
    }

    /**
     * `pauseTimer`. Acts on the first running row of that owner and kind: its running interval
     * is banked and it becomes paused. Rejected when there is none.
     */
    method Pause(who: Principal, c: Category, now: int) returns (reply: Reply)
      requires Valid() && clock <= now
      modifies this
      ensures Valid() && clock == now && nextId == old(nextId)
      ensures var k := FindFirst(old(logs), OwnerOf(who), c, RunningOnly);
        if k.None? then
          reply == Rejected(400, "No running " + Noun(c) + " timer found.") && logs == old(logs)
        else
          reply == Success("Timer paused") &&
          old(logs)[k.value].startTime.value <= now &&
          logs == old(logs)[k.value := Paused(old(logs)[k.value], now)]
      ensures NeverLoses(old(logs), logs) && LiveTotalsKept(old(logs), logs, now)
    {
      var k := FindFirst(logs, OwnerOf(who), c, RunningOnly);
      clock := now;
      if k.None? {
        reply := Rejected(400, "No running " + Noun(c) + " timer found.");
        return;
      }
      var i := k.value;
      assert WellFormed(logs[i], old(clock));
      var q := Paused(logs[i], now);
      SingleOpenUpdate(logs, i, q);
      logs := logs[i := q];
      reply := Success("Timer paused");
    }

    /**
     * `resumeTimer`. Acts on the first paused row of that owner and kind: it runs again from
     * `now` with nothing banked. Rejected when there is none.
     */
    method Resume(who: Principal, c: Category, now: int) returns (reply: Reply)
      requires Valid() && clock <= now
      modifies this
      ensures Valid() && clock == now && nextId == old(nextId)
      ensures var k := FindFirst(old(logs), OwnerOf(who), c, PausedOnly);
        if k.None? then
          reply == Rejected(400, "No paused " + Noun(c) + " timer found.") && logs == old(logs)
        else
          reply == Success("Timer resumed") && logs == old(logs)[k.value := Resumed(old(logs)[k.value], now)]
      ensures NeverLoses(old(logs), logs) && LiveTotalsKept(old(logs), logs, now)
    {
      var k := FindFirst(logs, OwnerOf(who), c, PausedOnly);
      clock := now;
      if k.None? {
        reply := Rejected(400, "No paused " + Noun(c) + " timer found.");
        return;
      }
      var i := k.value;
      var q := Resumed(logs[i], now);
      SingleOpenUpdate(logs, i, q);
      logs := logs[i := q];
      reply := Success("Timer resumed");
    }

    /**
     * `stopTimer`. Acts on the first open row of that owner and kind, running or paused: it is
     * closed at `now`, a running interval is banked, the status defaults to "finished" and the
     * description is replaced only by a non-empty one. Rejected when there is no open row.
     */
    method Stop(who: Principal, c: Category, workDescription: Option<string>, completionStatus: Option<string>, now: int)
      returns (reply: Reply)
      requires Valid() && clock <= now
      modifies this
      ensures Valid() && clock == now && nextId == old(nextId)
      ensures var k := FindFirst(old(logs), OwnerOf(who), c, AnyOpen);
        if k.None? then
          reply == Rejected(400, "No active " + Noun(c) + " timer found.") && logs == old(logs)
        else
          var r := old(logs)[k.value];
          var status := OrDefault(completionStatus, "finished");
          reply == StopSuccess("Timer stopped", status) &&
          (r.startTime.Some? ==> r.startTime.value <= now) &&
          logs == old(logs)[k.value := Stopped(r, now, status, DescriptionAfterStop(workDescription, r.workDescription))]
      ensures NeverLoses(old(logs), logs) && LiveTotalsKept(old(logs), logs, now)
    {
      var k := FindFirst(logs, OwnerOf(who), c, AnyOpen);
      clock := now;
      if k.None? {
        reply := Rejected(400, "No active " + Noun(c) + " timer found.");
        return;
      }
      var i := k.value;
      var r := logs[i];
      assert WellFormed(r, old(clock));
      var status := OrDefault(completionStatus, "finished");
      var q := Stopped(r, now, status, DescriptionAfterStop(workDescription, r.workDescription));
      SingleOpenUpdate(logs, i, q);
      logs := logs[i := q];
      reply := StopSuccess("Timer stopped", status);
    }

    /**
     * `getTimerStatus`. Walks the owner's open rows in table order and puts each into the
     * general or the project slot by the truthiness of its project name; a later row
     * overwrites an earlier one of the same slot.
     */
    method TimerStatus(who: Principal) returns (status: Status)
      ensures status == StatusOf(logs, OwnerOf(who))
    {
      var o := OwnerOf(who);
      var general, project := Inactive, Inactive;
      for i := 0 to |logs|
        invariant general == View(logs, LastShown(logs, i, o, false))
        invariant project == View(logs, LastShown(logs, i, o, true))
      {
        var log := logs[i];
        if log.owner == o && IsOpen(log) {
          var data := SessionOf(log);
          if Truthy(log.projectName) {
            project := data;
          } else {
            general := data;
          }
        }
      }
      status := Status(general, project);
    }
  }

  /** One slot of the status answer. */
  datatype Session =
    | Inactive
    | Active(
        id: nat,
        startTime: Option<int>,
        totalSeconds: nat,
        isRunning: bool,
        workDescription: string,
        projectName: Option<string>,
        projectDescription: Option<string>,
        estimatedSeconds: int,
        completionStatus: string)

  /** `{ general, project }`. */
  datatype Status = Status(general: Session, project: Session)

  /**
   * The seconds a client shows for a slot at `now`: banked seconds plus the running delta.
   */
  function SessionLive(s: Session, now: int): int
    requires s.Active?
  {
    s.totalSeconds + if s.isRunning && s.startTime.Some? then now - s.startTime.value else 0
  }

  /**
   * The slot data of an open row. `isRunning` is exactly "start_time is set", and the time the
   * slot shows is the row's live total, the same number the report lists.
   */
  function SessionOf(r: Record): (s: Session)
    ensures s.Active? && s.id == r.id && s.totalSeconds == r.totalSeconds
    ensures s.isRunning <==> r.startTime.Some?
    ensures IsOpen(r) ==> forall now :: SessionLive(s, now) == LiveTotal(r, now)
  {
    Active(r.id, r.startTime, r.totalSeconds, r.startTime.Some?, r.workDescription, r.projectName,
      r.projectDescription, r.estimatedSeconds, r.completionStatus)
  }

  /** A row goes to the project slot (`slot == true`) or the general slot of owner `o`. */
  predicate Shown(r: Record, o: Owner, slot: bool) {
    r.owner == o && IsOpen(r) && Truthy(r.projectName) == slot
  }

  /** The last row among the first `n` that the walk puts into a slot. */
  function LastShown(logs: seq<Record>, n: nat, o: Owner, slot: bool): (k: Option<nat>)
    requires n <= |logs|
    ensures k.Some? ==> k.value < n && Shown(logs[k.value], o, slot)
    ensures k.Some? ==> forall j :: k.value < j < n ==> !Shown(logs[j], o, slot)
    ensures k.None? <==> forall j :: 0 <= j < n ==> !Shown(logs[j], o, slot)
  {
    if n == 0 then None
    else if Shown(logs[n - 1], o, slot) then Some(n - 1)
    else LastShown(logs, n - 1, o, slot)
  }

  function View(logs: seq<Record>, k: Option<nat>): Session
    requires k.Some? ==> k.value < |logs|
  {
    match k
    case None => Inactive
    case Some(i) => SessionOf(logs[i])
  }

  /** The status answer for owner `o`. */
  function StatusOf(logs: seq<Record>, o: Owner): Status {
    Status(View(logs, LastShown(logs, |logs|, o, false)), View(logs, LastShown(logs, |logs|, o, true)))
  }

  /**
   * On a valid table the status shows, in each slot, exactly the row that pause, resume and
   * stop of that kind act on: the overwrite in the walk never hides a second open row, and the
   * truthiness test agrees with `project_name IS NOT NULL`.
   */
  lemma {:induction false} StatusAgreesWithCommands(logs: seq<Record>, nextId: nat, clock: int, o: Owner, c: Category)
    requires ValidLogs(logs, nextId, clock)
    ensures LastShown(logs, |logs|, o, c == Project) == FindFirst(logs, o, c, AnyOpen)
  {
    var slot := c == Project;
    forall j | 0 <= j < |logs|
      ensures Shown(logs[j], o, slot) <==> Selects(logs[j], o, c, AnyOpen)
    {
      assert WellFormed(logs[j], clock);
    }
    var a := LastShown(logs, |logs|, o, slot);
    var b := FindFirst(logs, o, c, AnyOpen);
    if a.Some? && b.Some? {
      SelectedIsUnique(logs, o, c, AnyOpen, a.value, b.value);
    }
  }

  /**
   * The status puts a row in a slot iff the owner has an open row of that kind; the slot is
   * running iff that row's `start_time` is set.
   */
  lemma {:induction false} StatusSlots(logs: seq<Record>, nextId: nat, clock: int, o: Owner, c: Category)
    requires ValidLogs(logs, nextId, clock)
    ensures var s := StatusOf(logs, o);
      var slot := if c == Project then s.project else s.general;
      (slot.Active? <==> exists j :: 0 <= j < |logs| && Selects(logs[j], o, c, AnyOpen)) &&
      (slot.Active? ==> (slot.isRunning <==> exists j :: 0 <= j < |logs| && Selects(logs[j], o, c, RunningOnly)))
  {
    StatusAgreesWithCommands(logs, nextId, clock, o, c);
    var k := FindFirst(logs, o, c, AnyOpen);
    if k.Some? {
      forall j | 0 <= j < |logs| && Selects(logs[j], o, c, RunningOnly)
        ensures j == k.value
      {
        SelectedIsUnique(logs, o, c, AnyOpen, j, k.value);
      }
    }
  }

  /** A `users` row as the report's name lookup sees it. */
  datatype UserRow = UserRow(id: int, name: string)

  /** `SELECT name FROM users WHERE id = ?`, first row. */
  function NameOf(users: seq<UserRow>, id: int): (r: Option<string>)
    ensures r.Some? ==> exists i :: 0 <= i < |users| && users[i].id == id && users[i].name == r.value
    ensures r.None? <==> forall i :: 0 <= i < |users| ==> users[i].id != id
  {
    if users == [] then None
    else if users[0].id == id then Some(users[0].name)
    else
      var r := NameOf(users[1..], id);
      assert forall i :: 1 <= i < |users| ==> users[i] == users[1..][i - 1];
      r
  }

  /**
   * The report's date condition on an integer day number: "day" is today, "week" is the last
   * 7 days, "month" the last 30 days, anything else every day.
   */
  predicate InWindow(filter: string, day: int, today: int) {
    if filter == "day" then day == today
    else if filter == "week" then day >= today - 7
    else if filter == "month" then day >= today - 30
    else true
  }

  /** One listed row with its `live_total_seconds` column. */
  datatype ReportRow = ReportRow(log: Record, liveTotalSeconds: int)

  /** `{ logs, totalSeconds, targetUserName }` of the user report. */
  datatype Report = Report(rows: seq<ReportRow>, totalSeconds: int, targetUserName: string)

  /** An admin with a `userId` query parameter reports on that user; everyone else on themself. */
  function TargetId(who: Principal, requested: Option<int>): int {
    if who.role == "admin" && requested.Some? then requested.value else who.id
  }

  /**
   * The column the report filters on: `admin_id` only for an admin reporting on themself,
   * `user_id` otherwise.
   */
  function ReportOwner(who: Principal, requested: Option<int>): (o: Owner)
    ensures o.AdminOwner? <==> who.role == "admin" && requested.None?
    ensures o == UserOwner(TargetId(who, requested)) || o == AdminOwner(TargetId(who, requested))
  {
    var target := TargetId(who, requested);
    if who.role == "admin" && requested.None? then AdminOwner(target) else UserOwner(target)
  }

  /** `WHERE ${column} = ? AND ${timeCondition}`. */
  predicate InReport(r: Record, o: Owner, filter: string, today: int) {
    r.owner == o && InWindow(filter, r.logDate, today)
  }

  /** The rows of the report, before ordering. */
  function Listed(logs: seq<Record>, o: Owner, filter: string, today: int): (s: seq<Record>)
    ensures forall r :: r in s <==> r in logs && r.owner == o && InWindow(filter, r.logDate, today)
  {
    Filter(logs, (r: Record) => InReport(r, o, filter, today))
  }

  function WithLiveTotals(s: seq<Record>, now: int): (rows: seq<ReportRow>)
    ensures |rows| == |s|
    ensures forall i :: 0 <= i < |s| ==> rows[i] == ReportRow(s[i], LiveTotal(s[i], now))
  {
    seq(|s|, i requires 0 <= i < |s| => ReportRow(s[i], LiveTotal(s[i], now)))
  }

  /**
   * `getReports` for users: the target's rows in the date window, newest first, each with its
   * live total; the summed live totals; and the target's name, or "Administrator" /
   * "Unknown User" when the id is not in `users`.
   */
  function UserReport(logs: seq<Record>, users: seq<UserRow>, who: Principal, requested: Option<int>,
                      filter: string, today: int, now: int): (rep: Report)
    ensures var listed := Listed(logs, ReportOwner(who, requested), filter, today);
      |rep.rows| == |listed| &&
      (forall i :: 0 <= i < |listed| ==> rep.rows[i].log == listed[|listed| - 1 - i]) &&
      (forall i :: 0 <= i < |listed| ==> rep.rows[i].liveTotalSeconds == LiveTotal(rep.rows[i].log, now)) &&
      rep.totalSeconds == SumBy(listed, (r: Record) => LiveTotal(r, now))
    ensures var name := NameOf(users, TargetId(who, requested));
      rep.targetUserName == if name.Some? then name.value
                            else if who.role == "admin" then "Administrator" else "Unknown User"
  {
    var o := ReportOwner(who, requested);
    var listed := Listed(logs, o, filter, today);
    var rows := WithLiveTotals(Reverse(listed), now);
    var name := NameOf(users, TargetId(who, requested));
    var total := SumBy(rows, (row: ReportRow) => row.liveTotalSeconds);
    SumOfRows(Reverse(listed), now);
    SumByReverse(listed, (r: Record) => LiveTotal(r, now));
    Report(rows, total,
      if name.Some? then name.value else if who.role == "admin" then "Administrator" else "Unknown User")
  }

  /** The `reduce` over the listed rows sums their live totals. */
  lemma {:induction false} SumOfRows(s: seq<Record>, now: int)
    ensures SumBy(WithLiveTotals(s, now), (row: ReportRow) => row.liveTotalSeconds) == SumBy(s, (r: Record) => LiveTotal(r, now))
  {
    if s != [] {
      SumOfRows(s[1..], now);
      assert WithLiveTotals(s, now)[1..] == WithLiveTotals(s[1..], now);
    }
  }

  /**
   * On a valid table, a report's total never drops as time passes, and is never below the
   * banked seconds of the rows it lists.
   */
  lemma {:induction false} ReportTotalGrows(logs: seq<Record>, nextId: nat, clock: int, users: seq<UserRow>,
                                           who: Principal, requested: Option<int>, filter: string, today: int,
                                           a: int, b: int)
    requires ValidLogs(logs, nextId, clock) && clock <= a <= b
    ensures var listed := Listed(logs, ReportOwner(who, requested), filter, today);
      SumBy(listed, (r: Record) => r.totalSeconds) <= UserReport(logs, users, who, requested, filter, today, a).totalSeconds
      <= UserReport(logs, users, who, requested, filter, today, b).totalSeconds
  {
    var listed := Listed(logs, ReportOwner(who, requested), filter, today);
    forall i | 0 <= i < |listed|
      ensures listed[i].totalSeconds <= LiveTotal(listed[i], a) <= LiveTotal(listed[i], b)
    {
      assert listed[i] in logs;
      var k :| 0 <= k < |logs| && logs[k] == listed[i];
      assert WellFormed(logs[k], clock);
    }
    SumByMonotone(listed, (r: Record) => r.totalSeconds, (r: Record) => LiveTotal(r, a));
    SumByMonotone(listed, (r: Record) => LiveTotal(r, a), (r: Record) => LiveTotal(r, b));
  }
}
