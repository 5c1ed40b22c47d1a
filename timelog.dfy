/**
 * Rows of the `time_logs` table as the timer controller sees them: who owns a row, which
 * of the two timer kinds it belongs to, whether it is open, running or paused, and how many
 * seconds it has accumulated at a given instant. Instants are whole seconds; the database
 * clock `NOW()` is passed in as `now`.
 */
module TimeLog {
  import opened Wrappers

  /** A row belongs either to a user (`user_id`) or to an administrator (`admin_id`). */
  datatype Owner = UserOwner(userId: int) | AdminOwner(adminId: int)

  /** The two timers a person can run side by side. */
  datatype Category = General | Project

  /** The logged-in account of the session: its id and its role string. */
  datatype Principal = Principal(id: int, role: string)

  /** One `time_logs` row. A stored project name is never empty (`project_name || null`). */
  datatype Record = Record(
    id: nat,
    owner: Owner,
    projectName: Option<string>,
    projectDescription: Option<string>,
    initialStartTime: int,
    startTime: Option<int>,
    totalSeconds: nat,
    endTime: Option<int>,
    estimatedSeconds: int,
    completionStatus: string,
    workDescription: string,
    logDate: int)

  /** The owning column chosen from the session role: `admin_id` for "admin", else `user_id`. */
  function OwnerOf(p: Principal): (o: Owner)
    ensures o.AdminOwner? <==> p.role == "admin"
    ensures o == UserOwner(p.id) || o == AdminOwner(p.id)
  {
    if p.role == "admin" then AdminOwner(p.id) else UserOwner(p.id)
  }

  /** JavaScript truthiness of an optional string: present and not empty. */
  predicate Truthy(s: Option<string>) {
    s.Some? && s.value != ""
  }

  /** `s || null`: an empty or missing string becomes SQL NULL. */
  function OrNull(s: Option<string>): (r: Option<string>)
    ensures r.Some? <==> Truthy(s)
    ensures r.Some? ==> r == s && r.value != ""
  {
    if Truthy(s) then s else None
  }

  /** `s || fallback`: a missing or empty string is replaced by the fallback. */
  function OrDefault(s: Option<string>, fallback: string): (r: string)
    ensures Truthy(s) ==> r == s.value
    ensures !Truthy(s) ==> r == fallback
  {
    if Truthy(s) then s.value else fallback
  }

  /** The category of a stored row, as the queries test it: `project_name IS [NOT] NULL`. */
  function CategoryOf(r: Record): (c: Category)
    ensures c == Project <==> r.projectName.Some?
  {
    if r.projectName.Some? then Project else General
  }

  /** A row is open while `end_time IS NULL`. */
  predicate IsOpen(r: Record) {
    r.endTime.None?
  }

  /** A row is running while it is open and `start_time IS NOT NULL`. */
  predicate IsRunning(r: Record) {
    IsOpen(r) && r.startTime.Some?
  }

  /**
   * Seconds accumulated at instant `now`: the banked `total_seconds`, plus the interval since
   * `start_time` while the row is running (`live_total_seconds` of the report query).
   */
  function LiveTotal(r: Record, now: int): (t: int)
    ensures IsRunning(r) ==> t == r.totalSeconds + (now - r.startTime.value)
    ensures !IsRunning(r) ==> t == r.totalSeconds
  {
    r.totalSeconds + if IsRunning(r) then now - r.startTime.value else 0
  }

  /** The extra filter each command puts on the open rows of one owner and category. */
  datatype Mode = AnyOpen | RunningOnly | PausedOnly

  /** The `WHERE` clause of a command's lookup query. */
  predicate Selects(r: Record, o: Owner, c: Category, m: Mode) {
    r.owner == o && IsOpen(r) && CategoryOf(r) == c &&
    match m
    case AnyOpen => true
    case RunningOnly => r.startTime.Some?
    case PausedOnly => r.startTime.None?
  }

  /**
   * Index of the first row the lookup selects (`active[0]`), rows taken in table order;
   * `None` when the query returns nothing.
   */
  function FindFirst(logs: seq<Record>, o: Owner, c: Category, m: Mode): (k: Option<nat>)
    ensures k.Some? ==> k.value < |logs| && Selects(logs[k.value], o, c, m)
    ensures k.Some? ==> forall j :: 0 <= j < k.value ==> !Selects(logs[j], o, c, m)
    ensures k.None? <==> forall j :: 0 <= j < |logs| ==> !Selects(logs[j], o, c, m)
  {
    FindFrom(logs, 0, o, c, m)
  }

  function FindFrom(logs: seq<Record>, from: nat, o: Owner, c: Category, m: Mode): (k: Option<nat>)
    requires from <= |logs|
    ensures k.Some? ==> from <= k.value < |logs| && Selects(logs[k.value], o, c, m)
    ensures k.Some? ==> forall j :: from <= j < k.value ==> !Selects(logs[j], o, c, m)
    ensures k.None? <==> forall j :: from <= j < |logs| ==> !Selects(logs[j], o, c, m)
    decreases |logs| - from
  {
    if from == |logs| then None
    else if Selects(logs[from], o, c, m) then Some(from)
    else FindFrom(logs, from + 1, o, c, m)
  }

  /**
   * The mutual-exclusion invariant: no owner has two open rows of the same category.
   */
  predicate SingleOpen(logs: seq<Record>) {
    forall i, j :: 0 <= i < j < |logs| && IsOpen(logs[i]) && IsOpen(logs[j]) && logs[i].owner == logs[j].owner
      ==> CategoryOf(logs[i]) != CategoryOf(logs[j])
  }

  /** Shape every stored row keeps: timestamps not after the clock, no empty project name. */
  predicate WellFormed(r: Record, clock: int) {
    r.initialStartTime <= clock &&
    (r.startTime.Some? ==> r.startTime.value <= clock) &&
    (r.projectName.Some? ==> r.projectName.value != "")
  }

  /**
   * The table invariant: ids below the next auto-increment value and distinct, every row well
   * formed, at most one open row per owner and category.
   */
  predicate ValidLogs(logs: seq<Record>, nextId: nat, clock: int) {
    (forall i :: 0 <= i < |logs| ==> logs[i].id < nextId && WellFormed(logs[i], clock)) &&
    (forall i, j :: 0 <= i < j < |logs| ==> logs[i].id != logs[j].id) &&
    SingleOpen(logs)
  }

  /** The body of a start request; absent JSON fields are `None`. */
  datatype StartRequest = StartRequest(
    workDescription: Option<string>,
    projectName: Option<string>,
    projectDescription: Option<string>,
    estimatedSeconds: Option<int>)

  /** `isProject = !!project_name`. */
  function RequestCategory(req: StartRequest): (c: Category)
    ensures c == Project <==> Truthy(req.projectName)
  {
    if Truthy(req.projectName) then Project else General
  }

  /**
   * The row `startTimer` inserts: started and first started now, nothing banked, status
   * "in_progress", dated today, with the request's fields defaulted as the insert does.
   */
  function NewRecord(id: nat, o: Owner, req: StartRequest, now: int, today: int): (r: Record)
    ensures Selects(r, o, RequestCategory(req), RunningOnly)
    ensures r.id == id && r.initialStartTime == now && r.startTime == Some(now)
    ensures r.totalSeconds == 0 && LiveTotal(r, now) == 0
    ensures r.completionStatus == "in_progress" && r.logDate == today
    ensures r.estimatedSeconds == req.estimatedSeconds.GetOr(0)
    ensures r.workDescription == OrDefault(req.workDescription, "")
    ensures r.projectName == OrNull(req.projectName) && r.projectDescription == OrNull(req.projectDescription)
    ensures WellFormed(r, now)
  {
    Record(id, o, OrNull(req.projectName), OrNull(req.projectDescription), now, Some(now), 0, None,
      req.estimatedSeconds.GetOr(0), "in_progress", OrDefault(req.workDescription, ""), today)
  }

  /**
   * `total_seconds = total_seconds + TIMESTAMPDIFF(SECOND, start_time, NOW()), start_time = NULL`:
   * the running interval is banked, and from then on the live total stays where it was at `now`.
   */
  function Paused(r: Record, now: int): (q: Record)
    requires r.startTime.Some? && r.startTime.value <= now
    ensures q == r.(totalSeconds := q.totalSeconds, startTime := None)
    ensures q.totalSeconds == r.totalSeconds + (now - r.startTime.value) >= r.totalSeconds
    ensures IsOpen(r) ==> forall later :: LiveTotal(q, later) == LiveTotal(r, now)
  {
    r.(totalSeconds := r.totalSeconds + (now - r.startTime.value), startTime := None)
  }

  /** `start_time = NOW()`: nothing is banked, and the live total grows again from `now`. */
  function Resumed(r: Record, now: int): (q: Record)
    requires IsOpen(r)
    ensures q == r.(startTime := Some(now)) && q.totalSeconds == r.totalSeconds
    ensures forall later :: LiveTotal(q, later) == r.totalSeconds + (later - now)
    ensures r.startTime.None? ==> LiveTotal(q, now) == LiveTotal(r, now)
  {
    r.(startTime := Some(now))
  }

  /** `COALESCE(work_description || null, work_description)`: only a non-empty value replaces. */
  function DescriptionAfterStop(given: Option<string>, current: string): (d: string)
    ensures Truthy(given) ==> d == given.value
    ensures !Truthy(given) ==> d == current
  {
    match OrNull(given)
    case Some(v) => v
    case None => current
  }

  /**
   * The row after `stopTimer`: `end_time = now`, status and description as supplied or kept,
   * and the trailing interval banked only if the row was running (`start_time` stays as it was).
   * The live total is then frozen at its value at `now`.
   */
  function Stopped(r: Record, now: int, status: string, desc: string): (q: Record)
    requires IsOpen(r)
    requires r.startTime.Some? ==> r.startTime.value <= now
    ensures q.endTime == Some(now) && !IsOpen(q)
    ensures q.completionStatus == status && q.workDescription == desc
    ensures q.startTime == r.startTime
    ensures r.startTime.Some? ==> q.totalSeconds == r.totalSeconds + (now - r.startTime.value)
    ensures r.startTime.None? ==> q.totalSeconds == r.totalSeconds
    ensures q == r.(totalSeconds := q.totalSeconds, endTime := Some(now), completionStatus := status, workDescription := desc)
    ensures forall later :: LiveTotal(q, later) == LiveTotal(r, now)
  {
    var banked := if r.startTime.Some? then r.totalSeconds + (now - r.startTime.value) else r.totalSeconds;
    r.(totalSeconds := banked, endTime := Some(now), completionStatus := status, workDescription := desc)
  }

  /**
   * Under the invariant the lookup has at most one candidate: two selected rows are the same
   * row.
   */
  lemma SelectedIsUnique(logs: seq<Record>, o: Owner, c: Category, m: Mode, i: nat, j: nat)
    requires SingleOpen(logs)
    requires i < |logs| && j < |logs|
    requires Selects(logs[i], o, c, m) && Selects(logs[j], o, c, m)
    ensures i == j
  {
  }

  /** Appending a row for which there is no open row of its owner and kind keeps the invariant. */
  lemma {:induction false} SingleOpenAppend(logs: seq<Record>, r: Record)
    requires SingleOpen(logs)
    requires FindFirst(logs, r.owner, CategoryOf(r), AnyOpen).None?
    ensures SingleOpen(logs + [r])
  {
    var s := logs + [r];
    forall i, j | 0 <= i < j < |s| && IsOpen(s[i]) && IsOpen(s[j]) && s[i].owner == s[j].owner
      ensures CategoryOf(s[i]) != CategoryOf(s[j])
    {
      if j == |logs| {
        assert !Selects(logs[i], r.owner, CategoryOf(r), AnyOpen);
      } else {
        assert s[i] == logs[i] && s[j] == logs[j];
      }
    }
  }

  /**
   * Replacing one row by a row of the same owner and kind, or by a closed row, keeps the
   * invariant.
   */
  lemma {:induction false} SingleOpenUpdate(logs: seq<Record>, k: nat, q: Record)
    requires SingleOpen(logs) && k < |logs|
    requires !IsOpen(q) || (q.owner == logs[k].owner && CategoryOf(q) == CategoryOf(logs[k]) && IsOpen(logs[k]))
    ensures SingleOpen(logs[k := q])
  {
    var s := logs[k := q];
    forall i, j | 0 <= i < j < |s| && IsOpen(s[i]) && IsOpen(s[j]) && s[i].owner == s[j].owner
      ensures CategoryOf(s[i]) != CategoryOf(s[j])
    {
      if i == k {
        assert IsOpen(logs[i]) && logs[i].owner == s[i].owner && CategoryOf(logs[i]) == CategoryOf(s[i]);
        assert s[j] == logs[j];
      } else if j == k {
        assert IsOpen(logs[j]) && logs[j].owner == s[j].owner && CategoryOf(logs[j]) == CategoryOf(s[j]);
        assert s[i] == logs[i];
      } else {
        assert s[i] == logs[i] && s[j] == logs[j];
      }
    }
  }

  /**
   * A full start, pause, resume and stop cycle banks exactly the two running intervals and
   * not the gap between pause and resume.
   */
  lemma {:induction false} PauseGapExcluded(r: Record, a: int, b: int, c: int, d: int, status: string, desc: string)
    requires IsOpen(r) && r.startTime == Some(a) && r.totalSeconds == 0
    requires a <= b <= c <= d
    ensures var q := Stopped(Resumed(Paused(r, b), c), d, status, desc);
      q.totalSeconds == (b - a) + (d - c) && forall later :: LiveTotal(q, later) == (b - a) + (d - c)
  {
    var p := Paused(r, b);
    assert p.totalSeconds == b - a && IsOpen(p);
    var u := Resumed(p, c);
    assert u.startTime == Some(c) && u.totalSeconds == b - a;
    var q := Stopped(u, d, status, desc);
    assert q.totalSeconds == (b - a) + (d - c);
  }
}
