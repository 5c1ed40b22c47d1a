/**
 * The administrator's aggregate queries: per-user totals over a date window
 * (`LEFT JOIN ... GROUP BY u.id`) and the dashboard counters. Both add up banked
 * `total_seconds` only; the running interval of an open row is not counted.
 */
module AdminController {
  import opened Wrappers
  import opened Seqs
  import opened TimeLog
  import opened TimerController

  /** A `users` row with the columns the report selects. */
  datatype Account = Account(id: int, name: string, username: string, adminId: Option<int>)

  /** One report row: the account's columns and its summed seconds. */
  datatype UserTotal = UserTotal(id: int, name: string, username: string, adminId: Option<int>, totalSeconds: int)

  /** The join condition `u.id = t.user_id AND ${timeCondition}`. */
  predicate Joins(r: Record, uid: int, filter: string, today: int) {
    r.owner == UserOwner(uid) && InWindow(filter, r.logDate, today)
  }

  /**
   * `COALESCE(SUM(t.total_seconds), 0)` for one user: the banked seconds of the rows that join,
   * 0 when none does. Rows owned through `admin_id` never join.
   */
  function BankedFor(logs: seq<Record>, uid: int, filter: string, today: int): (t: int)
    ensures t >= 0
    ensures t == SumBy(Filter(logs, (r: Record) => Joins(r, uid, filter, today)), (r: Record) => r.totalSeconds)
    ensures (forall i :: 0 <= i < |logs| ==> !Joins(logs[i], uid, filter, today)) ==> t == 0
  {
    var p := (r: Record) => Joins(r, uid, filter, today);
    var f := (r: Record) => r.totalSeconds;
    var masked := (r: Record) => if Joins(r, uid, filter, today) then r.totalSeconds else 0;
    SumByFilter(logs, p, f, masked);
    SumByNonNegative(Filter(logs, p), f);
    assert (forall i :: 0 <= i < |logs| ==> !p(logs[i])) ==> Filter(logs, p) == [] by {
      if forall i :: 0 <= i < |logs| ==> !p(logs[i]) {
        FilterNone(logs, p);
      }
    }
    SumBy(logs, masked)
  }

  /** `getReports` of the administrator: exactly one row per account, in account order. */
  function AdminReports(users: seq<Account>, logs: seq<Record>, filter: string, today: int): (rows: seq<UserTotal>)
    ensures |rows| == |users|
    ensures forall i :: 0 <= i < |users| ==>
      rows[i].id == users[i].id && rows[i].name == users[i].name &&
      rows[i].username == users[i].username && rows[i].adminId == users[i].adminId &&
      rows[i].totalSeconds == BankedFor(logs, users[i].id, filter, today)
  {
    seq(|users|, i requires 0 <= i < |users| =>
      var u := users[i];
      UserTotal(u.id, u.name, u.username, u.adminId, BankedFor(logs, u.id, filter, today)))
  }

  /**
   * On a valid table, the administrator's figure for a user never exceeds the total the user
   * sees in their own report for the same window at any later instant: the two differ by the
   * in-flight interval of a running row.
   */
  lemma {:induction false} AdminTotalBelowUserReport(logs: seq<Record>, nextId: nat, clock: int, users: seq<UserRow>,
                                                     uid: int, filter: string, today: int, now: int)
    requires ValidLogs(logs, nextId, clock) && clock <= now
    ensures BankedFor(logs, uid, filter, today)
      <= UserReport(logs, users, Principal(uid, "user"), None, filter, today, now).totalSeconds
  {
    var who := Principal(uid, "user");
    assert ReportOwner(who, None) == UserOwner(uid);
    FilterExt(logs, (r: Record) => Joins(r, uid, filter, today), (r: Record) => InReport(r, UserOwner(uid), filter, today));
    ReportTotalGrows(logs, nextId, clock, users, who, None, filter, today, now, now);
  }

  /** A filter other than "day", "week" or "month" puts no date restriction on the join. */
  lemma {:induction false} UnknownFilterCountsAll(logs: seq<Record>, uid: int, filter: string, today: int)
    requires filter != "day" && filter != "week" && filter != "month"
    ensures BankedFor(logs, uid, filter, today)
      == SumBy(Filter(logs, (r: Record) => r.owner == UserOwner(uid)), (r: Record) => r.totalSeconds)
  {
    FilterExt(logs, (r: Record) => Joins(r, uid, filter, today), (r: Record) => r.owner == UserOwner(uid));
  }

  /** `{ totalUsers, totalHours }` of the dashboard. */
  datatype DashboardStats = DashboardStats(totalUsers: int, totalHours: real)

  /**
   * `getDashboardStats`: the number of accounts and `(SUM(total_seconds) || 0) / 3600` over all
   * rows, whoever owns them. No rows gives 0 hours; every user's report figure is included.
   */
  function Dashboard(users: seq<Account>, logs: seq<Record>): (d: DashboardStats)
    ensures d.totalUsers == |users|
    ensures d.totalHours * 3600.0 == SumBy(logs, (r: Record) => r.totalSeconds) as real
    ensures logs == [] ==> d.totalHours == 0.0
    ensures d.totalHours >= 0.0
    ensures forall uid, filter, today :: BankedFor(logs, uid, filter, today) as real <= d.totalHours * 3600.0
  {
    var f := (r: Record) => r.totalSeconds;
    SumByNonNegative(logs, f);
    assert forall uid, filter, today :: BankedFor(logs, uid, filter, today) <= SumBy(logs, f) by {
      forall uid, filter, today
        ensures BankedFor(logs, uid, filter, today) <= SumBy(logs, f)
      {
        SumByMonotone(logs, (r: Record) => if Joins(r, uid, filter, today) then r.totalSeconds else 0, f);
      }
    }
    DashboardStats(|users|, SumBy(logs, f) as real / 3600.0)
  }
}
