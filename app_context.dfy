/**
 * The React front end's in-memory account and time-log store: the seeded lists, the
 * credential check of `login`, and the list operations that add, patch and delete entries.
 * Dates are ISO calendar days written as the integer YYYYMMDD, which orders and compares like
 * the `'YYYY-MM-DD'` strings the store holds.
 */
module AppContext {
  import opened Wrappers
  import opened Seqs

  /** A `User` entry; `totalHours` is kept as an exact number of hours. */
  datatype User = User(id: int, name: string, username: string, email: string, password: string,
                       totalHours: real, lastActivity: string)

  /** A `TimeLog` entry; `duration` in seconds, `startTime`/`endTime` as display strings. */
  datatype LogEntry = LogEntry(id: int, userId: int, date: int, description: string, duration: int,
                               startTime: string, endTime: string)

  datatype AccountType = AdminType | UserType

  /** The signed-in account: `{ id, username, type }`. */
  datatype AuthUser = AuthUser(id: int, username: string, kind: AccountType)

  /** The fields `addUser` is given. */
  datatype NewUser = NewUser(name: string, username: string, email: string, password: string)

  /** A `Partial<User>`: every field optional. */
  datatype Patch = Patch(id: Option<int>, name: Option<string>, username: Option<string>, email: Option<string>,
                         password: Option<string>, totalHours: Option<real>, lastActivity: Option<string>)

  /** A log without its id, as `addTimeLog` is given it. */
  datatype NewLog = NewLog(userId: int, date: int, description: string, duration: int, startTime: string, endTime: string)

  /** The accounts the store starts with when nothing is saved. */
  const SeedUsers: seq<User> := [
    User(1, "Admin User", "admin", "admin@timetrack.com", "admin", 0.0, "Just now"),
    User(2, "John Doe", "user", "john@example.com", "user", 42.5, "2 hours ago"),
    User(3, "Jane Smith", "janesmith", "jane@example.com", "password", 38.2, "5 hours ago"),
    User(4, "Mike Johnson", "mikej", "mike@example.com", "password", 45.8, "1 hour ago"),
    User(5, "Sarah Williams", "sarahw", "sarah@example.com", "password", 40.0, "3 hours ago")
  ]

  /** The time logs the store starts with when nothing is saved. */
  const SeedLogs: seq<LogEntry> := [
    LogEntry(1, 2, 20260210, "Frontend Development", 13500, "09:00", "12:45"),
    LogEntry(2, 2, 20260210, "Team Meeting", 5400, "14:00", "15:30"),
    LogEntry(3, 2, 20260209, "Code Review", 8100, "10:00", "12:15"),
    LogEntry(4, 3, 20260210, "Documentation", 4800, "09:00", "10:20"),
    LogEntry(5, 4, 20260210, "Bug Fixes", 15000, "08:00", "12:10")
  ]

  /** `users.find(u => u.username === username && u.password === password)`: the first match. */
  function FindByCredentials(users: seq<User>, username: string, password: string): (r: Option<User>)
    ensures r.Some? ==> r.value in users && r.value.username == username && r.value.password == password
    ensures r.Some? ==>
      exists i :: 0 <= i < |users| && users[i] == r.value &&
        forall j :: 0 <= j < i ==> !(users[j].username == username && users[j].password == password)
    ensures r.None? <==> forall u :: u in users ==> !(u.username == username && u.password == password)
  {
    var k := FindIndex(users, (u: User) => u.username == username && u.password == password);
    if k.Some? then Some(users[k.value]) else None
  }

  /**
   * `login`: the fixed admin/admin pair opens the admin account 1; a user login opens the
   * first entry whose username and password both match. Any other combination fails — a
   * listed account's credentials given with the admin type, too.
   */
  function Login(users: seq<User>, username: string, password: string, kind: AccountType): (r: Option<AuthUser>)
    ensures r.Some? <==>
      (kind == AdminType && username == "admin" && password == "admin") ||
      (kind == UserType && exists u :: u in users && u.username == username && u.password == password)
    ensures r.Some? ==> r.value.kind == kind
    ensures r.Some? && kind == AdminType ==> r.value == AuthUser(1, "admin", AdminType)
    ensures r.Some? && kind == UserType ==>
      exists i :: 0 <= i < |users| && users[i].username == username && users[i].password == password &&
        r.value == AuthUser(users[i].id, users[i].username, UserType) &&
        forall j :: 0 <= j < i ==> !(users[j].username == username && users[j].password == password)
  {
    if kind == AdminType && username == "admin" && password == "admin" then Some(AuthUser(1, "admin", AdminType))
    else
      var found := FindByCredentials(users, username, password);
      if found.Some? && kind == UserType then Some(AuthUser(found.value.id, found.value.username, UserType))
      else None
  }

  /**
   * On the seeded list the admin's own pair also opens a *user* session for account 1, because
   * the seeded administrator is an ordinary entry of the list.
   */
  lemma SeededAdminLogsInAsUser()
    ensures Login(SeedUsers, "admin", "admin", UserType) == Some(AuthUser(1, "admin", UserType))
    ensures Login(SeedUsers, "user", "user", AdminType) == None
  {
    assert SeedUsers[0].username == "admin" && SeedUsers[0].password == "admin";
  }

  /** `Math.max(...ids, 0)`: the largest id, or 0 when there is none or all are negative. */
  function MaxId(ids: seq<int>): (m: int)
    ensures m >= 0
    ensures forall i :: 0 <= i < |ids| ==> ids[i] <= m
    ensures m == 0 || m in ids
  {
    if ids == [] then 0
    else
      var rest := MaxId(ids[1..]);
      assert forall i :: 1 <= i < |ids| ==> ids[i] == ids[1..][i - 1];
      if ids[0] > rest then ids[0] else rest
  }

  /** The next account id is one above the largest account id. */
  function MaxUserId(users: seq<User>): (m: int)
    ensures m >= 0
    ensures forall i :: 0 <= i < |users| ==> users[i].id <= m
    ensures m == 0 || exists i :: 0 <= i < |users| && users[i].id == m
  {
    var ids := seq(|users|, i requires 0 <= i < |users| => users[i].id);
    assert forall i :: 0 <= i < |users| ==> ids[i] == users[i].id;
    MaxId(ids)
  }

  /** The next log id is one above the largest log id. */
  function MaxLogId(logs: seq<LogEntry>): (m: int)
    ensures m >= 0
    ensures forall i :: 0 <= i < |logs| ==> logs[i].id <= m
    ensures m == 0 || exists i :: 0 <= i < |logs| && logs[i].id == m
  {
    var ids := seq(|logs|, i requires 0 <= i < |logs| => logs[i].id);
    assert forall i :: 0 <= i < |logs| ==> ids[i] == logs[i].id;
    MaxId(ids)
  }

  /** No two entries share an id. */
  predicate UniqueUserIds(users: seq<User>) {
    forall i, j :: 0 <= i < j < |users| ==> users[i].id != users[j].id
  }

  predicate UniqueLogIds(logs: seq<LogEntry>) {
    forall i, j :: 0 <= i < j < |logs| ==> logs[i].id != logs[j].id
  }

  /** `{ ...user, ...updates }`: each given field replaces the entry's own. */
  function Merge(u: User, p: Patch): (r: User)
    ensures r.id == p.id.GetOr(u.id) && r.name == p.name.GetOr(u.name)
    ensures r.username == p.username.GetOr(u.username) && r.email == p.email.GetOr(u.email)
    ensures r.password == p.password.GetOr(u.password) && r.totalHours == p.totalHours.GetOr(u.totalHours)
    ensures r.lastActivity == p.lastActivity.GetOr(u.lastActivity)
  {
    User(p.id.GetOr(u.id), p.name.GetOr(u.name), p.username.GetOr(u.username), p.email.GetOr(u.email),
      p.password.GetOr(u.password), p.totalHours.GetOr(u.totalHours), p.lastActivity.GetOr(u.lastActivity))
  }

  /** Applying the same patch twice is applying it once. */
  lemma MergeIdempotent(u: User, p: Patch)
    ensures Merge(Merge(u, p), p) == Merge(u, p)
  {
  }

  /** `users.map(user => user.id === id ? { ...user, ...updates } : user)`. */
  function UpdateWhere(users: seq<User>, id: int, p: Patch): (r: seq<User>)
    ensures |r| == |users|
    ensures forall i :: 0 <= i < |users| ==> r[i] == if users[i].id == id then Merge(users[i], p) else users[i]
  {
    seq(|users|, i requires 0 <= i < |users| => if users[i].id == id then Merge(users[i], p) else users[i])
  }

  /**
   * A patch that leaves the id alone keeps ids unique, and touches nothing but the entry with
   * that id.
   */
  lemma UpdateKeepsIds(users: seq<User>, id: int, p: Patch)
    requires UniqueUserIds(users) && p.id.None?
    ensures UniqueUserIds(UpdateWhere(users, id, p))
    ensures forall i :: 0 <= i < |users| ==> UpdateWhere(users, id, p)[i].id == users[i].id
  {
  }

  /** `getTimeLogsByUser`: that account's logs, in their original order. */
  function LogsByUser(logs: seq<LogEntry>, uid: int): (r: seq<LogEntry>)
    ensures forall l :: l in r <==> l in logs && l.userId == uid
  {
    Filter(logs, (l: LogEntry) => l.userId == uid)
  }

  /** `getUserStats`: hours over all the account's logs, and the number of them dated today. */
  datatype UserStats = UserStats(totalHours: real, sessionsToday: nat)

  function GetUserStats(logs: seq<LogEntry>, uid: int, today: int): (s: UserStats)
    ensures s.sessionsToday == |Filter(logs, (l: LogEntry) => l.userId == uid && l.date == today)|
    ensures s.sessionsToday <= |LogsByUser(logs, uid)|
    ensures s.totalHours * 3600.0 == SumBy(LogsByUser(logs, uid), (l: LogEntry) => l.duration) as real
  {
    var mine := LogsByUser(logs, uid);
    var todays := Filter(mine, (l: LogEntry) => l.date == today);
    FilterFilter(logs, (l: LogEntry) => l.userId == uid, (l: LogEntry) => l.date == today,
      (l: LogEntry) => l.userId == uid && l.date == today);
    UserStats(SumBy(mine, (l: LogEntry) => l.duration) as real / 3600.0, |todays|)
  }

  /**
   * After `deleteUser(id)` no log refers to that account, and the logs of every other account
   * are exactly what they were.
   */
  lemma {:induction false} DeleteCascades(logs: seq<LogEntry>, id: int, other: int)
    requires other != id
    ensures LogsByUser(Filter(logs, (l: LogEntry) => l.userId != id), id) == []
    ensures LogsByUser(Filter(logs, (l: LogEntry) => l.userId != id), other) == LogsByUser(logs, other)
  {
    var kept := Filter(logs, (l: LogEntry) => l.userId != id);
    FilterNone(kept, (l: LogEntry) => l.userId == id);
    FilterFilter(logs, (l: LogEntry) => l.userId != id, (l: LogEntry) => l.userId == other,
      (l: LogEntry) => l.userId == other);
  }

  /** The `AppProvider` state. */
  class AppStore {
    var users: seq<User>
    var timeLogs: seq<LogEntry>
    var currentUser: Option<AuthUser>

    /** Nothing saved: the seeded lists and nobody signed in. */
    constructor Seeded()
      ensures users == SeedUsers && timeLogs == SeedLogs && currentUser == None
    {
      users := SeedUsers;
      timeLogs := SeedLogs;
      currentUser := None;
    }

    /** Lists restored from a previous session. */
    constructor Restored(users: seq<User>, timeLogs: seq<LogEntry>, currentUser: Option<AuthUser>)
      ensures this.users == users && this.timeLogs == timeLogs && this.currentUser == currentUser
    {
      this.users := users;
      this.timeLogs := timeLogs;
      this.currentUser := currentUser;
    }

    /** `login`: on success the session becomes the matched account; on failure nothing changes. */
    method SignIn(username: string, password: string, kind: AccountType) returns (ok: bool)
      modifies this
      ensures ok == Login(old(users), username, password, kind).Some?
      ensures currentUser == if ok then Login(old(users), username, password, kind) else old(currentUser)
      ensures users == old(users) && timeLogs == old(timeLogs)
    {
      var r := Login(users, username, password, kind);
      if r.Some? {
        currentUser := r;
      }
      ok := r.Some?;
    }

    method SignOut()
      modifies this
      ensures currentUser == None && users == old(users) && timeLogs == old(timeLogs)
    {
      currentUser := None;
    }

    /**
     * `addUser`: appended at the end with an id above every existing one, no hours and
     * "Never" as last activity.
     */
    method AddUser(u: NewUser)
      modifies this
      ensures users == old(users) + [User(MaxUserId(old(users)) + 1, u.name, u.username, u.email, u.password, 0.0, "Never")]
      ensures forall i :: 0 <= i < |old(users)| ==> old(users)[i].id < users[|users| - 1].id
      ensures UniqueUserIds(old(users)) ==> UniqueUserIds(users)
      ensures timeLogs == old(timeLogs) && currentUser == old(currentUser)
    {
      var added := User(MaxUserId(users) + 1, u.name, u.username, u.email, u.password, 0.0, "Never");
      users := users + [added];
    }

    /** `updateUser`: the patch is merged into every entry with that id and nowhere else. */
    method UpdateUser(id: int, p: Patch)
      modifies this
      ensures users == UpdateWhere(old(users), id, p)
      ensures timeLogs == old(timeLogs) && currentUser == old(currentUser)
    {
      users := UpdateWhere(users, id, p);
    }

    /** `deleteUser`: the account and all of its logs go; everything else stays, in order. */
    method DeleteUser(id: int)
      modifies this
      ensures users == Filter(old(users), (u: User) => u.id != id)
      ensures timeLogs == Filter(old(timeLogs), (l: LogEntry) => l.userId != id)
      ensures currentUser == old(currentUser)
    {
      users := Filter(users, (u: User) => u.id != id);
      timeLogs := Filter(timeLogs, (l: LogEntry) => l.userId != id);
    }

    /**
     * `addTimeLog`: appended with a fresh id; the first account with the log's `userId` gains
     * `duration / 3600` hours and "Just now", and the patch goes to every entry with that id.
     */
    method AddTimeLog(log: NewLog)
      modifies this
      ensures timeLogs == old(timeLogs) + [LogEntry(MaxLogId(old(timeLogs)) + 1, log.userId, log.date,
                                                    log.description, log.duration, log.startTime, log.endTime)]
      ensures UniqueLogIds(old(timeLogs)) ==> UniqueLogIds(timeLogs)
      ensures var owner := FindById(old(users), log.userId);
        users == if owner.None? then old(users)
                 else UpdateWhere(old(users), log.userId, HoursPatch(owner.value, log.duration))
      ensures currentUser == old(currentUser)
    {
      var entry := LogEntry(MaxLogId(timeLogs) + 1, log.userId, log.date, log.description, log.duration,
        log.startTime, log.endTime);
      timeLogs := timeLogs + [entry];
      var owner := FindById(users, log.userId);
      if owner.Some? {
        UpdateUser(owner.value.id, HoursPatch(owner.value, log.duration));
      }
    }
  }

  /** `users.find(u => u.id === id)`: the first entry with the id. */
  function FindById(users: seq<User>, id: int): (r: Option<User>)
    ensures r.Some? ==> r.value in users && r.value.id == id
    ensures r.Some? ==> exists i :: 0 <= i < |users| && users[i] == r.value && forall j :: 0 <= j < i ==> users[j].id != id
    ensures r.None? <==> forall u :: u in users ==> u.id != id
  {
    var k := FindIndex(users, (u: User) => u.id == id);
    if k.Some? then Some(users[k.value]) else None
  }

  /** `{ totalHours: user.totalHours + duration / 3600, lastActivity: 'Just now' }`. */
  function HoursPatch(u: User, duration: int): (p: Patch)
    ensures Merge(u, p) == u.(totalHours := u.totalHours + duration as real / 3600.0, lastActivity := "Just now")
  {
    Patch(None, None, None, None, None, Some(u.totalHours + duration as real / 3600.0), Some("Just now"))
  }
}
