/**
 * The React admin dashboard: summary figures over the in-memory store, the per-user report,
 * and the add / edit / delete / reset-password forms with their validation.
 */
module AdminDashboard {
  import opened Wrappers
  import opened Seqs
  import opened AppContext
  import opened Text

  /** `filteredUsers`: every account except the one with id 1, the administrator. */
  function FilteredUsers(users: seq<User>): (r: seq<User>)
    ensures |r| <= |users|
    ensures forall u :: u in r <==> u in users && u.id != 1
  {
    Filter(users, (u: User) => u.id != 1)
  }

  /** The figure filter: "day" is today, "week" and "month" start at the given bounds, anything else keeps all. */
  predicate InPeriod(filter: string, date: int, today: int, weekAgo: int, monthAgo: int) {
    if filter == "day" then date == today
    else if filter == "week" then date >= weekAgo
    else if filter == "month" then date >= monthAgo
    else true
  }

  function Duration(l: LogEntry): int { l.duration }

  /** The accounts, the administrator's included, that have a log dated today. */
  function ActiveIds(logs: seq<LogEntry>, today: int): (r: set<int>)
    ensures forall id :: id in r <==> exists l :: l in logs && l.date == today && l.userId == id
    ensures |r| <= |Filter(logs, (l: LogEntry) => l.date == today)|
  {
    var todays := Filter(logs, (l: LogEntry) => l.date == today);
    var ids := ImageSet(todays, (l: LogEntry) => l.userId);
    assert forall id :: id in ids <==> exists l :: l in logs && l.date == today && l.userId == id by {
      forall id ensures id in ids <==> exists l :: l in logs && l.date == today && l.userId == id {
        if id in ids {
          var i :| 0 <= i < |todays| && todays[i].userId == id;
          assert todays[i] in todays;
        }
        if exists l :: l in logs && l.date == today && l.userId == id {
          var l :| l in logs && l.date == today && l.userId == id;
          assert l in todays;
          var i :| 0 <= i < |todays| && todays[i] == l;
        }
      }
    }
    ids
  }

  /** `stats`: the four summary cards, the hour figures as exact numbers of hours. */
  datatype Stats = Stats(totalUsers: nat, totalHours: real, todayActivity: real, activeUsers: nat)

  function DashboardStats(users: seq<User>, logs: seq<LogEntry>, filter: string, today: int, weekAgo: int, monthAgo: int): (s: Stats)
    ensures s.totalUsers == |FilteredUsers(users)|
    ensures s.totalHours * 3600.0 ==
      SumBy(Filter(logs, (l: LogEntry) => InPeriod(filter, l.date, today, weekAgo, monthAgo)), Duration) as real
    ensures s.todayActivity * 3600.0 == SumBy(Filter(logs, (l: LogEntry) => l.date == today), Duration) as real
    ensures s.activeUsers == |ActiveIds(logs, today)|
    ensures s.activeUsers <= |Filter(logs, (l: LogEntry) => l.date == today)|
  {
    var relevant := Filter(logs, (l: LogEntry) => InPeriod(filter, l.date, today, weekAgo, monthAgo));
    var todays := Filter(logs, (l: LogEntry) => l.date == today);
    Stats(|FilteredUsers(users)|, SumBy(relevant, Duration) as real / 3600.0,
      SumBy(todays, Duration) as real / 3600.0, |ActiveIds(logs, today)|)
  }

  /** With any filter but the three named ones, the hour figure counts every log. */
  lemma {:induction false} OtherFilterCountsAll(users: seq<User>, logs: seq<LogEntry>, filter: string, today: int, weekAgo: int, monthAgo: int)
    requires filter != "day" && filter != "week" && filter != "month"
    ensures DashboardStats(users, logs, filter, today, weekAgo, monthAgo).totalHours * 3600.0 == SumBy(logs, Duration) as real
  {
    FilterAll(logs, (l: LogEntry) => InPeriod(filter, l.date, today, weekAgo, monthAgo));
  }

  /** With "day", the hour figure and today's activity are the same number. */
  lemma {:induction false} DayFilterIsToday(users: seq<User>, logs: seq<LogEntry>, today: int, weekAgo: int, monthAgo: int)
    ensures DashboardStats(users, logs, "day", today, weekAgo, monthAgo).totalHours ==
            DashboardStats(users, logs, "day", today, weekAgo, monthAgo).todayActivity
  {
    FilterExt(logs, (l: LogEntry) => InPeriod("day", l.date, today, weekAgo, monthAgo), (l: LogEntry) => l.date == today);
  }

  /** A row of `userReports`: the account and its hours over all its logs, whatever the filter. */
  datatype UserReport = UserReport(user: User, hours: real)

  function UserReports(users: seq<User>, logs: seq<LogEntry>): (r: seq<UserReport>)
    ensures |r| == |FilteredUsers(users)|
    ensures forall i :: 0 <= i < |r| ==> r[i].user == FilteredUsers(users)[i] && r[i].user.id != 1
    ensures forall i :: 0 <= i < |r| ==> r[i].hours * 3600.0 == SumBy(LogsByUser(logs, r[i].user.id), Duration) as real
  {
    var shown := FilteredUsers(users);
    assert forall i :: 0 <= i < |shown| ==> shown[i].id != 1 by {
      forall i | 0 <= i < |shown| ensures shown[i].id != 1 {
        assert shown[i] in shown;
      }
    }
    seq(|shown|, (i: int) requires 0 <= i < |shown| =>
      UserReport(shown[i], SumBy(LogsByUser(logs, shown[i].id), Duration) as real / 3600.0))
  }

  /** Each report row agrees with the store's own `getUserStats` figure for that account. */
  lemma {:induction false} ReportsAgreeWithStore(users: seq<User>, logs: seq<LogEntry>, today: int, i: int)
    requires 0 <= i < |UserReports(users, logs)|
    ensures UserReports(users, logs)[i].hours == GetUserStats(logs, UserReports(users, logs)[i].user.id, today).totalHours
  {
    var row := UserReports(users, logs)[i];
    var stats := GetUserStats(logs, row.user.id, today);
    var sum := SumBy(LogsByUser(logs, row.user.id), (l: LogEntry) => l.duration);
    SumByExt(LogsByUser(logs, row.user.id), Duration, (l: LogEntry) => l.duration);
    assert row.hours * 3600.0 == sum as real;
    assert stats.totalHours * 3600.0 == sum as real;
  }

  /** `handleAddUser`'s checks: every field filled in, then an unused username. */
  function AddUserError(form: NewUser, users: seq<User>): (r: Option<string>)
    ensures r == Some("Please fill in all fields") <==>
      form.name == "" || form.username == "" || form.email == "" || form.password == ""
    ensures r == Some("Username already exists") <==>
      form.name != "" && form.username != "" && form.email != "" && form.password != "" &&
      exists u :: u in users && u.username == form.username
    ensures r.None? <==>
      form.name != "" && form.username != "" && form.email != "" && form.password != "" &&
      forall u :: u in users ==> u.username != form.username
  {
    if form.name == "" || form.username == "" || form.email == "" || form.password == "" then
      Some("Please fill in all fields")
    else if exists u :: u in users && u.username == form.username then
      Some("Username already exists")
    else None
  }

  /** No two accounts share a username. */
  predicate UniqueUsernames(users: seq<User>) {
    forall i, j :: 0 <= i < j < |users| ==> users[i].username != users[j].username
  }

  /** An account that passes the checks keeps usernames unique. */
  lemma {:induction false} AddKeepsUsernamesUnique(users: seq<User>, form: NewUser, added: User)
    requires UniqueUsernames(users)
    requires AddUserError(form, users).None?
    requires added.username == form.username
    ensures UniqueUsernames(users + [added])
  {
    var grown := users + [added];
    forall i, j | 0 <= i < j < |grown| ensures grown[i].username != grown[j].username {
      if j == |users| {
        assert grown[i] == users[i] && users[i] in users;
      } else {
        assert grown[i] == users[i] && grown[j] == users[j];
      }
    }
  }

  /** `handleEditUser`'s check: the selected account still has a name and an email. */
  function EditError(selected: Option<User>): (r: Option<string>)
    ensures r.None? <==> selected.Some? && selected.value.name != "" && selected.value.email != ""
    ensures r.Some? ==> r.value == "Please fill in all fields"
  {
    if selected.None? || selected.value.name == "" || selected.value.email == "" then Some("Please fill in all fields")
    else None
  }

  /**
   * `handleResetPassword`'s check: `length` of at least four, counted in UTF-16 code units (the
   * empty password is refused too).
   */
  function ResetError(password: string): (r: Option<string>)
    ensures r.None? <==> Utf16Length(password) >= 4
    ensures r.Some? ==> r.value == "Password must be at least 4 characters"
  {
    if Utf16Length(password) < 4 then Some("Password must be at least 4 characters") else None
  }

  /** Two characters outside the Basic Multilingual Plane are four code units and pass; three ASCII letters do not. */
  lemma ResetCountsCodeUnits()
    ensures ResetError("\U{1F600}\U{1F600}").None?
    ensures ResetError("abc").Some?
  {
    Utf16LengthCons('\U{1F600}', "\U{1F600}");
    Utf16LengthCons('\U{1F600}', "");
    assert "\U{1F600}\U{1F600}" == ['\U{1F600}'] + "\U{1F600}";
    assert "\U{1F600}" == ['\U{1F600}'] + "";
  }

  function NamePatch(u: User): Patch {
    Patch(None, Some(u.name), None, Some(u.email), None, None, None)
  }

  function PasswordPatch(password: string): Patch {
    Patch(None, None, None, None, Some(password), None, None)
  }

  /**
   * After a password reset, the account's username with the new password signs in as a user,
   * and, usernames being unique, it opens that very account.
   */
  lemma {:induction false} ResetPasswordThenLogin(users: seq<User>, k: int, password: string)
    requires 0 <= k < |users|
    requires UniqueUsernames(users)
    ensures var after := UpdateWhere(users, users[k].id, PasswordPatch(password));
      Login(after, users[k].username, password, UserType) == Some(AuthUser(users[k].id, users[k].username, UserType))
  {
    var after := UpdateWhere(users, users[k].id, PasswordPatch(password));
    PasswordResetRows(users, k, password);
    LoginByUniqueName(after, k, password);
  }

  /** A password reset changes only passwords: usernames stay unique, the account keeps its id and name. */
  lemma PasswordResetRows(users: seq<User>, k: int, password: string)
    requires 0 <= k < |users|
    requires UniqueUsernames(users)
    ensures var after := UpdateWhere(users, users[k].id, PasswordPatch(password));
      |after| == |users| && UniqueUsernames(after) && after[k].id == users[k].id &&
      after[k].username == users[k].username && after[k].password == password
  {
    var after := UpdateWhere(users, users[k].id, PasswordPatch(password));
    assert forall i :: 0 <= i < |users| ==> after[i].username == users[i].username;
  }

  /** With unique usernames, a user login by an account's username and password opens that account. */
  lemma LoginByUniqueName(users: seq<User>, k: int, password: string)
    requires 0 <= k < |users|
    requires UniqueUsernames(users)
    requires users[k].password == password
    ensures Login(users, users[k].username, password, UserType) == Some(AuthUser(users[k].id, users[k].username, UserType))
  {
    assert users[k] in users;
    var r := Login(users, users[k].username, password, UserType);
    var u :| u in users && u.username == users[k].username && u.password == password &&
      r.value == AuthUser(u.id, u.username, UserType);
    var j :| 0 <= j < |users| && users[j] == u;
    assert users[j].username == users[k].username;
    assert j == k;
  }

  /** The admin page's own state; `app` is the store it reads and changes. */
  class Dashboard {
    const app: AppStore
    var newUser: NewUser
    var isAddUserModalOpen: bool
    var isEditModalOpen: bool
    var isDeleteModalOpen: bool
    var isResetPasswordModalOpen: bool
    var selectedUser: Option<User>
    var newPassword: string

    constructor (app: AppStore)
      ensures this.app == app
      ensures newUser == NewUser("", "", "", "") && newPassword == "" && selectedUser == None
      ensures !isAddUserModalOpen && !isEditModalOpen && !isDeleteModalOpen && !isResetPasswordModalOpen
    {
      this.app := app;
      newUser := NewUser("", "", "", "");
      isAddUserModalOpen := false;
      isEditModalOpen := false;
      isDeleteModalOpen := false;
      isResetPasswordModalOpen := false;
      selectedUser := None;
      newPassword := "";
    }

    /**
     * `handleAddUser`: a failed check alerts and changes nothing; otherwise the account is added,
     * the dialog closes and the form is cleared.
     */
    method HandleAddUser() returns (alertText: Option<string>)
      modifies this, app
      ensures alertText == AddUserError(old(newUser), old(app.users))
      ensures alertText.Some? ==>
        app.users == old(app.users) && newUser == old(newUser) && isAddUserModalOpen == old(isAddUserModalOpen)
      ensures alertText.None? ==>
        app.users == old(app.users) + [User(MaxUserId(old(app.users)) + 1, old(newUser).name, old(newUser).username,
                                            old(newUser).email, old(newUser).password, 0.0, "Never")] &&
        !isAddUserModalOpen && newUser == NewUser("", "", "", "")
      ensures UniqueUsernames(old(app.users)) ==> UniqueUsernames(app.users)
      ensures UniqueUserIds(old(app.users)) ==> UniqueUserIds(app.users)
      ensures app.timeLogs == old(app.timeLogs) && app.currentUser == old(app.currentUser)
      ensures selectedUser == old(selectedUser) && newPassword == old(newPassword)
      ensures isEditModalOpen == old(isEditModalOpen) && isDeleteModalOpen == old(isDeleteModalOpen)
      ensures isResetPasswordModalOpen == old(isResetPasswordModalOpen)
    {
      alertText := AddUserError(newUser, app.users);
      if alertText.Some? {
        return;
      }
      ghost var before := app.users;
      app.AddUser(newUser);
      if UniqueUsernames(before) {
        AddKeepsUsernamesUnique(before, newUser, app.users[|app.users| - 1]);
      }
      isAddUserModalOpen := false;
      newUser := NewUser("", "", "", "");
    }

    /**
     * `handleEditUser`: a failed check alerts and changes nothing; otherwise the selected
     * account's name and email are written back, the dialog closes and the selection clears.
     */
    method HandleEditUser() returns (alertText: Option<string>)
      modifies this, app
      ensures alertText == EditError(old(selectedUser))
      ensures alertText.Some? ==>
        app.users == old(app.users) && selectedUser == old(selectedUser) && isEditModalOpen == old(isEditModalOpen)
      ensures alertText.None? ==>
        app.users == UpdateWhere(old(app.users), old(selectedUser).value.id, NamePatch(old(selectedUser).value)) &&
        !isEditModalOpen && selectedUser == None
      ensures app.timeLogs == old(app.timeLogs) && app.currentUser == old(app.currentUser)
      ensures newUser == old(newUser) && newPassword == old(newPassword)
      ensures isAddUserModalOpen == old(isAddUserModalOpen) && isDeleteModalOpen == old(isDeleteModalOpen)
      ensures isResetPasswordModalOpen == old(isResetPasswordModalOpen)
    {
      alertText := EditError(selectedUser);
      if alertText.Some? {
        return;
      }
      var chosen := selectedUser.value;
      app.UpdateUser(chosen.id, NamePatch(chosen));
      isEditModalOpen := false;
      selectedUser := None;
    }

    /**
     * `handleDeleteUser`: the selected account and its logs go, the dialog closes and the
     * selection clears. The page reaches it only with an account selected.
     */
    method HandleDeleteUser()
      requires selectedUser.Some?
      modifies this, app
      ensures var id := old(selectedUser).value.id;
        app.users == Filter(old(app.users), (u: User) => u.id != id) &&
        app.timeLogs == Filter(old(app.timeLogs), (l: LogEntry) => l.userId != id)
      ensures app.currentUser == old(app.currentUser)
      ensures !isDeleteModalOpen && selectedUser == None
      ensures newUser == old(newUser) && newPassword == old(newPassword)
      ensures isAddUserModalOpen == old(isAddUserModalOpen) && isEditModalOpen == old(isEditModalOpen)
      ensures isResetPasswordModalOpen == old(isResetPasswordModalOpen)
    {
      app.DeleteUser(selectedUser.value.id);
      isDeleteModalOpen := false;
      selectedUser := None;
    }

    /**
     * `handleResetPassword`: a short password alerts and changes nothing; otherwise the selected
     * account gets the new password, the dialog closes, selection and input clear, and a
     * success alert follows. A valid password needs an account selected.
     */
    method HandleResetPassword() returns (alertText: string)
      requires ResetError(newPassword).None? ==> selectedUser.Some?
      modifies this, app
      ensures ResetError(old(newPassword)).Some? ==>
        alertText == ResetError(old(newPassword)).value && app.users == old(app.users) &&
        selectedUser == old(selectedUser) && newPassword == old(newPassword) &&
        isResetPasswordModalOpen == old(isResetPasswordModalOpen)
      ensures ResetError(old(newPassword)).None? ==>
        alertText == "Password reset successfully!" &&
        app.users == UpdateWhere(old(app.users), old(selectedUser).value.id, PasswordPatch(old(newPassword))) &&
        !isResetPasswordModalOpen && selectedUser == None && newPassword == ""
      ensures app.timeLogs == old(app.timeLogs) && app.currentUser == old(app.currentUser)
      ensures newUser == old(newUser)
      ensures isAddUserModalOpen == old(isAddUserModalOpen) && isEditModalOpen == old(isEditModalOpen)
      ensures isDeleteModalOpen == old(isDeleteModalOpen)
    {
      var problem := ResetError(newPassword);
      if problem.Some? {
        alertText := problem.value;
        return;
      }
      app.UpdateUser(selectedUser.value.id, PasswordPatch(newPassword));
      isResetPasswordModalOpen := false;
      selectedUser := None;
      newPassword := "";
      alertText := "Password reset successfully!";
    }
  }
}
