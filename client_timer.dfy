/**
 * The plain-JavaScript dashboard's view of the two server timers: the local timer state it
 * keeps per kind, the elapsed and remaining seconds it displays, the automatic stop of a
 * project whose estimate has run out, which buttons it shows, and the request each button
 * sends. Browser time is whole milliseconds.
 */
module ClientTimer {
  import opened Wrappers
  import opened Text
  import opened TimeLog
  import opened TimerController

  /** `taskState` / `projectState`: `startTime` in milliseconds, `baseSeconds` banked seconds. */
  datatype TimerState = TimerState(active: bool, startTime: Option<int>, baseSeconds: int, isRunning: bool, estimatedSeconds: int)

  /**
   * Seconds shown for a timer at browser instant `nowMs`: the banked seconds, plus the whole
   * seconds since `startTime` while running (`Math.floor((new Date() - startTime) / 1000)`).
   */
  function Elapsed(st: TimerState, nowMs: int): int {
    st.baseSeconds + if st.isRunning && st.startTime.Some? then (nowMs - st.startTime.value) / 1000 else 0
  }

  /** The displayed seconds never go backwards while the state is unchanged. */
  lemma ElapsedMonotone(st: TimerState, a: int, b: int)
    requires a <= b
    ensures Elapsed(st, a) <= Elapsed(st, b)
  {
    if st.isRunning && st.startTime.Some? {
      FloorDivMonotone(a - st.startTime.value, b - st.startTime.value, 1000);
    }
  }

  lemma FloorDivMonotone(x: int, y: int, d: int)
    requires x <= y && d > 0
    ensures x / d <= y / d
  {
    if x / d > y / d {
      assert d * (x / d) >= d * (y / d + 1) by {
        MulMonotone(d, y / d + 1, x / d);
      }
    }
  }

  lemma MulMonotone(d: int, a: int, b: int)
    requires d > 0 && a <= b
    ensures d * a <= d * b
  {
  }

  /** What `updateProjectDisplay` shows, and whether it calls `stopProjectAutomatically`. */
  datatype ProjectView = ProjectView(shown: int, autoStop: bool)

  /**
   * With an estimate, the display counts down `max(0, estimate - elapsed)` and stops the
   * project the moment the elapsed time reaches the estimate while it runs; without one it
   * counts up and never stops on its own.
   */
  function ProjectDisplay(st: TimerState, nowMs: int): (v: ProjectView)
    ensures st.estimatedSeconds > 0 ==> v.shown >= 0
    ensures st.estimatedSeconds > 0 && Elapsed(st, nowMs) >= 0 ==> v.shown <= st.estimatedSeconds
    ensures st.estimatedSeconds > 0 && Elapsed(st, nowMs) < st.estimatedSeconds ==> v.shown == st.estimatedSeconds - Elapsed(st, nowMs)
    ensures st.estimatedSeconds > 0 && Elapsed(st, nowMs) >= st.estimatedSeconds ==> v.shown == 0
    ensures st.estimatedSeconds <= 0 ==> v.shown == Elapsed(st, nowMs)
    ensures v.autoStop <==> st.estimatedSeconds > 0 && st.isRunning && Elapsed(st, nowMs) >= st.estimatedSeconds
    ensures v.autoStop <==> st.estimatedSeconds > 0 && st.isRunning && v.shown == 0
  {
    var current := Elapsed(st, nowMs);
    if st.estimatedSeconds > 0 then
      var remaining := if st.estimatedSeconds - current > 0 then st.estimatedSeconds - current else 0;
      ProjectView(remaining, remaining == 0 && st.isRunning)
    else
      ProjectView(current, false)
  }

  /**
   * A one-minute project started from nothing stops itself exactly when a full minute has
   * passed on the browser clock, not a millisecond before.
   */
  lemma AutoStopBoundary(t: int)
    ensures var st := TimerState(true, Some(t), 0, true, 60);
      !ProjectDisplay(st, t + 59999).autoStop && ProjectDisplay(st, t + 59999).shown == 1 &&
      ProjectDisplay(st, t + 60000).autoStop && ProjectDisplay(st, t + 60000).shown == 0
  {
    var st := TimerState(true, Some(t), 0, true, 60);
    assert Elapsed(st, t + 59999) == 59;
    assert Elapsed(st, t + 60000) == 60;
  }

  /** A timer in the state the server reports: server seconds become browser milliseconds. */
  function FromSession(s: Session, previous: TimerState, keepEstimate: bool): (st: TimerState)
    ensures s.Active? ==> st.active && st.baseSeconds == s.totalSeconds && st.isRunning == s.isRunning
    ensures s.Active? ==> st.startTime == if s.startTime.Some? then Some(1000 * s.startTime.value) else None
    ensures s.Active? ==> st.estimatedSeconds == if keepEstimate then s.estimatedSeconds else 0
    ensures s.Inactive? ==> st == previous.(active := false, isRunning := false, startTime := None)
  {
    match s
    case Inactive => previous.(active := false, isRunning := false, startTime := None)
    case Active(_, start, total, running, _, _, _, est, _) =>
      TimerState(true, if start.Some? then Some(1000 * start.value) else None, total, running,
        if keepEstimate then est else 0)
  }

  /**
   * Browser and server agree: a timer synchronised from the status of an open row shows, at any
   * instant within second `now` of the server clock, that row's live total at `now`.
   */
  lemma {:induction false} ClientAgreesWithServer(r: Record, previous: TimerState, keepEstimate: bool, now: int, ms: int)
    requires IsOpen(r) && 0 <= ms < 1000
    ensures Elapsed(FromSession(SessionOf(r), previous, keepEstimate), 1000 * now + ms) == LiveTotal(r, now)
  {
    var st := FromSession(SessionOf(r), previous, keepEstimate);
    if r.startTime.Some? {
      var s := r.startTime.value;
      assert 1000 * now + ms - 1000 * s == 1000 * (now - s) + ms;
      DivExact(now - s, ms);
    }
  }

  lemma DivExact(q: int, ms: int)
    requires 0 <= ms < 1000
    ensures (1000 * q + ms) / 1000 == q
  {
  }

  /** Which of the task buttons are shown. */
  datatype TaskButtons = TaskButtons(start: bool, pause: bool, resume: bool, finish: bool, stop: bool)

  /** The task half of `updateTimerUI`. */
  function TaskVisibility(st: TimerState): (b: TaskButtons)
    ensures !st.active ==> b == TaskButtons(true, false, false, false, false)
    ensures st.active && st.isRunning ==> b == TaskButtons(false, true, false, true, true)
    ensures st.active && !st.isRunning ==> b == TaskButtons(false, false, true, true, true)
  {
    if !st.active then TaskButtons(true, false, false, false, false)
    else TaskButtons(false, st.isRunning, !st.isRunning, true, true)
  }

  /** The project half of `updateTimerUI`: Start when inactive, Stop when active. */
  datatype ProjectButtons = ProjectButtons(start: bool, stop: bool)

  function ProjectVisibility(st: TimerState): (b: ProjectButtons)
    ensures b.start <==> !st.active
    ensures b.stop <==> st.active
  {
    ProjectButtons(!st.active, st.active)
  }

  /**
   * After synchronising with the status of a valid table, each shown task button is exactly a
   * command the server accepts: Start iff no general timer is open, Pause iff one is running,
   * Resume iff one is paused, Finish and Stop iff one is open. The same holds for the project
   * buttons.
   */
  lemma {:induction false} ButtonsMatchServer(logs: seq<Record>, nextId: nat, clock: int, o: Owner, task: TimerState, project: TimerState)
    requires ValidLogs(logs, nextId, clock)
    ensures var s := StatusOf(logs, o);
      var b := TaskVisibility(FromSession(s.general, task, false));
      (b.start <==> FindFirst(logs, o, General, AnyOpen).None?) &&
      (b.pause <==> FindFirst(logs, o, General, RunningOnly).Some?) &&
      (b.resume <==> FindFirst(logs, o, General, PausedOnly).Some?) &&
      (b.finish <==> FindFirst(logs, o, General, AnyOpen).Some?) &&
      (b.stop <==> FindFirst(logs, o, General, AnyOpen).Some?)
    ensures var s := StatusOf(logs, o);
      var b := ProjectVisibility(FromSession(s.project, project, true));
      (b.start <==> FindFirst(logs, o, Project, AnyOpen).None?) &&
      (b.stop <==> FindFirst(logs, o, Project, AnyOpen).Some?)
  {
    StatusSlots(logs, nextId, clock, o, General);
    StatusSlots(logs, nextId, clock, o, Project);
    ModesSplit(logs, o, General);
  }

  /** An open row is running or paused, never both. */
  lemma ModesSplit(logs: seq<Record>, o: Owner, c: Category)
    requires SingleOpen(logs)
    ensures FindFirst(logs, o, c, AnyOpen).Some? ==>
      (FindFirst(logs, o, c, RunningOnly).Some? <==> FindFirst(logs, o, c, PausedOnly).None?)
    ensures FindFirst(logs, o, c, AnyOpen).None? ==>
      FindFirst(logs, o, c, RunningOnly).None? && FindFirst(logs, o, c, PausedOnly).None?
  {
    var k := FindFirst(logs, o, c, AnyOpen);
    if k.Some? {
      var rk := FindFirst(logs, o, c, RunningOnly);
      var pk := FindFirst(logs, o, c, PausedOnly);
      if rk.Some? {
        SelectedIsUnique(logs, o, c, AnyOpen, rk.value, k.value);
      }
      if pk.Some? {
        SelectedIsUnique(logs, o, c, AnyOpen, pk.value, k.value);
      }
    }
  }

  /** A click on one of the dashboard's buttons, with the form fields it reads. */
  datatype Click =
    | StartTask(description: string)
    | PauseTask
    | ResumeTask
    | FinishTask(description: string)
    | StopTask(description: string)
    | StartProject(name: string, description: string, hoursField: string, minutesField: string)
    | StopProject

  /** The request a click posts. */
  datatype Command =
    | StartCmd(req: StartRequest)
    | PauseCmd(isProject: bool)
    | ResumeCmd(isProject: bool)
    | StopCmd(isProject: bool, workDescription: Option<string>, completionStatus: Option<string>)

  /** `(h * 3600) + (m * 60)` from the two estimate fields, an unreadable field counting as 0. */
  function EstimateOf(hoursField: string, minutesField: string): int {
    ParseIntOrZero(hoursField) * 3600 + ParseIntOrZero(minutesField) * 60
  }

  /**
   * The request each click posts; `None` when a project start is refused in the browser because
   * the name is empty. Finish sends "finished", Stop "not_completed", project Stop "finished".
   */
  function Payload(click: Click): (cmd: Option<Command>)
    ensures click.StartProject? ==> (cmd.None? <==> click.name == "")
    ensures click.StartProject? && cmd.Some? ==>
      cmd.value == StartCmd(StartRequest(None, Some(click.name), Some(click.description),
        Some(EstimateOf(click.hoursField, click.minutesField))))
    ensures click.StartTask? ==> cmd == Some(StartCmd(StartRequest(Some(click.description), None, None, None)))
    ensures click.FinishTask? ==> cmd == Some(StopCmd(false, Some(click.description), Some("finished")))
    ensures click.StopTask? ==> cmd == Some(StopCmd(false, Some(click.description), Some("not_completed")))
    ensures click.StopProject? ==> cmd == Some(StopCmd(true, None, Some("finished")))
    ensures click.PauseTask? ==> cmd == Some(PauseCmd(false))
    ensures click.ResumeTask? ==> cmd == Some(ResumeCmd(false))
  {
    match click
    case StartTask(desc) => Some(StartCmd(StartRequest(Some(desc), None, None, None)))
    case PauseTask => Some(PauseCmd(false))
    case ResumeTask => Some(ResumeCmd(false))
    case FinishTask(desc) => Some(StopCmd(false, Some(desc), Some("finished")))
    case StopTask(desc) => Some(StopCmd(false, Some(desc), Some("not_completed")))
    case StartProject(name, desc, hours, minutes) =>
      if name == "" then None
      else Some(StartCmd(StartRequest(None, Some(name), Some(desc), Some(EstimateOf(hours, minutes)))))
    case StopProject => Some(StopCmd(true, None, Some("finished")))
  }

  /** The request `stopProjectAutomatically` posts. */
  const AutoStopCommand: Command :=
    StopCmd(true, Some("Project ended automatically: Time limit reached."), Some("not_completed"))

  /** A posted project start always opens a project timer on the server, never a general one. */
  lemma ProjectStartIsProject(name: string, desc: string, hours: string, minutes: string)
    requires name != ""
    ensures var cmd := Payload(StartProject(name, desc, hours, minutes));
      cmd.Some? && cmd.value.StartCmd? && RequestCategory(cmd.value.req) == Project
  {
  }

  /** `h || ''`: an hour or minute count written back into its field, blank for zero. */
  function FieldText(n: int): string {
    if n == 0 then "" else IntToString(n)
  }

  /**
   * The estimate fields `initTimer` writes for a project read back as the estimate rounded down
   * to whole minutes: re-reading them gives `h * 3600 + m * 60`.
   */
  lemma {:induction false} EstimateFieldsRoundTrip(est: nat)
    ensures EstimateOf(FieldText(est / 3600), FieldText((est % 3600) / 60)) == est - est % 60
  {
    var h, m := est / 3600, (est % 3600) / 60;
    FieldTextRoundTrip(h);
    FieldTextRoundTrip(m);
    WholeMinutesOf(est);
  }

  /** A count written into a field by `initTimer` reads back as itself. */
  lemma FieldTextRoundTrip(n: nat)
    ensures ParseIntOrZero(FieldText(n)) == n
  {
    ParseIntOrZeroDigits(n);
  }

  lemma WholeMinutesOf(est: nat)
    ensures (est / 3600) * 3600 + ((est % 3600) / 60) * 60 == est - est % 60
  {
    assert est == (est / 3600) * 3600 + est % 3600;
    assert est % 3600 == ((est % 3600) / 60) * 60 + (est % 3600) % 60;
    assert (est % 3600) % 60 == est % 60;
  }

  /** The browser's module-level `taskState` and `projectState`. */
  class ClientTimers {
    var task: TimerState
    var project: TimerState

    constructor ()
      ensures task == TimerState(false, None, 0, false, 0)
      ensures project == TimerState(false, None, 0, false, 0)
    {
      task := TimerState(false, None, 0, false, 0);
      project := TimerState(false, None, 0, false, 0);
    }

    /**
     * `initTimer` after the status call: an active slot replaces the state; an inactive one only
     * clears `active`, `isRunning` and `startTime`, keeping the old banked seconds and estimate.
     * The task state carries no estimate.
     */
    method InitTimer(status: Status)
      modifies this
      ensures task == FromSession(status.general, old(task), false)
      ensures project == FromSession(status.project, old(project), true)
      ensures status.general.Inactive? ==> !task.active && !task.isRunning && task.startTime.None?
      ensures status.project.Inactive? ==> !project.active && !project.isRunning && project.startTime.None?
    {
      if status.general.Active? {
        var g := status.general;
        task := TimerState(true, if g.startTime.Some? then Some(1000 * g.startTime.value) else None,
          g.totalSeconds, g.isRunning, 0);
      } else {
        task := task.(active := false);
        task := task.(isRunning := false);
        task := task.(startTime := None);
      }
      if status.project.Active? {
        var p := status.project;
        project := TimerState(true, if p.startTime.Some? then Some(1000 * p.startTime.value) else None,
          p.totalSeconds, p.isRunning, p.estimatedSeconds);
      } else {
        project := project.(active := false);
        project := project.(isRunning := false);
        project := project.(startTime := None);
      }
    }

    /**
     * `stopProjectAutomatically`: posts the fixed "time limit reached" stop; only when the call
     * succeeds is the project state marked inactive and not running.
     */
    method StopProjectAutomatically(succeeded: bool) returns (cmd: Command)
      modifies this
      ensures cmd == AutoStopCommand && cmd.isProject && cmd.completionStatus == Some("not_completed")
      ensures task == old(task)
      ensures project == if succeeded then old(project).(active := false, isRunning := false) else old(project)
    {
      cmd := AutoStopCommand;
      if succeeded {
        project := project.(active := false);
        project := project.(isRunning := false);
      }
    }
  }
}
