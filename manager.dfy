/**
 * `PlexShutdownManager`, the current shutdown engine. One field,
 * `shutdown_enabled`, says whether the manager believes it has a shutdown
 * scheduled. Each tick reads the App's switch and settings and probes the
 * idle time, the Plex sessions and the process list, then arms, aborts or
 * leaves the scheduled shutdown alone.
 *
 * The side effects the manager has outside its field are recorded in the
 * class as well: every `shutdown` command line it runs (`commands`) and
 * every toast it shows (`toasts`). What the OS answers is an input.
 */
module Manager {
  import opened Common
  import opened Text

  /** The result of a tick; `ReturnedNone` is the path that falls off the end
      of `monitor_plex_and_shutdown` (armed, idle, check passed, no session). */
  datatype Outcome = NoActivation | ActivatedShutdown | CanceledShutdown | ReturnedNone

  /** The Python value returned for each outcome (`None` for the fall-through). */
  function Code(o: Outcome): Option<int>
  {
    match o
    case NoActivation => Some(0)
    case ActivatedShutdown => Some(1)
    case CanceledShutdown => Some(-1)
    case ReturnedNone => None
  }

  /** What the manager reads through its `App` in one tick: the switch, the
      idle threshold and the shutdown delay (minutes), the poll interval, and
      whether `get_plex_instance()` is not None. */
  datatype AppState = AppState(
    switchOn: bool,
    computerIdle: real,
    shutdownDelay: real,
    intervalDelay: real,
    plexConnected: bool)

  /** The output of `tasklist /fi "imagename eq Plex*"`, or its failure. */
  datatype Tasklist = Listing(stdout: string) | CommandFailed

  /** Everything one tick can observe. Idle time and sessions are probed at
      two different points of a tick, so each reading has its own field. */
  datatype Probes = Probes(
    idleAtCancelCheck: real,      // get_idle_duration() in the cancel test
    sessionsAtCancelCheck: nat,   // len(sessions()) in the cancel test
    idleAtIdleGate: real,         // get_idle_duration() in the idle gate
    tasklist: Tasklist,           // the process listing
    sessionsAtSessionGate: nat,   // len(sessions()) in the session gate
    abortAnswer: OsResult,        // what `shutdown -a` answers
    scheduleAnswer: OsResult)     // what `shutdown -s -t ...` answers

  /** The manager's field and the effects it has had so far. */
  datatype ManagerState = ManagerState(shutdownEnabled: bool, commands: seq<Command>, toasts: nat)

  /** `check_if_are_active_sessions`: false without an App or without a Plex
      connection (the error is reported instead), otherwise whether
      there is a session. */
  predicate ActiveSessions(app: Option<AppState>, sessions: nat)
  {
    app.Some? && app.value.plexConnected && sessions > 0
  }

  /** What a probe does as written: return a value, or raise. */
  datatype Raised = TypeError
  datatype ProbeResult = Returned(value: bool) | Raises(error: Raised)

  /** `check_if_are_active_sessions` as written: with no Plex instance it
      calls the bound method `App.show_error(self, message)` with two
      arguments, which raises TypeError before `return False` is reached. */
  function ActiveSessionsAsWritten(app: Option<AppState>, sessions: nat): ProbeResult
  {
    if app.None? then Returned(false)
    else if !app.value.plexConnected then Raises(TypeError)
    else Returned(sessions > 0)
  }

  /** `check_if_transcoder_running` as written: the same extra argument to
      `show_error` raises TypeError when the App has no Plex instance. */
  function TranscoderRunningAsWritten(app: Option<AppState>, t: Tasklist): ProbeResult
  {
    if app.Some? && !app.value.plexConnected then Raises(TypeError)
    else Returned(TranscoderRunning(app, t))
  }

  const ServerNeedle: string := "plex media server.exe"
  const TranscoderNeedle: string := "plex transcoder.exe"

  /** `check_if_transcoder_running`: false when the App has no Plex connection
      or `tasklist` fails; otherwise true iff the lower-cased output contains
      both lower-cased image names. Without an App the listing is still run. */
  predicate TranscoderRunning(app: Option<AppState>, t: Tasklist)
  {
    if app.Some? && !app.value.plexConnected then false
    else
      match t
      case CommandFailed => false
      case Listing(out) => Contains(Lower(out), ServerNeedle) && Contains(Lower(out), TranscoderNeedle)
  }

  /** The state after `cancel_shutdown`, given what `shutdown -a` answered. */
  function AfterCancel(s: ManagerState, answer: OsResult): ManagerState
  {
    s.(shutdownEnabled := if answer.Success? then false else s.shutdownEnabled,
       commands := s.commands + [Abort])
  }

  /** The state after `activate_shutdown(minutes)`, given what `shutdown -s` answered. */
  function AfterActivate(s: ManagerState, minutes: real, answer: OsResult): ManagerState
  {
    s.(shutdownEnabled := if answer.Success? then true else s.shutdownEnabled,
       commands := s.commands + [Schedule(MinutesToSeconds(minutes))],
       toasts := s.toasts + 1)
  }

  /** The idle test used by the cancel branch. */
  predicate NotIdleForCancel(a: AppState, p: Probes)
  {
    p.idleAtCancelCheck < MinutesToSeconds(a.computerIdle)
  }

  /** The idle gate: with a non-zero threshold, the tick stops when idle time is below it. */
  predicate BlockedByIdleGate(a: AppState, p: Probes)
  {
    MinutesToSeconds(a.computerIdle) != 0.0 && p.idleAtIdleGate < MinutesToSeconds(a.computerIdle)
  }

  /** `monitor_plex_and_shutdown`: the outcome of one tick and the state after it. */
  function Tick(s: ManagerState, app: Option<AppState>, p: Probes): (Outcome, ManagerState)
  {
    if app.None? || !app.value.switchOn then (NoActivation, s)
    else if s.shutdownEnabled && (NotIdleForCancel(app.value, p) || ActiveSessions(app, p.sessionsAtCancelCheck)) then
      (CanceledShutdown, AfterCancel(s, p.abortAnswer))
    else if BlockedByIdleGate(app.value, p) then (NoActivation, s)
    else if !TranscoderRunning(app, p.tasklist) then (NoActivation, s)
    else if ActiveSessions(app, p.sessionsAtSessionGate) then (NoActivation, s)
    else if !s.shutdownEnabled then (ActivatedShutdown, AfterActivate(s, app.value.shutdownDelay, p.scheduleAnswer))
    else (ReturnedNone, s)
  }

  /** What one pass of the monitor loop reads. */
  datatype TickInput = TickInput(app: AppState, probes: Probes)

  /** A bounded run of `monitor_mainloop`: the final state and every tick's outcome. */
  function Run(s: ManagerState, ticks: seq<TickInput>): (ManagerState, seq<Outcome>)
    decreases |ticks|
  {
    if ticks == [] then (s, [])
    else
      var step := Tick(s, Some(ticks[0].app), ticks[0].probes);
      var rest := Run(step.1, ticks[1..]);
      (rest.0, [step.0] + rest.1)
  }

  class PlexShutdownManager {
    var shutdownEnabled: bool
    var commands: seq<Command>
    var toasts: nat

    function State(): ManagerState
      reads this
    {
      ManagerState(shutdownEnabled, commands, toasts)
    }

    /** A fresh manager has no shutdown scheduled and has done nothing yet. */
    constructor ()
      ensures State() == ManagerState(false, [], 0)
    {
      shutdownEnabled := false;
      commands := [];
      toasts := 0;
    }

    /** `cancel_shutdown`: runs `shutdown -a`; only when it succeeds is the
        flag cleared. It returns whether it succeeded and shows no toast. */
    method CancelShutdown(answer: OsResult) returns (ok: bool)
      modifies this
      ensures ok <==> answer.Success?
      ensures State() == AfterCancel(old(State()), answer)
    {
      commands := commands + [Abort];
      if answer.Success? {
        shutdownEnabled := false;
        ok := true;
      } else {
        ok := false;
      }
    }

    /** `activate_shutdown(minutes)`: always toasts, asks for a shutdown in
        minutes*60 seconds and sets the flag only when that succeeds. There is
        no guard against a shutdown already being scheduled. */
    method ActivateShutdown(minutes: real, answer: OsResult)
      modifies this
      ensures State() == AfterActivate(old(State()), minutes, answer)
    {
      toasts := toasts + 1;
      commands := commands + [Schedule(MinutesToSeconds(minutes))];
      if answer.Success? {
        shutdownEnabled := true;
      }
    }

    /** `monitor_plex_and_shutdown` against the App `app` (None when no App is attached). */
    method MonitorPlexAndShutdown(app: Option<AppState>, p: Probes) returns (r: Outcome)
      modifies this
      ensures (r, State()) == Tick(old(State()), app, p)
    {
      if app.None? || !app.value.switchOn {
        return NoActivation;
      }
      var maxIdleSeconds := MinutesToSeconds(app.value.computerIdle);
      if shutdownEnabled {
        if p.idleAtCancelCheck < maxIdleSeconds || ActiveSessions(app, p.sessionsAtCancelCheck) {
          var _ := CancelShutdown(p.abortAnswer);
          return CanceledShutdown;
        }
      }
      if maxIdleSeconds != 0.0 {
        if p.idleAtIdleGate < maxIdleSeconds {
          return NoActivation;
        }
      }
      if !TranscoderRunning(app, p.tasklist) {
        return NoActivation;
      }
      if ActiveSessions(app, p.sessionsAtSessionGate) {
        return NoActivation;
      }
      if !shutdownEnabled {
        ActivateShutdown(app.value.shutdownDelay, p.scheduleAnswer);
        return ActivatedShutdown;
      }
      r := ReturnedNone;
    }

    /** `monitor_mainloop`, cut off after `ticks`; nothing runs without an App.
        The sleep between ticks and the sleep inhibitor are not modelled. */
    method MonitorMainloop(hasApp: bool, ticks: seq<TickInput>) returns (outcomes: seq<Outcome>)
      modifies this
      ensures hasApp ==> (State(), outcomes) == Run(old(State()), ticks)
      ensures !hasApp ==> State() == old(State()) && outcomes == []
    {
      outcomes := [];
      if !hasApp {
        return;
      }
      var i := 0;
      assert ticks[i..] == ticks;
      assert outcomes + Run(State(), ticks[i..]).1 == Run(State(), ticks[i..]).1;
      while i < |ticks|
        invariant 0 <= i <= |ticks|
        invariant Run(old(State()), ticks) == (Run(State(), ticks[i..]).0, outcomes + Run(State(), ticks[i..]).1)
      {
        ghost var before := State();
        var o := MonitorPlexAndShutdown(Some(ticks[i].app), ticks[i].probes);
        assert ticks[i..][1..] == ticks[i + 1..];
        assert Run(before, ticks[i..]) == (Run(State(), ticks[i + 1..]).0, [o] + Run(State(), ticks[i + 1..]).1);
        assert outcomes + ([o] + Run(State(), ticks[i + 1..]).1) == (outcomes + [o]) + Run(State(), ticks[i + 1..]).1;
        outcomes := outcomes + [o];
        i := i + 1;
      }
      assert ticks[i..] == [];
      assert outcomes + [] == outcomes;
    }
  }

  /** The scenarios of the unit tests of `activate_shutdown` and
      `cancel_shutdown`, with `SHUTDOWN_DELAY = 3600` and a host that accepts
      every `shutdown -s`, replayed on fresh managers. It reports the flag and the
      toast count after an activation, the result, the flag and the toast
      count after cancelling it, the result and the toast count of a cancel
      on a fresh manager whose host refuses, and that manager's log after two
      more activations. */
  method UnitTestScenarios() returns (armed: bool, armToasts: nat, canceled: bool, stillArmed: bool,
                                      cancelToasts: nat, freshCanceled: bool, freshToasts: nat,
                                      twice: seq<Command>)
    ensures armed && armToasts == 1
    ensures canceled && !stillArmed && cancelToasts == 1
    ensures !freshCanceled && freshToasts == 0
    ensures twice == [Abort, Schedule(3600.0 * 60.0), Schedule(3600.0 * 60.0)]
  {
    var m := new PlexShutdownManager();
    m.ActivateShutdown(3600.0, Success);
    armed, armToasts := m.shutdownEnabled, m.toasts;
    canceled := m.CancelShutdown(Success);
    stillArmed, cancelToasts := m.shutdownEnabled, m.toasts;
    var other := new PlexShutdownManager();
    freshCanceled := other.CancelShutdown(Failure);
    freshToasts := other.toasts;
    other.ActivateShutdown(3600.0, Success);
    other.ActivateShutdown(3600.0, Success);
    twice := other.commands;
  }
}
