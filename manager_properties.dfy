/**
 * What `PlexShutdownManager` promises, stated about `Manager.Tick` (one call
 * of `monitor_plex_and_shutdown`) and `Manager.Run` (a bounded run of
 * `monitor_mainloop`). Each branch of the tick, and each unit test that
 * pins one, becomes a lemma.
 */
module ManagerProperties {
  import opened Common
  import opened Text
  import opened Manager

  lemma CodeInjective(a: Outcome, b: Outcome)
    ensures Code(a) == Code(b) ==> a == b
    ensures Code(a).None? <==> a == ReturnedNone
  {
  }

  /** The needles are the image names after `.lower()`. */
  lemma ServerNeedleIsLowerCased()
    ensures Lower(ServerImage) == ServerNeedle
  {
    LowerMatches(ServerImage, ServerNeedle);
  }

  lemma TranscoderNeedleIsLowerCased()
    ensures Lower(TranscoderImage) == TranscoderNeedle
  {
    LowerMatches(TranscoderImage, TranscoderNeedle);
  }

  // ---- the probes --------------------------------------------------------

  /** `check_if_transcoder_running` on a listing: true exactly when the App
      (if any) is connected and both lower-cased image names occur somewhere
      in the lower-cased output. Both executables are required. */
  lemma TranscoderCheckIff(app: Option<AppState>, out: string)
    ensures TranscoderRunning(app, Listing(out)) <==>
      (app.None? || app.value.plexConnected) &&
      (exists i: nat :: OccursAt(Lower(out), ServerNeedle, i)) &&
      (exists j: nat :: OccursAt(Lower(out), TranscoderNeedle, j))
  {
    ContainsIffOccurs(Lower(out), ServerNeedle);
    ContainsIffOccurs(Lower(out), TranscoderNeedle);
    if app.None? || app.value.plexConnected {
      assert TranscoderRunning(app, Listing(out)) ==
        (Contains(Lower(out), ServerNeedle) && Contains(Lower(out), TranscoderNeedle));
    }
  }

  /** The check fails closed: a failing `tasklist`, or an App without a Plex
      connection, gives false whatever is running. */
  lemma TranscoderCheckFailsClosed(app: Option<AppState>, t: Tasklist)
    requires t.CommandFailed? || (app.Some? && !app.value.plexConnected)
    ensures !TranscoderRunning(app, t)
  {
  }

  /** The check ignores letter case in the listing. */
  lemma TranscoderCheckIgnoresCase(app: Option<AppState>, out: string, out': string)
    requires Lower(out) == Lower(out')
    ensures TranscoderRunning(app, Listing(out)) == TranscoderRunning(app, Listing(out'))
  {
  }

  /** The listings of the unit tests: the transcoder alone fails the check, ... */
  lemma TasklistTranscoderAlone(a: AppState)
    requires a.plexConnected
    ensures !TranscoderRunning(Some(a), Listing("Plex Transcoder.exe"))
  {
    TranscoderNeedleIsLowerCased();
    assert Lower("Plex Transcoder.exe") == TranscoderNeedle;
    assert !Contains(TranscoderNeedle, ServerNeedle);
  }

  /** No position of the lower-cased server name followed by at most one
      more character holds the transcoder needle. */
  lemma NoTranscoderAfterServer(e: string)
    requires |e| <= 1
    ensures forall i: nat :: !OccursAt(ServerNeedle + e, TranscoderNeedle, i)
  {
    var h := ServerNeedle + e;
    forall i: nat ensures !OccursAt(h, TranscoderNeedle, i) {
      if i + |TranscoderNeedle| <= |h| {
        assert h[i..i + |TranscoderNeedle|][5] == h[i + 5] != TranscoderNeedle[5];
      }
    }
  }

  /** ... the server followed by a line break (or by any one character) fails it, ... */
  lemma TasklistServerAlone(a: AppState, eol: string)
    requires a.plexConnected && |eol| <= 1
    ensures !TranscoderRunning(Some(a), Listing(ServerImage + eol))
  {
    ServerNeedleIsLowerCased();
    LowerConcat(ServerImage, eol);
    NoTranscoderAfterServer(Lower(eol));
    TranscoderCheckIff(Some(a), ServerImage + eol);
  }

  /** ... and the server and the transcoder, whatever separates them, pass it. */
  lemma TasklistBoth(a: AppState, sep: string)
    requires a.plexConnected
    ensures TranscoderRunning(Some(a), Listing(ServerImage + sep + TranscoderImage))
  {
    ServerNeedleIsLowerCased();
    TranscoderNeedleIsLowerCased();
    ContainsBothEnds(ServerImage, sep, TranscoderImage);
  }

  /** The two-line listings exactly as the unit tests write them. */
  lemma TasklistServerUnitTest(a: AppState)
    requires a.plexConnected
    ensures !TranscoderRunning(Some(a), Listing("Plex Media Server.exe\n"))
  {
    assert "Plex Media Server.exe\n" == ServerImage + "\n";
    TasklistServerAlone(a, "\n");
  }

  lemma TasklistBothUnitTest(a: AppState)
    requires a.plexConnected
    ensures TranscoderRunning(Some(a), Listing("Plex Media Server.exe\n Plex Transcoder.exe"))
  {
    assert "Plex Media Server.exe\n Plex Transcoder.exe" == ServerImage + "\n " + TranscoderImage;
    TasklistBoth(a, "\n ");
  }

  /** The unit tests of `check_if_are_active_sessions`, on the probe as
      written: without an App it returns false whatever the count; with a
      connected App it returns false for no session and true for two. */
  lemma SessionProbeUnitTests(a: AppState, n: nat)
    requires a.plexConnected
    ensures ActiveSessionsAsWritten(None, n) == Returned(false)
    ensures ActiveSessionsAsWritten(Some(a), 0) == Returned(false)
    ensures ActiveSessionsAsWritten(Some(a), 2) == Returned(true)
  {
  }

  // ---- one tick ----------------------------------------------------------

  /** Without an App, or with the switch off, nothing happens, even when a
      shutdown is armed: no command, no toast, the flag is kept. */
  lemma SwitchOffIsInert(s: ManagerState, app: Option<AppState>, p: Probes)
    requires app.None? || !app.value.switchOn
    ensures Tick(s, app, p) == (NoActivation, s)
  {
  }

  /** Armed and the user is back (idle below the threshold) or a session is
      playing: one `shutdown -a`, and CANCELED_SHUTDOWN whatever it answered;
      the flag is cleared only when the abort succeeded. */
  lemma CancelsWhenActive(s: ManagerState, a: AppState, p: Probes)
    requires a.switchOn && s.shutdownEnabled
    requires NotIdleForCancel(a, p) || ActiveSessions(Some(a), p.sessionsAtCancelCheck)
    ensures Tick(s, Some(a), p).0 == CanceledShutdown
    ensures Tick(s, Some(a), p).1 == s.(shutdownEnabled := p.abortAnswer.Failure?, commands := s.commands + [Abort])
  {
  }

  /** CANCELED_SHUTDOWN is returned exactly in that case. */
  lemma CanceledIff(s: ManagerState, app: Option<AppState>, p: Probes)
    ensures Tick(s, app, p).0 == CanceledShutdown <==>
      app.Some? && app.value.switchOn && s.shutdownEnabled &&
      (NotIdleForCancel(app.value, p) || ActiveSessions(app, p.sessionsAtCancelCheck))
  {
  }

  /** Disarmed, a non-zero threshold and idle time below it: NO_ACTIVATION,
      nothing changes. */
  lemma NotIdleDoesNothing(s: ManagerState, a: AppState, p: Probes)
    requires a.switchOn && !s.shutdownEnabled
    requires MinutesToSeconds(a.computerIdle) != 0.0 && p.idleAtIdleGate < MinutesToSeconds(a.computerIdle)
    ensures Tick(s, Some(a), p) == (NoActivation, s)
  {
  }

  /** Past the cancel test and the idle gate: a failed process check or a
      session stops the tick with NO_ACTIVATION; otherwise a disarmed manager
      toasts and asks for a shutdown in shutdownDelay*60 seconds
      (ACTIVATED_SHUTDOWN, armed iff the OS accepted), and an armed one does
      nothing and returns None. */
  lemma GatesAfterIdle(s: ManagerState, a: AppState, p: Probes)
    requires a.switchOn
    requires !(s.shutdownEnabled && (NotIdleForCancel(a, p) || ActiveSessions(Some(a), p.sessionsAtCancelCheck)))
    requires !BlockedByIdleGate(a, p)
    ensures !TranscoderRunning(Some(a), p.tasklist) || ActiveSessions(Some(a), p.sessionsAtSessionGate) ==>
      Tick(s, Some(a), p) == (NoActivation, s)
    ensures TranscoderRunning(Some(a), p.tasklist) && !ActiveSessions(Some(a), p.sessionsAtSessionGate) && !s.shutdownEnabled ==>
      Tick(s, Some(a), p) == (ActivatedShutdown,
        ManagerState(p.scheduleAnswer.Success?, s.commands + [Schedule(a.shutdownDelay * 60.0)], s.toasts + 1))
    ensures TranscoderRunning(Some(a), p.tasklist) && !ActiveSessions(Some(a), p.sessionsAtSessionGate) && s.shutdownEnabled ==>
      Tick(s, Some(a), p) == (ReturnedNone, s)
  {
  }

  /** ACTIVATED_SHUTDOWN is returned exactly when the switch is on, nothing is
      armed, the idle gate lets the tick through, the process check passes
      and there is no session. */
  lemma ActivatedIff(s: ManagerState, app: Option<AppState>, p: Probes)
    ensures Tick(s, app, p).0 == ActivatedShutdown <==>
      app.Some? && app.value.switchOn && !s.shutdownEnabled && !BlockedByIdleGate(app.value, p) &&
      TranscoderRunning(app, p.tasklist) && !ActiveSessions(app, p.sessionsAtSessionGate)
  {
  }

  /** A tick appends at most one command: an abort only when armed before,
      a schedule only when disarmed before, and a toast only with a schedule. */
  lemma AtMostOneCommandPerTick(s: ManagerState, app: Option<AppState>, p: Probes)
    ensures var t := Tick(s, app, p).1;
      |s.commands| <= |t.commands| <= |s.commands| + 1 &&
      t.commands[..|s.commands|] == s.commands &&
      (|t.commands| > |s.commands| ==> (t.commands[|s.commands|] == Abort <==> s.shutdownEnabled)) &&
      t.toasts == s.toasts + (if |t.commands| > |s.commands| && !s.shutdownEnabled then 1 else 0)
  {
    var t := Tick(s, app, p).1;
    assert (s.commands + [Abort])[..|s.commands|] == s.commands;
  }

  /** With a zero threshold and non-negative idle readings, idle time plays
      no part: neither in the cancel test nor as a gate. */
  lemma ZeroThresholdIgnoresIdle(s: ManagerState, a: AppState, p: Probes, x: real, y: real)
    requires a.computerIdle == 0.0
    requires p.idleAtCancelCheck >= 0.0 && p.idleAtIdleGate >= 0.0 && x >= 0.0 && y >= 0.0
    ensures Tick(s, Some(a), p) == Tick(s, Some(a), p.(idleAtCancelCheck := x, idleAtIdleGate := y))
  {
  }

  /** A host that answers as Windows does: `-a` succeeds iff a shutdown is
      pending, `-s` can only succeed when none is. */
  predicate HostAnswers(pending: bool, p: Probes)
  {
    (p.abortAnswer.Success? <==> pending) && (p.scheduleAnswer.Success? ==> !pending)
  }

  /** The flag follows the host: if it agreed with the host before the tick,
      and the host answers consistently, it agrees after the tick. */
  lemma TickKeepsFlagInSync(s: ManagerState, app: Option<AppState>, p: Probes)
    requires HostAnswers(s.shutdownEnabled, p)
    ensures |s.commands| <= |Tick(s, app, p).1.commands|
    ensures Tick(s, app, p).1.shutdownEnabled ==
      HostPendingAfter(s.shutdownEnabled, Tick(s, app, p).1.commands[|s.commands|..], p.scheduleAnswer.Success?)
  {
    var t := Tick(s, app, p).1;
    assert (s.commands + [Abort])[|s.commands|..] == [Abort];
    if app.Some? {
      assert (s.commands + [Schedule(MinutesToSeconds(app.value.shutdownDelay))])[|s.commands|..]
        == [Schedule(MinutesToSeconds(app.value.shutdownDelay))];
    }
    assert t.commands == s.commands ==> t.commands[|s.commands|..] == [];
  }

  // ---- the disconnected-Plex discrepancy -----------------------------------

  /** As written, both probes raise TypeError for an App whose Plex instance
      is None; the model's probes give false there, so a disconnected server
      never lets the tick arm. */
  lemma DisconnectedProbesRaise(a: AppState, n: nat, t: Tasklist)
    requires !a.plexConnected
    ensures ActiveSessionsAsWritten(Some(a), n) == Raises(TypeError)
    ensures TranscoderRunningAsWritten(Some(a), t) == Raises(TypeError)
    ensures !ActiveSessions(Some(a), n) && !TranscoderRunning(Some(a), t)
  {
  }

  /** Wherever the probes as written return, the model's probes return the
      same value. */
  lemma CorrectedProbesAgree(app: Option<AppState>, n: nat, t: Tasklist)
    ensures ActiveSessionsAsWritten(app, n).Returned? ==> ActiveSessionsAsWritten(app, n).value == ActiveSessions(app, n)
    ensures TranscoderRunningAsWritten(app, t).Returned? ==> TranscoderRunningAsWritten(app, t).value == TranscoderRunning(app, t)
    ensures ActiveSessionsAsWritten(app, n).Raises? <==> app.Some? && !app.value.plexConnected
  {
  }

  /** With the corrected probes a disconnected server is treated as "no
      session, check failed": the tick never arms and cancels only on idle
      time. */
  lemma DisconnectedPlexNeverArms(s: ManagerState, a: AppState, p: Probes)
    requires !a.plexConnected
    ensures Tick(s, Some(a), p).0 != ActivatedShutdown
    ensures Tick(s, Some(a), p).0 == CanceledShutdown <==> a.switchOn && s.shutdownEnabled && NotIdleForCancel(a, p)
  {
  }

  // ---- bounded runs of the monitor loop ------------------------------------

  function CountOutcome(os: seq<Outcome>, o: Outcome): nat
  {
    if os == [] then 0 else (if os[0] == o then 1 else 0) + CountOutcome(os[1..], o)
  }

  function CountSchedules(cmds: seq<Command>): nat
  {
    if cmds == [] then 0 else (if cmds[0].Schedule? then 1 else 0) + CountSchedules(cmds[1..])
  }

  function CountAborts(cmds: seq<Command>): nat
  {
    if cmds == [] then 0 else (if cmds[0].Abort? then 1 else 0) + CountAborts(cmds[1..])
  }

  lemma {:induction false} CountsConcat(a: seq<Command>, b: seq<Command>)
    ensures CountSchedules(a + b) == CountSchedules(a) + CountSchedules(b)
    ensures CountAborts(a + b) == CountAborts(a) + CountAborts(b)
  {
    if a == [] {
      assert a + b == b;
    } else {
      assert (a + b)[1..] == a[1..] + b;
      CountsConcat(a[1..], b);
    }
  }

  /** With the switch off on every tick, a run changes nothing and every
      outcome is NO_ACTIVATION. */
  lemma {:induction false} RunSwitchedOffIsInert(s: ManagerState, ticks: seq<TickInput>)
    requires forall i :: 0 <= i < |ticks| ==> !ticks[i].app.switchOn
    ensures Run(s, ticks).0 == s
    ensures |Run(s, ticks).1| == |ticks|
    ensures forall i :: 0 <= i < |ticks| ==> Run(s, ticks).1[i] == NoActivation
    decreases |ticks|
  {
    if ticks != [] {
      assert !ticks[0].app.switchOn;
      RunSwitchedOffIsInert(s, ticks[1..]);
    }
  }

  /** Every transition of a run shows up outside: the commands it appends
      hold one schedule per ACTIVATED_SHUTDOWN and one abort per
      CANCELED_SHUTDOWN, and one toast is shown per activation. */
  lemma {:induction false} RunLogMatchesOutcomes(s: ManagerState, ticks: seq<TickInput>)
    ensures |Run(s, ticks).1| == |ticks|
    ensures |s.commands| <= |Run(s, ticks).0.commands|
    ensures Run(s, ticks).0.commands[..|s.commands|] == s.commands
    ensures CountSchedules(Run(s, ticks).0.commands[|s.commands|..]) == CountOutcome(Run(s, ticks).1, ActivatedShutdown)
    ensures CountAborts(Run(s, ticks).0.commands[|s.commands|..]) == CountOutcome(Run(s, ticks).1, CanceledShutdown)
    ensures Run(s, ticks).0.toasts == s.toasts + CountOutcome(Run(s, ticks).1, ActivatedShutdown)
    decreases |ticks|
  {
    if ticks == [] {
      assert Run(s, ticks).0.commands[|s.commands|..] == [];
    } else {
      var step := Tick(s, Some(ticks[0].app), ticks[0].probes);
      var mid := step.1;
      var fin := Run(mid, ticks[1..]);
      AtMostOneCommandPerTick(s, Some(ticks[0].app), ticks[0].probes);
      RunLogMatchesOutcomes(mid, ticks[1..]);
      var first := mid.commands[|s.commands|..];
      var rest := fin.0.commands[|mid.commands|..];
      assert fin.0.commands[|s.commands|..] == first + rest;
      CountsConcat(first, rest);
      assert ([step.0] + fin.1)[1..] == fin.1;
      assert step.0 == ActivatedShutdown <==> CountSchedules(first) == 1;
      assert step.0 == CanceledShutdown <==> CountAborts(first) == 1;
    }
  }
}
