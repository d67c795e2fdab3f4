/**
 * What backup.py's monitor does per pass, and what its loop does across
 * passes: as written the armed state never reaches the next pass, so a
 * scheduled shutdown is never aborted and is scheduled again on every idle
 * pass; with the flag threaded through, the flag tells whether a shutdown
 * is pending as long as the host accepts every `shutdown -s`.
 */
module BackupProperties {
  import opened Common
  import opened Legacy
  import opened LegacyProperties
  import opened Backup

  /** With the switch off a pass issues nothing and leaves the flag alone. */
  lemma SwitchOffDoesNothing(g: Globals, enabled: bool, p: LegacyProbes)
    requires !g.switchOn
    ensures Monitor(g, enabled, p) == (enabled, [])
  {
  }

  /** Without a Plex connection both checks answer false: sessions never
      cause an abort and nothing is ever armed. */
  lemma NoPlexNeverArms(g: Globals, enabled: bool, p: LegacyProbes)
    requires !g.plexPresent
    ensures Monitor(g, enabled, p).1 == [] || Monitor(g, enabled, p).1 == [Abort]
    ensures Abort in Monitor(g, enabled, p).1 <==>
      g.switchOn && enabled && p.idleAtAbortCheck < MinutesToSeconds(g.computerIdle)
  {
  }

  /** An armed pass that finds the computer in use, or a session playing,
      aborts and then goes on exactly like a pass started disarmed. */
  lemma AbortsAndContinues(g: Globals, p: LegacyProbes)
    requires g.switchOn
    requires p.idleAtAbortCheck < MinutesToSeconds(g.computerIdle) || SessionsActive(g.plexPresent, p.sessionsAtAbortCheck)
    ensures Monitor(g, true, p) == (Monitor(g, false, p).0, [Abort] + Monitor(g, false, p).1)
  {
    var s := ScriptState(true, [], 0);
    AbortBlockContinues(BackupVariant, s, BackupSettings(g), g.plexPresent, p);
    var s' := s.(shutdownStatus := false, commands := s.commands + [Abort]);
    var r := StartTick(BackupVariant, ScriptState(false, [], 0), BackupSettings(g), g.plexPresent, p).1;
    var r' := StartTick(BackupVariant, s', BackupSettings(g), g.plexPresent, p).1;
    assert s'.commands == [Abort];
    if r.shutdownStatus {
      assert r.commands == [Schedule(MinutesToSeconds(g.shutdownDelay))];
      assert r'.commands == [Abort] + [Schedule(MinutesToSeconds(g.shutdownDelay))];
    } else {
      assert r.commands == [] && r'.commands == [Abort] && !r'.shutdownStatus;
      assert [Abort] + r.commands == [Abort];
    }
  }

  /** With a non-zero threshold and idle time below it, a pass arms nothing;
      a failed process check or a session has the same effect. */
  lemma GatesBlockArming(g: Globals, enabled: bool, p: LegacyProbes)
    requires g.switchOn
    requires IdleGateStops(BackupVariant, BackupSettings(g), p) ||
      !LegacyTranscoderCheck(g.plexPresent, p.processes) || SessionsActive(g.plexPresent, p.sessionsAtSessionGate)
    ensures Monitor(g, enabled, p).1 == [] || Monitor(g, enabled, p).1 == [Abort]
  {
  }

  /** A disarmed pass with the switch on arms exactly when every gate passes,
      with a delay of `shutdown_delay * 60` seconds. */
  lemma ArmsWithDelayInSeconds(g: Globals, p: LegacyProbes)
    requires g.switchOn
    ensures Monitor(g, false, p).1 == [Schedule(g.shutdownDelay * 60.0)] <==>
      !IdleGateStops(BackupVariant, BackupSettings(g), p) &&
      LegacyTranscoderCheck(g.plexPresent, p.processes) &&
      !SessionsActive(g.plexPresent, p.sessionsAtSessionGate)
    ensures Monitor(g, false, p).1 != [Schedule(g.shutdownDelay * 60.0)] ==> Monitor(g, false, p) == (false, [])
  {
    ArmedIff(BackupVariant, ScriptState(false, [], 0), BackupSettings(g), g.plexPresent, p);
  }

  /** A pass started from the flag of the host ends with the flag of the host
      exactly when the host accepted the `shutdown -s` of the pass or the
      pass issued none; after a refused one the flag is set with nothing
      pending, since backup.py sets it without reading the answer. */
  lemma MonitorInSync(g: Globals, enabled: bool, p: LegacyProbes)
    ensures var m := Monitor(g, enabled, p);
      m.0 == HostPendingAfter(enabled, m.1, p.scheduleAnswer.Success?) <==>
      p.scheduleAnswer.Success? || Schedule(MinutesToSeconds(g.shutdownDelay)) !in m.1
    ensures var m := Monitor(g, enabled, p);
      !p.scheduleAnswer.Success? && Schedule(MinutesToSeconds(g.shutdownDelay)) in m.1 ==>
        m.0 && !HostPendingAfter(enabled, m.1, false)
  {
    if g.switchOn {
      var s := ScriptState(enabled, [], 0);
      StatusInSync(BackupVariant, s, BackupSettings(g), g.plexPresent, p);
      var t := StartTick(BackupVariant, s, BackupSettings(g), g.plexPresent, p);
      assert t.1.commands[0..] == t.1.commands;
      var s1 := AfterAbortBlock(s, BackupSettings(g), g.plexPresent, p);
      assert Schedule(MinutesToSeconds(g.shutdownDelay)) !in s1.commands;
      if t.0 == Armed {
        assert t.1.commands == s1.commands + [Schedule(MinutesToSeconds(g.shutdownDelay))];
      } else {
        assert t.1 == s1;
      }
    }
  }

  /** A pass started disarmed never aborts. */
  lemma DisarmedPassNeverAborts(g: Globals, p: LegacyProbes)
    ensures Abort !in Monitor(g, false, p).1
  {
    CommandsOfOneTick(BackupVariant, ScriptState(false, [], 0), BackupSettings(g), g.plexPresent, p);
  }

  /** As written, a thread started with `shutdown_enabled` false (as the
      program starts it) never issues `shutdown -a`, whatever happens. */
  lemma {:induction false} AsWrittenNeverAborts(passes: seq<Pass>)
    ensures Abort !in MainloopAsWritten(false, passes)
    decreases |passes|
  {
    if passes != [] {
      DisarmedPassNeverAborts(passes[0].globals, passes[0].probes);
      AsWrittenNeverAborts(passes[1..]);
    }
  }

  /** Threading the flag keeps it equal to whether the host has a shutdown
      pending, after any number of passes whose `shutdown -s` the host
      accepted. */
  lemma {:induction false} ThreadedInSync(enabled: bool, passes: seq<Pass>)
    requires forall i :: 0 <= i < |passes| ==> passes[i].probes.scheduleAnswer.Success?
    ensures MainloopThreaded(enabled, passes).0 == HostPendingAfter(enabled, MainloopThreaded(enabled, passes).1, true)
    decreases |passes|
  {
    if passes != [] {
      var step := Monitor(passes[0].globals, enabled, passes[0].probes);
      MonitorInSync(passes[0].globals, enabled, passes[0].probes);
      if passes[0].backgroundRunning {
        assert forall i :: 0 <= i < |passes[1..]| ==> passes[1..][i] == passes[i + 1];
        ThreadedInSync(step.0, passes[1..]);
        HostPendingAfterConcat(enabled, step.1, MainloopThreaded(step.0, passes[1..]).1, true);
      }
    }
  }

  /** Both loops over two passes, pass by pass. */
  lemma TwoPasses(enabled: bool, a: Pass, b: Pass)
    requires a.backgroundRunning
    ensures MainloopAsWritten(enabled, [a, b]) ==
      Monitor(a.globals, enabled, a.probes).1 + Monitor(b.globals, enabled, b.probes).1
    ensures var first := Monitor(a.globals, enabled, a.probes);
      var second := Monitor(b.globals, first.0, b.probes);
      MainloopThreaded(enabled, [a, b]) == (second.0, first.1 + second.1)
  {
    assert [a, b][1..] == [b];
    assert [b][1..] == [];
    assert MainloopAsWritten(enabled, [b]) == Monitor(b.globals, enabled, b.probes).1;
    var first := Monitor(a.globals, enabled, a.probes);
    var second := Monitor(b.globals, first.0, b.probes);
    assert second.1 + [] == second.1;
    assert MainloopThreaded(first.0, [b]) == second;
  }

  /** A user who comes back after the shutdown was scheduled: thirty minutes
      of threshold, a sixty-minute delay, one idle pass, then one pass with
      the user active. As written the shutdown stays pending; threaded, the
      second pass aborts it. */
  lemma UserReturns()
    ensures var g := Globals(true, 30.0, 60.0, true);
      var away := LegacyProbes(3600.0, 0, 3600.0, [ServerImage], 0, Success);
      var back := LegacyProbes(0.0, 0, 0.0, [ServerImage], 0, Success);
      var passes := [Pass(g, away, true), Pass(g, back, true)];
      MainloopAsWritten(false, passes) == [Schedule(3600.0)] &&
      HostPendingAfter(false, MainloopAsWritten(false, passes), true) &&
      MainloopThreaded(false, passes) == (false, [Schedule(3600.0), Abort]) &&
      !HostPendingAfter(false, MainloopThreaded(false, passes).1, true)
  {
    var g := Globals(true, 30.0, 60.0, true);
    var away := LegacyProbes(3600.0, 0, 3600.0, [ServerImage], 0, Success);
    var back := LegacyProbes(0.0, 0, 0.0, [ServerImage], 0, Success);
    var passes := [Pass(g, away, true), Pass(g, back, true)];
    assert ServerImage != TranscoderImage && ServerImage in [ServerImage];
    assert ServerWithoutTranscoder([ServerImage]);
    assert BackupSettings(g) == Settings(1800.0, 3600.0);
    assert !IdleGateStops(BackupVariant, BackupSettings(g), away);
    assert StartTick(BackupVariant, ScriptState(false, [], 0), BackupSettings(g), true, away).1 ==
      ScriptState(true, [Schedule(3600.0)], 0);
    assert Monitor(g, false, away) == (true, [Schedule(3600.0)]);
    assert Monitor(g, false, back) == (false, []);
    assert ShouldAbort(ScriptState(true, [], 0), BackupSettings(g), true, back);
    assert IdleGateStops(BackupVariant, BackupSettings(g), back);
    assert AfterAbortBlock(ScriptState(true, [], 0), BackupSettings(g), true, back) == ScriptState(false, [Abort], 0);
    assert StartTick(BackupVariant, ScriptState(true, [], 0), BackupSettings(g), true, back) ==
      (NotIdle, ScriptState(false, [Abort], 0));
    assert Monitor(g, true, back) == (false, [Abort]);
    TwoPasses(false, Pass(g, away, true), Pass(g, back, true));
    assert [Schedule(3600.0)] + [Abort] == [Schedule(3600.0), Abort];
  }

  /** Two idle passes: as written the shutdown is scheduled twice, threaded once. */
  lemma IdleTwice()
    ensures var g := Globals(true, 30.0, 60.0, true);
      var away := LegacyProbes(3600.0, 0, 3600.0, [ServerImage], 0, Success);
      var passes := [Pass(g, away, true), Pass(g, away, true)];
      MainloopAsWritten(false, passes) == [Schedule(3600.0), Schedule(3600.0)] &&
      MainloopThreaded(false, passes) == (true, [Schedule(3600.0)])
  {
    var g := Globals(true, 30.0, 60.0, true);
    var away := LegacyProbes(3600.0, 0, 3600.0, [ServerImage], 0, Success);
    var passes := [Pass(g, away, true), Pass(g, away, true)];
    assert ServerImage != TranscoderImage && ServerImage in [ServerImage];
    assert ServerWithoutTranscoder([ServerImage]);
    assert BackupSettings(g) == Settings(1800.0, 3600.0);
    assert !IdleGateStops(BackupVariant, BackupSettings(g), away);
    assert StartTick(BackupVariant, ScriptState(false, [], 0), BackupSettings(g), true, away).1 ==
      ScriptState(true, [Schedule(3600.0)], 0);
    assert Monitor(g, false, away) == (true, [Schedule(3600.0)]);
    assert !ShouldAbort(ScriptState(true, [], 0), BackupSettings(g), true, away);
    assert StartTick(BackupVariant, ScriptState(true, [], 0), BackupSettings(g), true, away) ==
      (AlreadyArmed, ScriptState(true, [], 0));
    assert Monitor(g, true, away) == (true, []);
    TwoPasses(false, Pass(g, away, true), Pass(g, away, true));
    assert [Schedule(3600.0)] + [] == [Schedule(3600.0)];
  }
}
