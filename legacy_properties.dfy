/**
 * What the legacy tick promises, for every variant: the abort block does
 * not end the tick, each gate stops it before arming, arming happens only
 * from the disarmed state and at most once, and the flag keeps telling
 * whether the host has a shutdown pending as long as the host accepts the
 * `shutdown -s` the script issues; a refused one leaves the flag set with
 * nothing pending.
 */
module LegacyProperties {
  import opened Common
  import opened Legacy

  /** The abort block fires exactly when the script is armed and the computer
      is in use or a session plays; it appends one `shutdown -a`, clears the
      flag, and the tick then goes on exactly as a tick of a disarmed script
      whose log already ends with that abort. */
  lemma AbortBlockContinues(v: Variant, s: ScriptState, c: Settings, plexPresent: bool, p: LegacyProbes)
    requires ShouldAbort(s, c, plexPresent, p)
    ensures StartTick(v, s, c, plexPresent, p) ==
      StartTick(v, s.(shutdownStatus := false, commands := s.commands + [Abort]), c, plexPresent, p)
    ensures StartTick(v, s, c, plexPresent, p).1.commands[..|s.commands| + 1] == s.commands + [Abort]
  {
    var r := StartTick(v, s, c, plexPresent, p).1;
    var s1 := s.(shutdownStatus := false, commands := s.commands + [Abort]);
    assert r.commands == s1.commands || r.commands == s1.commands + [Schedule(c.delaySeconds)];
    assert (s1.commands + [Schedule(c.delaySeconds)])[..|s.commands| + 1] == s1.commands;
  }

  /** Without the abort condition the abort block leaves everything alone. */
  lemma NoAbortWithoutCause(v: Variant, s: ScriptState, c: Settings, plexPresent: bool, p: LegacyProbes)
    requires !ShouldAbort(s, c, plexPresent, p)
    ensures Abort !in StartTick(v, s, c, plexPresent, p).1.commands[|s.commands|..]
  {
    var r := StartTick(v, s, c, plexPresent, p).1;
    assert r.commands == s.commands || r.commands == s.commands + [Schedule(c.delaySeconds)];
    assert (s.commands + [Schedule(c.delaySeconds)])[|s.commands|..] == [Schedule(c.delaySeconds)];
  }

  /** An idle time under the threshold (with the guard: a non-zero one) ends
      the tick before anything is armed. */
  lemma IdleGateBlocksArming(v: Variant, s: ScriptState, c: Settings, plexPresent: bool, p: LegacyProbes)
    requires IdleGateStops(v, c, p)
    ensures StartTick(v, s, c, plexPresent, p) == (NotIdle, AfterAbortBlock(s, c, plexPresent, p))
  {
  }

  /** With the guard a zero threshold switches the idle gate off; without it
      the gate stops the tick exactly when the idle time is under the threshold. */
  lemma IdleGuard(v: Variant, s: ScriptState, c: Settings, plexPresent: bool, p: LegacyProbes)
    ensures v.idleGuard && c.maxIdle == 0.0 ==> StartTick(v, s, c, plexPresent, p).0 != NotIdle
    ensures !v.idleGuard ==> (StartTick(v, s, c, plexPresent, p).0 == NotIdle <==> p.idleAtIdleGate < c.maxIdle)
  {
  }

  /** A failed process check, or an active session, ends the tick without arming. */
  lemma LaterGatesBlockArming(v: Variant, s: ScriptState, c: Settings, plexPresent: bool, p: LegacyProbes)
    requires !IdleGateStops(v, c, p)
    ensures !LegacyTranscoderCheck(plexPresent, p.processes) ==>
      StartTick(v, s, c, plexPresent, p) == (TranscoderCheckFailed, AfterAbortBlock(s, c, plexPresent, p))
    ensures LegacyTranscoderCheck(plexPresent, p.processes) && SessionsActive(plexPresent, p.sessionsAtSessionGate) ==>
      StartTick(v, s, c, plexPresent, p) == (SessionActive, AfterAbortBlock(s, c, plexPresent, p))
  {
  }

  /** The tick arms exactly when every gate passes and the flag is clear after
      the abort block; it then appends one `shutdown -s -t <delay>` with the
      delay in the settings' seconds, sets the flag, and toasts once in the
      variants that toast. */
  lemma ArmedIff(v: Variant, s: ScriptState, c: Settings, plexPresent: bool, p: LegacyProbes)
    ensures StartTick(v, s, c, plexPresent, p).0 == Armed <==>
      !IdleGateStops(v, c, p) && LegacyTranscoderCheck(plexPresent, p.processes) &&
      !SessionsActive(plexPresent, p.sessionsAtSessionGate) && !AfterAbortBlock(s, c, plexPresent, p).shutdownStatus
    ensures StartTick(v, s, c, plexPresent, p).0 == Armed ==>
      var s1 := AfterAbortBlock(s, c, plexPresent, p);
      StartTick(v, s, c, plexPresent, p).1 ==
        ScriptState(true, s1.commands + [Schedule(c.delaySeconds)], s1.toasts + if v.toastOnArm then 1 else 0)
    ensures StartTick(v, s, c, plexPresent, p).0 != Armed ==>
      StartTick(v, s, c, plexPresent, p).1 == AfterAbortBlock(s, c, plexPresent, p)
  {
  }

  /** A tick appends nothing, an abort, an arm, or an abort followed by an
      arm: one arm at most, and none while a shutdown stays scheduled. */
  lemma CommandsOfOneTick(v: Variant, s: ScriptState, c: Settings, plexPresent: bool, p: LegacyProbes)
    ensures var r := StartTick(v, s, c, plexPresent, p).1;
      r.commands == s.commands || r.commands == s.commands + [Abort] ||
      r.commands == s.commands + [Schedule(c.delaySeconds)] ||
      r.commands == s.commands + [Abort, Schedule(c.delaySeconds)]
    ensures s.shutdownStatus && !ShouldAbort(s, c, plexPresent, p) ==>
      StartTick(v, s, c, plexPresent, p).1.commands == s.commands
  {
    var s1 := AfterAbortBlock(s, c, plexPresent, p);
    if ShouldAbort(s, c, plexPresent, p) {
      assert s.commands + [Abort] + [Schedule(c.delaySeconds)] == s.commands + [Abort, Schedule(c.delaySeconds)];
    }
  }

  /** With readings that do not change within the tick and a non-negative
      idle time, a tick that aborted does not arm again. */
  lemma NoRearmAfterAbort(v: Variant, s: ScriptState, c: Settings, plexPresent: bool, p: LegacyProbes)
    requires StableLegacy(p) && p.idleAtIdleGate >= 0.0
    requires ShouldAbort(s, c, plexPresent, p)
    ensures StartTick(v, s, c, plexPresent, p).0 != Armed
    ensures StartTick(v, s, c, plexPresent, p).1 == s.(shutdownStatus := false, commands := s.commands + [Abort])
  {
    if p.idleAtAbortCheck < c.maxIdle {
      assert c.maxIdle != 0.0;
    }
  }

  /** The host's answer to `shutdown -s` never changes what a tick does. */
  lemma AnswerIgnored(v: Variant, s: ScriptState, c: Settings, plexPresent: bool, p: LegacyProbes, answer: OsResult)
    ensures StartTick(v, s, c, plexPresent, p.(scheduleAnswer := answer)) == StartTick(v, s, c, plexPresent, p)
  {
  }

  /** Started with the flag telling whether the host has a shutdown pending,
      the tick ends with the flag still telling it exactly when the host
      accepted the schedule or the tick did not arm. When it armed and the
      host refused, the flag is set and nothing is pending. */
  lemma StatusInSync(v: Variant, s: ScriptState, c: Settings, plexPresent: bool, p: LegacyProbes)
    ensures var t := StartTick(v, s, c, plexPresent, p);
      |s.commands| <= |t.1.commands| && t.1.commands[..|s.commands|] == s.commands
    ensures var t := StartTick(v, s, c, plexPresent, p);
      t.1.shutdownStatus == HostPendingAfter(s.shutdownStatus, t.1.commands[|s.commands|..], p.scheduleAnswer.Success?)
      <==> p.scheduleAnswer.Success? || t.0 != Armed
    ensures var t := StartTick(v, s, c, plexPresent, p);
      t.0 == Armed && !p.scheduleAnswer.Success? ==>
        t.1.shutdownStatus && !HostPendingAfter(s.shutdownStatus, t.1.commands[|s.commands|..], false)
  {
    var t := StartTick(v, s, c, plexPresent, p);
    var s1 := AfterAbortBlock(s, c, plexPresent, p);
    var n := |s.commands|;
    var added: seq<Command> := if ShouldAbort(s, c, plexPresent, p) then [Abort] else [];
    assert s1.commands == s.commands + added;
    assert HostPendingAfter(s.shutdownStatus, added, p.scheduleAnswer.Success?) == s1.shutdownStatus;
    if t.0 == Armed {
      assert t.1.commands == s.commands + (added + [Schedule(c.delaySeconds)]);
      assert t.1.commands[..n] == s.commands;
      assert t.1.commands[n..] == added + [Schedule(c.delaySeconds)];
      HostPendingAfterConcat(s.shutdownStatus, added, [Schedule(c.delaySeconds)], p.scheduleAnswer.Success?);
      HostPendingAfterConcat(s.shutdownStatus, added, [Schedule(c.delaySeconds)], false);
    } else {
      assert t.1 == s1;
      assert t.1.commands[..n] == s.commands;
      assert t.1.commands[n..] == added;
    }
  }
}
