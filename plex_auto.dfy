/**
 * plexAutoShutdown.py: the console script configured by config.ini. Its
 * `start()` has no zero-threshold guard on the idle gate and shows no toast.
 * The loop `run_code_forever` and the key-press thread are not modelled.
 */
module PlexAuto {
  import opened Common
  import opened Legacy
  import opened LegacyProperties

  class ConfigScript {
    const maxIdleTime: int
    const shutdownDelay: int
    const allowEmojis: bool
    var shutdownStatus: bool
    var commands: seq<Command>
    var toasts: nat

    function Config(): Settings
    {
      ScriptSettings(maxIdleTime, shutdownDelay)
    }

    function State(): ScriptState
      reads this
    {
      ScriptState(shutdownStatus, commands, toasts)
    }

    /** The module-level set-up: settings from config.ini, `SHUTDOWN_STATUS` false. */
    constructor (maxIdleTime: int, shutdownDelay: int, allowEmojis: bool)
      ensures this.maxIdleTime == maxIdleTime && this.shutdownDelay == shutdownDelay
      ensures this.allowEmojis == allowEmojis
      ensures State() == ScriptState(false, [], 0)
    {
      this.maxIdleTime := maxIdleTime;
      this.shutdownDelay := shutdownDelay;
      this.allowEmojis := allowEmojis;
      shutdownStatus := false;
      commands := [];
      toasts := 0;
    }

    /** `start()`: one tick. */
    method Start(p: LegacyProbes) returns (e: Ending)
      modifies this
      ensures (e, State()) == StartTick(ConsoleVariant, old(State()), Config(), true, p)
    {
      if shutdownStatus {
        if p.idleAtAbortCheck < maxIdleTime as real || SessionsActive(true, p.sessionsAtAbortCheck) {
          commands := commands + [Abort];
          shutdownStatus := false;
        }
      }
      if p.idleAtIdleGate < maxIdleTime as real {
        return NotIdle;
      }
      var serverWithoutTranscoder := CheckIfTranscoderRunning(p.processes);
      if !serverWithoutTranscoder {
        return TranscoderCheckFailed;
      }
      if SessionsActive(true, p.sessionsAtSessionGate) {
        return SessionActive;
      }
      if !shutdownStatus {
        commands := commands + [Schedule(shutdownDelay as real)];
        shutdownStatus := true;
        return Armed;
      }
      e := AlreadyArmed;
    }
  }

  // ---- what `start()` promises ---------------------------------------------

  /** Armed and the computer in use or a session playing: one abort, the
      status false, and the tick goes on as a disarmed one. */
  lemma AbortsAndContinues(s: ScriptState, c: Settings, p: LegacyProbes)
    requires s.shutdownStatus && (p.idleAtAbortCheck < c.maxIdle || p.sessionsAtAbortCheck > 0)
    ensures StartTick(ConsoleVariant, s, c, true, p) ==
      StartTick(ConsoleVariant, s.(shutdownStatus := false, commands := s.commands + [Abort]), c, true, p)
    ensures StartTick(ConsoleVariant, s, c, true, p).1.commands[..|s.commands| + 1] == s.commands + [Abort]
  {
    AbortBlockContinues(ConsoleVariant, s, c, true, p);
  }

  /** The idle gate has no zero-threshold guard: the tick stops there exactly
      when the idle time is below MAX_IDLE_TIME, and then arms nothing. */
  lemma UnguardedIdleGate(s: ScriptState, c: Settings, p: LegacyProbes)
    ensures StartTick(ConsoleVariant, s, c, true, p).0 == NotIdle <==> p.idleAtIdleGate < c.maxIdle
    ensures p.idleAtIdleGate < c.maxIdle ==> StartTick(ConsoleVariant, s, c, true, p).1 == AfterAbortBlock(s, c, true, p)
  {
    IdleGuard(ConsoleVariant, s, c, true, p);
  }

  /** Past the idle gate, a failed process check or a session ends the tick without arming. */
  lemma GatesBlockArming(s: ScriptState, c: Settings, p: LegacyProbes)
    requires p.idleAtIdleGate >= c.maxIdle
    requires !ServerWithoutTranscoder(p.processes) || p.sessionsAtSessionGate > 0
    ensures StartTick(ConsoleVariant, s, c, true, p).0 != Armed
    ensures StartTick(ConsoleVariant, s, c, true, p).1 == AfterAbortBlock(s, c, true, p)
  {
    LaterGatesBlockArming(ConsoleVariant, s, c, true, p);
  }

  /** Arming happens only from a false status; it appends the raw
      SHUTDOWN_DELAY seconds, sets the status and shows no toast. */
  lemma ArmsOnlyWhenDisarmed(s: ScriptState, c: Settings, p: LegacyProbes)
    ensures var s1 := AfterAbortBlock(s, c, true, p);
      StartTick(ConsoleVariant, s, c, true, p).0 == Armed ==>
        !s1.shutdownStatus &&
        StartTick(ConsoleVariant, s, c, true, p).1 == ScriptState(true, s1.commands + [Schedule(c.delaySeconds)], s1.toasts)
    ensures StartTick(ConsoleVariant, s, c, true, p).0 != Armed ==>
      StartTick(ConsoleVariant, s, c, true, p).1 == AfterAbortBlock(s, c, true, p)
  {
    ArmedIff(ConsoleVariant, s, c, true, p);
  }
}
