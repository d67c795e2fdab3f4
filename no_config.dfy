/**
 * plexAutoShutdownNoConfig.py: the first script, whose settings are
 * constants and whose URL and token are typed in at start-up. `Start()` is
 * the unguarded console tick. The self-rescheduling timer `set_interval`
 * and the coloured output are not modelled.
 */
module NoConfig {
  import opened Common
  import opened Legacy
  import opened LegacyProperties

  /** The script's constants: thirty minutes of idle time, a check every
      minute, a shutdown one hour after arming, no emojis. */
  const MaxIdleTime: int := 1800
  const IntervalDelay: int := 60
  const ShutdownDelay: int := 3600
  const AllowEmojis: bool := false

  /** The constants in the units of the tick. */
  const FixedSettings: Settings := ScriptSettings(MaxIdleTime, ShutdownDelay)

  class NoConfigScript {
    var shutdownStatus: bool
    var commands: seq<Command>
    var toasts: nat

    function State(): ScriptState
      reads this
    {
      ScriptState(shutdownStatus, commands, toasts)
    }

    /** The module-level set-up: `SHUTDOWN_STATUS` starts false. */
    constructor ()
      ensures State() == ScriptState(false, [], 0)
    {
      shutdownStatus := false;
      commands := [];
      toasts := 0;
    }

    /** `Start()`: one tick with the constant settings. */
    method Start(p: LegacyProbes) returns (e: Ending)
      modifies this
      ensures (e, State()) == StartTick(ConsoleVariant, old(State()), FixedSettings, true, p)
    {
      if shutdownStatus {
        if p.idleAtAbortCheck < MaxIdleTime as real || SessionsActive(true, p.sessionsAtAbortCheck) {
          commands := commands + [Abort];
          shutdownStatus := false;
        }
      }
      if p.idleAtIdleGate < MaxIdleTime as real {
        return NotIdle;
      }
      var serverWithoutTranscoder := CheckIfTranscoderRunning(p.processes);
      if !serverWithoutTranscoder {
        return TranscoderCheckFailed;
      }
      if SessionsActive(true, p.sessionsAtSessionGate) {
        return SessionActive;
      }
      if !shutdownStatus {
        commands := commands + [Schedule(ShutdownDelay as real)];
        shutdownStatus := true;
        return Armed;
      }
      e := AlreadyArmed;
    }
  }

  /** The constants, in the units the tick uses: the threshold is half an
      hour and the delay an hour, both in seconds, and the script starts
      with no shutdown scheduled. */
  lemma ConstantSettings()
    ensures FixedSettings == Settings(MinutesToSeconds(30.0), MinutesToSeconds(60.0))
    ensures IntervalDelay as real == MinutesToSeconds(1.0) && !AllowEmojis
  {
  }

  // ---- what `Start()` promises ---------------------------------------------

  /** Armed and fewer than 1800 idle seconds or a session playing: one
      abort, the status false, and the tick goes on as a disarmed one. */
  lemma AbortsAndContinues(s: ScriptState, p: LegacyProbes)
    requires s.shutdownStatus && (p.idleAtAbortCheck < 1800.0 || p.sessionsAtAbortCheck > 0)
    ensures StartTick(ConsoleVariant, s, FixedSettings, true, p) ==
      StartTick(ConsoleVariant, s.(shutdownStatus := false, commands := s.commands + [Abort]), FixedSettings, true, p)
    ensures StartTick(ConsoleVariant, s, FixedSettings, true, p).1.commands[..|s.commands| + 1] == s.commands + [Abort]
  {
    AbortBlockContinues(ConsoleVariant, s, FixedSettings, true, p);
  }

  /** Fewer than 1800 idle seconds at the gate end the tick, and nothing is armed. */
  lemma IdleGate(s: ScriptState, p: LegacyProbes)
    ensures StartTick(ConsoleVariant, s, FixedSettings, true, p).0 == NotIdle <==> p.idleAtIdleGate < 1800.0
    ensures p.idleAtIdleGate < 1800.0 ==>
      StartTick(ConsoleVariant, s, FixedSettings, true, p).1 == AfterAbortBlock(s, FixedSettings, true, p)
  {
    IdleGuard(ConsoleVariant, s, FixedSettings, true, p);
  }

  /** Past the idle gate, a failed process check or a session ends the tick without arming. */
  lemma GatesBlockArming(s: ScriptState, p: LegacyProbes)
    requires p.idleAtIdleGate >= 1800.0
    requires !ServerWithoutTranscoder(p.processes) || p.sessionsAtSessionGate > 0
    ensures StartTick(ConsoleVariant, s, FixedSettings, true, p).0 != Armed
    ensures StartTick(ConsoleVariant, s, FixedSettings, true, p).1 == AfterAbortBlock(s, FixedSettings, true, p)
  {
    LaterGatesBlockArming(ConsoleVariant, s, FixedSettings, true, p);
  }

  /** Arming happens only from a false status, schedules the shutdown an
      hour away and sets the status. */
  lemma ArmsForAnHour(s: ScriptState, p: LegacyProbes)
    ensures var s1 := AfterAbortBlock(s, FixedSettings, true, p);
      StartTick(ConsoleVariant, s, FixedSettings, true, p).0 == Armed ==>
        !s1.shutdownStatus &&
        StartTick(ConsoleVariant, s, FixedSettings, true, p).1 == ScriptState(true, s1.commands + [Schedule(3600.0)], s1.toasts)
    ensures StartTick(ConsoleVariant, s, FixedSettings, true, p).0 != Armed ==>
      StartTick(ConsoleVariant, s, FixedSettings, true, p).1 == AfterAbortBlock(s, FixedSettings, true, p)
  {
    ArmedIff(ConsoleVariant, s, FixedSettings, true, p);
  }
}
