/**
 * The tick shared by the older scripts: `start()` in WinPlexAutoShutdown.py
 * and plexAutoShutdown.py, `Start()` in plexAutoShutdownNoConfig.py and
 * `monitor_plex_and_shutdown(frame, shutdown_enabled)` in backup.py.
 *
 * Unlike the current manager, the abort block does not return: after
 * `shutdown -a` the tick goes on through the idle, transcoder and session
 * gates and may arm again. The process test is "server running and
 * transcoder NOT running", on exact image names. The answer of `os.system`
 * is never looked at: the host's answer is a reading that no branch consults.
 */
module Legacy {
  import opened Common

  /** What a variant does differently: whether the idle gate is skipped for a
      zero threshold, and whether arming shows a toast. */
  datatype Variant = Variant(idleGuard: bool, toastOnArm: bool)

  /** WinPlexAutoShutdown.py: guarded idle gate, a toast when arming. */
  const WinVariant := Variant(true, true)
  /** plexAutoShutdown.py and plexAutoShutdownNoConfig.py: no guard, no toast. */
  const ConsoleVariant := Variant(false, false)
  /** backup.py: guarded idle gate; its toasts are commented out. */
  const BackupVariant := Variant(true, false)

  /** The threshold and the delay of one tick, both in seconds. */
  datatype Settings = Settings(maxIdle: real, delaySeconds: real)

  /** The readings one tick takes, in the order it takes them: idle time and
      session count for the abort test (the count is only consulted when the
      idle time is not below the threshold), idle time for the idle gate, the
      running process names, and the session count for the session gate.
      Last, what the host answers to `shutdown -s`: the scripts run it through
      `os.system` and never look at the exit status. */
  datatype LegacyProbes = LegacyProbes(
    idleAtAbortCheck: real,
    sessionsAtAbortCheck: nat,
    idleAtIdleGate: real,
    processes: seq<string>,
    sessionsAtSessionGate: nat,
    scheduleAnswer: OsResult)

  /** Nothing changes between the two idle readings nor between the two
      session counts. */
  predicate StableLegacy(p: LegacyProbes)
  {
    p.idleAtAbortCheck == p.idleAtIdleGate && p.sessionsAtAbortCheck == p.sessionsAtSessionGate
  }

  /** The script's flag (`SHUTDOWN_STATUS`, or backup.py's local
      `shutdown_enabled`), every `shutdown` command line issued, and the
      number of toasts shown. */
  datatype ScriptState = ScriptState(shutdownStatus: bool, commands: seq<Command>, toasts: nat)

  /** Where a tick stopped, named after the last status line it prints. */
  datatype Ending =
    | NotIdle             // "Computer is not in idle mode"
    | TranscoderCheckFailed  // "Plex transcoder is running"
    | SessionActive       // "There are an active plex session"
    | Armed               // "Auto-shutdown initiated ..."
    | AlreadyArmed        // every gate passed, a shutdown was already scheduled

  /** `check_if_are_active_sessions`; backup.py answers false when its Plex
      connection is None, the scripts always have one. */
  predicate SessionsActive(plexPresent: bool, sessions: nat)
  {
    plexPresent && sessions > 0
  }

  /** `check_if_transcoder_running` of the legacy scripts, with backup.py's
      early false when Plex is None. */
  predicate LegacyTranscoderCheck(plexPresent: bool, names: seq<string>)
  {
    plexPresent && ServerWithoutTranscoder(names)
  }

  /** The abort block: an armed script that finds the computer in use, or a
      session playing, runs `shutdown -a` and clears its flag. */
  predicate ShouldAbort(s: ScriptState, c: Settings, plexPresent: bool, p: LegacyProbes)
  {
    s.shutdownStatus && (p.idleAtAbortCheck < c.maxIdle || SessionsActive(plexPresent, p.sessionsAtAbortCheck))
  }

  function AfterAbortBlock(s: ScriptState, c: Settings, plexPresent: bool, p: LegacyProbes): ScriptState
  {
    if ShouldAbort(s, c, plexPresent, p) then s.(shutdownStatus := false, commands := s.commands + [Abort]) else s
  }

  /** The idle gate; with the guard, a zero threshold disables it. */
  predicate IdleGateStops(v: Variant, c: Settings, p: LegacyProbes)
  {
    (!v.idleGuard || c.maxIdle != 0.0) && p.idleAtIdleGate < c.maxIdle
  }

  /** One tick of a legacy script: where it stopped and the state after it. */
  function StartTick(v: Variant, s: ScriptState, c: Settings, plexPresent: bool, p: LegacyProbes): (Ending, ScriptState)
  {
    var s1 := AfterAbortBlock(s, c, plexPresent, p);
    if IdleGateStops(v, c, p) then (NotIdle, s1)
    else if !LegacyTranscoderCheck(plexPresent, p.processes) then (TranscoderCheckFailed, s1)
    else if SessionsActive(plexPresent, p.sessionsAtSessionGate) then (SessionActive, s1)
    else if !s1.shutdownStatus then
      (Armed, s1.(shutdownStatus := true,
                  commands := s1.commands + [Schedule(c.delaySeconds)],
                  toasts := s1.toasts + if v.toastOnArm then 1 else 0))
    else (AlreadyArmed, s1)
  }

  /** The threshold and the delay of the configured scripts, which read whole
      seconds from their config (or constants) and compare them with the
      fractional idle time. */
  function ScriptSettings(maxIdleTime: int, shutdownDelay: int): Settings
  {
    Settings(maxIdleTime as real, shutdownDelay as real)
  }
}
