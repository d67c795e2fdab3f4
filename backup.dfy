/**
 * backup.py: the first GUI version. Its monitor reads module globals (the
 * switch, the idle threshold and the delay in minutes, the Plex connection,
 * which may be None) and keeps `shutdown_enabled` in a parameter. The flag
 * is a local copy: `monitor_plex_and_shutdown` changes only its own copy,
 * and `monitor_mainloop` hands its own, unchanged, to every recursive call.
 */
module Backup {
  import opened Common
  import opened Legacy

  /** The globals one pass reads; the GUI may change them between passes. */
  datatype Globals = Globals(switchOn: bool, computerIdle: real, shutdownDelay: real, plexPresent: bool)

  /** `minutes_to_milliseconds`. */
  function MinutesToMilliseconds(minutes: real): (ms: real)
    ensures ms == 1000.0 * MinutesToSeconds(minutes)
    ensures ms / 60000.0 == minutes
  {
    minutes * 60000.0
  }

  /** The idle threshold `minutes_to_seconds(computer_idle)` and the delay
      `minutes_to_seconds(shutdown_delay)` of a pass. */
  function BackupSettings(g: Globals): Settings
  {
    Settings(MinutesToSeconds(g.computerIdle), MinutesToSeconds(g.shutdownDelay))
  }

  /** `monitor_plex_and_shutdown(frame, shutdown_enabled)`: the final value of
      its local flag and the commands it issued. */
  function Monitor(g: Globals, enabled: bool, p: LegacyProbes): (bool, seq<Command>)
  {
    if !g.switchOn then (enabled, [])
    else
      var r := StartTick(BackupVariant, ScriptState(enabled, [], 0), BackupSettings(g), g.plexPresent, p).1;
      (r.shutdownStatus, r.commands)
  }

  /** `check_if_transcoder_running(frame)`: false without a Plex connection,
      else the scan of the WMI process list. */
  method CheckIfTranscoderRunning(plexPresent: bool, names: seq<string>) returns (r: bool)
    ensures r <==> plexPresent && ServerImage in names && TranscoderImage !in names
  {
    if !plexPresent {
      return false;
    }
    r := Common.CheckIfTranscoderRunning(names);
  }

  /** `monitor_plex_and_shutdown`, reassigning its local flag step by step. */
  method MonitorPlexAndShutdown(g: Globals, shutdownEnabled: bool, p: LegacyProbes)
    returns (enabled: bool, issued: seq<Command>)
    ensures (enabled, issued) == Monitor(g, shutdownEnabled, p)
  {
    enabled, issued := shutdownEnabled, [];
    if !g.switchOn {
      return;
    }
    var maxIdleSeconds := MinutesToSeconds(g.computerIdle);
    if enabled {
      if p.idleAtAbortCheck < maxIdleSeconds || SessionsActive(g.plexPresent, p.sessionsAtAbortCheck) {
        issued := issued + [Abort];
        enabled := false;
      }
    }
    if maxIdleSeconds != 0.0 {
      if p.idleAtIdleGate < maxIdleSeconds {
        return;
      }
    }
    var serverWithoutTranscoder := CheckIfTranscoderRunning(g.plexPresent, p.processes);
    if !serverWithoutTranscoder {
      return;
    }
    if SessionsActive(g.plexPresent, p.sessionsAtSessionGate) {
      return;
    }
    if !enabled {
      issued := issued + [Schedule(MinutesToSeconds(g.shutdownDelay))];
      enabled := true;
    }
  }

  /** One pass of the background thread: what the monitor reads, and the
      value of `background_running` after the sleep. */
  datatype Pass = Pass(globals: Globals, probes: LegacyProbes, backgroundRunning: bool)

  /** `monitor_mainloop(frame, shutdown_enabled)` as written: every pass
      starts from the same `shutdown_enabled`. Ends when the passes run out. */
  function MainloopAsWritten(enabled: bool, passes: seq<Pass>): seq<Command>
    decreases |passes|
  {
    if passes == [] then []
    else
      Monitor(passes[0].globals, enabled, passes[0].probes).1 +
      (if passes[0].backgroundRunning then MainloopAsWritten(enabled, passes[1..]) else [])
  }

  /** The recursion of `monitor_mainloop`, cut off after `passes`. */
  method MonitorMainloop(shutdownEnabled: bool, passes: seq<Pass>) returns (issued: seq<Command>)
    ensures issued == MainloopAsWritten(shutdownEnabled, passes)
    decreases |passes|
  {
    if passes == [] {
      return [];
    }
    var _, now := MonitorPlexAndShutdown(passes[0].globals, shutdownEnabled, passes[0].probes);
    issued := now;
    if passes[0].backgroundRunning {
      var later := MonitorMainloop(shutdownEnabled, passes[1..]);
      issued := issued + later;
    }
  }

  /** The evidently intended loop: each pass starts from the flag the
      previous pass ended with. Returns the final flag and the commands. */
  function MainloopThreaded(enabled: bool, passes: seq<Pass>): (bool, seq<Command>)
    decreases |passes|
  {
    if passes == [] then (enabled, [])
    else
      var step := Monitor(passes[0].globals, enabled, passes[0].probes);
      if passes[0].backgroundRunning then
        var rest := MainloopThreaded(step.0, passes[1..]);
        (rest.0, step.1 + rest.1)
      else step
  }

  /** The same loop with the flag threaded through the recursion. */
  method MonitorMainloopThreaded(shutdownEnabled: bool, passes: seq<Pass>)
    returns (enabled: bool, issued: seq<Command>)
    ensures (enabled, issued) == MainloopThreaded(shutdownEnabled, passes)
    decreases |passes|
  {
    if passes == [] {
      return shutdownEnabled, [];
    }
    enabled, issued := MonitorPlexAndShutdown(passes[0].globals, shutdownEnabled, passes[0].probes);
    if passes[0].backgroundRunning {
      var later;
      enabled, later := MonitorMainloopThreaded(enabled, passes[1..]);
      issued := issued + later;
    }
  }
}
