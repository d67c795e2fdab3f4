/**
 * How the versions of the engine differ, stated on their models: the
 * process test was inverted when the current manager replaced the scripts,
 * the zero-threshold guard only matters for a negative idle reading, and
 * the legacy abort block, which does not return, can abort and re-arm in
 * the same tick when the readings change within it.
 */
module Variants {
  import opened Common
  import opened Text
  import opened Manager
  import opened ManagerProperties
  import opened Legacy
  import opened LegacyProperties

  /** The legacy scripts arm with the server alone and refuse while the
      transcoder runs; the current manager does the opposite on the same
      processes, listed one per line. */
  lemma InvertedProcessTest(a: AppState)
    requires a.plexConnected
    ensures ServerWithoutTranscoder([ServerImage])
    ensures !TranscoderRunning(Some(a), Listing(ServerImage + "\n"))
    ensures !ServerWithoutTranscoder([ServerImage, TranscoderImage])
    ensures TranscoderRunning(Some(a), Listing(ServerImage + "\n" + TranscoderImage))
  {
    assert ServerImage != TranscoderImage && ServerImage in [ServerImage];
    assert [ServerImage, TranscoderImage][1] == TranscoderImage;
    TasklistServerAlone(a, "\n");
    TasklistBoth(a, "\n");
  }

  /** The `MAX_IDLE_TIME != 0` guard changes a tick only when the threshold
      is zero and the idle reading of the gate is negative. */
  lemma GuardMattersOnlyBelowZero(toast: bool, s: ScriptState, c: Settings, plexPresent: bool, p: LegacyProbes)
    ensures StartTick(Variant(true, toast), s, c, plexPresent, p) != StartTick(Variant(false, toast), s, c, plexPresent, p) ==>
      c.maxIdle == 0.0 && p.idleAtIdleGate < 0.0
  {
  }

  /** Readings that change within one tick: in use at the abort test, idle
      at the gate. The Windows script aborts and schedules again within the
      tick; the manager, given the same readings, cancels and returns. */
  lemma UnstableReadingsAbortThenArm(a: AppState, mp: Probes)
    requires a.switchOn && a.computerIdle == 30.0
    requires mp.idleAtCancelCheck == 0.0 && mp.idleAtIdleGate == 3600.0
    ensures var p := LegacyProbes(0.0, 0, 3600.0, [ServerImage], 0, Success);
      StartTick(WinVariant, ScriptState(true, [], 0), ScriptSettings(1800, 3600), true, p) ==
        (Armed, ScriptState(true, [Abort, Schedule(3600.0)], 1))
    ensures Tick(ManagerState(true, [], 0), Some(a), mp).0 == CanceledShutdown
    ensures Tick(ManagerState(true, [], 0), Some(a), mp).1.commands == [Abort]
  {
    var p := LegacyProbes(0.0, 0, 3600.0, [ServerImage], 0, Success);
    assert ServerImage != TranscoderImage && ServerImage in [ServerImage];
    assert ServerWithoutTranscoder([ServerImage]);
    assert ShouldAbort(ScriptState(true, [], 0), ScriptSettings(1800, 3600), true, p);
    assert !IdleGateStops(WinVariant, ScriptSettings(1800, 3600), p);
    assert AfterAbortBlock(ScriptState(true, [], 0), ScriptSettings(1800, 3600), true, p) == ScriptState(false, [Abort], 0);
    assert ScriptSettings(1800, 3600).delaySeconds == 3600.0;
    assert [Abort] + [Schedule(3600.0)] == [Abort, Schedule(3600.0)];
    assert NotIdleForCancel(a, mp);
  }
}
