/**
 * WinPlexAutoShutdown.py: the toast-driven Windows script. Its globals
 * `SHUTDOWN_STATUS` and `RUNNING` become the fields of `WinScript`; the
 * settings read from config.ini become constants. A click on the toast's
 * button is delivered to `cancel_script` while `run_script` sleeps.
 */
module WinPlex {
  import opened Common
  import opened Legacy

  /** The argument of the toast's "Click here to cancel" button. */
  const CancelArgument: string := "response=cancel"

  /** The script's state together with `RUNNING`. */
  datatype WinState = WinState(script: ScriptState, running: bool)

  /** `cancel_script` on a toast activation with `arguments`: only the cancel
      button runs `shutdown -a`, shows the "aborted" toast and stops the loop.
      `SHUTDOWN_STATUS` is left as it was. */
  function AfterClick(w: WinState, arguments: string): WinState
  {
    if arguments == CancelArgument then
      WinState(w.script.(commands := w.script.commands + [Abort], toasts := w.script.toasts + 1), false)
    else w
  }

  /** The activations that arrive during one sleep, in order. */
  function AfterClicks(w: WinState, clicks: seq<string>): WinState
    decreases |clicks|
  {
    if clicks == [] then w else AfterClicks(AfterClick(w, clicks[0]), clicks[1..])
  }

  /** One pass of `run_script`: the readings of `start()` and the toast
      activations delivered during the following sleep. */
  datatype Iteration = Iteration(probes: LegacyProbes, clicks: seq<string>)

  /** `run_script` cut off after `its`: the state it ends in and how many
      passes it made; it stops as soon as `RUNNING` is false. */
  function WinRun(w: WinState, c: Settings, its: seq<Iteration>): (WinState, nat)
    decreases |its|
  {
    if !w.running || its == [] then (w, 0)
    else
      var afterStart := StartTick(WinVariant, w.script, c, true, its[0].probes).1;
      var rest := WinRun(AfterClicks(WinState(afterStart, w.running), its[0].clicks), c, its[1..]);
      (rest.0, rest.1 + 1)
  }

  class WinScript {
    const maxIdleTime: int
    const shutdownDelay: int
    const allowEmojis: bool
    var shutdownStatus: bool
    var running: bool
    var commands: seq<Command>
    var toasts: nat

    function Config(): Settings
    {
      ScriptSettings(maxIdleTime, shutdownDelay)
    }

    function State(): ScriptState
      reads this
    {
      ScriptState(shutdownStatus, commands, toasts)
    }

    function Snapshot(): WinState
      reads this
    {
      WinState(State(), running)
    }

    /** The module-level set-up: settings from config.ini, `SHUTDOWN_STATUS`
        false and `RUNNING` true. */
    constructor (maxIdleTime: int, shutdownDelay: int, allowEmojis: bool)
      ensures this.maxIdleTime == maxIdleTime && this.shutdownDelay == shutdownDelay
      ensures this.allowEmojis == allowEmojis
      ensures Snapshot() == WinState(ScriptState(false, [], 0), true)
    {
      this.maxIdleTime := maxIdleTime;
      this.shutdownDelay := shutdownDelay;
      this.allowEmojis := allowEmojis;
      shutdownStatus := false;
      running := true;
      commands := [];
      toasts := 0;
    }

    /** `start()`: one tick; `RUNNING` is not touched. */
    method Start(p: LegacyProbes) returns (e: Ending)
      modifies this
      ensures (e, State()) == StartTick(WinVariant, old(State()), Config(), true, p)
      ensures running == old(running)
    {
      if shutdownStatus {
        if p.idleAtAbortCheck < maxIdleTime as real || SessionsActive(true, p.sessionsAtAbortCheck) {
          commands := commands + [Abort];
          shutdownStatus := false;
        }
      }
      if maxIdleTime != 0 {
        if p.idleAtIdleGate < maxIdleTime as real {
          return NotIdle;
        }
      }
      var serverWithoutTranscoder := CheckIfTranscoderRunning(p.processes);
      if !serverWithoutTranscoder {
        return TranscoderCheckFailed;
      }
      if SessionsActive(true, p.sessionsAtSessionGate) {
        return SessionActive;
      }
      if !shutdownStatus {
        toasts := toasts + 1;
        commands := commands + [Schedule(shutdownDelay as real)];
        shutdownStatus := true;
        return Armed;
      }
      e := AlreadyArmed;
    }

    /** `cancel_script`, the toast's activation callback. */
    method CancelScript(arguments: string)
      modifies this
      ensures Snapshot() == AfterClick(old(Snapshot()), arguments)
    {
      if arguments == CancelArgument {
        commands := commands + [Abort];
        toasts := toasts + 1;
        running := false;
      }
    }

    /** The activations that arrive while `run_script` sleeps. */
    method DeliverClicks(clicks: seq<string>)
      modifies this
      ensures Snapshot() == AfterClicks(old(Snapshot()), clicks)
    {
      for j := 0 to |clicks|
        invariant AfterClicks(old(Snapshot()), clicks) == AfterClicks(Snapshot(), clicks[j..])
      {
        assert clicks[j..][1..] == clicks[j + 1..];
        CancelScript(clicks[j]);
      }
    }

    /** `run_script`, cut off after `its`; returns the number of passes made. */
    method RunScript(its: seq<Iteration>) returns (ran: nat)
      modifies this
      ensures (Snapshot(), ran) == WinRun(old(Snapshot()), Config(), its)
    {
      ran := 0;
      assert its[ran..] == its;
      while running && ran < |its|
        invariant 0 <= ran <= |its|
        invariant WinRun(old(Snapshot()), Config(), its) ==
          (WinRun(Snapshot(), Config(), its[ran..]).0, ran + WinRun(Snapshot(), Config(), its[ran..]).1)
      {
        assert its[ran..][1..] == its[ran + 1..];
        var _ := Start(its[ran].probes);
        DeliverClicks(its[ran].clicks);
        ran := ran + 1;
      }
      assert !running || its[ran..] == [];
    }
  }

  // ---- properties of the toast callback and the loop -----------------------

  /** The number of cancel clicks among `clicks`. */
  function CancelCount(clicks: seq<string>): nat
  {
    if clicks == [] then 0 else (if clicks[0] == CancelArgument then 1 else 0) + CancelCount(clicks[1..])
  }

  /** `n` abort commands. */
  function Aborts(n: nat): seq<Command>
  {
    if n == 0 then [] else [Abort] + Aborts(n - 1)
  }

  /** Activations leave `SHUTDOWN_STATUS` alone; the loop keeps running
      exactly when it was and no cancel button was clicked; each cancel
      click runs `shutdown -a` once and shows one toast, other activations
      do nothing. */
  lemma {:induction false} ClicksEffect(w: WinState, clicks: seq<string>)
    ensures AfterClicks(w, clicks).script.shutdownStatus == w.script.shutdownStatus
    ensures AfterClicks(w, clicks).running <==> w.running && CancelArgument !in clicks
    ensures AfterClicks(w, clicks).script.commands == w.script.commands + Aborts(CancelCount(clicks))
    ensures AfterClicks(w, clicks).script.toasts == w.script.toasts + CancelCount(clicks)
    decreases |clicks|
  {
    if clicks != [] {
      ClicksEffect(AfterClick(w, clicks[0]), clicks[1..]);
      assert clicks == [clicks[0]] + clicks[1..];
      if clicks[0] == CancelArgument {
        assert [Abort] + Aborts(CancelCount(clicks[1..])) == Aborts(CancelCount(clicks));
      }
    }
  }

  /** A stopped loop makes no pass. */
  lemma StoppedRunDoesNothing(w: WinState, c: Settings, its: seq<Iteration>)
    requires !w.running
    ensures WinRun(w, c, its) == (w, 0)
  {
  }

  /** Once a cancel click arrives during pass `k`, no pass after it runs. */
  lemma {:induction false} RunStopsAfterCancel(w: WinState, c: Settings, its: seq<Iteration>, k: nat)
    requires k < |its| && CancelArgument in its[k].clicks
    ensures WinRun(w, c, its).1 <= k + 1
    decreases k
  {
    if w.running {
      var afterStart := StartTick(WinVariant, w.script, c, true, its[0].probes).1;
      var next := AfterClicks(WinState(afterStart, w.running), its[0].clicks);
      ClicksEffect(WinState(afterStart, w.running), its[0].clicks);
      if k == 0 {
        StoppedRunDoesNothing(next, c, its[1..]);
      } else {
        assert its[1..][k - 1] == its[k];
        RunStopsAfterCancel(next, c, its[1..], k - 1);
      }
    }
  }

  /** Without any cancel click a running loop makes every pass. */
  lemma {:induction false} RunWithoutCancel(w: WinState, c: Settings, its: seq<Iteration>)
    requires w.running
    requires forall k :: 0 <= k < |its| ==> CancelArgument !in its[k].clicks
    ensures WinRun(w, c, its).1 == |its|
    ensures WinRun(w, c, its).0.running
    decreases |its|
  {
    if its != [] {
      var afterStart := StartTick(WinVariant, w.script, c, true, its[0].probes).1;
      ClicksEffect(WinState(afterStart, w.running), its[0].clicks);
      assert forall k :: 0 <= k < |its[1..]| ==> its[1..][k] == its[k + 1];
      RunWithoutCancel(AfterClicks(WinState(afterStart, w.running), its[0].clicks), c, its[1..]);
    }
  }

  /** The cancel click leaves the flag set although nothing is pending any
      more, whatever the host answered before; the script stops, so no later
      tick reads it. */
  lemma CancelLeavesStaleStatus(w: WinState, pending: bool, accepted: bool)
    requires w.script.shutdownStatus
    ensures var after := AfterClick(w, CancelArgument);
      after.script.shutdownStatus && !HostPendingAfter(pending, after.script.commands, accepted) && !after.running
  {
    AbortLeavesNothingPending(pending, w.script.commands, accepted);
  }
}
