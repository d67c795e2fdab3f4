# Plex auto-shutdown: the shutdown decision engine

PlexAutoShutdown turns a Windows computer off once it has been left idle and
no one is watching a Plex stream. It polls the input-idle time, the Plex
session count and the process list. From these it decides, on every tick,
to schedule a shutdown with `shutdown -s -t <seconds>`, to abort one with
`shutdown -a`, or to do nothing.

This project models that decision engine in Dafny, in each of the five
places where the repository implements it:

- `PlexShutdownManager`, in plex_shutdown_manager.py, is the current engine (modules `Manager`, `ManagerProperties`).
  - It is a class whose one field, `shutdown_enabled`, is updated by `cancel_shutdown` and `activate_shutdown`.
  - `monitor_plex_and_shutdown` is a branch chain over the probes that returns NO_ACTIVATION, ACTIVATED_SHUTDOWN, CANCELED_SHUTDOWN or, on one path, None.
  - `monitor_mainloop` repeats it.
- The older scripts share one tick (modules `Legacy`, `LegacyProperties`). Its abort block does not return, so evaluation continues after it. Its process test is the inverse of the current one.
  - WinPlexAutoShutdown.py (module `WinPlex`) adds a toast with a cancel button and the loop `run_script`.
  - plexAutoShutdown.py (module `PlexAuto`) and plexAutoShutdownNoConfig.py (module `NoConfig`) are console scripts with no zero-threshold guard.
  - backup.py (modules `Backup`, `BackupProperties`) keeps the flag in a parameter.
- Module `Variants` states how the versions differ.
- Modules `Common` and `Text` hold what the versions share: the two command lines, the process scan, `render_emoji`, the minute/second conversion, and the lower-cased substring test.

How the model is built:

- **State.** Every `shutdown` command line a version issues is appended to a `commands` log. Every toast adds one to a counter. The state of a class is that log, the counter and the flag.
- **Readings.** Each tick's readings are a snapshot record, with a separate field for each time the source calls a probe. The idle time and the session count are each read twice per tick. Where a property needs the two readings to agree, the predicate `StableLegacy` says so as a precondition.
- **OS answers.** What `shutdown` answers is an input of the tick (`abortAnswer` and `scheduleAnswer` for the current manager, `scheduleAnswer` for the legacy scripts). The manager branches on it. The legacy scripts never read what `os.system` returns, so the legacy tick ignores it (`LegacyProperties.AnswerIgnored`). `Common.HostPendingAfter` says whether a shutdown is pending after a run of commands, on a host that may refuse a `shutdown -s`.
- **Contracts.** Each imperative member is proved against a function: the class method against `Tick` or `StartTick`, the loop against `Run`, `WinRun` or `MainloopAsWritten`. The lemmas state what the source promises about those functions.

Where the code and the repository's own descriptions of it disagree, the model follows the code:

- With the monitoring switch off, the tick does nothing, even when a shutdown is armed. The cancel happens elsewhere: app.py's `toggle_shutdown_switch` (app.py:216-225) calls `cancel_shutdown` when the switch is turned off. The GUI is not modelled (`ManagerProperties.SwitchOffIsInert`).
- `activate_shutdown` has no already-armed guard, and arming twice issues the command twice (`Manager.UnitTestScenarios`). The tick only calls it when disarmed (`ManagerProperties.ActivatedIff`).
- `cancel_shutdown` always runs `shutdown -a`, even when nothing is armed.
- An armed manager whose gates all pass returns None, not NO_ACTIVATION (`Manager.Outcome.ReturnedNone`).
- The current process check requires both the server and the transcoder to be running. This is what the code does and what its unit test pins. The docstring of `check_if_transcoder_running` (plex_shutdown_manager.py:43) says "Plex is running and transcoder not", which is what the legacy scripts do (`Variants.InvertedProcessTest`).

## Model

| member | source | states |
|---|---|---|
| ManagerProperties.CodeInjective | plex_shutdown_manager.py:15-17 | the outcome codes 1, -1 and 0 are distinct; only the fall-through path has no code (None) |
| Manager.PlexShutdownManager.constructor | plex_shutdown_manager.py:26-27 | a new manager is disarmed, has issued no command and shown no toast |
| ManagerProperties.SessionProbeUnitTests | plex_shutdown_manager_test.py:103-121 | as written, the session probe returns false without an App (test05) and false for a connected App with no session (test09), and true with two sessions (test10) |
| Common.MinutesToSeconds | plex_shutdown_manager.py:71-73 | the conversion divides back to the minutes (so `minutes_to_seconds(1) == 60`, as test11 expects), is zero only for zero and grows positive inputs |
| Text.Lower | plex_shutdown_manager.py:61-65 | `.lower()` keeps the length and lower-cases each character |
| Text.LowerIdempotent | plex_shutdown_manager.py:61-65 | lower-casing twice is lower-casing once |
| Text.ContainsIffOccurs | plex_shutdown_manager.py:61-65 | Python's `in` on strings holds iff the needle occurs at some index |
| Text.ContainsBothEnds | plex_shutdown_manager.py:61-65 | both ends of a concatenation occur in it after lower-casing |
| ManagerProperties.ServerNeedleIsLowerCased | plex_shutdown_manager.py:61 | the server needle is `"Plex Media Server.exe".lower()` |
| ManagerProperties.TranscoderNeedleIsLowerCased | plex_shutdown_manager.py:64 | the transcoder needle is `"Plex Transcoder.exe".lower()` |
| ManagerProperties.TranscoderCheckIff | plex_shutdown_manager.py:42-69 | on a tasklist listing, the check holds iff the App (if any) has a connection and both lower-cased image names occur in the lower-cased output |
| ManagerProperties.TranscoderCheckFailsClosed | plex_shutdown_manager.py:44-48 | a failing tasklist or a missing Plex connection gives false |
| ManagerProperties.TranscoderCheckIgnoresCase | plex_shutdown_manager.py:61-65 | two listings equal up to case give the same answer |
| ManagerProperties.TasklistTranscoderAlone | plex_shutdown_manager_test.py:67-77 | a listing with only the transcoder fails the check |
| ManagerProperties.NoTranscoderAfterServer | plex_shutdown_manager_test.py:79-89 | the lower-cased server name plus at most one character holds no transcoder needle |
| ManagerProperties.TasklistServerAlone | plex_shutdown_manager_test.py:79-89 | the server followed by any one character fails the check |
| ManagerProperties.TasklistServerUnitTest | plex_shutdown_manager_test.py:79-89 | the listing `"Plex Media Server.exe\n"` fails the check |
| ManagerProperties.TasklistBoth | plex_shutdown_manager_test.py:91-101 | the server and the transcoder, whatever separates them, pass the check |
| ManagerProperties.TasklistBothUnitTest | plex_shutdown_manager_test.py:91-101 | the listing `"Plex Media Server.exe\n Plex Transcoder.exe"` passes the check |
| Manager.PlexShutdownManager.CancelShutdown | plex_shutdown_manager.py:75-84 | issues one abort, returns true iff it succeeded, clears the flag only then, no toast |
| Manager.PlexShutdownManager.ActivateShutdown | plex_shutdown_manager.py:86-108 | one toast, one schedule of minutes*60 seconds, flag set only when the OS accepted |
| Manager.PlexShutdownManager.MonitorPlexAndShutdown | plex_shutdown_manager.py:110-146 | the imperative branch chain computes exactly `Tick`: the outcome and new state |
| ManagerProperties.SwitchOffIsInert | plex_shutdown_manager.py:114-115 | without an App or with the switch off: NO_ACTIVATION and no change, even when armed |
| ManagerProperties.CancelsWhenActive | plex_shutdown_manager.py:120-126 | armed and (idle below the threshold or a session): CANCELED_SHUTDOWN whatever the abort answered, one abort, flag cleared iff it succeeded |
| ManagerProperties.CanceledIff | plex_shutdown_manager.py:114-126 | CANCELED_SHUTDOWN exactly in that case |
| ManagerProperties.NotIdleDoesNothing | plex_shutdown_manager.py:128-131 | disarmed, non-zero threshold, idle below it: NO_ACTIVATION and no change |
| ManagerProperties.GatesAfterIdle | plex_shutdown_manager.py:134-146 | failed process check or session: NO_ACTIVATION; else disarmed: arm with delay*60 s and one toast; armed: None and no change |
| ManagerProperties.ActivatedIff | plex_shutdown_manager.py:114-146 | ACTIVATED_SHUTDOWN exactly when switch on, disarmed, idle gate passed, process check passed, no session |
| ManagerProperties.AtMostOneCommandPerTick | plex_shutdown_manager.py:110-146 | a tick appends at most one command, an abort only when armed, a schedule only when disarmed, a toast only with a schedule |
| ManagerProperties.ZeroThresholdIgnoresIdle | plex_shutdown_manager.py:118-131 | with a zero threshold and non-negative readings, the idle time plays no part |
| Manager.UnitTestScenarios | plex_shutdown_manager_test.py:33-58 | activation sets the flag with one toast; cancelling it succeeds, clears the flag and shows no toast; a cancel with nothing scheduled fails with no toast; arming twice issues the schedule twice |
| ManagerProperties.TickKeepsFlagInSync | plex_shutdown_manager.py:75-108 | with a host that answers consistently, the flag keeps telling whether a shutdown is pending |
| ManagerProperties.DisconnectedProbesRaise | plex_shutdown_manager.py:34-39 | as written, both probes raise TypeError on an App without a Plex connection |
| ManagerProperties.CorrectedProbesAgree | plex_shutdown_manager.py:29-48 | wherever the probes as written return, the model's probes return the same value |
| ManagerProperties.DisconnectedPlexNeverArms | plex_shutdown_manager.py:44-48 | with the corrected probes, a disconnected server never arms and cancels only on idle time |
| Manager.PlexShutdownManager.MonitorMainloop | plex_shutdown_manager.py:148-159 | the loop over bounded ticks ends in the state and outcomes of `Run`; without an App nothing happens |
| ManagerProperties.RunSwitchedOffIsInert | plex_shutdown_manager.py:156-158 | with the switch off on every tick a run changes nothing and every outcome is NO_ACTIVATION |
| ManagerProperties.RunLogMatchesOutcomes | plex_shutdown_manager.py:156-158 | over a run, one schedule and one toast per ACTIVATED_SHUTDOWN, one abort per CANCELED_SHUTDOWN, the old log kept as a prefix |
| Common.CheckIfTranscoderRunning | WinPlexAutoShutdown.py:116-127 | the process loop returns true iff some name equals the server image and none equals the transcoder image |
| Common.RenderEmoji | WinPlexAutoShutdown.py:135-139 | the emoji followed by a space when emojis are allowed, otherwise the empty string |
| WinPlex.WinScript.constructor | WinPlexAutoShutdown.py:81-89 | settings as configured, SHUTDOWN_STATUS false, RUNNING true |
| WinPlex.WinScript.Start | WinPlexAutoShutdown.py:147-189 | one `start()` computes exactly `StartTick` for the guarded, toasting variant, RUNNING unchanged |
| LegacyProperties.AbortBlockContinues | WinPlexAutoShutdown.py:150-154 | armed and (idle below the threshold or a session): one abort, status false, and the tick continues as a disarmed tick |
| LegacyProperties.NoAbortWithoutCause | WinPlexAutoShutdown.py:150-154 | without that condition the tick issues no abort |
| LegacyProperties.IdleGateBlocksArming | WinPlexAutoShutdown.py:157-163 | idle below a (guarded: non-zero) threshold ends the tick without arming |
| LegacyProperties.IdleGuard | WinPlexAutoShutdown.py:157-163 | with the guard a zero threshold skips the idle gate; without it the tick stops at the gate exactly when idle is below the threshold |
| LegacyProperties.LaterGatesBlockArming | WinPlexAutoShutdown.py:165-174 | a failed process check or an active session ends the tick without arming |
| LegacyProperties.ArmedIff | WinPlexAutoShutdown.py:177-189 | arms exactly when all gates pass and the status is false; then one schedule of the raw seconds, status true, a toast in the Windows script |
| LegacyProperties.CommandsOfOneTick | WinPlexAutoShutdown.py:150-189 | a tick appends nothing, an abort, an arm or an abort then an arm; an armed tick without cause appends nothing |
| LegacyProperties.NoRearmAfterAbort | WinPlexAutoShutdown.py:150-174 | with stable readings and idle >= 0, a tick that aborted does not re-arm |
| LegacyProperties.StatusInSync | WinPlexAutoShutdown.py:150-189 | a tick only appends to the log; started from the host's state, the status still tells whether a shutdown is pending iff the host accepted the `shutdown -s` or the tick did not arm; after an arm the host refused, the status is true and nothing is pending |
| LegacyProperties.AnswerIgnored | WinPlexAutoShutdown.py:188-189 | the host's answer to `shutdown -s` never changes the tick, since `os.system`'s result is not read |
| WinPlex.WinScript.CancelScript | WinPlexAutoShutdown.py:92-103 | only "response=cancel" aborts, toasts and sets RUNNING false; SHUTDOWN_STATUS stays |
| WinPlex.WinScript.DeliverClicks | WinPlexAutoShutdown.py:92-106 | the activations of one sleep, applied in order |
| WinPlex.ClicksEffect | WinPlexAutoShutdown.py:92-103 | after a sequence of activations: status unchanged, running iff no cancel click, one abort and one toast per cancel click |
| WinPlex.CancelLeavesStaleStatus | WinPlexAutoShutdown.py:92-103 | after a cancel click on an armed script the status is still true though nothing is pending, whatever the host answered before |
| WinPlex.WinScript.RunScript | WinPlexAutoShutdown.py:192-196 | the bounded loop ends in the state and pass count of `WinRun` |
| WinPlex.StoppedRunDoesNothing | WinPlexAutoShutdown.py:194 | once RUNNING is false no pass runs |
| WinPlex.RunStopsAfterCancel | WinPlexAutoShutdown.py:192-196 | a cancel click during pass k means at most k+1 passes |
| WinPlex.RunWithoutCancel | WinPlexAutoShutdown.py:192-196 | without cancel clicks every pass runs and the loop is still running |
| PlexAuto.ConfigScript.constructor | plexAutoShutdown.py:21-25 | settings from config.ini, SHUTDOWN_STATUS false |
| PlexAuto.ConfigScript.Start | plexAutoShutdown.py:70-103 | one `start()` computes exactly `StartTick` for the unguarded, non-toasting variant |
| PlexAuto.AbortsAndContinues | plexAutoShutdown.py:73-77 | armed and (idle below MAX_IDLE_TIME or a session): one abort, status false, and the tick continues as a disarmed one |
| PlexAuto.UnguardedIdleGate | plexAutoShutdown.py:80-82 | the tick stops at the idle gate exactly when idle is below MAX_IDLE_TIME, zero included, and then arms nothing |
| PlexAuto.GatesBlockArming | plexAutoShutdown.py:85-92 | past the idle gate, a failed process check or a session ends the tick without arming |
| PlexAuto.ArmsOnlyWhenDisarmed | plexAutoShutdown.py:95-103 | arming only from a false status, with the raw SHUTDOWN_DELAY seconds, status true, no toast |
| NoConfig.NoConfigScript.constructor | plexAutoShutdownNoConfig.py:19 | SHUTDOWN_STATUS starts false |
| NoConfig.NoConfigScript.Start | plexAutoShutdownNoConfig.py:61-88 | one `Start()` computes exactly `StartTick` with threshold 1800 s and delay 3600 s |
| NoConfig.ConstantSettings | plexAutoShutdownNoConfig.py:16-20 | the constants are thirty minutes of idle, a one-minute interval, a one-hour delay, no emojis |
| NoConfig.AbortsAndContinues | plexAutoShutdownNoConfig.py:63-67 | armed and (under 1800 idle seconds or a session): one abort, status false, and the tick continues as a disarmed one |
| NoConfig.IdleGate | plexAutoShutdownNoConfig.py:70-72 | under 1800 idle seconds at the gate the tick stops and arms nothing |
| NoConfig.GatesBlockArming | plexAutoShutdownNoConfig.py:75-82 | past the idle gate, a failed process check or a session ends the tick without arming |
| NoConfig.ArmsForAnHour | plexAutoShutdownNoConfig.py:85-88 | arming only from a false status, a shutdown 3600 s away, status true |
| Backup.MinutesToMilliseconds | backup.py:83-85 | a thousand times `minutes_to_seconds`, i.e. 60000 per minute |
| Backup.CheckIfTranscoderRunning | backup.py:30-49 | false without Plex, else server present and transcoder absent |
| Backup.MonitorPlexAndShutdown | backup.py:128-174 | the local flag and the commands issued are exactly those of `Monitor` |
| BackupProperties.SwitchOffDoesNothing | backup.py:130-131 | with the switch off nothing is issued and the flag is kept |
| BackupProperties.AbortsAndContinues | backup.py:134-143 | an armed pass with the user back or a session aborts, then goes on exactly like a disarmed pass |
| BackupProperties.GatesBlockArming | backup.py:145-158 | the idle gate (non-zero threshold), a failed process check or a session leave at most the abort |
| BackupProperties.NoPlexNeverArms | backup.py:20-49 | without Plex both probes answer false: no arm, and an abort only for idle time |
| BackupProperties.ArmsWithDelayInSeconds | backup.py:161-174 | a disarmed pass arms with shutdown_delay*60 seconds exactly when all gates pass, else does nothing |
| BackupProperties.MonitorInSync | backup.py:128-174 | started from the host's state, the final local flag tells whether a shutdown is pending iff the host accepted the pass's `shutdown -s` or none was issued; after a refused one the flag is true and nothing is pending |
| BackupProperties.DisarmedPassNeverAborts | backup.py:134-143 | a pass started disarmed never aborts |
| Backup.MonitorMainloop | backup.py:177-184 | the recursion issues exactly the commands of `MainloopAsWritten`, every pass from the same flag |
| BackupProperties.AsWrittenNeverAborts | backup.py:177-184 | as written, a thread started disarmed never issues `shutdown -a` |
| BackupProperties.UserReturns | backup.py:177-184 | one idle pass then a return: as written the shutdown stays pending, threaded it is aborted |
| BackupProperties.IdleTwice | backup.py:177-184 | two idle passes: as written two schedules, threaded one |
| BackupProperties.TwoPasses | backup.py:177-184 | both loops over two passes, pass by pass |
| Backup.MonitorMainloopThreaded | backup.py:177-184 | the corrected recursion computes exactly `MainloopThreaded` |
| BackupProperties.ThreadedInSync | backup.py:177-184 | with the flag threaded, and every `shutdown -s` accepted, it tells whether a shutdown is pending after any number of passes |
| Variants.InvertedProcessTest | WinPlexAutoShutdown.py:116-127 | the legacy check passes with the server alone and fails with both; the current manager's check does the opposite |
| Variants.GuardMattersOnlyBelowZero | WinPlexAutoShutdown.py:157-163 | the zero-threshold guard changes a tick only for a zero threshold and a negative idle reading |
| Variants.UnstableReadingsAbortThenArm | WinPlexAutoShutdown.py:150-189 | with readings that change within a tick, the Windows script aborts and re-arms in one tick; the manager cancels and returns |

## Left out

- app.py, the customtkinter GUI, is not modelled. This covers the widgets, the tray icon, the settings form and `apply_settings`. The switch's disarm on turning it off lives there, so it appears nowhere in the model.
- backup.py's widget code is not modelled: `generate_ui`, `apply_settings`, `toggle_auto_shutdown`, `show_success`, `show_error` and `visit_web`.
- None of the reads and writes of config.ini, nor the module-level configuration loading in the scripts, are modelled. Configured values enter as constructor arguments or globals records.
- idle.py, helper.py and utils/register_hkey_aumid.py are not part of this model. They hold the Win32 calls for idle time, the sleep inhibitor and the registry. The idle time is an input reading.
- The processes are not run. `subprocess.run`, `os.system`, tasklist, psutil, WMI and `PlexServer.sessions()` become inputs: an answer, a listing, a list of names or a count. The error dialog that `show_error` would open is not modelled. Exceptions raised by these calls themselves are out of scope too, for example a network error from `PlexServer.sessions()`, or a psutil or WMI error when a process ends while the list is read. In the source each of them ends the script or the monitor thread, like the TypeError recorded under Findings.
- No threads, timers or sleeps are modelled. The loops are cut off after a given sequence of ticks. This covers:
  - `run_code_forever` in plexAutoShutdown.py and its key-press thread;
  - `set_interval` in plexAutoShutdownNoConfig.py;
  - the toast callback thread and the sleep in `run_script`;
  - the daemon threads of main.py and src/main.py.
  - Toast activations are delivered between passes, in order.
- main.py and src/main.py are wiring only.
- The printed messages, their colours and the emojis in them are not modelled. Plain `print`s carry no decision.
- Floating point is not modelled. Idle time, the thresholds and the delays are reals with exact arithmetic, and nothing is rounded.
- Text.Lower: lower-cases ASCII letters only, because the image names and tasklist's relevant output are ASCII; Python's `str.lower()` also folds other scripts.
- Manager.Tick: follows the corrected probes on an App whose Plex instance is None, so `Tick`, `Run`, `MonitorPlexAndShutdown` and `MonitorMainloop` answer false there. As written both probes raise TypeError (plex_shutdown_manager.py:34-39, 44-48), which nothing in `monitor_mainloop`'s `while True` catches, so the monitor thread ends. That path is modelled only by `ManagerProperties.DisconnectedProbesRaise` (see Findings).
- Backup.MonitorMainloop: does not model Python's recursion limit. backup.py:183-184 recurses once per pass without tail-call elimination, so after about a thousand passes (the default limit; about 2.8 hours at the 10-second sleep) the call raises RecursionError and the background thread dies. The model's loop runs any number of passes. The same holds for `Backup.MonitorMainloopThreaded`.
- BackupProperties.ThreadedInSync: is proved only for passes whose `shutdown -s` the host accepted. backup.py sets its flag after `os.system("shutdown -s ...")` without reading the result (backup.py:173-174), so one refused command leaves the flag true with nothing pending. `BackupProperties.MonitorInSync` and `LegacyProperties.StatusInSync` state that case outright.
- Manager.PlexShutdownManager.MonitorMainloop: does not model the sleep inhibitor or the infinite loop, because the loop is cut off after the given ticks and the inhibitor only affects the OS.

## Findings

| source | as written | input that shows it | evidently intended | confidence | as-written member | corrected member |
|---|---|---|---|---|---|---|
| plex_shutdown_manager.py:34-39 | `self.app.show_error(self.app, message)` passes two arguments to the bound method `App.show_error(self, message)` (app.py:227), and line 46 does the same with `self` | an App whose `get_plex_instance()` is None: both probes raise TypeError instead of returning False; nothing in the `while True` of `monitor_mainloop` (plex_shutdown_manager.py:156-158) catches it, so the monitor thread ends and no further tick runs | show the error and return False | not executed | ManagerProperties.DisconnectedProbesRaise | ManagerProperties.DisconnectedPlexNeverArms |
| backup.py:177-184 | `monitor_mainloop` passes its own unchanged `shutdown_enabled` to each recursive call, and `monitor_plex_and_shutdown` changes only its local copy | switch on, threshold 30 min, delay 60 min: one idle pass schedules a shutdown; a pass with the user back does not abort it, and idle passes schedule it again | each pass starts from the flag the previous pass ended with, so a returning user aborts the pending shutdown | not executed | BackupProperties.UserReturns | BackupProperties.ThreadedInSync |
