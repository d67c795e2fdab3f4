/**
 * Values shared by every version of the Plex auto-shutdown engine: the
 * command lines it hands to the Windows `shutdown` tool, the answers the
 * tool can give, the minute/second conversion and the scan of the process
 * list for the two Plex executables.
 */
module Common {

  datatype Option<+T> = None | Some(value: T)

  /** How a `shutdown` invocation ended: exit code zero, or the
      CalledProcessError that `subprocess.run(..., check=True)` raises. */
  datatype OsResult = Success | Failure

  /** A command line given to the Windows `shutdown` tool. */
  datatype Command =
    | Schedule(seconds: real)  // shutdown -s -t <seconds>
    | Abort                    // shutdown -a

  /** Image names of the Plex server and of its transcoder, as Windows lists them. */
  const ServerImage: string := "Plex Media Server.exe"
  const TranscoderImage: string := "Plex Transcoder.exe"

  /** `minutes_to_seconds`: the delay and idle settings are kept in minutes. */
  function MinutesToSeconds(minutes: real): (seconds: real)
    ensures seconds / 60.0 == minutes
    ensures minutes > 0.0 ==> seconds > minutes
    ensures seconds == 0.0 <==> minutes == 0.0
  {
    minutes * 60.0
  }

  /** Whether a shutdown is pending on a Windows host that has run `cmds`, in
      order, starting with `pending`. `shutdown -a` leaves none pending.
      `shutdown -s` leaves one pending when one already was, or when the host
      accepts it (`accepted`: it refuses, for instance, a negative delay). */
  function HostPendingAfter(pending: bool, cmds: seq<Command>, accepted: bool): bool
    decreases |cmds|
  {
    if cmds == [] then pending
    else HostPendingAfter(if cmds[0].Abort? then false else pending || accepted, cmds[1..], accepted)
  }

  lemma {:induction false} HostPendingAfterConcat(pending: bool, a: seq<Command>, b: seq<Command>, accepted: bool)
    ensures HostPendingAfter(pending, a + b, accepted) ==
      HostPendingAfter(HostPendingAfter(pending, a, accepted), b, accepted)
    decreases |a|
  {
    if a == [] {
      assert a + b == b;
    } else {
      assert (a + b)[1..] == a[1..] + b;
      HostPendingAfterConcat(if a[0].Abort? then false else pending || accepted, a[1..], b, accepted);
    }
  }

  /** On a host that accepts every `shutdown -s`, only the last command matters. */
  lemma {:induction false} AcceptingHostFollowsLastCommand(pending: bool, cmds: seq<Command>)
    ensures HostPendingAfter(pending, cmds, true) == if cmds == [] then pending else cmds[|cmds| - 1].Schedule?
    decreases |cmds|
  {
    if cmds != [] {
      AcceptingHostFollowsLastCommand(if cmds[0].Abort? then false else true, cmds[1..]);
      if |cmds| > 1 {
        assert cmds[1..][|cmds[1..]| - 1] == cmds[|cmds| - 1];
      }
    }
  }

  /** After a final `shutdown -a` nothing is pending, whatever came before. */
  lemma AbortLeavesNothingPending(pending: bool, cmds: seq<Command>, accepted: bool)
    ensures !HostPendingAfter(pending, cmds + [Abort], accepted)
  {
    HostPendingAfterConcat(pending, cmds, [Abort], accepted);
  }

  /** The verdict of the legacy process checks: the server is running and the
      transcoder is not. */
  predicate ServerWithoutTranscoder(names: seq<string>)
  {
    ServerImage in names && TranscoderImage !in names
  }

  /** The loop over the process list that the legacy scripts share: one flag
      per executable, set when a process has exactly that name. */
  method CheckIfTranscoderRunning(names: seq<string>) returns (r: bool)
    ensures r <==> ServerImage in names && TranscoderImage !in names
  {
    var plexRunning, transcoderRunning := false, false;
    for i := 0 to |names|
      invariant plexRunning <==> ServerImage in names[..i]
      invariant transcoderRunning <==> TranscoderImage in names[..i]
    {
      assert names[..i + 1] == names[..i] + [names[i]];
      if names[i] == ServerImage {
        plexRunning := true;
      }
      if names[i] == TranscoderImage {
        transcoderRunning := true;
      }
    }
    assert names[..|names|] == names;
    r := plexRunning && !transcoderRunning;
  }

  /** `render_emoji`: the emoji and a space when emojis are allowed, otherwise nothing. */
  function RenderEmoji(allowEmojis: bool, emoji: string): (r: string)
    ensures |r| == if allowEmojis then |emoji| + 1 else 0
    ensures allowEmojis ==> r[..|emoji|] == emoji && r[|emoji|] == ' '
  {
    if allowEmojis then emoji + " " else ""
  }
}
