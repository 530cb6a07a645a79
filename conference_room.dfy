/** The in-call page: the local call flags, the command dispatcher that mirrors an
    acknowledged command into them, the notices it raises, and the simulated network
    statistics. */
module ConferenceRoom {
  import opened Conference
  import ControlBar
  import NetworkStatsView

  /** How the command request ended: a response with `ok` set, a response without it,
      or a request that threw before any response arrived. */
  datatype Outcome = Acknowledged | Rejected | Threw

  datatype Variant = Plain | Destructive

  /** A toast shown to the user. */
  datatype Notice = Notice(title: string, description: string, variant: Variant)

  /** The client's mirror of the call state. */
  datatype CallFlags = CallFlags(isMuted: bool, isVideoOn: bool)

  /** Microphone unmuted, camera on. */
  const InitialFlags: CallFlags := CallFlags(false, true)

  /** The placeholder statistics shown before the first simulated update. */
  const InitialStats: NetworkStats := NetworkStats(32, 30, 2500)

  /** The notice raised when the command request throws. */
  const FailureNotice: Notice := Notice("Error", "Failed to execute command", Destructive)

  /** The new flags and the notices raised by one dispatch. */
  datatype Reaction = Reaction(flags: CallFlags, notices: seq<Notice>)

  predicate IsMicCommand(a: CommandAction) {
    a == Mute || a == Unmute
  }

  predicate IsVideoCommand(a: CommandAction) {
    a == VideoOn || a == VideoOff
  }

  /** The confirmation raised for an acknowledged command; only leaving is destructive. */
  function AckNotice(a: CommandAction): (n: Notice)
    ensures n.variant == Destructive <==> a == Leave
  {
    match a
    case Mute => Notice("Microphone muted", "Your microphone is now muted", Plain)
    case Unmute => Notice("Microphone unmuted", "Your microphone is now active", Plain)
    case VideoOn => Notice("Video enabled", "Your camera is now on", Plain)
    case VideoOff => Notice("Video disabled", "Your camera is now off", Plain)
    case Leave => Notice("Leaving call", "You have left the conference", Destructive)
  }

  /** The flags after an acknowledged command: a microphone command sets `isMuted` to
      whether it was MUTE, a video command sets `isVideoOn` to whether it was VIDEO_ON,
      and the other flag, like both flags on LEAVE, keeps its value. */
  function AckFlags(f: CallFlags, a: CommandAction): (g: CallFlags)
    ensures g.isMuted == if IsMicCommand(a) then a == Mute else f.isMuted
    ensures g.isVideoOn == if IsVideoCommand(a) then a == VideoOn else f.isVideoOn
  {
    match a
    case Mute => f.(isMuted := true)
    case Unmute => f.(isMuted := false)
    case VideoOn => f.(isVideoOn := true)
    case VideoOff => f.(isVideoOn := false)
    case Leave => f
  }

  /** `handleCommand` once the request has ended with `o`.  The flags change only on
      an acknowledgement; a rejected request raises nothing, a thrown one raises the
      failure notice, an acknowledged one raises its single confirmation. */
  function Respond(f: CallFlags, a: CommandAction, o: Outcome): (r: Reaction)
    ensures o != Acknowledged ==> r.flags == f
    ensures o == Rejected ==> r.notices == []
    ensures o == Threw ==> r.notices == [FailureNotice]
    ensures o == Acknowledged ==> r.flags == AckFlags(f, a) && r.notices == [AckNotice(a)]
  {
    match o
    case Acknowledged => Reaction(AckFlags(f, a), [AckNotice(a)])
    case Rejected => Reaction(f, [])
    case Threw => Reaction(f, [FailureNotice])
  }

  /** Whatever the command, a dispatch raises at most one notice, and it is
      destructive exactly on a thrown request or an acknowledged LEAVE. */
  lemma RespondNotices(f: CallFlags, a: CommandAction, o: Outcome)
    ensures |Respond(f, a, o).notices| == if o == Rejected then 0 else 1
    ensures forall n :: n in Respond(f, a, o).notices ==>
      (n.variant == Destructive <==> o == Threw || a == Leave)
  {
  }

  /** Acknowledging the same command again changes nothing more. */
  lemma AckIdempotent(f: CallFlags, a: CommandAction)
    ensures AckFlags(AckFlags(f, a), a) == AckFlags(f, a)
  {
  }

  /** The two axes are independent: a microphone command and a video command have the
      same effect in either order. */
  lemma AxesCommute(f: CallFlags, m: CommandAction, v: CommandAction)
    requires IsMicCommand(m) && IsVideoCommand(v)
    ensures AckFlags(AckFlags(f, m), v) == AckFlags(AckFlags(f, v), m)
  {
  }

  /** One dispatch in a sequence. */
  datatype Step = Step(action: CommandAction, outcome: Outcome)

  /** The flags and all notices after dispatching `steps` in order from `f`. */
  function Run(f: CallFlags, steps: seq<Step>): Reaction
    decreases |steps|
  {
    if steps == [] then Reaction(f, [])
    else
      var before := Run(f, steps[..|steps| - 1]);
      var last := steps[|steps| - 1];
      var r := Respond(before.flags, last.action, last.outcome);
      Reaction(r.flags, before.notices + r.notices)
  }

  /** The microphone setting of the last acknowledged microphone command, if any. */
  function LastMicSetting(steps: seq<Step>): Option<bool>
    decreases |steps|
  {
    if steps == [] then None
    else
      var last := steps[|steps| - 1];
      if last.outcome == Acknowledged && IsMicCommand(last.action) then Some(last.action == Mute)
      else LastMicSetting(steps[..|steps| - 1])
  }

  /** The camera setting of the last acknowledged video command, if any. */
  function LastVideoSetting(steps: seq<Step>): Option<bool>
    decreases |steps|
  {
    if steps == [] then None
    else
      var last := steps[|steps| - 1];
      if last.outcome == Acknowledged && IsVideoCommand(last.action) then Some(last.action == VideoOn)
      else LastVideoSetting(steps[..|steps| - 1])
  }

  /** The number of steps whose request was rejected. */
  function RejectedCount(steps: seq<Step>): (k: nat)
    ensures k <= |steps|
    decreases |steps|
  {
    if steps == [] then 0
    else RejectedCount(steps[..|steps| - 1]) + (if steps[|steps| - 1].outcome == Rejected then 1 else 0)
  }

  /** Each flag is what the last acknowledged command on its axis set it to, or its
      starting value when there was none: unacknowledged requests leave no trace. */
  lemma {:induction false} RunFlagsFollowLastAck(f: CallFlags, steps: seq<Step>)
    ensures Run(f, steps).flags.isMuted == LastMicSetting(steps).GetOr(f.isMuted)
    ensures Run(f, steps).flags.isVideoOn == LastVideoSetting(steps).GetOr(f.isVideoOn)
    decreases |steps|
  {
    if steps != [] {
      RunFlagsFollowLastAck(f, steps[..|steps| - 1]);
    }
  }

  /** Without any acknowledgement the flags never move. */
  lemma {:induction false} RunWithoutAckKeepsFlags(f: CallFlags, steps: seq<Step>)
    requires forall i :: 0 <= i < |steps| ==> steps[i].outcome != Acknowledged
    ensures Run(f, steps).flags == f
    decreases |steps|
  {
    if steps != [] {
      RunWithoutAckKeepsFlags(f, steps[..|steps| - 1]);
    }
  }

  /** Every dispatch raises one notice except a rejected one, which raises none. */
  lemma {:induction false} RunNoticeCount(f: CallFlags, steps: seq<Step>)
    ensures |Run(f, steps).notices| == |steps| - RejectedCount(steps)
    decreases |steps|
  {
    if steps != [] {
      RunNoticeCount(f, steps[..|steps| - 1]);
    }
  }

  /** A button press on the control bar, and how the request it led to ended (ignored
      for the refresh button, which sends no command). */
  datatype Press = Press(button: ControlBar.Button, outcome: Outcome)

  /** One press with the bar wired to the dispatcher: the bar reads the current flags,
      and a command it sends goes through `Respond`; a refresh leaves the call alone. */
  function PressOnce(f: CallFlags, p: Press): (r: Reaction)
    ensures p.button == ControlBar.RefreshButton ==> r == Reaction(f, [])
  {
    match ControlBar.OnClick(p.button, f.isMuted, f.isVideoOn)
    case Send(a) => Respond(f, a, p.outcome)
    case RefreshRoster => Reaction(f, [])
  }

  /** An acknowledged press of the mute button flips `isMuted` and of the video
      button flips `isVideoOn`, leaving the other flag alone; an acknowledged leave
      press keeps both.  So a button pressed with the flags it reads up to date never
      sends a command that would leave its own flag as it is. */
  lemma AckPressFlipsOwnFlag(f: CallFlags, b: ControlBar.Button)
    ensures b == ControlBar.MuteButton ==>
      PressOnce(f, Press(b, Acknowledged)).flags == CallFlags(!f.isMuted, f.isVideoOn)
    ensures b == ControlBar.VideoButton ==>
      PressOnce(f, Press(b, Acknowledged)).flags == CallFlags(f.isMuted, !f.isVideoOn)
    ensures b == ControlBar.LeaveButton ==>
      PressOnce(f, Press(b, Acknowledged)) == Reaction(f, [AckNotice(Leave)])
  {
  }

  /** The flags after a sequence of presses, each request ending before the next
      press, so that every press reads the flags its predecessor left. */
  function Drive(f: CallFlags, presses: seq<Press>): CallFlags
    decreases |presses|
  {
    if presses == [] then f
    else PressOnce(Drive(f, presses[..|presses| - 1]), presses[|presses| - 1]).flags
  }

  /** How many presses of `b` were acknowledged. */
  function AckedPresses(presses: seq<Press>, b: ControlBar.Button): (k: nat)
    ensures k <= |presses|
    decreases |presses|
  {
    if presses == [] then 0
    else
      var last := presses[|presses| - 1];
      AckedPresses(presses[..|presses| - 1], b) + (if last.button == b && last.outcome == Acknowledged then 1 else 0)
  }

  /** The closed loop of bar and dispatcher makes each button a toggle: when each
      press's request ends before the next press, a flag has flipped exactly when its
      button was acknowledged an odd number of times. */
  lemma {:induction false} DriveTogglesByParity(f: CallFlags, presses: seq<Press>)
    ensures Drive(f, presses).isMuted ==
      (f.isMuted != (AckedPresses(presses, ControlBar.MuteButton) % 2 == 1))
    ensures Drive(f, presses).isVideoOn ==
      (f.isVideoOn != (AckedPresses(presses, ControlBar.VideoButton) % 2 == 1))
    decreases |presses|
  {
    if presses != [] {
      var init := presses[..|presses| - 1];
      DriveTogglesByParity(f, init);
      AckPressFlipsOwnFlag(Drive(f, init), presses[|presses| - 1].button);
    }
  }

  /** `Math.floor(u * n)` for a draw `u` of `Math.random()`, which lies in [0, 1). */
  function Draw(u: real, n: nat): (k: nat)
    requires 0.0 <= u < 1.0 && n > 0
    ensures k < n
  {
    var x := u * n as real;
    assert 0.0 <= x < n as real;
    x.Floor
  }

  /** One tick of the statistics simulation, from three draws of `Math.random()`. */
  function SimulatedStats(u1: real, u2: real, u3: real): (s: NetworkStats)
    requires 0.0 <= u1 < 1.0 && 0.0 <= u2 < 1.0 && 0.0 <= u3 < 1.0
    ensures 20 <= s.latency <= 69
    ensures 28 <= s.fps <= 32
    ensures 2000 <= s.bitrate <= 2999
  {
    NetworkStats(Draw(u1, 50) + 20, Draw(u2, 5) + 28, Draw(u3, 1000) + 2000)
  }

  /** The simulated latency is never in the poor band, and the placeholder is good. */
  lemma SimulatedLatencyNeverPoor(u1: real, u2: real, u3: real)
    requires 0.0 <= u1 < 1.0 && 0.0 <= u2 < 1.0 && 0.0 <= u3 < 1.0
    ensures NetworkStatsView.BandOf(SimulatedStats(u1, u2, u3).latency) != NetworkStatsView.Poor
    ensures NetworkStatsView.BandOf(InitialStats.latency) == NetworkStatsView.Good
  {
  }

  /** The in-call page's own state. */
  class Session {
    var isMuted: bool
    var isVideoOn: bool
    var notices: seq<Notice>
    var stats: NetworkStats

    function Flags(): CallFlags
      reads this
    {
      CallFlags(isMuted, isVideoOn)
    }

    /** The page as first rendered: not muted, camera on, no notices, placeholder stats. */
    constructor ()
      ensures Flags() == InitialFlags && notices == [] && stats == InitialStats
    {
      isMuted := false;
      isVideoOn := true;
      notices := [];
      stats := InitialStats;
    }

    /** `handleCommand(action)` after its request ended with `outcome`. */
    method HandleCommand(action: CommandAction, outcome: Outcome)
      modifies this
      ensures Flags() == Respond(old(Flags()), action, outcome).flags
      ensures notices == old(notices) + Respond(old(Flags()), action, outcome).notices
      ensures stats == old(stats)
    {
      if outcome == Acknowledged {
        match action {
          case Mute => isMuted := true;
          case Unmute => isMuted := false;
          case VideoOn => isVideoOn := true;
          case VideoOff => isVideoOn := false;
          case Leave =>
        }
        notices := notices + [AckNotice(action)];
      } else if outcome == Threw {
        notices := notices + [FailureNotice];
      }
    }

    /** One tick of the statistics timer. */
    method SimulateStats(u1: real, u2: real, u3: real)
      requires 0.0 <= u1 < 1.0 && 0.0 <= u2 < 1.0 && 0.0 <= u3 < 1.0
      modifies this
      ensures stats == SimulatedStats(u1, u2, u3)
      ensures Flags() == old(Flags()) && notices == old(notices)
    {
      stats := SimulatedStats(u1, u2, u3);
    }
  }
}
