/** Shared vocabulary of the conference client: the participant record, the
    network-statistics record and the closed set of control actions. */
module Conference {

  datatype Option<+T> = None | Some(value: T) {
    function GetOr(default: T): T {
      match this
      case Some(v) => v
      case None => default
    }
  }

  /** A roster entry as the backend reports it; the client never edits one. */
  datatype Participant = Participant(id: string, name: string, isMuted: bool, isVideoOn: bool)

  /** Latency in milliseconds, frames per second and bitrate, all whole numbers. */
  datatype NetworkStats = NetworkStats(latency: nat, fps: nat, bitrate: nat)

  /** The five commands the control bar can send to the backend. */
  datatype CommandAction = Mute | Unmute | VideoOn | VideoOff | Leave {

    /** The string literal this action is on the wire, as the `action` field of the command body. */
    function Tag(): (t: string)
      ensures |t| >= 4
    {
      match this
      case Mute => "MUTE"
      case Unmute => "UNMUTE"
      case VideoOn => "VIDEO_ON"
      case VideoOff => "VIDEO_OFF"
      case Leave => "LEAVE"
    }
  }

  /** Reads a wire tag back; anything outside the five literals is not an action. */
  function ParseTag(t: string): (r: Option<CommandAction>)
    ensures r.Some? ==> r.value.Tag() == t
  {
    if t == "MUTE" then Some(Mute)
    else if t == "UNMUTE" then Some(Unmute)
    else if t == "VIDEO_ON" then Some(VideoOn)
    else if t == "VIDEO_OFF" then Some(VideoOff)
    else if t == "LEAVE" then Some(Leave)
    else None
  }

  /** Every action survives the trip to its tag and back, so distinct actions have distinct tags. */
  lemma TagRoundTrip(a: CommandAction)
    ensures ParseTag(a.Tag()) == Some(a)
  {
  }

  lemma TagInjective(a: CommandAction, b: CommandAction)
    ensures a.Tag() == b.Tag() ==> a == b
  {
    TagRoundTrip(a);
    TagRoundTrip(b);
  }
}
