/** The control bar: which intent each of its four buttons issues, given the call
    flags it is rendered with.  The bar holds no state of its own. */
module ControlBar {
  import opened Conference

  datatype Button = MuteButton | VideoButton | LeaveButton | RefreshButton

  /** What a click hands to the page: a command for the dispatcher, or a roster refresh. */
  datatype Intent = Send(action: CommandAction) | RefreshRoster

  /** The intent of a click on `b` while the bar shows `isMuted` and `isVideoOn`. */
  function OnClick(b: Button, isMuted: bool, isVideoOn: bool): (i: Intent)
    ensures b == RefreshButton <==> i == RefreshRoster
    ensures b == LeaveButton <==> i == Send(Leave)
    ensures b == MuteButton ==> (i == Send(Unmute) <==> isMuted)
    ensures b == MuteButton ==> (i == Send(Mute) <==> !isMuted)
    ensures b == MuteButton ==> i.Send?
    ensures b == VideoButton ==> (i == Send(VideoOff) <==> isVideoOn)
    ensures b == VideoButton ==> (i == Send(VideoOn) <==> !isVideoOn)
    ensures b == VideoButton ==> i.Send?
  {
    match b
    case MuteButton => Send(if isMuted then Unmute else Mute)
    case VideoButton => Send(if isVideoOn then VideoOff else VideoOn)
    case LeaveButton => Send(Leave)
    case RefreshButton => RefreshRoster
  }

  /** The choice of command depends only on the button's own flag. */
  lemma ButtonsReadOwnFlagOnly(b: Button, own: bool, v1: bool, v2: bool)
    ensures b == MuteButton ==> OnClick(b, own, v1) == OnClick(b, own, v2)
    ensures b == VideoButton ==> OnClick(b, v1, own) == OnClick(b, v2, own)
    ensures b == LeaveButton || b == RefreshButton ==>
      OnClick(b, own, v1) == OnClick(b, v2, own)
  {
  }
}
