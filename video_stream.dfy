/** The frame poller: the latest frame and the loading flag, updated by every poll
    response that is applied. */
module VideoStream {
  import opened Conference

  /** How one poll ended: a parsed body whose `frame` field is present or absent, or
      a request or parse failure. */
  datatype FrameEvent = FrameBody(frame: Option<string>) | FrameFailure

  /** A body whose `frame` is present and non-empty; JavaScript reads an empty string
      as false. */
  predicate Carries(e: FrameEvent) {
    e.FrameBody? && e.frame.Some? && e.frame.value != ""
  }

  /** What the hook exposes. */
  datatype FrameView = FrameView(frame: string, isLoading: bool)

  /** Before any response: no frame, loading. */
  const InitialView: FrameView := FrameView("", true)

  /** Once loading is over there is a frame to show. */
  predicate Consistent(v: FrameView) {
    !v.isLoading ==> v.frame != ""
  }

  /** `fetchFrame`'s update: a carrying body replaces the frame and ends loading;
      anything else leaves the view as it was. */
  function ApplyFrame(v: FrameView, e: FrameEvent): (w: FrameView)
    ensures Carries(e) ==> w == FrameView(e.frame.value, false)
    ensures !Carries(e) ==> w == v
    ensures Consistent(v) ==> Consistent(w)
    ensures !v.isLoading ==> !w.isLoading
  {
    if e.FrameBody? && e.frame.Some? && e.frame.value != "" then FrameView(e.frame.value, false)
    else v
  }

  /** The view after applying `events` in the order they completed. */
  function Replay(v: FrameView, events: seq<FrameEvent>): FrameView
    decreases |events|
  {
    if events == [] then v else ApplyFrame(Replay(v, events[..|events| - 1]), events[|events| - 1])
  }

  /** The frame of the most recent carrying event, if any. */
  function LatestFrame(events: seq<FrameEvent>): (r: Option<string>)
    ensures r.Some? ==> r.value != ""
    decreases |events|
  {
    if events == [] then None
    else if Carries(events[|events| - 1]) then events[|events| - 1].frame
    else LatestFrame(events[..|events| - 1])
  }

  /** Last applied wins: the frame is that of the most recent carrying event, or the
      starting frame when there was none; loading has ended exactly when it had ended
      before or some event carried a frame. */
  lemma {:induction false} ReplayLastWins(v: FrameView, events: seq<FrameEvent>)
    ensures Replay(v, events).frame == LatestFrame(events).GetOr(v.frame)
    ensures Replay(v, events).isLoading <==> v.isLoading && LatestFrame(events).None?
    decreases |events|
  {
    if events != [] {
      ReplayLastWins(v, events[..|events| - 1]);
    }
  }

  /** From the initial view: the frame shown is the latest carried one, or "" if none,
      and the loading indicator is shown exactly while no event has carried a frame. */
  lemma ReplayFromInitial(events: seq<FrameEvent>)
    ensures Replay(InitialView, events).frame == LatestFrame(events).GetOr("")
    ensures Replay(InitialView, events).isLoading <==> LatestFrame(events).None?
  {
    ReplayLastWins(InitialView, events);
  }

  /** Loading never comes back and the view stays consistent, whatever is applied. */
  lemma {:induction false} ReplayKeepsInvariants(v: FrameView, events: seq<FrameEvent>)
    ensures !v.isLoading ==> !Replay(v, events).isLoading
    ensures Consistent(v) ==> Consistent(Replay(v, events))
    decreases |events|
  {
    if events != [] {
      ReplayKeepsInvariants(v, events[..|events| - 1]);
    }
  }

  /** The hook's state, with the responses applied so far as a ghost history. */
  class FramePoller {
    var frame: string
    var isLoading: bool
    ghost var applied: seq<FrameEvent>

    ghost predicate Valid()
      reads this
    {
      View() == Replay(InitialView, applied) && Consistent(View())
    }

    function View(): FrameView
      reads this
    {
      FrameView(frame, isLoading)
    }

    /** The hook's initial state. */
    constructor ()
      ensures Valid() && applied == [] && frame == "" && isLoading
    {
      frame := "";
      isLoading := true;
      applied := [];
    }

    /** `fetchFrame` once its request and parse have ended with `e`. */
    method FetchFrame(e: FrameEvent)
      requires Valid()
      modifies this
      ensures Valid() && applied == old(applied) + [e]
      ensures View() == ApplyFrame(old(View()), e)
    {
      if e.FrameBody? && e.frame.Some? && e.frame.value != "" {
        frame := e.frame.value;
        isLoading := false;
      }
      applied := applied + [e];
      assert applied[..|applied| - 1] == old(applied);
    }
  }
}
