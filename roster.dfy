/** The roster poller: the participant list, replaced by every poll response that
    carries one, on a timer tick or a manual refresh alike. */
module Roster {
  import opened Conference

  /** How one poll ended: a parsed body whose `participants` field is present (any
      array, the empty one included, is truthy) or absent, or a request or parse
      failure. */
  datatype RosterEvent = RosterBody(participants: Option<seq<Participant>>) | RosterFailure

  predicate Carries(e: RosterEvent) {
    e.RosterBody? && e.participants.Some?
  }

  /** `fetchRoster`'s update: a carried list replaces the current one wholesale;
      anything else keeps it. */
  function ApplyRoster(current: seq<Participant>, e: RosterEvent): (next: seq<Participant>)
    ensures Carries(e) ==> next == e.participants.value
    ensures !Carries(e) ==> next == current
  {
    match e
    case RosterBody(Some(ps)) => ps
    case RosterBody(None) => current
    case RosterFailure => current
  }

  /** After a carrying response the list does not depend on the one before it: no
      merging, and no entry kept for an id the response left out. */
  lemma ReplaceForgetsPrevious(a: seq<Participant>, b: seq<Participant>, e: RosterEvent)
    requires Carries(e)
    ensures ApplyRoster(a, e) == ApplyRoster(b, e)
    ensures forall p :: p in ApplyRoster(a, e) ==> p in e.participants.value
  {
  }

  /** The list after applying `events` in the order they completed. */
  function Replay(current: seq<Participant>, events: seq<RosterEvent>): seq<Participant>
    decreases |events|
  {
    if events == [] then current
    else ApplyRoster(Replay(current, events[..|events| - 1]), events[|events| - 1])
  }

  /** The list of the most recent carrying event, if any. */
  function LatestList(events: seq<RosterEvent>): Option<seq<Participant>>
    decreases |events|
  {
    if events == [] then None
    else if Carries(events[|events| - 1]) then events[|events| - 1].participants
    else LatestList(events[..|events| - 1])
  }

  /** Last applied wins: the list is the most recently carried one, or the starting
      list when none was carried. */
  lemma {:induction false} ReplayLastWins(current: seq<Participant>, events: seq<RosterEvent>)
    ensures Replay(current, events) == LatestList(events).GetOr(current)
    decreases |events|
  {
    if events != [] {
      ReplayLastWins(current, events[..|events| - 1]);
    }
  }

  /** The hook's state, with the responses applied so far as a ghost history. */
  class RosterPoller {
    var participants: seq<Participant>
    ghost var applied: seq<RosterEvent>

    ghost predicate Valid()
      reads this
    {
      participants == Replay([], applied)
    }

    /** The list starts empty. */
    constructor ()
      ensures Valid() && applied == [] && participants == []
    {
      participants := [];
      applied := [];
    }

    /** `fetchRoster` once its request and parse have ended with `e`. */
    method FetchRoster(e: RosterEvent)
      requires Valid()
      modifies this
      ensures Valid() && applied == old(applied) + [e]
      ensures participants == ApplyRoster(old(participants), e)
    {
      if e.RosterBody? && e.participants.Some? {
        participants := e.participants.value;
      }
      applied := applied + [e];
      assert applied[..|applied| - 1] == old(applied);
    }

    /** `refreshRoster`, which is `fetchRoster` itself: a manual refresh applies the
        same transition as a timer tick. */
    method RefreshRoster(e: RosterEvent)
      requires Valid()
      modifies this
      ensures Valid() && applied == old(applied) + [e]
      ensures participants == ApplyRoster(old(participants), e)
    {
      FetchRoster(e);
    }
  }
}
