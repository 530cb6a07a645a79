/** The join form: two text fields, the submit guard and the disabled state of the
    submit button. */
module Join {
  import opened Conference
  import JsString

  /** Where submitting leads: the route and the navigation state passed with it. */
  datatype Navigation = Navigation(path: string, meetingId: string, name: string)

  /** `handleJoin`'s decision: go to the setup page when both fields have a
      non-blank value, carrying the fields exactly as typed; otherwise stay. */
  function JoinTarget(meetingId: string, name: string): (r: Option<Navigation>)
    ensures r.Some? <==> !JsString.Blank(meetingId) && !JsString.Blank(name)
    ensures r.Some? ==> r.value == Navigation("/setup", meetingId, name)
  {
    JsString.TrimEmptyIffBlank(meetingId);
    JsString.TrimEmptyIffBlank(name);
    if JsString.Trim(meetingId) != "" && JsString.Trim(name) != "" then
      Some(Navigation("/setup", meetingId, name))
    else
      None
  }

  /** The submit button's `disabled` expression. */
  function SubmitDisabled(meetingId: string, name: string): (d: bool)
    ensures d <==> JsString.Blank(meetingId) || JsString.Blank(name)
  {
    JsString.TrimEmptyIffBlank(meetingId);
    JsString.TrimEmptyIffBlank(name);
    JsString.Trim(meetingId) == "" || JsString.Trim(name) == ""
  }

  /** The button is disabled exactly when submitting would not navigate. */
  lemma DisabledIffNoNavigation(meetingId: string, name: string)
    ensures SubmitDisabled(meetingId, name) <==> JoinTarget(meetingId, name) == None
  {
  }

  /** A field holding only spaces, tabs or line breaks blocks joining, whatever the
      other field holds. */
  lemma BlankFieldBlocks(blank: string, other: string)
    requires forall i :: 0 <= i < |blank| ==> blank[i] in {' ', '\t', '\n', '\r'}
    ensures JoinTarget(blank, other) == None && JoinTarget(other, blank) == None
  {
    assert JsString.Blank(blank) by {
      forall i | 0 <= i < |blank| ensures JsString.IsTrimmable(blank[i]) {
        assert blank[i] in {' ', '\t', '\n', '\r'};
      }
    }
  }

  /** The form's state; both fields are set on every keystroke. */
  class JoinForm {
    var meetingId: string
    var name: string

    /** Both fields start empty. */
    constructor ()
      ensures meetingId == "" && name == ""
    {
      meetingId := "";
      name := "";
    }

    /** The name field's change handler. */
    method SetName(value: string)
      modifies this
      ensures name == value && meetingId == old(meetingId)
    {
      name := value;
    }

    /** The meeting-id field's change handler. */
    method SetMeetingId(value: string)
      modifies this
      ensures meetingId == value && name == old(name)
    {
      meetingId := value;
    }

    /** Whether the submit button is disabled right now. */
    function Disabled(): bool
      reads this
    {
      SubmitDisabled(meetingId, name)
    }

    /** `handleJoin`: the navigation it performs, if any; the fields are left as they are. */
    method HandleJoin() returns (nav: Option<Navigation>)
      ensures nav == JoinTarget(meetingId, name)
      ensures Disabled() <==> nav == None
    {
      if JsString.Trim(meetingId) != "" && JsString.Trim(name) != "" {
        nav := Some(Navigation("/setup", meetingId, name));
      } else {
        nav := None;
      }
    }
  }

  /** A fresh form shows a disabled button and does not navigate on submit. */
  lemma FreshFormDisabled()
    ensures SubmitDisabled("", "") && JoinTarget("", "") == None
  {
  }
}
