/** The control bar of src/components/ControlBar.jsx: button gating and the own raised hand. */
module ControlBar {
  import opened Wrappers
  import opened Sdk
  import opened Identifiers

  /** `buttonsDisabled`: every custom button is disabled unless the call is connected. */
  function ButtonsDisabled(callState: Option<string>): (r: bool)
    ensures r <==> callState != Some("Connected")
  {
    !(callState == Some("Connected"))
  }

  /**
   * The camera and microphone buttons' `disabled`: `buttonsDisabled ?? props.disabled`. The left
   * operand is always a boolean, so the buttons' own `disabled` is never used.
   */
  function MediaButtonDisabled(callState: Option<string>, propsDisabled: bool): (r: bool)
    ensures r <==> callState != Some("Connected")
  {
    var left: Option<bool> := Some(ButtonsDisabled(callState));
    if left.Some? then left.value else propsDisabled
  }

  datatype HandRequest = LowerHand | RaiseHand

  /** `handleRaiseHand`'s remote call: lower when raised, raise otherwise. */
  function HandRequestFor(isHandRaised: bool): (r: HandRequest)
    ensures r == LowerHand <==> isHandRaised
  {
    if isHandRaised then LowerHand else RaiseHand
  }

  /** The hand button's caption. */
  function HandLabel(isHandRaised: bool): (r: string)
    ensures r == "Lower hand" <==> isHandRaised
    ensures !isHandRaised ==> r == "Raise hand"
  {
    if !isHandRaised then "Raise hand" else "Lower hand"
  }

  /**
   * Once the flag follows the raised-hand list, the button lowers the hand exactly when the
   * user's (non-empty) id is in that list, and its caption says so.
   */
  lemma HandButtonFollowsList(acsID: string, raised: seq<FeatureEntry>)
    requires acsID != ""
    ensures var flag := IsParticipantHandRaised(Some(acsID), Some(raised));
            (HandRequestFor(flag) == LowerHand <==> exists i | 0 <= i < |raised| :: raised[i].identifier.rawId == acsID) &&
            (HandLabel(flag) == "Lower hand" <==> exists i | 0 <= i < |raised| :: raised[i].identifier.rawId == acsID)
  {
  }

  class HandState {
    var isHandRaised: bool

    constructor ()
      ensures !isHandRaised
    {
      isHandRaised := false;
    }

    /** The effect on the raised-hand list. */
    method OnRaisedHandsChanged(acsID: Option<string>, raised: Option<seq<FeatureEntry>>)
      modifies this
      ensures isHandRaised == IsParticipantHandRaised(acsID, raised)
    {
      isHandRaised := IsParticipantHandRaised(acsID, raised);
    }

    /**
     * `handleRaiseHand`: the remote call it makes. Its outcome is only logged; the flag waits for
     * the list to change.
     */
    method HandleRaiseHand() returns (request: HandRequest)
      ensures request == LowerHand <==> isHandRaised
    {
      request := HandRequestFor(isHandRaised);
    }
  }
}
