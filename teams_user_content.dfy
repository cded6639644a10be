/** The call adapter lifecycle of src/components/TestCallTeamsUserContent.jsx. */
module TeamsUserContent {
  import opened Wrappers

  /** The fields of `teamTokens` the lifecycle reads; a missing field is `None`. */
  datatype TeamTokens = TeamTokens(acsToken: Option<string>, communicationUserId: Option<string>)

  const InCallStates: seq<string> := ["Connecting", "Connected", "Disconnecting", "InLobby"]

  /** `inCallUser`; the call state starts as `false`, which is no state at all. */
  function InCallUser(callState: Option<string>): (r: bool)
    ensures r <==> callState.Some? && callState.value in {"Connecting", "Connected", "Disconnecting", "InLobby"}
  {
    callState.Some? && callState.value in InCallStates
  }

  /**
   * The creation effect's condition. The token tests are `!== ""`, so a missing token or user id
   * passes them; so does a missing meeting link.
   */
  predicate CanCreateAdapter(tokens: Option<TeamTokens>, meetingLink: Option<string>, hasAdapter: bool, updatedAdapter: bool) {
    tokens.Some? &&
    tokens.value.acsToken != Some("") &&
    tokens.value.communicationUserId != Some("") &&
    !hasAdapter &&
    updatedAdapter &&
    meetingLink != Some("")
  }

  /**
   * The lifecycle state: the module-level `updatedAdapter` flag, whether the adapter, the stateful
   * client and the call agent are set, the current call (by an opaque handle) and the call state.
   */
  datatype Lifecycle = Lifecycle(
    updatedAdapter: bool,
    hasAdapter: bool,
    hasStatefulClient: bool,
    hasCallAgent: bool,
    call: Option<int>,
    callState: Option<string>)

  const Initial := Lifecycle(true, false, false, false, None, None)

  /** The creation effect: when allowed, `updatedAdapter` is cleared and a creation starts. */
  function CreateStep(s: Lifecycle, tokens: Option<TeamTokens>, meetingLink: Option<string>): (r: (Lifecycle, bool))
    ensures r.1 <==> CanCreateAdapter(tokens, meetingLink, s.hasAdapter, s.updatedAdapter)
    ensures r.1 ==> r.0 == s.(updatedAdapter := false)
    ensures !r.1 ==> r.0 == s
  {
    if CanCreateAdapter(tokens, meetingLink, s.hasAdapter, s.updatedAdapter) then (s.(updatedAdapter := false), true)
    else (s, false)
  }

  /** The settled creation: on success the adapter, client and agent are set; failure is only logged. */
  function CreatedStep(s: Lifecycle, created: bool): (r: Lifecycle)
    ensures created ==> r.hasAdapter && r.hasStatefulClient && r.hasCallAgent
    ensures !created ==> r == s
    ensures r.updatedAdapter == s.updatedAdapter && r.call == s.call && r.callState == s.callState
  {
    if created then s.(hasAdapter := true, hasStatefulClient := true, hasCallAgent := true) else s
  }

  datatype Signal = EndCall | CallIsTerminated

  /**
   * A `stateChanged` event records the call state; when that makes the state "Disconnected" (a
   * change of value, so the effect runs), `destroyCall` runs. If `dispose` throws, only the
   * signals go out; otherwise adapter, client, call and agent are reset and `updatedAdapter` set.
   * Both paths call `endCall` and post "CallIsTerminated".
   */
  function StateChangedStep(s: Lifecycle, state: string, disposeThrows: bool): (r: (Lifecycle, seq<Signal>))
    ensures r.0.callState == Some(state)
    ensures var teardown := state == "Disconnected" && s.callState != Some("Disconnected");
            (teardown ==> r.1 == [EndCall, CallIsTerminated]) && (!teardown ==> r.1 == [])
    ensures r.1 != [] && !(s.hasAdapter && disposeThrows) ==>
              r.0 == Lifecycle(true, false, false, false, None, Some(state))
    ensures (r.1 == [] || (s.hasAdapter && disposeThrows)) ==> r.0 == s.(callState := Some(state))
  {
    var recorded := s.(callState := Some(state));
    if state == "Disconnected" && s.callState != Some("Disconnected") then
      if s.hasAdapter && disposeThrows then (recorded, [EndCall, CallIsTerminated])
      else (Lifecycle(true, false, false, false, None, Some(state)), [EndCall, CallIsTerminated])
    else (recorded, [])
  }

  /** A `callsUpdated` event sets the call to each added call in turn, so the last one stays. */
  function CallsUpdatedStep(s: Lifecycle, added: seq<int>): (r: Lifecycle)
    ensures r.(call := s.call) == s
    ensures |added| > 0 ==> r.call == Some(added[|added| - 1])
    ensures |added| == 0 ==> r == s
  {
    if |added| == 0 then s else s.(call := Some(added[|added| - 1]))
  }

  /** While a creation is pending, no other creation starts. */
  lemma CreationIsExclusive(s: Lifecycle, t1: Option<TeamTokens>, l1: Option<string>,
                            t2: Option<TeamTokens>, l2: Option<string>)
    requires CreateStep(s, t1, l1).1
    ensures !CreateStep(CreateStep(s, t1, l1).0, t2, l2).1
  {
  }

  /** A failed creation leaves `updatedAdapter` cleared, so creation is never attempted again. */
  lemma FailedCreationBlocksRetry(s: Lifecycle, t1: Option<TeamTokens>, l1: Option<string>,
                                  t2: Option<TeamTokens>, l2: Option<string>)
    requires CreateStep(s, t1, l1).1
    ensures var failed := CreatedStep(CreateStep(s, t1, l1).0, false);
            !failed.hasAdapter && !CreateStep(failed, t2, l2).1
  {
  }

  /**
   * After a teardown whose dispose did not throw, the creation effect starts again for any tokens
   * and link that pass its tests: the session rejoins.
   */
  lemma TeardownReenablesCreation(s: Lifecycle, disposeThrows: bool, tokens: Option<TeamTokens>, link: Option<string>)
    requires s.callState != Some("Disconnected") && !(s.hasAdapter && disposeThrows)
    requires tokens.Some? && tokens.value.acsToken != Some("") && tokens.value.communicationUserId != Some("")
    requires link != Some("")
    ensures var down := StateChangedStep(s, "Disconnected", disposeThrows);
            down.1 == [EndCall, CallIsTerminated] && CreateStep(down.0, tokens, link).1
  {
  }

  /** Only a change to "Disconnected" tears down; a repeated "Disconnected" or any other state does not. */
  lemma TeardownOnlyOnDisconnect(s: Lifecycle, state: string, disposeThrows: bool)
    ensures StateChangedStep(s, state, disposeThrows).1 != [] <==>
            state == "Disconnected" && s.callState != Some("Disconnected")
  {
  }

  datatype View = JoiningSpinner | Composite | Screen | Blank

  /**
   * What renders: the "Joining call..." spinner without an adapter; the call composite when not in
   * a call; the call screen in a call when the stateful client is set; nothing otherwise.
   */
  function RenderBranch(s: Lifecycle): (v: View)
    ensures v == JoiningSpinner <==> !s.hasAdapter
    ensures v == Composite <==> s.hasAdapter && !InCallUser(s.callState)
    ensures v == Screen <==> s.hasAdapter && InCallUser(s.callState) && s.hasStatefulClient
  {
    if !s.hasAdapter then JoiningSpinner
    else if !InCallUser(s.callState) then Composite
    else if s.hasStatefulClient then Screen
    else Blank
  }

  /** The component state; `updatedAdapter` is module-level in the source and shared by instances. */
  class Session {
    var updatedAdapter: bool
    var hasAdapter: bool
    var hasStatefulClient: bool
    var hasCallAgent: bool
    var call: Option<int>
    var callState: Option<string>

    function State(): Lifecycle
      reads this
    {
      Lifecycle(updatedAdapter, hasAdapter, hasStatefulClient, hasCallAgent, call, callState)
    }

    constructor ()
      ensures State() == Initial
    {
      updatedAdapter := true;
      hasAdapter := false;
      hasStatefulClient := false;
      hasCallAgent := false;
      call := None;
      callState := None;
    }

    /** The creation effect on `[teamTokens, callAdapter, meetingLink]`; `started` says a creation began. */
    method TryCreateAdapter(tokens: Option<TeamTokens>, meetingLink: Option<string>) returns (started: bool)
      modifies this`updatedAdapter
      ensures (State(), started) == CreateStep(old(State()), tokens, meetingLink)
    {
      started := false;
      if tokens.Some? && tokens.value.acsToken != Some("") && tokens.value.communicationUserId != Some("") &&
         !hasAdapter && updatedAdapter && meetingLink != Some("") {
        updatedAdapter := false;
        started := true;
      }
    }

    /** The creation promise settles. */
    method OnAdapterCreated(created: bool)
      modifies this`hasAdapter, this`hasStatefulClient, this`hasCallAgent
      ensures State() == CreatedStep(old(State()), created)
    {
      if created {
        hasAdapter := true;
        hasStatefulClient := true;
        hasCallAgent := true;
      }
    }

    /** The `callsUpdated` handler's `forEach`. */
    method OnCallsUpdated(added: seq<int>)
      modifies this`call
      ensures State() == CallsUpdatedStep(old(State()), added)
    {
      var i := 0;
      while i < |added|
        invariant 0 <= i <= |added|
        invariant call == if i == 0 then old(call) else Some(added[i - 1])
      {
        call := Some(added[i]);
        i := i + 1;
      }
    }

    /** `destroyCall`; returns the signals it sends. */
    method DestroyCall(disposeThrows: bool) returns (signals: seq<Signal>)
      modifies this`hasAdapter, this`hasStatefulClient, this`hasCallAgent, this`call, this`updatedAdapter
      ensures signals == [EndCall, CallIsTerminated]
      ensures old(hasAdapter) && disposeThrows ==> State() == old(State())
      ensures !(old(hasAdapter) && disposeThrows) ==>
                State() == Lifecycle(true, false, false, false, None, old(callState))
    {
      if hasAdapter && disposeThrows {
        return [EndCall, CallIsTerminated];
      }
      hasAdapter := false;
      hasStatefulClient := false;
      call := None;
      hasCallAgent := false;
      updatedAdapter := true;
      signals := [EndCall, CallIsTerminated];
    }

    /** The `stateChanged` handler and the effect on `[callState]`. */
    method OnStateChanged(state: string, disposeThrows: bool) returns (signals: seq<Signal>)
      modifies this
      ensures (State(), signals) == StateChangedStep(old(State()), state, disposeThrows)
    {
      var previous := callState;
      callState := Some(state);
      signals := [];
      if state == "Disconnected" && previous != Some("Disconnected") {
        signals := DestroyCall(disposeThrows);
      }
    }
  }
}
