/** The lobby queue, popup gating and feature snapshots of src/components/CallScreen.jsx. */
module CallScreen {
  import opened Wrappers
  import opened Sdk
  import opened Identifiers

  /** An entry of the `lobbyParticipants` queue. */
  datatype LobbyEntry = LobbyEntry(userId: string, identifier: Identifier, displayName: Option<string>)

  function LobbyEntryOf(p: RemoteParticipant): (e: LobbyEntry)
    ensures e.userId == p.identifier.rawId && e.identifier == p.identifier && e.displayName == p.displayName
  {
    LobbyEntry(p.identifier.rawId, p.identifier, p.displayName)
  }

  predicate HasLobbyUserId(lobby: seq<LobbyEntry>, userId: string) {
    exists i | 0 <= i < |lobby| :: lobby[i].userId == userId
  }

  predicate NoDuplicateLobbyIds(lobby: seq<LobbyEntry>) {
    forall i, j | 0 <= i < j < |lobby| :: lobby[i].userId != lobby[j].userId
  }

  predicate InLobby(p: RemoteParticipant) {
    p.state == Some("InLobby")
  }

  /** The added participants the handler passes on: those whose state is "InLobby", in order. */
  function LobbyArrivals(added: seq<RemoteParticipant>): seq<RemoteParticipant> {
    if |added| == 0 then []
    else LobbyArrivals(added[..|added| - 1]) + (if InLobby(added[|added| - 1]) then [added[|added| - 1]] else [])
  }

  /** The arrivals are exactly the added participants in the lobby; there are none iff none is. */
  lemma {:induction false} LobbyArrivalsMembers(added: seq<RemoteParticipant>)
    ensures forall p | p in LobbyArrivals(added) :: p in added && InLobby(p)
    ensures forall k | 0 <= k < |added| && InLobby(added[k]) :: added[k] in LobbyArrivals(added)
    ensures |LobbyArrivals(added)| == 0 <==> forall k | 0 <= k < |added| :: !InLobby(added[k])
  {
    if |added| > 0 {
      var init := added[..|added| - 1];
      LobbyArrivalsMembers(init);
      assert forall k | 0 <= k < |init| :: init[k] == added[k];
    }
  }

  /**
   * The entries a batch of `handleLobbyParticipant` calls appends: the check reads the queue
   * captured when the handler was registered.
   */
  function Enqueued(arrivals: seq<RemoteParticipant>, captured: seq<LobbyEntry>): seq<LobbyEntry> {
    if |arrivals| == 0 then []
    else
      var last := arrivals[|arrivals| - 1];
      Enqueued(arrivals[..|arrivals| - 1], captured) +
      (if HasLobbyUserId(captured, last.identifier.rawId) then [] else [LobbyEntryOf(last)])
  }

  /**
   * A batch appends the entries of exactly the arrivals whose user id the captured queue lacks.
   */
  lemma {:induction false} EnqueuedMembers(arrivals: seq<RemoteParticipant>, captured: seq<LobbyEntry>)
    ensures forall e | e in Enqueued(arrivals, captured) :: !HasLobbyUserId(captured, e.userId)
    ensures forall e | e in Enqueued(arrivals, captured) ::
              exists k | 0 <= k < |arrivals| :: e == LobbyEntryOf(arrivals[k])
    ensures forall k | 0 <= k < |arrivals| && !HasLobbyUserId(captured, arrivals[k].identifier.rawId) ::
              LobbyEntryOf(arrivals[k]) in Enqueued(arrivals, captured)
  {
    if |arrivals| > 0 {
      var init := arrivals[..|arrivals| - 1];
      EnqueuedMembers(init, captured);
      assert forall k | 0 <= k < |init| :: init[k] == arrivals[k];
    }
  }

  /** `lobby.filter((item) => item.userId != userId)`. */
  function RemoveLobbyUserId(lobby: seq<LobbyEntry>, userId: string): (r: seq<LobbyEntry>)
    ensures forall e :: e in r <==> e in lobby && e.userId != userId
    ensures |r| <= |lobby|
  {
    if |lobby| == 0 then []
    else (if lobby[0].userId == userId then [] else [lobby[0]]) + RemoveLobbyUserId(lobby[1..], userId)
  }

  /** Removal keeps the queue order of the remaining entries. */
  lemma {:induction false} RemoveLobbyUserIdAppend(a: seq<LobbyEntry>, b: seq<LobbyEntry>, userId: string)
    ensures RemoveLobbyUserId(a + b, userId) == RemoveLobbyUserId(a, userId) + RemoveLobbyUserId(b, userId)
  {
    if |a| == 0 {
      assert a + b == b;
    } else {
      assert (a + b)[1..] == a[1..] + b;
      RemoveLobbyUserIdAppend(a[1..], b, userId);
    }
  }

  /** Removing the front entry's user id from a queue without duplicates drops exactly the front. */
  lemma RemoveFrontOfDistinct(lobby: seq<LobbyEntry>)
    requires |lobby| > 0 && NoDuplicateLobbyIds(lobby)
    ensures RemoveLobbyUserId(lobby, lobby[0].userId) == lobby[1..]
  {
    assert !HasLobbyUserId(lobby[1..], lobby[0].userId) by {
      forall i | 0 <= i < |lobby[1..]| ensures lobby[1..][i].userId != lobby[0].userId {
        assert lobby[1..][i] == lobby[i + 1];
      }
    }
    RemoveAbsentLobbyUserId(lobby[1..], lobby[0].userId);
  }

  lemma {:induction false} RemoveAbsentLobbyUserId(lobby: seq<LobbyEntry>, userId: string)
    requires !HasLobbyUserId(lobby, userId)
    ensures RemoveLobbyUserId(lobby, userId) == lobby
  {
    if |lobby| > 0 {
      assert lobby[0].userId != userId;
      assert !HasLobbyUserId(lobby[1..], userId) by {
        forall i | 0 <= i < |lobby[1..]| ensures lobby[1..][i].userId != userId {
          assert lobby[1..][i] == lobby[i + 1];
        }
      }
      RemoveAbsentLobbyUserId(lobby[1..], userId);
      assert lobby == [lobby[0]] + lobby[1..];
    }
  }

  // ---------------------------------------------------------------------------------------------
  // The lobby state and its steps
  // ---------------------------------------------------------------------------------------------

  /** The queue, the `loadingBtn` flag and the popup's visibility. */
  datatype LobbyState = LobbyState(lobby: seq<LobbyEntry>, loadingBtn: bool, popupVisible: bool)

  /**
   * The lobby part of one `remoteParticipantsUpdated` event. The queue only grows; when some added
   * participant is in the lobby the popup is shown and `loadingBtn` cleared, otherwise nothing
   * changes. `removed` is not consulted.
   */
  function ArrivalStep(s: LobbyState, added: seq<RemoteParticipant>, captured: seq<LobbyEntry>): (r: LobbyState)
    ensures |s.lobby| <= |r.lobby| && r.lobby[..|s.lobby|] == s.lobby
    ensures r.lobby[|s.lobby|..] == Enqueued(LobbyArrivals(added), captured)
    ensures (exists k | 0 <= k < |added| :: InLobby(added[k])) ==> r.popupVisible && !r.loadingBtn
    ensures (forall k | 0 <= k < |added| :: !InLobby(added[k])) ==> r == s
  {
    var arrivals := LobbyArrivals(added);
    var entries := Enqueued(arrivals, captured);
    var lobby := s.lobby + entries;
    LobbyArrivalsMembers(added);
    assert lobby[..|s.lobby|] == s.lobby;
    if |arrivals| > 0 then LobbyState(lobby, false, true)
    else
      assert entries == [];
      assert lobby == s.lobby;
      s
  }

  /**
   * The effect of an admit or deny click on the row `target`. A click with `detail == 0` is
   * ignored. Otherwise `loadingBtn` is set before the remote call; on success the entries with the
   * target's user id leave the queue and `loadingBtn` is cleared; on failure the error is only
   * logged, so the queue is unchanged and `loadingBtn` stays set.
   */
  function DecisionStep(s: LobbyState, detail: int, target: LobbyEntry, succeeded: bool): (r: LobbyState)
    ensures r.popupVisible == s.popupVisible
    ensures detail == 0 ==> r == s
    ensures detail != 0 && succeeded ==>
              !r.loadingBtn && !HasLobbyUserId(r.lobby, target.userId) &&
              forall e | e in s.lobby && e.userId != target.userId :: e in r.lobby
    ensures detail != 0 && succeeded ==> forall e | e in r.lobby :: e in s.lobby
    ensures detail != 0 && !succeeded ==> r.lobby == s.lobby && r.loadingBtn
  {
    if detail == 0 then s
    else if succeeded then s.(lobby := RemoveLobbyUserId(s.lobby, target.userId), loadingBtn := false)
    else s.(loadingBtn := true)
  }

  datatype PopupView = PopupHidden | PopupShown(displayName: Option<string>, buttonsShown: bool)

  /**
   * The popup renders only while visible with a non-empty queue; it names the front entry and
   * replaces the Admit/Deny buttons by a spinner while `loadingBtn` is set.
   */
  function PopupViewOf(s: LobbyState): (v: PopupView)
    ensures v.PopupShown? <==> s.popupVisible && |s.lobby| > 0
    ensures v.PopupShown? ==> v.displayName == s.lobby[0].displayName && (v.buttonsShown <==> !s.loadingBtn)
  {
    if s.popupVisible && |s.lobby| > 0 then PopupShown(s.lobby[0].displayName, !s.loadingBtn) else PopupHidden
  }

  /** A click on the popup's Admit or Deny button, which acts on the front entry; no button, no click. */
  function PopupDecision(s: LobbyState, detail: int, succeeded: bool): (r: LobbyState)
    ensures PopupViewOf(s).PopupShown? && PopupViewOf(s).buttonsShown ==> r == DecisionStep(s, detail, s.lobby[0], succeeded)
    ensures !(PopupViewOf(s).PopupShown? && PopupViewOf(s).buttonsShown) ==> r == s
  {
    if s.popupVisible && |s.lobby| > 0 && !s.loadingBtn then DecisionStep(s, detail, s.lobby[0], succeeded) else s
  }

  /** A successful popup decision on a queue without duplicates advances to the next entry. */
  lemma PopupDecisionAdvances(s: LobbyState, detail: int)
    requires s.popupVisible && |s.lobby| > 0 && !s.loadingBtn && detail != 0 && NoDuplicateLobbyIds(s.lobby)
    ensures PopupDecision(s, detail, true).lobby == s.lobby[1..]
    ensures !PopupDecision(s, detail, true).loadingBtn
  {
    RemoveFrontOfDistinct(s.lobby);
  }

  /**
   * As written, a failed decision leaves `loadingBtn` set: the popup keeps showing the spinner
   * instead of the buttons, and no popup click changes the state again.
   */
  lemma FailedDecisionSticks(s: LobbyState, detail: int, laterDetail: int, laterSucceeded: bool)
    requires s.popupVisible && |s.lobby| > 0 && !s.loadingBtn && detail != 0
    ensures var r := PopupDecision(s, detail, false);
            PopupViewOf(r) == PopupShown(s.lobby[0].displayName, false) &&
            PopupDecision(r, laterDetail, laterSucceeded) == r
  {
  }

  /** The intended decision: `loadingBtn` is cleared whatever the outcome of the remote call. */
  function SettledDecisionStep(s: LobbyState, detail: int, target: LobbyEntry, succeeded: bool): (r: LobbyState)
    ensures detail == 0 ==> r == s
    ensures detail != 0 ==> !r.loadingBtn && r.lobby == DecisionStep(s, detail, target, succeeded).lobby
    ensures r.popupVisible == s.popupVisible
  {
    if detail == 0 then s
    else DecisionStep(s, detail, target, succeeded).(loadingBtn := false)
  }

  /** With the intended decision, the popup offers its buttons again after a failure. */
  lemma SettledFailureReoffersButtons(s: LobbyState, detail: int)
    requires s.popupVisible && |s.lobby| > 0 && detail != 0
    ensures PopupViewOf(SettledDecisionStep(s, detail, s.lobby[0], false)) == PopupShown(s.lobby[0].displayName, true)
  {
  }

  /**
   * As written, the captured queue lets the same lobby participant in twice when two events report
   * them after the handler was registered.
   */
  lemma StaleLobbyCheckAdmitsDuplicate(p: RemoteParticipant)
    requires InLobby(p)
    ensures var s := LobbyState([], false, false);
            !NoDuplicateLobbyIds(ArrivalStep(ArrivalStep(s, [p], []), [p], []).lobby)
  {
    var s := LobbyState([], false, false);
    assert LobbyArrivals([p]) == [p] by {
      assert [p][..0] == [];
    }
    assert |LobbyArrivals([p])| > 0;
    assert Enqueued([p], []) == [LobbyEntryOf(p)] by {
      assert [p][..0] == [];
    }
    var s1 := ArrivalStep(s, [p], []);
    assert s1.lobby == [LobbyEntryOf(p)];
    var s2 := ArrivalStep(s1, [p], []);
    assert s2.lobby == [LobbyEntryOf(p), LobbyEntryOf(p)];
    assert s2.lobby[0].userId == s2.lobby[1].userId;
  }

  /** The intended check, against the live queue: the queue keeps distinct user ids. */
  function EnqueueUnlessPresent(lobby: seq<LobbyEntry>, p: RemoteParticipant): (r: seq<LobbyEntry>)
    ensures NoDuplicateLobbyIds(lobby) ==> NoDuplicateLobbyIds(r)
    ensures HasLobbyUserId(r, p.identifier.rawId)
    ensures |lobby| <= |r| && r[..|lobby|] == lobby
  {
    if HasLobbyUserId(lobby, p.identifier.rawId) then lobby
    else
      var r := lobby + [LobbyEntryOf(p)];
      assert r[|lobby|] == LobbyEntryOf(p);
      assert r[..|lobby|] == lobby;
      r
  }

  datatype MainView = Gallery | Loader(caption: string)

  /** The main area: the video gallery, or the loader captioned for a loading call state. */
  function MainViewOf(callState: string): (v: MainView)
    ensures v.Gallery? <==> callState !in CallScreenLoadingState
    ensures v.Loader? ==> v.caption == CallScreenLoaderLabel(callState) && v.caption != "Loading..."
  {
    if callState !in CallScreenLoadingState then Gallery else Loader(CallScreenLoaderLabel(callState))
  }

  datatype CallRequest = AdmitRequest(target: Identifier) | RemoveRequest(target: Identifier)

  // ---------------------------------------------------------------------------------------------
  // The component state
  // ---------------------------------------------------------------------------------------------

  class Screen {
    var lobby: seq<LobbyEntry>
    var loadingBtn: bool
    var popupVisible: bool
    /** The queue the lobby handler closed over when it was registered. */
    var capturedLobby: seq<LobbyEntry>
    var raisedHands: seq<FeatureEntry>
    var spotlighted: seq<FeatureEntry>
    var graphParticipants: seq<DirectoryMember>

    function State(): LobbyState
      reads this
    {
      LobbyState(lobby, loadingBtn, popupVisible)
    }

    constructor ()
      ensures State() == LobbyState([], false, false) && capturedLobby == []
      ensures raisedHands == [] && spotlighted == [] && graphParticipants == []
    {
      lobby := [];
      loadingBtn := false;
      popupVisible := false;
      capturedLobby := [];
      raisedHands := [];
      spotlighted := [];
      graphParticipants := [];
    }

    /** The effect on `[call, accessToken]` registers the lobby handler over the current queue. */
    method RegisterLobbyHandler()
      modifies this`capturedLobby
      ensures capturedLobby == lobby
    {
      capturedLobby := lobby;
    }

    method HandleLobbyParticipant(p: RemoteParticipant)
      modifies this`lobby
      ensures lobby == old(lobby) + Enqueued([p], capturedLobby)
    {
      assert [p][..0] == [];
      if !HasLobbyUserId(capturedLobby, p.identifier.rawId) {
        lobby := lobby + [LobbyEntryOf(p)];
      }
    }

    /** The `e.added.forEach` loop: lobby arrivals handed to `handleLobbyParticipant`, noted in `addFlag`. */
    method EnqueueArrivals(added: seq<RemoteParticipant>) returns (addFlag: bool)
      modifies this`lobby
      ensures lobby == old(lobby) + Enqueued(LobbyArrivals(added), capturedLobby)
      ensures addFlag <==> |LobbyArrivals(added)| > 0
    {
      addFlag := false;
      var i := 0;
      while i < |added|
        invariant 0 <= i <= |added|
        invariant lobby == old(lobby) + Enqueued(LobbyArrivals(added[..i]), capturedLobby)
        invariant addFlag <==> |LobbyArrivals(added[..i])| > 0
      {
        var p := added[i];
        ArrivalsSnoc(added, i);
        if InLobby(p) {
          HandleLobbyParticipant(p);
          addFlag := true;
          EnqueuedAppend(LobbyArrivals(added[..i]), [p], capturedLobby);
        } else {
          assert LobbyArrivals(added[..i + 1]) == LobbyArrivals(added[..i]);
        }
        i := i + 1;
      }
      assert added[..i] == added;
    }

    /** The lobby part of the `remoteParticipantsUpdated` handler. */
    method OnRemoteParticipantsUpdated(added: seq<RemoteParticipant>, removed: seq<Identifier>)
      modifies this`lobby, this`loadingBtn, this`popupVisible
      ensures State() == ArrivalStep(old(State()), added, capturedLobby)
    {
      ArrivalStepShape(State(), added, capturedLobby);
      var addFlag := EnqueueArrivals(added);
      if addFlag {
        popupVisible := true;
        loadingBtn := false;
      }
    }

    /** The graph members fetched on each event: `results?.value || []`. */
    method OnGraphMembers(value: Option<seq<DirectoryMember>>)
      modifies this`graphParticipants
      ensures graphParticipants == if value.Some? then value.value else []
    {
      graphParticipants := if value.Some? then value.value else [];
    }

    /** `admitParticipant`: returns the remote call it makes, if any. */
    method AdmitParticipant(detail: int, target: LobbyEntry, succeeded: bool) returns (request: Option<CallRequest>)
      modifies this`lobby, this`loadingBtn
      ensures request == if detail == 0 then None else Some(AdmitRequest(target.identifier))
      ensures State() == DecisionStep(old(State()), detail, target, succeeded)
    {
      if detail == 0 {
        return None;
      }
      loadingBtn := true;
      request := Some(AdmitRequest(target.identifier));
      if succeeded {
        lobby := RemoveLobbyUserId(lobby, target.userId);
        loadingBtn := false;
      }
    }

    /** `rejectParticipant`: returns the remote call it makes, if any. */
    method RejectParticipant(detail: int, target: LobbyEntry, succeeded: bool) returns (request: Option<CallRequest>)
      modifies this`lobby, this`loadingBtn
      ensures request == if detail == 0 then None else Some(RemoveRequest(target.identifier))
      ensures State() == DecisionStep(old(State()), detail, target, succeeded)
    {
      if detail == 0 {
        return None;
      }
      loadingBtn := true;
      request := Some(RemoveRequest(target.identifier));
      if succeeded {
        lobby := RemoveLobbyUserId(lobby, target.userId);
        loadingBtn := false;
      }
    }

    /** `hidePopup`, from the overlay, the close icon or a dismiss. */
    method HidePopup()
      modifies this`popupVisible
      ensures !popupVisible
    {
      popupVisible := false;
    }

    /** The raise-hand handler replaces the list by the feature's snapshot. */
    method OnRaiseHandChanged(snapshot: seq<FeatureEntry>)
      modifies this`raisedHands
      ensures raisedHands == snapshot
    {
      raisedHands := snapshot;
    }

    /** The spotlight handler replaces the list by the feature's snapshot. */
    method OnSpotlightChanged(snapshot: seq<FeatureEntry>)
      modifies this`spotlighted
      ensures spotlighted == snapshot
    {
      spotlighted := snapshot;
    }
  }

  lemma ArrivalStepShape(s: LobbyState, added: seq<RemoteParticipant>, captured: seq<LobbyEntry>)
    ensures var arrivals := LobbyArrivals(added);
            ArrivalStep(s, added, captured) ==
            if |arrivals| > 0 then LobbyState(s.lobby + Enqueued(arrivals, captured), false, true) else s
  {
  }

  lemma ArrivalsSnoc(added: seq<RemoteParticipant>, i: nat)
    requires i < |added|
    ensures LobbyArrivals(added[..i + 1]) ==
            LobbyArrivals(added[..i]) + (if InLobby(added[i]) then [added[i]] else [])
  {
    assert added[..i + 1][..i] == added[..i];
  }

  lemma {:induction false} EnqueuedAppend(a: seq<RemoteParticipant>, b: seq<RemoteParticipant>, captured: seq<LobbyEntry>)
    ensures Enqueued(a + b, captured) == Enqueued(a, captured) + Enqueued(b, captured)
    decreases |b|
  {
    if |b| == 0 {
      assert a + b == a;
    } else {
      var b' := b[..|b| - 1];
      assert (a + b)[..|a + b| - 1] == a + b';
      EnqueuedAppend(a, b', captured);
    }
  }
}
