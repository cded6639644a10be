/** The participant roster of src/components/ParticipantList.jsx. */
module ParticipantList {
  import opened Wrappers
  import opened Seqs
  import opened Strings
  import opened Sdk
  import opened Identifiers

  /** An entry of the `remoteParticipants` state. */
  datatype RosterEntry = RosterEntry(
    userId: string,
    displayName: Option<string>,
    state: Option<string>,
    isMuted: bool,
    isRemovable: bool,
    identifier: Identifier,
    raisedHandState: bool,
    spotlightState: bool,
    pinState: bool)

  /**
   * The values the registration effect closed over when `call` became available: the roster, the
   * raised-hand, spotlight and pinned lists, and the directory members. The effect runs again only
   * when `call` changes, so its handlers keep reading these values.
   */
  datatype Captured = Captured(
    remoteParticipants: seq<RosterEntry>,
    raisedHands: seq<FeatureEntry>,
    spotlighted: seq<FeatureEntry>,
    pinned: seq<string>,
    participantData: seq<DirectoryMember>)

  /** `entries.find((p) => p.userId === userId)` is truthy. */
  predicate HasUserId(entries: seq<RosterEntry>, userId: string) {
    exists i | 0 <= i < |entries| :: entries[i].userId == userId
  }

  predicate NoDuplicateUserIds(entries: seq<RosterEntry>) {
    forall i, j | 0 <= i < j < |entries| :: entries[i].userId != entries[j].userId
  }

  // ---------------------------------------------------------------------------------------------
  // handleParticipant
  // ---------------------------------------------------------------------------------------------

  /**
   * The display name of a new entry: a missing or empty name is replaced by the name of the
   * directory member whose user id is the participant's Teams user id (absent when none matches).
   */
  function ResolveDisplayName(displayName: Option<string>, teamsUserId: Option<string>,
                              data: seq<DirectoryMember>): (r: Option<string>)
    ensures Truthy(displayName) ==> r == displayName
    ensures !Truthy(displayName) && r.Some? ==>
              exists i | 0 <= i < |data| :: Some(data[i].userId) == teamsUserId && data[i].displayName == r
    ensures !Truthy(displayName) && (forall i | 0 <= i < |data| :: Some(data[i].userId) != teamsUserId) ==> r.None?
  {
    if !Truthy(displayName) && displayName != Some("You") then
      match FindMember(data, teamsUserId)
      case None => None
      case Some(member) => member.displayName
    else displayName
  }

  /** The entry `handleParticipant` builds for a participant from the captured lists. */
  function NewEntry(p: RemoteParticipant, c: Captured): (e: RosterEntry)
    ensures e.userId == p.identifier.rawId && e.identifier == p.identifier && e.isRemovable
    ensures e.state == p.state && e.isMuted == p.isMuted
    ensures e.displayName == ResolveDisplayName(p.displayName, p.identifier.microsoftTeamsUserId, c.participantData)
    ensures e.raisedHandState <==>
              (p.identifier.rawId != "" &&
               exists i | 0 <= i < |c.raisedHands| :: c.raisedHands[i].identifier.rawId == p.identifier.rawId)
    ensures e.spotlightState <==>
              (p.identifier.rawId != "" &&
               exists i | 0 <= i < |c.spotlighted| :: c.spotlighted[i].identifier.rawId == p.identifier.rawId)
    ensures e.pinState <==> p.identifier.rawId in c.pinned
  {
    var rawId := p.identifier.rawId;
    RosterEntry(
      userId := rawId,
      displayName := ResolveDisplayName(p.displayName, p.identifier.microsoftTeamsUserId, c.participantData),
      state := p.state,
      isMuted := p.isMuted,
      isRemovable := true,
      identifier := p.identifier,
      raisedHandState := IsParticipantHandRaised(Some(rawId), Some(c.raisedHands)),
      spotlightState := IsParticipantHandRaised(Some(rawId), Some(c.spotlighted)),
      pinState := rawId in c.pinned)
  }

  /**
   * One `handleParticipant` call: the duplicate check reads the captured roster, while the entry is
   * appended to the live roster.
   */
  function AppendUnlessCaptured(current: seq<RosterEntry>, captured: seq<RosterEntry>, e: RosterEntry): seq<RosterEntry> {
    if HasUserId(captured, e.userId) then current else current + [e]
  }

  /**
   * As written, the check reads the roster captured when the effect ran, so a participant reported
   * twice after that moment (once by the initial loop, once by an event) gets two entries.
   */
  lemma StaleCheckAdmitsDuplicate(p: RemoteParticipant)
    ensures var c := Captured([], [], [], [], []);
            var once := AppendUnlessCaptured([], c.remoteParticipants, NewEntry(p, c));
            !NoDuplicateUserIds(AppendUnlessCaptured(once, c.remoteParticipants, NewEntry(p, c)))
  {
    var c := Captured([], [], [], [], []);
    var e := NewEntry(p, c);
    assert !HasUserId(c.remoteParticipants, e.userId);
    assert AppendUnlessCaptured([], c.remoteParticipants, e) == [e];
    var twice := AppendUnlessCaptured([e], c.remoteParticipants, e);
    assert twice == [e, e];
    assert twice[0].userId == twice[1].userId;
  }

  /**
   * The intended check, against the live roster: the roster keeps distinct user ids, holds the
   * entry's user id afterwards and loses no entry.
   */
  function AppendUnlessPresent(current: seq<RosterEntry>, e: RosterEntry): (r: seq<RosterEntry>)
    ensures NoDuplicateUserIds(current) ==> NoDuplicateUserIds(r)
    ensures HasUserId(r, e.userId)
    ensures forall x | x in current :: x in r
    ensures forall x | x in r :: x in current || x == e
  {
    if HasUserId(current, e.userId) then current
    else
      var r := current + [e];
      assert r[|current|] == e;
      r
  }

  /** The entries a batch of `handleParticipant` calls appends, in batch order. */
  function Additions(ps: seq<RemoteParticipant>, c: Captured): seq<RosterEntry> {
    if |ps| == 0 then []
    else
      var last := ps[|ps| - 1];
      Additions(ps[..|ps| - 1], c) +
      (if HasUserId(c.remoteParticipants, last.identifier.rawId) then [] else [NewEntry(last, c)])
  }

  /**
   * A batch appends exactly the new entries of the participants whose raw id the captured roster
   * lacks, and each appended entry is keyed by its participant's raw id.
   */
  lemma {:induction false} AdditionsMembers(ps: seq<RemoteParticipant>, c: Captured)
    ensures forall e :: e in Additions(ps, c) <==>
              exists k | 0 <= k < |ps| :: !HasUserId(c.remoteParticipants, ps[k].identifier.rawId) && e == NewEntry(ps[k], c)
    ensures forall e | e in Additions(ps, c) :: e.userId == e.identifier.rawId && !HasUserId(c.remoteParticipants, e.userId)
  {
    if |ps| > 0 {
      var init := ps[..|ps| - 1];
      AdditionsMembers(init, c);
      assert forall k | 0 <= k < |init| :: init[k] == ps[k];
    }
  }

  lemma AdditionsOne(p: RemoteParticipant, c: Captured)
    ensures Additions([p], c) == if HasUserId(c.remoteParticipants, p.identifier.rawId) then [] else [NewEntry(p, c)]
  {
    assert [p][..0] == [];
  }

  lemma {:induction false} AdditionsAppend(a: seq<RemoteParticipant>, b: seq<RemoteParticipant>, c: Captured)
    ensures Additions(a + b, c) == Additions(a, c) + Additions(b, c)
    decreases |b|
  {
    if |b| == 0 {
      assert a + b == a;
    } else {
      var b' := b[..|b| - 1];
      assert (a + b)[..|a + b| - 1] == a + b';
      AdditionsAppend(a, b', c);
    }
  }

  /** Two batches appended one after the other leave the roster their concatenation leaves. */
  lemma AppendAdditions(p0: seq<RosterEntry>, p1: seq<RosterEntry>, p2: seq<RosterEntry>,
                        a: seq<RemoteParticipant>, b: seq<RemoteParticipant>, c: Captured)
    requires p1 == p0 + Additions(a, c) && p2 == p1 + Additions(b, c)
    ensures p2 == p0 + Additions(a + b, c)
  {
    AdditionsAppend(a, b, c);
  }

  /** The entry `handleParticipant` receives for the signed-in user, when the participant list shows them. */
  function SelfParticipant(myUserId: string, listedUserIds: seq<string>): Option<RemoteParticipant> {
    if myUserId in listedUserIds then
      Some(RemoteParticipant(
        Identifier(myUserId, None, None, ThirdField(myUserId), None),
        Some("You"),
        None,
        false))
    else None
  }

  function SelfList(myUserId: string, listedUserIds: seq<string>): seq<RemoteParticipant> {
    match SelfParticipant(myUserId, listedUserIds)
    case Some(me) => [me]
    case None => []
  }

  /** The outer `find` of the self block repeats the check `handleParticipant` makes. */
  lemma SelfAdditionGuarded(myUserId: string, listedUserIds: seq<string>, c: Captured)
    requires HasUserId(c.remoteParticipants, myUserId)
    ensures Additions(SelfList(myUserId, listedUserIds), c) == []
  {
    if SelfParticipant(myUserId, listedUserIds).Some? {
      AdditionsOne(SelfParticipant(myUserId, listedUserIds).value, c);
    }
  }

  /**
   * The self entry is named "You", is keyed by the user id, and carries the third `:`-field of the
   * user id as its Teams user id.
   */
  lemma SelfEntryShape(a: string, b: string, t: string, c: Captured)
    requires ':' !in a && ':' !in b && ':' !in t
    ensures var me := a + ":" + b + ":" + t;
            var e := NewEntry(SelfParticipant(me, [me]).value, c);
            e.displayName == Some("You") && e.userId == me &&
            e.identifier.microsoftTeamsUserId == Some(t) && e.state.None?
  {
    ThirdFieldOfRawId(a, b, t);
  }

  // ---------------------------------------------------------------------------------------------
  // Removal, resynchronisation, admit
  // ---------------------------------------------------------------------------------------------

  /** `entries.filter((p) => p.userId !== userId)`. */
  function RemoveUserId(entries: seq<RosterEntry>, userId: string): (r: seq<RosterEntry>)
    ensures forall e :: e in r <==> e in entries && e.userId != userId
    ensures |r| <= |entries|
  {
    if |entries| == 0 then []
    else (if entries[0].userId == userId then [] else [entries[0]]) + RemoveUserId(entries[1..], userId)
  }

  /** Removal keeps the remaining entries in their order. */
  lemma {:induction false} RemoveUserIdAppend(a: seq<RosterEntry>, b: seq<RosterEntry>, userId: string)
    ensures RemoveUserId(a + b, userId) == RemoveUserId(a, userId) + RemoveUserId(b, userId)
  {
    if |a| == 0 {
      assert a + b == b;
    } else {
      assert (a + b)[1..] == a[1..] + b;
      RemoveUserIdAppend(a[1..], b, userId);
    }
  }

  lemma {:induction false} RemoveUserIdAbsent(entries: seq<RosterEntry>, userId: string)
    requires !HasUserId(entries, userId)
    ensures RemoveUserId(entries, userId) == entries
  {
    if |entries| > 0 {
      assert entries[0].userId != userId;
      assert !HasUserId(entries[1..], userId) by {
        forall i | 0 <= i < |entries[1..]| ensures entries[1..][i].userId != userId {
          assert entries[1..][i] == entries[i + 1];
        }
      }
      RemoveUserIdAbsent(entries[1..], userId);
      assert entries == [entries[0]] + entries[1..];
    }
  }

  /** The `e.removed.forEach` loop: each removed participant's raw id filtered out in turn. */
  function RemoveAllOf(entries: seq<RosterEntry>, removed: seq<Identifier>): seq<RosterEntry> {
    if |removed| == 0 then entries
    else RemoveUserId(RemoveAllOf(entries, removed[..|removed| - 1]), removed[|removed| - 1].rawId)
  }

  /** After removal, no removed raw id appears and every other entry stays. */
  lemma {:induction false} RemoveAllOfMembers(entries: seq<RosterEntry>, removed: seq<Identifier>)
    ensures forall e :: e in RemoveAllOf(entries, removed) <==>
              e in entries && forall k | 0 <= k < |removed| :: e.userId != removed[k].rawId
  {
    if |removed| > 0 {
      var init := removed[..|removed| - 1];
      RemoveAllOfMembers(entries, init);
      assert forall k | 0 <= k < |init| :: init[k] == removed[k];
    }
  }

  /** `isParticipantSpotlighted` of an entry's raw id. */
  function SpotlightFlag(entry: RosterEntry, spotlighted: seq<FeatureEntry>): bool {
    IsParticipantHandRaised(Some(entry.identifier.rawId), Some(spotlighted))
  }

  /**
   * The spotlight resynchronisation: each entry's flag becomes membership of its (non-empty) raw
   * id in the new list.
   */
  function WithSpotlight(entries: seq<RosterEntry>, spotlighted: seq<FeatureEntry>): (r: seq<RosterEntry>)
    ensures |r| == |entries|
    ensures forall i | 0 <= i < |entries| :: r[i] == entries[i].(spotlightState := SpotlightFlag(entries[i], spotlighted))
  {
    if |entries| == 0 then []
    else [entries[0].(spotlightState := SpotlightFlag(entries[0], spotlighted))] + WithSpotlight(entries[1..], spotlighted)
  }

  /** The pin resynchronisation: each entry's flag becomes membership in the new pinned list. */
  function WithPinState(entries: seq<RosterEntry>, pinned: seq<string>): (r: seq<RosterEntry>)
    ensures |r| == |entries|
    ensures forall i | 0 <= i < |entries| :: r[i] == entries[i].(pinState := entries[i].identifier.rawId in pinned)
  {
    if |entries| == 0 then []
    else [entries[0].(pinState := entries[0].identifier.rawId in pinned)] + WithPinState(entries[1..], pinned)
  }

  /**
   * Resynchronising is the authoritative reset: the result depends on the new list only, so a
   * second resync with the same list changes nothing and a later list overrides an earlier one.
   */
  lemma ResyncIsAuthoritative(entries: seq<RosterEntry>, s1: seq<FeatureEntry>, s2: seq<FeatureEntry>,
                              p1: seq<string>, p2: seq<string>)
    ensures WithSpotlight(WithSpotlight(entries, s1), s2) == WithSpotlight(entries, s2)
    ensures WithPinState(WithPinState(entries, p1), p2) == WithPinState(entries, p2)
  {
  }

  /** The entries whose user id matches get `pinState := value`; the rest are untouched. */
  function SetPinState(entries: seq<RosterEntry>, userId: string, value: bool): (r: seq<RosterEntry>)
    ensures |r| == |entries|
    ensures forall i | 0 <= i < |entries| ::
              r[i] == if entries[i].userId == userId then entries[i].(pinState := value) else entries[i]
  {
    if |entries| == 0 then []
    else [if entries[0].userId == userId then entries[0].(pinState := value) else entries[0]] +
         SetPinState(entries[1..], userId, value)
  }

  /** The entries whose user id matches get `state := "Connected"`; the rest are untouched. */
  function SetConnected(entries: seq<RosterEntry>, userId: string): (r: seq<RosterEntry>)
    ensures |r| == |entries|
    ensures forall i | 0 <= i < |entries| ::
              r[i] == if entries[i].userId == userId then entries[i].(state := Some("Connected")) else entries[i]
  {
    if |entries| == 0 then []
    else [if entries[0].userId == userId then entries[0].(state := Some("Connected")) else entries[0]] +
         SetConnected(entries[1..], userId)
  }

  /** The pinned list the menu's pin item produces for an entry. */
  function TogglePinList(pinned: seq<string>, entry: RosterEntry): seq<string> {
    if !entry.pinState then pinned + [entry.identifier.rawId] else RemoveAll(pinned, entry.identifier.rawId)
  }

  /**
   * When the entry's flag agrees with the pinned list before the click, the flag the click writes
   * agrees with the pinned list it produces.
   */
  lemma TogglePinKeepsFlagInSync(pinned: seq<string>, entry: RosterEntry)
    requires entry.pinState == (entry.identifier.rawId in pinned)
    ensures (entry.identifier.rawId in TogglePinList(pinned, entry)) == !entry.pinState
  {
  }

  /**
   * The flag the click's `map` leaves at position k. Each matching entry is set to
   * `!callingParticipant.pinState`, and `callingParticipant` is the roster object at position `row`
   * (none when it has left the roster), so past that position the flag it writes is flipped back.
   */
  function WrittenPinState(entries: seq<RosterEntry>, userId: string, calling: bool, row: Option<nat>, k: nat): bool
    requires k < |entries|
  {
    if row.Some? && row.value < k && entries[row.value].userId == userId then calling else !calling
  }

  function ShiftRow(row: Option<nat>): Option<nat> {
    match row
    case Some(n) => if n == 0 then None else Some(n - 1)
    case None => None
  }

  /**
   * The click's in-place write as written: the matching entries up to and including the clicked
   * object get the flipped flag, those after it get the clicked object's original flag back.
   */
  function InPlacePinWrite(entries: seq<RosterEntry>, userId: string, calling: bool, row: Option<nat>): (r: seq<RosterEntry>)
    ensures |r| == |entries|
    ensures forall k | 0 <= k < |entries| ::
              r[k] == if entries[k].userId == userId
                      then entries[k].(pinState := WrittenPinState(entries, userId, calling, row, k))
                      else entries[k]
  {
    if |entries| == 0 then []
    else
      var next := if row == Some(0) && entries[0].userId == userId then !calling else calling;
      var head := if entries[0].userId == userId then entries[0].(pinState := !calling) else entries[0];
      var tail := InPlacePinWrite(entries[1..], userId, next, ShiftRow(row));
      forall k | 1 <= k < |entries|
        ensures WrittenPinState(entries, userId, calling, row, k) ==
                WrittenPinState(entries[1..], userId, next, ShiftRow(row), k - 1)
      {
        WrittenPinStateShift(entries, userId, calling, row, k);
      }
      [head] + tail
  }

  lemma WrittenPinStateShift(entries: seq<RosterEntry>, userId: string, calling: bool, row: Option<nat>, k: nat)
    requires 1 <= k < |entries|
    ensures var next := if row == Some(0) && entries[0].userId == userId then !calling else calling;
            WrittenPinState(entries, userId, calling, row, k) ==
            WrittenPinState(entries[1..], userId, next, ShiftRow(row), k - 1)
  {
    if row.Some? && 0 < row.value < k {
      assert entries[row.value] == entries[1..][row.value - 1];
    }
  }

  /** Without the clicked object in the roster, or with one matching entry, the write is `SetPinState`. */
  lemma InPlacePinWriteUniform(entries: seq<RosterEntry>, userId: string, calling: bool, row: Option<nat>)
    requires row.None? || (row.value < |entries| && forall k | row.value < k < |entries| :: entries[k].userId != userId)
    ensures InPlacePinWrite(entries, userId, calling, row) == SetPinState(entries, userId, !calling)
  {
    var a := InPlacePinWrite(entries, userId, calling, row);
    var b := SetPinState(entries, userId, !calling);
    assert forall k | 0 <= k < |entries| :: a[k] == b[k];
  }

  /** Two entries for one user, the first clicked: the second keeps the flag the first had. */
  lemma InPlacePinWriteSplitsDuplicates(e1: RosterEntry, e2: RosterEntry)
    requires e1.userId == e2.userId
    ensures var r := InPlacePinWrite([e1, e2], e1.userId, e1.pinState, Some(0));
            r[0].pinState == !e1.pinState && r[1].pinState == e1.pinState
  {
    var r := InPlacePinWrite([e1, e2], e1.userId, e1.pinState, Some(0));
    assert WrittenPinState([e1, e2], e1.userId, e1.pinState, Some(0), 1) == e1.pinState;
    assert r[1] == e2.(pinState := e1.pinState);
  }

  // ---------------------------------------------------------------------------------------------
  // What a row shows
  // ---------------------------------------------------------------------------------------------

  datatype Presence = Online | Away | Offline

  /** The persona presence of a row (absent for any other state). */
  function PresenceOf(state: Option<string>): (r: Option<Presence>)
    ensures r == Some(Online) <==> state == Some("Connected")
    ensures r.None? <==> state !in {Some("Connected"), Some("Idle"), Some("Connecting")}
  {
    if state == Some("Connected") then Some(Online)
    else if state == Some("Idle") then Some(Away)
    else if state == Some("Connecting") then Some(Offline)
    else None
  }

  datatype MenuItem =
    | PinItem(text: string, disabled: bool)
    | SpotlightItem(text: string)

  /** The row's menu: pin and spotlight items for a connected participant other than oneself. */
  function ParticipantMenu(entry: RosterEntry, myUserId: string, spotlighted: seq<FeatureEntry>): (items: seq<MenuItem>)
    ensures items != [] <==> entry.state == Some("Connected") && entry.userId != myUserId
    ensures items != [] ==> items[0].PinItem? && (items[0].text == "Unpin" <==> entry.pinState)
    ensures items != [] ==> (items[0].disabled <==> SpotlightFlag(entry, spotlighted))
  {
    if entry.state == Some("Connected") && entry.userId != myUserId then
      [PinItem(if entry.pinState then "Unpin" else "Pin for me",
               IsParticipantHandRaised(Some(entry.identifier.rawId), Some(spotlighted))),
       SpotlightItem(if entry.spotlightState then "Exit spotelight" else "Spotelight for Everyone")]
    else []
  }

  /** The self entry never offers pin or spotlight actions. */
  lemma SelfEntryHasNoMenu(myUserId: string, c: Captured, spotlighted: seq<FeatureEntry>)
    requires SelfParticipant(myUserId, [myUserId]).Some?
    ensures ParticipantMenu(NewEntry(SelfParticipant(myUserId, [myUserId]).value, c), myUserId, spotlighted) == []
  {
  }

  datatype SpotlightRequest = StartSpotlight(target: Identifier) | StopSpotlight(target: Identifier)

  /** The spotlight item's remote call, on the entry's identifier; a failure is only logged. */
  function SpotlightRequestFor(entry: RosterEntry): (r: SpotlightRequest)
    ensures r.target == entry.identifier
    ensures r.StopSpotlight? <==> entry.spotlightState
  {
    if entry.spotlightState then StopSpotlight(entry.identifier) else StartSpotlight(entry.identifier)
  }

  /** The spotlight item's caption announces the call its click makes. */
  lemma SpotlightItemMatchesRequest(entry: RosterEntry, myUserId: string, spotlighted: seq<FeatureEntry>)
    requires ParticipantMenu(entry, myUserId, spotlighted) != []
    ensures var items := ParticipantMenu(entry, myUserId, spotlighted);
            |items| == 2 && items[1].SpotlightItem? &&
            (items[1].text == "Exit spotelight" <==> SpotlightRequestFor(entry).StopSpotlight?)
  {
  }

  datatype RowIcons = LobbyButtons | StatusIcons(raisedHand: bool, muted: bool)

  /** The row's icons: admit/reject buttons for a participant in the lobby, status icons otherwise. */
  function RowIconsFor(entry: RosterEntry): (icons: RowIcons)
    ensures icons.LobbyButtons? <==> entry.state == Some("InLobby")
  {
    if entry.state == Some("InLobby") then LobbyButtons else StatusIcons(entry.raisedHandState, entry.isMuted)
  }

  datatype RowView = RowView(
    displayName: string,
    me: bool,
    menu: seq<MenuItem>,
    presence: Option<Presence>,
    icons: RowIcons)

  /** The rendered row: none for an entry without a display name, otherwise the item and its parts. */
  function RowFor(entry: RosterEntry, myUserId: string, spotlighted: seq<FeatureEntry>): (r: Option<RowView>)
    ensures r.Some? <==> Truthy(entry.displayName)
    ensures r.Some? ==> r.value.displayName == entry.displayName.value
    ensures r.Some? ==> (r.value.me <==> entry.userId == myUserId)
    ensures r.Some? && r.value.me ==> r.value.menu == []
    ensures r.Some? ==> r.value.menu == ParticipantMenu(entry, myUserId, spotlighted) &&
                        r.value.presence == PresenceOf(entry.state) && r.value.icons == RowIconsFor(entry)
  {
    if Truthy(entry.displayName) then
      Some(RowView(entry.displayName.value, entry.userId == myUserId,
                   ParticipantMenu(entry, myUserId, spotlighted), PresenceOf(entry.state), RowIconsFor(entry)))
    else None
  }

  // ---------------------------------------------------------------------------------------------
  // The roster state
  // ---------------------------------------------------------------------------------------------

  class Roster {
    var participants: seq<RosterEntry>
    var captured: Captured

    /** Every entry is keyed by its identifier's raw id. */
    ghost predicate Valid()
      reads this
    {
      forall i | 0 <= i < |participants| :: participants[i].userId == participants[i].identifier.rawId
    }

    constructor ()
      ensures Valid() && participants == []
    {
      participants := [];
      captured := Captured([], [], [], [], []);
    }

    /** `handleParticipant`: append a new entry unless the captured roster already has its raw id. */
    method HandleParticipant(p: RemoteParticipant)
      requires Valid()
      modifies this`participants
      ensures Valid()
      ensures participants == AppendUnlessCaptured(old(participants), captured.remoteParticipants, NewEntry(p, captured))
    {
      if !HasUserId(captured.remoteParticipants, p.identifier.rawId) {
        participants := participants + [NewEntry(p, captured)];
      }
    }

    /** `handleParticipant` over a batch, in order. */
    method HandleAll(ps: seq<RemoteParticipant>)
      requires Valid()
      modifies this`participants
      ensures Valid()
      ensures participants == old(participants) + Additions(ps, captured)
    {
      var i := 0;
      while i < |ps|
        invariant 0 <= i <= |ps|
        invariant Valid()
        invariant participants == old(participants) + Additions(ps[..i], captured)
      {
        assert ps[..i + 1][..i] == ps[..i];
        HandleParticipant(ps[i]);
        i := i + 1;
      }
      assert ps[..i] == ps;
    }

    /**
     * The effect that runs when `call` becomes available: it captures the current values, adds the
     * self entry (when the participant list shows the signed-in user) and then every participant
     * already in the call.
     */
    method OnCallAvailable(myUserId: string, listedUserIds: seq<string>, callParticipants: seq<RemoteParticipant>,
                           raisedHands: seq<FeatureEntry>, spotlighted: seq<FeatureEntry>, pinned: seq<string>,
                           participantData: seq<DirectoryMember>)
      requires Valid()
      modifies this`participants, this`captured
      ensures Valid()
      ensures captured == Captured(old(participants), raisedHands, spotlighted, pinned, participantData)
      ensures participants == old(participants) + Additions(SelfList(myUserId, listedUserIds) + callParticipants, captured)
    {
      captured := Captured(participants, raisedHands, spotlighted, pinned, participantData);
      ghost var before := participants;
      var self := SelfList(myUserId, listedUserIds);
      AddSelf(myUserId, listedUserIds);
      ghost var afterSelf := participants;
      HandleAll(callParticipants);
      AppendAdditions(before, afterSelf, participants, self, callParticipants, captured);
    }

    /** The self block: the outer `find` on the captured roster, then `handleParticipant`. */
    method AddSelf(myUserId: string, listedUserIds: seq<string>)
      requires Valid()
      modifies this`participants
      ensures Valid()
      ensures participants == old(participants) + Additions(SelfList(myUserId, listedUserIds), captured)
    {
      if !HasUserId(captured.remoteParticipants, myUserId) {
        HandleAll(SelfList(myUserId, listedUserIds));
      } else {
        SelfAdditionGuarded(myUserId, listedUserIds, captured);
      }
    }

    /** `removed` entries filtered out one after the other. */
    method RemoveAllParticipants(removed: seq<Identifier>)
      requires Valid()
      modifies this`participants
      ensures Valid()
      ensures participants == RemoveAllOf(old(participants), removed)
    {
      var i := 0;
      while i < |removed|
        invariant 0 <= i <= |removed|
        invariant Valid()
        invariant participants == RemoveAllOf(old(participants), removed[..i])
      {
        assert removed[..i + 1][..i] == removed[..i];
        participants := RemoveUserId(participants, removed[i].rawId);
        i := i + 1;
      }
      assert removed[..i] == removed;
    }

    /** The `remoteParticipantsUpdated` handler: the additions, then the removals. */
    method OnRemoteParticipantsUpdated(added: seq<RemoteParticipant>, removed: seq<Identifier>)
      requires Valid()
      modifies this`participants
      ensures Valid()
      ensures participants == RemoveAllOf(old(participants) + Additions(added, captured), removed)
    {
      HandleAll(added);
      RemoveAllParticipants(removed);
    }

    /** The effect on the spotlight list, which rewrites `spotlightState` entry by entry. */
    method ResyncSpotlight(spotlighted: seq<FeatureEntry>)
      requires Valid()
      modifies this`participants
      ensures Valid()
      ensures participants == WithSpotlight(old(participants), spotlighted)
    {
      var i := 0;
      while i < |participants|
        invariant 0 <= i <= |participants| == |old(participants)|
        invariant Valid()
        invariant forall k | 0 <= k < i ::
                    participants[k] == old(participants)[k].(spotlightState := SpotlightFlag(old(participants)[k], spotlighted))
        invariant forall k | i <= k < |participants| :: participants[k] == old(participants)[k]
      {
        var pr := participants[i];
        participants := participants[i := pr.(spotlightState := SpotlightFlag(pr, spotlighted))];
        i := i + 1;
      }
    }

    /** The effect on the pinned list, which rewrites `pinState` entry by entry. */
    method ResyncPins(pinned: seq<string>)
      requires Valid()
      modifies this`participants
      ensures Valid()
      ensures participants == WithPinState(old(participants), pinned)
    {
      var i := 0;
      while i < |participants|
        invariant 0 <= i <= |participants| == |old(participants)|
        invariant Valid()
        invariant forall k | 0 <= k < i ::
                    participants[k] == old(participants)[k].(pinState := old(participants)[k].identifier.rawId in pinned)
        invariant forall k | i <= k < |participants| :: participants[k] == old(participants)[k]
      {
        var pr := participants[i];
        participants := participants[i := pr.(pinState := pr.identifier.rawId in pinned)];
        i := i + 1;
      }
    }

    /**
     * The pin item's click. `entry` is the row's participant object, at position `row` of the roster
     * (none once it has left it). While the participant is spotlighted the item is disabled and a
     * click does nothing. Otherwise the pinned list gains or loses the raw id, and the `map` writes
     * `!entry.pinState` into every entry with the user id, the clicked object included, so that the
     * entries after it read the flag already flipped.
     */
    method TogglePin(entry: RosterEntry, row: Option<nat>, spotlighted: seq<FeatureEntry>, pinned: seq<string>)
      returns (newPinned: seq<string>)
      requires Valid()
      requires row.Some? ==> row.value < |participants| && participants[row.value] == entry
      modifies this`participants
      ensures Valid()
      ensures SpotlightFlag(entry, spotlighted) ==> newPinned == pinned && participants == old(participants)
      ensures !SpotlightFlag(entry, spotlighted) ==> newPinned == TogglePinList(pinned, entry)
      ensures !SpotlightFlag(entry, spotlighted) ==>
                participants == InPlacePinWrite(old(participants), entry.userId, entry.pinState, row)
    {
      if SpotlightFlag(entry, spotlighted) {
        return pinned;
      }
      newPinned := TogglePinList(pinned, entry);
      WritePinStates(entry.userId, entry.pinState, row);
    }

    /**
     * The roster updater's `map`: every entry with the user id is set to the negation of the
     * clicked object's flag as it reads at that moment; the clicked object sits at `row`.
     */
    method WritePinStates(userId: string, clicked: bool, row: Option<nat>)
      requires row.Some? ==> row.value < |participants| && participants[row.value].userId == userId
      modifies this`participants
      ensures participants == InPlacePinWrite(old(participants), userId, clicked, row)
    {
      var ps := participants;
      ghost var written := InPlacePinWrite(ps, userId, clicked, row);
      var calling := clicked;
      var i := 0;
      while i < |ps|
        invariant 0 <= i <= |ps| == |written|
        invariant calling == if row.Some? && row.value < i then !clicked else clicked
        invariant forall k | 0 <= k < i :: ps[k] == written[k]
        invariant forall k | i <= k < |ps| :: ps[k] == old(participants)[k]
      {
        var pr := ps[i];
        if pr.userId == userId {
          ps := ps[i := pr.(pinState := !calling)];
          if row == Some(i) {
            calling := !calling;
          }
        }
        i := i + 1;
      }
      assert forall k | 0 <= k < |ps| :: ps[k] == written[k];
      participants := ps;
    }

    /**
     * `admitParticipant` of a row: ignored for a click with `detail == 0`; on success the entries
     * with the row's user id become "Connected"; on failure nothing changes.
     */
    method AdmitParticipant(detail: int, entry: RosterEntry, admitted: bool)
      requires Valid()
      modifies this`participants
      ensures Valid()
      ensures participants == if detail != 0 && admitted then SetConnected(old(participants), entry.userId)
                              else old(participants)
    {
      if detail == 0 {
        return;
      }
      if admitted {
        participants := SetConnected(participants, entry.userId);
      }
    }

    /**
     * `rejectParticipant` of a row: ignored for a click with `detail == 0`; on success the entries
     * with the row's user id are removed; on failure nothing changes.
     */
    method RejectParticipant(detail: int, entry: RosterEntry, removed: bool)
      requires Valid()
      modifies this`participants
      ensures Valid()
      ensures participants == if detail != 0 && removed then RemoveUserId(old(participants), entry.userId)
                              else old(participants)
    {
      if detail == 0 {
        return;
      }
      if removed {
        participants := RemoveUserId(participants, entry.userId);
      }
    }
  }
}
