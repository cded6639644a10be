/** The identity and membership helpers of src/utils/Utils.js. */
module Identifiers {
  import opened Wrappers
  import opened Sdk

  const EchoBotId := "8:echo123"

  /**
   * `getIdentifierText`: the display key of an identifier. The kinds are tried in the order
   * communication user, phone number, Teams user, unknown (echo bot only), so an identifier that
   * carries several id fields is keyed by the first kind present.
   */
  function GetIdentifierText(identifier: Identifier): (r: string)
    ensures identifier.communicationUserId.Some? ==> r == identifier.communicationUserId.value
    ensures identifier.communicationUserId.None? && identifier.phoneNumber.Some? ==>
              r == identifier.phoneNumber.value
    ensures identifier.communicationUserId.None? && identifier.phoneNumber.None? &&
              identifier.microsoftTeamsUserId.Some? ==>
              r == identifier.microsoftTeamsUserId.value
    ensures HasNoUserKind(identifier) ==>
              (r == "Echo Bot" <==> identifier.id == Some(EchoBotId)) &&
              (r != "Echo Bot" ==> r == "Unknown Identifier")
  {
    if identifier.communicationUserId.Some? then identifier.communicationUserId.value
    else if identifier.phoneNumber.Some? then identifier.phoneNumber.value
    else if identifier.microsoftTeamsUserId.Some? then identifier.microsoftTeamsUserId.value
    else if identifier.id.Some? && identifier.id.value == EchoBotId then "Echo Bot"
    else "Unknown Identifier"
  }

  predicate HasNoUserKind(identifier: Identifier) {
    identifier.communicationUserId.None? && identifier.phoneNumber.None? &&
    identifier.microsoftTeamsUserId.None?
  }

  /** The communication-user test wins over every other field the identifier carries. */
  lemma CommunicationUserTakesPriority(identifier: Identifier, phone: Option<string>,
                                       teams: Option<string>, unknown: Option<string>)
    requires identifier.communicationUserId.Some?
    ensures GetIdentifierText(identifier.(phoneNumber := phone, microsoftTeamsUserId := teams, id := unknown))
         == GetIdentifierText(identifier)
  {
  }

  /**
   * `raisedHandState.find((element) => element.identifier.rawId === participantId)`: the first
   * entry whose raw id is the given one.
   */
  function FindByRawId(entries: seq<FeatureEntry>, rawId: string): (r: Option<FeatureEntry>)
    ensures r.Some? <==> exists i | 0 <= i < |entries| :: entries[i].identifier.rawId == rawId
    ensures r.Some? ==> exists i | 0 <= i < |entries| :: entries[i] == r.value && r.value.identifier.rawId == rawId
                          && forall j | 0 <= j < i :: entries[j].identifier.rawId != rawId
  {
    if |entries| == 0 then None
    else if entries[0].identifier.rawId == rawId then Some(entries[0])
    else
      var r := FindByRawId(entries[1..], rawId);
      assert forall i | 1 <= i < |entries| :: entries[i] == entries[1..][i - 1];
      r
  }

  /** JavaScript truthiness of an optional string: present and not empty. */
  predicate Truthy(s: Option<string>) {
    s.Some? && s.value != ""
  }

  /**
   * `isParticipantHandRaised`: false when the id is absent or empty or the list is absent;
   * otherwise whether some entry has that raw id.
   */
  function IsParticipantHandRaised(participantId: Option<string>, raised: Option<seq<FeatureEntry>>): (r: bool)
    ensures !Truthy(participantId) || raised.None? ==> !r
    ensures Truthy(participantId) && raised.Some? ==>
              (r <==> exists i | 0 <= i < |raised.value| :: raised.value[i].identifier.rawId == participantId.value)
  {
    if !Truthy(participantId) || raised.None? then false
    else FindByRawId(raised.value, participantId.value).Some?
  }

  /** `isParticipantSpotlighted`: the same test as `isParticipantHandRaised`, on the spotlight list. */
  function IsParticipantSpotlighted(participantId: Option<string>, spotlighted: Option<seq<FeatureEntry>>): (r: bool)
    ensures !Truthy(participantId) || spotlighted.None? ==> !r
  {
    if !Truthy(participantId) || spotlighted.None? then false
    else FindByRawId(spotlighted.value, participantId.value).Some?
  }

  lemma SpotlightedAgreesWithHandRaised(participantId: Option<string>, entries: Option<seq<FeatureEntry>>)
    ensures IsParticipantSpotlighted(participantId, entries) == IsParticipantHandRaised(participantId, entries)
  {
  }

  /** `callScreenLoadingState`: the call states during which the call screen shows a loader. */
  const CallScreenLoadingState: seq<string> := ["InLobby", "Connecting", "Disconnecting"]

  /** `callScreenLoaderLable`: the loader's caption for a call state. */
  function CallScreenLoaderLabel(state: string): (r: string)
    ensures state !in CallScreenLoadingState ==> r == "Loading..."
    ensures state in CallScreenLoadingState ==> r != "Loading..."
  {
    match state
    case "InLobby" => "Waiting to be admitted..."
    case "Connecting" => "Connecting..."
    case "Disconnecting" => "Disconnecting..."
    case _ => "Loading..."
  }

  /** Each loading state has a caption of its own. */
  lemma LoaderLabelsDistinct(s: string, t: string)
    requires s in CallScreenLoadingState && t in CallScreenLoadingState && s != t
    ensures CallScreenLoaderLabel(s) != CallScreenLoaderLabel(t)
  {
  }
}
