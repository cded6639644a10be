/**
 * The values the calling SDK and the graph API hand to the components. Only the fields the
 * components read are kept.
 */
module Sdk {
  import opened Wrappers

  /**
   * A communication identifier. The SDK's kind tests (`isCommunicationUserIdentifier` and the
   * others) test whether the corresponding id field is present, so an identifier is a record of
   * optional fields; `rawId` is the serialized form that every identifier carries.
   */
  datatype Identifier = Identifier(
    rawId: string,
    communicationUserId: Option<string>,
    phoneNumber: Option<string>,
    microsoftTeamsUserId: Option<string>,
    id: Option<string>)

  /** An element of `getRaisedHands()` or `getSpotlightedParticipants()`: a participant by identifier. */
  datatype FeatureEntry = FeatureEntry(identifier: Identifier)

  /**
   * A remote participant: `_identifier`, `_tsParticipant.displayName`, `_state` and `_isMuted`.
   * An absent state stays absent; an absent mute flag reads as false.
   */
  datatype RemoteParticipant = RemoteParticipant(
    identifier: Identifier,
    displayName: Option<string>,
    state: Option<string>,
    isMuted: bool)

  /** A chat member returned by the graph API (`participantData`, `graphParticipant`). */
  datatype DirectoryMember = DirectoryMember(userId: string, displayName: Option<string>)

  /**
   * `participantData.find((pr) => pr.userId === key)`: the first member whose user id is the key.
   * An absent key (`undefined`) never equals a member's id.
   */
  function FindMember(data: seq<DirectoryMember>, key: Option<string>): (r: Option<DirectoryMember>)
    ensures r.Some? <==> exists i | 0 <= i < |data| :: Some(data[i].userId) == key
    ensures r.Some? ==> exists i | 0 <= i < |data| :: data[i] == r.value && Some(data[i].userId) == key
                          && forall j | 0 <= j < i :: Some(data[j].userId) != key
  {
    if |data| == 0 then None
    else if Some(data[0].userId) == key then Some(data[0])
    else
      var r := FindMember(data[1..], key);
      assert forall i | 1 <= i < |data| :: data[i] == data[1..][i - 1];
      r
  }
}
