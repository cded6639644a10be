/** The message helpers of src/utils/chatMessageUtils.js. */
module ChatMessageUtils {
  import opened Wrappers

  // ---------------------------------------------------------------------------------------------
  // extractChatId: the regular expression /\/([^/]+)\/0/ and its first capture group
  // ---------------------------------------------------------------------------------------------

  /**
   * The regular expression matches with its leading `/` at position `i` and the `/` before the `0`
   * at position `j`: the captured segment `link[i + 1..j]` is non-empty and holds no `/`.
   */
  ghost predicate MatchAt(link: string, i: int, j: int) {
    0 <= i && i + 1 < j && j + 1 < |link| &&
    link[i] == '/' && link[j] == '/' && link[j + 1] == '0' &&
    forall m | i < m < j :: link[m] != '/'
  }

  /** The first position at or after `k` that holds `/`, or the end of the link. */
  function SegmentEnd(link: string, k: nat): (e: nat)
    requires k <= |link|
    ensures k <= e <= |link|
    ensures forall m | k <= m < e :: link[m] != '/'
    ensures e < |link| ==> link[e] == '/'
    decreases |link| - k
  {
    if k == |link| || link[k] == '/' then k else SegmentEnd(link, k + 1)
  }

  /**
   * The regular-expression search from position `k` on: the leftmost start position wins, and at a
   * start position the greedy `[^/]+` runs to the next `/`, which must be followed by `0`.
   */
  function Scan(link: string, k: nat): Option<string>
    requires k <= |link|
    decreases |link| - k
  {
    if k == |link| then None
    else if link[k] == '/' &&
            var e := SegmentEnd(link, k + 1);
            k + 1 < e && e + 1 < |link| && link[e + 1] == '0'
    then Some(link[k + 1..SegmentEnd(link, k + 1)])
    else Scan(link, k + 1)
  }

  /** `extractChatId`: the first capture group of the match, or null when the regex does not match. */
  function ExtractChatId(link: string): Option<string> {
    Scan(link, 0)
  }

  /** A match starting at `i` ends at the first `/` after `i`. */
  lemma MatchEndIsSegmentEnd(link: string, i: int, j: int)
    requires MatchAt(link, i, j)
    ensures j == SegmentEnd(link, i + 1)
  {
  }

  lemma {:induction false} ScanMeetsRegex(link: string, k: nat)
    requires k <= |link|
    ensures Scan(link, k).None? <==> forall i, j | k <= i :: !MatchAt(link, i, j)
    ensures Scan(link, k).Some? ==>
              exists i, j | k <= i :: MatchAt(link, i, j) && Scan(link, k).value == link[i + 1..j] &&
                forall i', j' | k <= i' < i :: !MatchAt(link, i', j')
    decreases |link| - k
  {
    if k == |link| {
    } else {
      var e := SegmentEnd(link, k + 1);
      if link[k] == '/' && k + 1 < e && e + 1 < |link| && link[e + 1] == '0' {
        assert MatchAt(link, k, e);
      } else {
        forall j | MatchAt(link, k, j) ensures false {
          MatchEndIsSegmentEnd(link, k, j);
        }
        assert Scan(link, k) == Scan(link, k + 1);
        ScanMeetsRegex(link, k + 1);
        if Scan(link, k).Some? {
          var i, j :| k + 1 <= i && MatchAt(link, i, j) && Scan(link, k).value == link[i + 1..j] &&
                      forall i', j' | k + 1 <= i' < i :: !MatchAt(link, i', j');
          assert forall i', j' | k <= i' < i :: !MatchAt(link, i', j');
        }
      }
    }
  }

  /** No result exactly when no `/segment/0` occurs in the link. */
  lemma ExtractChatIdAbsent(link: string)
    ensures ExtractChatId(link).None? <==> forall i, j :: !MatchAt(link, i, j)
  {
    ScanMeetsRegex(link, 0);
  }

  /**
   * A result is non-empty, holds no `/`, is preceded by `/` and followed by `/0`, and is the
   * leftmost such segment.
   */
  lemma ExtractChatIdLeftmost(link: string)
    requires ExtractChatId(link).Some?
    ensures var id := ExtractChatId(link).value;
            id != [] && '/' !in id &&
            exists i, j :: MatchAt(link, i, j) && id == link[i + 1..j] &&
              link[i] == '/' && link[j..j + 2] == "/0" &&
              forall i', j' | i' < i :: !MatchAt(link, i', j')
  {
    ScanMeetsRegex(link, 0);
    var i, j :| 0 <= i && MatchAt(link, i, j) && ExtractChatId(link).value == link[i + 1..j] &&
                forall i', j' | 0 <= i' < i :: !MatchAt(link, i', j');
    assert link[j..j + 2] == [link[j], link[j + 1]];
  }

  // ---------------------------------------------------------------------------------------------
  // convertObjectTeamToLocal
  // ---------------------------------------------------------------------------------------------

  datatype GraphAttachment = GraphAttachment(id: string, name: string, contentUrl: string)
  datatype GraphUser = GraphUser(id: Option<string>, displayName: Option<string>)
  datatype MessageBody = MessageBody(content: string, contentType: string)

  /**
   * A chat message as the graph API returns it. `fromUser` is `from.user`, absent when either
   * `from` or `user` is; `lastModifiedDateTime` is not kept.
   */
  datatype GraphMessage = GraphMessage(
    id: string,
    messageType: string,
    body: MessageBody,
    fromUser: Option<GraphUser>,
    attachments: seq<GraphAttachment>)

  datatype AttachmentMetadata = AttachmentMetadata(
    name: string, extension: string, url: string, attachmentType: string, id: string)

  /** A message as the message thread renders it (`createdOn` is not kept). */
  datatype LocalMessage = LocalMessage(
    messageType: string,
    senderId: Option<string>,
    senderDisplayName: Option<string>,
    messageId: string,
    content: string,
    contentType: string,
    mine: bool,
    attached: bool,
    status: string,
    attachedFilesMetadata: seq<AttachmentMetadata>)

  function AttachmentOf(c: GraphAttachment): AttachmentMetadata {
    AttachmentMetadata(c.name, "xlsx", c.contentUrl, "fileSharing", c.id)
  }

  /** `_m.attachments.map(...)`: one metadata record per attachment, in order. */
  function ConvertAttachments(cs: seq<GraphAttachment>): (r: seq<AttachmentMetadata>)
    ensures |r| == |cs|
    ensures forall i | 0 <= i < |cs| ::
              r[i].name == cs[i].name && r[i].url == cs[i].contentUrl && r[i].id == cs[i].id &&
              r[i].extension == "xlsx" && r[i].attachmentType == "fileSharing"
  {
    if |cs| == 0 then [] else [AttachmentOf(cs[0])] + ConvertAttachments(cs[1..])
  }

  /** `_m?.from?.user?.id`. */
  function SenderId(m: GraphMessage): Option<string> {
    if m.fromUser.Some? then m.fromUser.value.id else None
  }

  /** `_m?.from?.user?.displayName`. */
  function SenderDisplayName(m: GraphMessage): Option<string> {
    if m.fromUser.Some? then m.fromUser.value.displayName else None
  }

  /**
   * `convertObjectTeamToLocal`. `userId` is the signed-in user's id, absent when the tokens carry
   * none; as with JavaScript's `===`, an absent user id equals an absent sender id.
   */
  function ConvertObjectTeamToLocal(m: GraphMessage, userId: Option<string>): (r: LocalMessage)
    ensures r.messageId == m.id
    ensures r.content == if m.messageType == "message" then m.body.content else "hideMessage"
    ensures r.mine <==> userId == SenderId(m)
    ensures r.senderId == SenderId(m) && r.contentType == m.body.contentType
    ensures r.messageType == "chat" && !r.attached && r.status == "seen"
    ensures r.senderDisplayName == SenderDisplayName(m)
    ensures r.attachedFilesMetadata == ConvertAttachments(m.attachments)
  {
    LocalMessage(
      messageType := "chat",
      senderId := SenderId(m),
      senderDisplayName := SenderDisplayName(m),
      messageId := m.id,
      content := if m.messageType == "message" then m.body.content else "hideMessage",
      contentType := m.body.contentType,
      mine := userId == SenderId(m),
      attached := false,
      status := "seen",
      attachedFilesMetadata := ConvertAttachments(m.attachments))
  }
}
