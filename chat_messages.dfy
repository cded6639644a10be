/** The chat message pipeline of src/components/ChatMessages.jsx. */
module ChatMessages {
  import opened Wrappers
  import opened Seqs
  import opened Identifiers
  import opened ChatMessageUtils

  /** A page of the messages endpoint: its `value` and its `@odata.nextLink`. */
  datatype GraphPage = GraphPage(value: Option<seq<GraphMessage>>, nextLink: Option<string>)

  /** The first filter of `cleanifyMessage`: a chat message with non-empty content. */
  predicate IsShown(m: GraphMessage) {
    m.messageType == "message" && m.body.content != ""
  }

  function ShownMessages(ms: seq<GraphMessage>): (r: seq<GraphMessage>)
    ensures forall m | m in r :: m in ms && IsShown(m)
    ensures forall k | 0 <= k < |ms| && IsShown(ms[k]) :: ms[k] in r
    ensures |r| <= |ms|
  {
    if |ms| == 0 then [] else (if IsShown(ms[0]) then [ms[0]] else []) + ShownMessages(ms[1..])
  }

  function IdsOf(ms: seq<GraphMessage>): (r: seq<string>)
    ensures |r| == |ms| && forall k | 0 <= k < |ms| :: r[k] == ms[k].id
  {
    if |ms| == 0 then [] else [ms[0].id] + IdsOf(ms[1..])
  }

  /**
   * The second filter of `cleanifyMessage`: a message is kept when its id is not among the ids
   * seen so far, and keeping it adds its id to them.
   */
  function FreshMessages(ms: seq<GraphMessage>, ids: seq<string>): seq<GraphMessage> {
    if |ms| == 0 then []
    else if ms[0].id in ids then FreshMessages(ms[1..], ids)
    else [ms[0]] + FreshMessages(ms[1..], ids + [ms[0].id])
  }

  /** The kept messages come from the input and carry ids not seen before. */
  lemma {:induction false} FreshMessagesAreNew(ms: seq<GraphMessage>, ids: seq<string>)
    ensures forall m | m in FreshMessages(ms, ids) :: m in ms && m.id !in ids
  {
    if |ms| > 0 {
      if ms[0].id in ids {
        FreshMessagesAreNew(ms[1..], ids);
      } else {
        FreshMessagesAreNew(ms[1..], ids + [ms[0].id]);
      }
    }
  }

  /** The kept messages carry pairwise distinct ids. */
  lemma {:induction false} FreshMessagesDistinct(ms: seq<GraphMessage>, ids: seq<string>)
    ensures NoDuplicates(IdsOf(FreshMessages(ms, ids)))
  {
    if |ms| > 0 {
      if ms[0].id in ids {
        FreshMessagesDistinct(ms[1..], ids);
      } else {
        var ids' := ids + [ms[0].id];
        FreshMessagesDistinct(ms[1..], ids');
        FreshMessagesAreNew(ms[1..], ids');
        var rest := FreshMessages(ms[1..], ids');
        assert IdsOf([ms[0]] + rest) == [ms[0].id] + IdsOf(rest);
        assert ms[0].id !in IdsOf(rest) by {
          forall q | 0 <= q < |rest| ensures IdsOf(rest)[q] != ms[0].id {
            assert rest[q] in rest;
          }
        }
        NoDuplicatesCons(ms[0].id, IdsOf(rest));
      }
    }
  }

  /** Every input id ends up either among the ids seen before or among the kept ones. */
  lemma {:induction false} FreshMessagesCover(ms: seq<GraphMessage>, ids: seq<string>)
    ensures forall k | 0 <= k < |ms| :: ms[k].id in ids || ms[k].id in IdsOf(FreshMessages(ms, ids))
  {
    if |ms| > 0 {
      var tail := ms[1..];
      assert forall k | 1 <= k < |ms| :: ms[k] == tail[k - 1];
      if ms[0].id in ids {
        FreshMessagesCover(tail, ids);
      } else {
        var ids' := ids + [ms[0].id];
        FreshMessagesCover(tail, ids');
        var rest := FreshMessages(tail, ids');
        var r := [ms[0]] + rest;
        forall k | 0 <= k < |ms| ensures ms[k].id in ids || ms[k].id in IdsOf(r) {
          if k == 0 {
            assert IdsOf(r)[0] == ms[0].id;
          } else if ms[k].id !in ids && ms[k].id != ms[0].id {
            assert tail[k - 1].id in IdsOf(rest);
            var q :| 0 <= q < |IdsOf(rest)| && IdsOf(rest)[q] == ms[k].id;
            assert IdsOf(r)[q + 1] == ms[k].id;
          } else if ms[k].id == ms[0].id {
            assert IdsOf(r)[0] == ms[k].id;
          }
        }
      }
    }
  }

  lemma FreshStep(ms: seq<GraphMessage>, i: nat, ids: seq<string>)
    requires i < |ms|
    ensures FreshMessages(ms[i..], ids) ==
            if ms[i].id in ids then FreshMessages(ms[i + 1..], ids)
            else [ms[i]] + FreshMessages(ms[i + 1..], ids + [ms[i].id])
  {
    assert ms[i..][1..] == ms[i + 1..];
  }

  /** One step of the filter loop keeps its invariant. */
  lemma KeepStep(ms: seq<GraphMessage>, i: nat, kept: seq<GraphMessage>, ids: seq<string>, ids0: seq<string>)
    requires i < |ms|
    requires kept + FreshMessages(ms[i..], ids) == FreshMessages(ms, ids0)
    ensures ms[i].id in ids ==> kept + FreshMessages(ms[i + 1..], ids) == FreshMessages(ms, ids0)
    ensures ms[i].id !in ids ==>
              (kept + [ms[i]]) + FreshMessages(ms[i + 1..], ids + [ms[i].id]) == FreshMessages(ms, ids0)
  {
    FreshStep(ms, i, ids);
    if ms[i].id !in ids {
      assert (kept + [ms[i]]) + FreshMessages(ms[i + 1..], ids + [ms[i].id]) ==
             kept + ([ms[i]] + FreshMessages(ms[i + 1..], ids + [ms[i].id]));
    }
  }

  lemma IdsOfSnoc(ms: seq<GraphMessage>, m: GraphMessage)
    ensures IdsOf(ms + [m]) == IdsOf(ms) + [m.id]
  {
  }

  /** The pointwise `convertObjectTeamToLocal` map. */
  function ConvertAll(ms: seq<GraphMessage>, userId: Option<string>): (r: seq<LocalMessage>)
    ensures |r| == |ms| && forall k | 0 <= k < |ms| :: r[k] == ConvertObjectTeamToLocal(ms[k], userId)
  {
    if |ms| == 0 then [] else [ConvertObjectTeamToLocal(ms[0], userId)] + ConvertAll(ms[1..], userId)
  }

  /** The list `cleanifyMessage` produces from a page, given the ids seen before it. */
  function Page(tMessages: seq<GraphMessage>, ids: seq<string>, userId: Option<string>): seq<LocalMessage> {
    Reverse(ConvertAll(FreshMessages(ShownMessages(tMessages), ids), userId))
  }

  /** The message ids of a page, in page order, are the kept ids reversed. */
  lemma PageIds(tMessages: seq<GraphMessage>, ids: seq<string>, userId: Option<string>)
    ensures var novel := FreshMessages(ShownMessages(tMessages), ids);
            var page := Page(tMessages, ids, userId);
            |page| == |novel| &&
            forall i | 0 <= i < |page| :: page[i].messageId == IdsOf(novel)[|novel| - 1 - i]
  {
  }

  /** A page's message ids are pairwise distinct and none was seen before. */
  lemma PageIdsDistinctAndNew(tMessages: seq<GraphMessage>, ids: seq<string>, userId: Option<string>)
    ensures var page := Page(tMessages, ids, userId);
            (forall i, j | 0 <= i < j < |page| :: page[i].messageId != page[j].messageId) &&
            (forall i | 0 <= i < |page| :: page[i].messageId !in ids)
  {
    var novel := FreshMessages(ShownMessages(tMessages), ids);
    FreshMessagesAreNew(ShownMessages(tMessages), ids);
    FreshMessagesDistinct(ShownMessages(tMessages), ids);
    PageIds(tMessages, ids, userId);
    var page := Page(tMessages, ids, userId);
    forall i | 0 <= i < |page| ensures page[i].messageId !in ids {
      assert novel[|novel| - 1 - i] in novel;
    }
  }

  /** Every shown input message whose id was not seen before has an entry in the page. */
  lemma PageKeepsNewMessages(tMessages: seq<GraphMessage>, ids: seq<string>, userId: Option<string>)
    ensures var page := Page(tMessages, ids, userId);
            forall k | 0 <= k < |tMessages| && IsShown(tMessages[k]) && tMessages[k].id !in ids ::
              exists i | 0 <= i < |page| :: page[i].messageId == tMessages[k].id
  {
    var novelIds := IdsOf(FreshMessages(ShownMessages(tMessages), ids));
    ShownNewIdsKept(tMessages, ids);
    PageIds(tMessages, ids, userId);
    NewIdsReachPage(Page(tMessages, ids, userId), novelIds, tMessages, ids);
  }

  /** Every shown input message whose id was not seen before has its id among the kept ids. */
  lemma ShownNewIdsKept(tMessages: seq<GraphMessage>, ids: seq<string>)
    ensures forall k | 0 <= k < |tMessages| && IsShown(tMessages[k]) && tMessages[k].id !in ids ::
              tMessages[k].id in IdsOf(FreshMessages(ShownMessages(tMessages), ids))
  {
    var shown := ShownMessages(tMessages);
    FreshMessagesCover(shown, ids);
    forall k | 0 <= k < |tMessages| && IsShown(tMessages[k]) && tMessages[k].id !in ids
      ensures tMessages[k].id in IdsOf(FreshMessages(shown, ids))
    {
      var q :| 0 <= q < |shown| && shown[q] == tMessages[k];
    }
  }

  /** Ids among the kept ones are the ids of entries of a page that lists them in reverse. */
  lemma NewIdsReachPage(page: seq<LocalMessage>, novelIds: seq<string>, tMessages: seq<GraphMessage>, ids: seq<string>)
    requires |page| == |novelIds|
    requires forall i | 0 <= i < |page| :: page[i].messageId == novelIds[|novelIds| - 1 - i]
    requires forall k | 0 <= k < |tMessages| && IsShown(tMessages[k]) && tMessages[k].id !in ids ::
               tMessages[k].id in novelIds
    ensures forall k | 0 <= k < |tMessages| && IsShown(tMessages[k]) && tMessages[k].id !in ids ::
              exists i | 0 <= i < |page| :: page[i].messageId == tMessages[k].id
  {
    forall k | 0 <= k < |tMessages| && IsShown(tMessages[k]) && tMessages[k].id !in ids
      ensures exists i | 0 <= i < |page| :: page[i].messageId == tMessages[k].id
    {
      var p :| 0 <= p < |novelIds| && novelIds[p] == tMessages[k].id;
      assert page[|novelIds| - 1 - p].messageId == tMessages[k].id;
    }
  }

  /** A page is in reverse input order. */
  lemma PageIsReversed(tMessages: seq<GraphMessage>, ids: seq<string>, userId: Option<string>)
    ensures var novel := FreshMessages(ShownMessages(tMessages), ids);
            var page := Page(tMessages, ids, userId);
            |page| == |novel| &&
            forall i | 0 <= i < |page| :: page[i] == ConvertObjectTeamToLocal(novel[|novel| - 1 - i], userId)
  {
  }

  /** `oldMessages.filter((m) => m.messageId !== messageId)`. */
  function RemoveMessageId(ms: seq<LocalMessage>, messageId: string): (r: seq<LocalMessage>)
    ensures forall m :: m in r <==> m in ms && m.messageId != messageId
    ensures |r| <= |ms|
  {
    if |ms| == 0 then []
    else (if ms[0].messageId == messageId then [] else [ms[0]]) + RemoveMessageId(ms[1..], messageId)
  }

  /** `findIndex((m) => m.messageId === messageId)`. */
  function FindMessageIndex(ms: seq<LocalMessage>, messageId: string): (r: int)
    ensures -1 <= r < |ms|
    ensures r == -1 <==> forall k | 0 <= k < |ms| :: ms[k].messageId != messageId
    ensures 0 <= r ==> ms[r].messageId == messageId && forall k | 0 <= k < r :: ms[k].messageId != messageId
  {
    if |ms| == 0 then -1
    else if ms[0].messageId == messageId then 0
    else
      var r := FindMessageIndex(ms[1..], messageId);
      assert forall k | 1 <= k < |ms| :: ms[k] == ms[1..][k - 1];
      if r == -1 then -1 else r + 1
  }

  /** `isMessageEvent` of an event whose parsed `type` field is `eventType`. */
  predicate IsMessageEvent(eventType: Option<string>) {
    eventType == Some("MESSAGE_EVENT")
  }

  /** The `chatId` field of the last websocket message, as `?.` reads it. */
  datatype JsonField = Absent | Null | Str(s: string) | OtherValue

  /**
   * The effect on `lastJsonMessage` refetches when the message's `chatId` is strictly equal to the
   * current chat id (`null` when the meeting link had none): the same string, or JSON `null` while
   * there is no chat id. A missing field or message never matches.
   */
  function ShouldRefetch(field: JsonField, chatId: Option<string>): (r: bool)
    ensures chatId.Some? ==> (r <==> field == Str(chatId.value))
    ensures chatId.None? ==> (r <==> field == Null)
    ensures field == Absent ==> !r
  {
    match field
    case Str(s) => chatId == Some(s)
    case Null => chatId.None?
    case _ => false
  }

  /**
   * A websocket message reaches the `lastJsonMessage` effect only when the `isMessageEvent` filter
   * lets it through; then it refetches when its `chatId` matches.
   */
  function RefetchOnSocketMessage(eventType: Option<string>, field: JsonField, chatId: Option<string>): (r: bool)
    ensures !IsMessageEvent(eventType) ==> !r
    ensures IsMessageEvent(eventType) && chatId.Some? ==> (r <==> field == Str(chatId.value))
    ensures IsMessageEvent(eventType) && chatId.None? ==> (r <==> field == Null)
  {
    IsMessageEvent(eventType) && ShouldRefetch(field, chatId)
  }

  /** The load-previous guard. */
  predicate MayLoadPrevious(hasAccessToken: bool, nextLink: Option<string>, inFlight: bool, called: seq<string>) {
    hasAccessToken && Truthy(nextLink) && !inFlight && nextLink.value !in called
  }

  // ---------------------------------------------------------------------------------------------
  // The component state
  // ---------------------------------------------------------------------------------------------

  class Thread {
    var messages: seq<LocalMessage>
    /** The `messageIds` ref. */
    var messageIds: seq<string>
    /** The `calledNextApi` ref: every next link requested so far. */
    var calledNextApi: seq<string>
    /** The `callApiRef` ref: a previous-page request is in flight. */
    var callApiRef: bool
    var teamsMessages: GraphPage
    var isLoading: bool

    constructor ()
      ensures messages == [] && messageIds == [] && calledNextApi == [] && !callApiRef && !isLoading
      ensures teamsMessages == GraphPage(None, None)
    {
      messages := [];
      messageIds := [];
      calledNextApi := [];
      callApiRef := false;
      teamsMessages := GraphPage(None, None);
      isLoading := false;
    }

    /**
     * The second filter of `cleanifyMessage`, whose callback reassigns `messageIds`: the kept
     * messages are the not-yet-seen ones, and their ids join `messageIds` in order.
     */
    method KeepUnseen(shown: seq<GraphMessage>) returns (kept: seq<GraphMessage>)
      modifies this`messageIds
      ensures kept == FreshMessages(shown, old(messageIds))
      ensures messageIds == old(messageIds) + IdsOf(kept)
    {
      kept := [];
      var i := 0;
      while i < |shown|
        invariant 0 <= i <= |shown|
        invariant messageIds == old(messageIds) + IdsOf(kept)
        invariant kept + FreshMessages(shown[i..], messageIds) == FreshMessages(shown, old(messageIds))
      {
        var m := shown[i];
        KeepStep(shown, i, kept, messageIds, old(messageIds));
        if m.id !in messageIds {
          IdsOfSnoc(kept, m);
          messageIds := messageIds + [m.id];
          kept := kept + [m];
        }
        i := i + 1;
      }
      assert kept + FreshMessages(shown[i..], messageIds) == kept;
    }

    /**
     * `cleanifyMessage`: the shown, not-yet-seen messages of a page, converted and reversed,
     * replace the list on an initial load and go before it otherwise; their ids join `messageIds`.
     */
    method Cleanify(tMessages: seq<GraphMessage>, initial: bool, userId: Option<string>)
      modifies this`messages, this`messageIds
      ensures messageIds == old(messageIds) + IdsOf(FreshMessages(ShownMessages(tMessages), old(messageIds)))
      ensures messages == if initial then Page(tMessages, old(messageIds), userId)
                          else Page(tMessages, old(messageIds), userId) + old(messages)
    {
      var kept := KeepUnseen(ShownMessages(tMessages));
      var page := Reverse(ConvertAll(kept, userId));
      if initial {
        messages := page;
      } else {
        messages := page + messages;
      }
    }

    /**
     * `getMessages`: `messageIds` is cleared and `isLoading` set to `loading` before the request.
     * A failed request stops there; a response is stored, and when it has a `value` the page
     * replaces the list and `isLoading` is cleared (without one, `cleanifyMessage` throws first).
     */
    method GetMessages(loading: bool, response: Option<GraphPage>, userId: Option<string>)
      modifies this`messages, this`messageIds, this`isLoading, this`teamsMessages
      ensures response.None? ==> messageIds == [] && isLoading == loading &&
                                 messages == old(messages) && teamsMessages == old(teamsMessages)
      ensures response.Some? ==> teamsMessages == response.value
      ensures response.Some? && response.value.value.None? ==>
                messageIds == [] && isLoading == loading && messages == old(messages)
      ensures response.Some? && response.value.value.Some? ==>
                var ms := response.value.value.value;
                messages == Page(ms, [], userId) &&
                messageIds == IdsOf(FreshMessages(ShownMessages(ms), [])) && !isLoading
    {
      messageIds := [];
      isLoading := loading;
      if response.Some? {
        teamsMessages := response.value;
        if response.value.value.Some? {
          LoadFirstPage(response.value.value.value, userId);
        }
      }
    }

    /** The part of `getMessages` after a response with a `value`: the page, then `isLoading` off. */
    method LoadFirstPage(ms: seq<GraphMessage>, userId: Option<string>)
      requires messageIds == []
      modifies this`messages, this`messageIds, this`isLoading
      ensures messages == Page(ms, [], userId)
      ensures messageIds == IdsOf(FreshMessages(ShownMessages(ms), []))
      ensures !isLoading
    {
      Cleanify(ms, true, userId);
      isLoading := false;
    }

    /** The effect on `chatId`: an initial load when the chat id is truthy. */
    method OnChatIdChanged(chatId: Option<string>, response: Option<GraphPage>, userId: Option<string>)
      modifies this`messages, this`messageIds, this`isLoading, this`teamsMessages
      ensures !Truthy(chatId) ==> messages == old(messages) && messageIds == old(messageIds) &&
                                  isLoading == old(isLoading) && teamsMessages == old(teamsMessages)
      ensures Truthy(chatId) && response.None? ==>
                messageIds == [] && isLoading && messages == old(messages) && teamsMessages == old(teamsMessages)
      ensures Truthy(chatId) && response.Some? ==> teamsMessages == response.value
      ensures Truthy(chatId) && response.Some? && response.value.value.None? ==>
                messageIds == [] && isLoading && messages == old(messages)
      ensures Truthy(chatId) && response.Some? && response.value.value.Some? ==>
                var ms := response.value.value.value;
                messages == Page(ms, [], userId) &&
                messageIds == IdsOf(FreshMessages(ShownMessages(ms), [])) && !isLoading
    {
      if Truthy(chatId) {
        GetMessages(true, response, userId);
      }
    }

    /** `onDeleteMessage`: the local list drops the id before the remote call, whatever it returns. */
    method OnDeleteMessage(messageId: string)
      modifies this`messages
      ensures messages == RemoveMessageId(old(messages), messageId)
    {
      messages := RemoveMessageId(messages, messageId);
    }

    /**
     * `onSendMessage`: a created message is appended, converted; the result says whether a refetch
     * follows (the websocket's ready state is 0). A failed post changes nothing.
     */
    method OnSendMessage(response: Option<GraphMessage>, readyState: int, userId: Option<string>)
      returns (refetch: bool)
      modifies this`messages
      ensures response.None? ==> messages == old(messages) && !refetch
      ensures response.Some? ==> messages == old(messages) + [ConvertObjectTeamToLocal(response.value, userId)]
      ensures response.Some? ==> (refetch <==> readyState == 0)
    {
      if response.None? {
        return false;
      }
      messages := messages + [ConvertObjectTeamToLocal(response.value, userId)];
      refetch := readyState == 0;
    }

    /**
     * `onUpdateMessage`: the first message with the id gets the new content; when no message has
     * the id, `oldMessages[-1]` is undefined and the update throws, changing nothing.
     */
    method OnUpdateMessage(messageId: string, content: string) returns (updated: bool)
      modifies this`messages
      ensures updated <==> exists k | 0 <= k < |old(messages)| :: old(messages)[k].messageId == messageId
      ensures !updated ==> messages == old(messages)
      ensures updated ==> var index := FindMessageIndex(old(messages), messageId);
                          messages == old(messages)[index := old(messages)[index].(content := content)]
    {
      var index := FindMessageIndex(messages, messageId);
      if index == -1 {
        return false;
      }
      messages := messages[index := messages[index].(content := content)];
      updated := true;
    }

    /**
     * `onLoadPreviousChatMessages`: when allowed, the stored next link is recorded, the in-flight
     * flag set, and the link requested.
     */
    method OnLoadPreviousChatMessages(hasAccessToken: bool) returns (request: Option<string>)
      modifies this`calledNextApi, this`callApiRef
      ensures request.Some? <==> MayLoadPrevious(hasAccessToken, teamsMessages.nextLink, old(callApiRef), old(calledNextApi))
      ensures request.Some? ==> request == teamsMessages.nextLink &&
                                calledNextApi == old(calledNextApi) + [request.value] && callApiRef
      ensures request.None? ==> calledNextApi == old(calledNextApi) && callApiRef == old(callApiRef)
    {
      if MayLoadPrevious(hasAccessToken, teamsMessages.nextLink, callApiRef, calledNextApi) {
        calledNextApi := calledNextApi + [teamsMessages.nextLink.value];
        callApiRef := true;
        request := teamsMessages.nextLink;
      } else {
        request := None;
      }
    }

    /**
     * The previous page's response: the in-flight flag is cleared, the page stored, and its
     * messages go before the list. A failed request has no handler, so the flag stays set.
     */
    method OnPreviousPage(response: Option<GraphPage>, userId: Option<string>)
      modifies this`callApiRef, this`teamsMessages, this`messages, this`messageIds
      ensures response.None? ==> callApiRef == old(callApiRef) && teamsMessages == old(teamsMessages) &&
                                 messages == old(messages) && messageIds == old(messageIds)
      ensures response.Some? ==> !callApiRef && teamsMessages == response.value
      ensures response.Some? && response.value.value.None? ==>
                messages == old(messages) && messageIds == old(messageIds)
      ensures response.Some? && response.value.value.Some? ==>
                var ms := response.value.value.value;
                messages == Page(ms, old(messageIds), userId) + old(messages) &&
                messageIds == old(messageIds) + IdsOf(FreshMessages(ShownMessages(ms), old(messageIds)))
    {
      if response.None? {
        return;
      }
      callApiRef := false;
      teamsMessages := response.value;
      if response.value.value.Some? {
        Cleanify(response.value.value.value, false, userId);
      }
    }
  }

  /**
   * A next link is requested at most once: after a request, the guard refuses while it is in
   * flight, and refuses the same link for good since the record of requested links only grows.
   */
  lemma NextLinkRequestedOnce(hasAccessToken: bool, link: string, inFlight: bool, called: seq<string>,
                              later: seq<string>)
    requires MayLoadPrevious(hasAccessToken, Some(link), inFlight, called)
    ensures !MayLoadPrevious(hasAccessToken, Some(link), true, called + [link])
    ensures !MayLoadPrevious(hasAccessToken, Some(link), false, called + [link] + later)
  {
    assert (called + [link] + later)[|called|] == link;
  }
}
