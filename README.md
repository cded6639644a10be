# Call-session state of the Teams meeting client, in Dafny

This project models the part of the Teams meeting client that keeps a call session's state. It
covers:

- the participant roster;
- the lobby queue and its admit/deny popup;
- the raised-hand, spotlight and pinned lists, and the gallery's highlight list;
- the meeting-chat message list;
- the call adapter's lifecycle;
- the control bar's own-hand toggle.

It follows the React component code and the two utility files. Each event handler or user action
is one atomic step. Each remote call (admit, remove, spotlight, raise or lower hand, graph
requests, adapter creation, dispose) is an input saying whether it succeeded, or giving its
response.

Modules:

- `Wrappers`: `Option`, standing for JavaScript's `undefined`/`null`.
- `Seqs`: the list operations the code relies on: `indexOf`, `filter` by value, distinctness and
  reversal.
- `Strings`: `split`/`join` on a separator, the third `:`-field of a raw id, and upper case for the ASCII
  letters.
- `Sdk`: the identifier record, with optional kind fields and a `rawId`; raised-hand and spotlight
  entries; remote participants; directory (graph) members and their lookup.
- `Identifiers` (`src/utils/Utils.js`): identifier text, list membership, call-state captions.
- `ChatMessageUtils` (`src/utils/chatMessageUtils.js`): chat-id extraction from a meeting link,
  and message conversion.
- `VideoGallery`: the spotlight ids and the highlight list; pin/unpin; the tile menu and icons;
  the display-name backfill, kept on an `array` and updated in place as the memo does; initials.
- `ParticipantList`: the roster as a class.
  - Its duplicate check reads the roster captured when the effect ran, while appends go to the
    live roster.
  - It covers removal, the spotlight and pin resynchronisation, pin toggling, admit and reject,
    and what a row shows.
- `CallScreen`: the lobby as pure step functions over `LobbyState`, plus a class whose handlers
  are proved equal to those steps. It also covers the main-area choice and the feature snapshots.
- `ChatMessages`: the message list as a class.
  - The `messageIds` loop is proved against the `FreshMessages` function.
  - It covers initial loads and previous pages, delete, send, update, the load-previous guard and
    the websocket refetch test.
- `TeamsUserContent`: the adapter lifecycle as step functions over `Lifecycle`, plus a class
  proved against them.
- `ControlBar`: button gating, the hand flag, the hand button's action and caption.

Where the design documentation and the code disagree, the model follows the code:

- **Highlight list and pin order.** The design documentation says the result does not depend on
  the order of the pinned list. The code keeps pin order. Only the element set and the absence of
  duplicates are independent of it (`VideoGallery.HighlightElementsIgnorePinOrder`,
  `VideoGallery.HighlightIgnoresKnownId`).
- **Failed admit or reject.** The design documentation says a failure clears the in-flight flag.
  In the call screen the code leaves `loadingBtn` set (see Findings).
- **Admit and the roster.** The design documentation says admitting a lobby entry also marks the
  roster record "Connected". The lobby's admit touches only the lobby queue. The roster is updated
  only by its own admit button.
- **Duplicate inserts.** The design documentation promises that the roster and the lobby never
  hold two records for one key. Both checks read a captured list (see Findings).
- **Crashes.** The design documentation says no error escapes. In the code, three paths throw:
  - the display-name backfill, when a lookup misses;
  - `onUpdateMessage`, for an unknown id;
  - `cleanifyMessage`, on a response without `value`.
  The model keeps these as error results.

## Model

| member | source | states |
|---|---|---|
| Seqs.IndexOf | src/components/VideoGallery.jsx:43 | `indexOf`: -1 exactly when the value is absent; otherwise the position of its first occurrence |
| Seqs.IndexOfTail | src/components/VideoGallery.jsx:43 | past a non-matching head, `indexOf` is one more than on the tail |
| Seqs.IndexOfFirstOccurrence | src/components/VideoGallery.jsx:42-44 | position k passes the `indexOf(item) === index` test iff the value at k does not occur before k |
| Seqs.RemoveAll | src/components/VideoGallery.jsx:153-155 | filtering out a value removes every occurrence and keeps every other entry |
| Seqs.RemoveAllAppend | src/components/VideoGallery.jsx:153-155 | the filter distributes over concatenation, so the remaining entries keep their order |
| Seqs.RemoveAllAbsent | src/components/VideoGallery.jsx:153-155 | filtering out a value that is not there returns the list unchanged |
| Seqs.NoDuplicatesCons | src/components/ChatMessages.jsx:84-92 | prepending a value not in a duplicate-free list keeps it duplicate-free |
| Seqs.Reverse | src/components/ChatMessages.jsx:98 | `reverse()`: same length; position i holds the element at the mirrored position |
| Strings.Split | src/components/VideoGallery.jsx:126 | `split(":")` yields at least one part, and no part contains the separator |
| Strings.JoinSplit | src/components/VideoGallery.jsx:126 | joining the parts of a split gives back the string |
| Strings.SplitJoin | src/components/VideoGallery.jsx:126 | splitting a join of separator-free parts gives back the parts |
| Strings.ThirdFieldOfJoin | src/components/VideoGallery.jsx:126-127 | `split(":")[2]` of `a:b:c...` is the third part |
| Strings.ThirdFieldOfRawId | src/components/VideoGallery.jsx:126-127 | the third field of `a:b:c`, with no `:` inside the parts, is `c` |
| Strings.Join | src/components/VideoGallery.jsx:126 | `join(sep)`, the inverse of `split`; stated by `Strings.JoinSplit` and `Strings.SplitJoin` |
| Strings.UpperChar | src/components/VideoGallery.jsx:166 | a lower-case ASCII letter becomes its upper-case letter; every other character is kept |
| Strings.UpperCase | src/components/VideoGallery.jsx:162-167 | `toUpperCase` on ASCII letters: same length, each character mapped on its own, `a`–`z` to `A`–`Z` |
| Strings.ThirdField | src/components/VideoGallery.jsx:126-127 | `split(":")[2]`: the third `:`-field, absent when there are fewer than three (stated by `Strings.ThirdFieldOfJoin` and `Strings.ThirdFieldOfRawId`) |
| Sdk.FindMember | src/components/ParticipantList.jsx:46-48 | `participantData.find` by user id: absent iff no member has that id; otherwise the first such member |
| Identifiers.GetIdentifierText | src/utils/Utils.js:13-25 | communication user id first, then phone number, then Teams user id; "Echo Bot" iff an unknown identifier's id is "8:echo123"; "Unknown Identifier" otherwise |
| Identifiers.CommunicationUserTakesPriority | src/utils/Utils.js:14-15 | with a communication user id, the other kind fields never change the text |
| Identifiers.FindByRawId | src/utils/Utils.js:31-33 | `find` by `identifier.rawId`: absent iff no entry matches; otherwise the first match |
| Identifiers.Truthy | src/utils/Utils.js:28 | `!participantId` is false exactly for a present, non-empty string; used by `Identifiers.IsParticipantHandRaised` |
| Identifiers.IsParticipantHandRaised | src/utils/Utils.js:27-35 | false for an empty or absent id or an absent list; otherwise true iff some entry's raw id equals the id |
| Identifiers.IsParticipantSpotlighted | src/utils/Utils.js:37-45 | the same guards as the hand-raised test |
| Identifiers.SpotlightedAgreesWithHandRaised | src/utils/Utils.js:27-45 | the spotlight test equals the hand-raised test on every input |
| Identifiers.CallScreenLoaderLabel | src/utils/Utils.js:53-64 | "Loading..." exactly for states outside the loading list |
| Identifiers.LoaderLabelsDistinct | src/utils/Utils.js:47-64 | distinct loading states get distinct captions |
| ChatMessageUtils.Scan | src/utils/chatMessageUtils.js:28-30 | the leftmost-match search from position k; stated by `ChatMessageUtils.ScanMeetsRegex` |
| ChatMessageUtils.ExtractChatId | src/utils/chatMessageUtils.js:27-31 | `match(/\/([^/]+)\/0/)` then `match[1]` or `null`; stated by `ChatMessageUtils.ExtractChatIdAbsent` and `ChatMessageUtils.ExtractChatIdLeftmost` |
| ChatMessageUtils.SegmentEnd | src/utils/chatMessageUtils.js:28 | the end of the `[^/]+` run: the first `/` at or after k, or the end of the link |
| ChatMessageUtils.MatchEndIsSegmentEnd | src/utils/chatMessageUtils.js:28 | a match of the regex ends its group at the end of the `[^/]+` run, since the run is greedy |
| ChatMessageUtils.ScanMeetsRegex | src/utils/chatMessageUtils.js:27-31 | the scan finds a match of `/([^/]+)/0` at or after k iff one exists; its value is the group of the leftmost match |
| ChatMessageUtils.ExtractChatIdAbsent | src/utils/chatMessageUtils.js:28-30 | null iff the link has no `/segment/0` |
| ChatMessageUtils.ExtractChatIdLeftmost | src/utils/chatMessageUtils.js:28-30 | a found id is non-empty and free of `/`; it is preceded by `/` and followed by `/0`; no match starts further left |
| ChatMessageUtils.ConvertAttachments | src/utils/chatMessageUtils.js:2-10 | one metadata entry per attachment, in order, with name, url and id copied, extension "xlsx" and type "fileSharing" |
| ChatMessageUtils.SenderId | src/utils/chatMessageUtils.js:14 | `_m?.from?.user?.id`: absent when there is no user; read by `ChatMessageUtils.ConvertObjectTeamToLocal` |
| ChatMessageUtils.SenderDisplayName | src/utils/chatMessageUtils.js:15 | `_m?.from?.user?.displayName`: absent when there is no user; read by `ChatMessageUtils.ConvertObjectTeamToLocal` |
| ChatMessageUtils.AttachmentOf | src/utils/chatMessageUtils.js:3-9 | one attachment's metadata; its fields are stated by `ChatMessageUtils.ConvertAttachments` |
| ChatMessageUtils.ConvertObjectTeamToLocal | src/utils/chatMessageUtils.js:12-24 | `messageId` is the id; content is the body for type "message", "hideMessage" otherwise; `mine` iff the user id equals the sender id; sender id, sender display name and content type copied; the attachments are the converted attachment list; type "chat", not attached, status "seen" |
| VideoGallery.SpotlightIds | src/components/VideoGallery.jsx:33-38 | the local spotlight list is the spotlighted raw ids, in order |
| VideoGallery.SpotlightIdsAgreeWithMembership | src/components/VideoGallery.jsx:49-54 | for a non-empty id, `includes` on the local list agrees with the hand-raised style test on the backend list |
| VideoGallery.KeepFirstFrom | src/components/VideoGallery.jsx:42-44 | the `filter((item, index) => indexOf(item) === index)` pass from position k; stated by `VideoGallery.KeepFirstIsDistinct` |
| VideoGallery.HighlightParticipants | src/components/VideoGallery.jsx:40-45 | the highlight memo; stated by `VideoGallery.HighlightIsDistinct`, `VideoGallery.HighlightMembers` and the order lemmas below |
| VideoGallery.KeepFirstIsDistinct | src/components/VideoGallery.jsx:40-45 | the `filter`/`indexOf` dedupe equals walk-and-keep-unseen de-duplication |
| VideoGallery.DistinctMembers | src/components/VideoGallery.jsx:40-45 | de-duplication leaves no repeats and holds exactly the unseen input values |
| VideoGallery.DistinctAppend | src/components/VideoGallery.jsx:41 | de-duplicating a concatenation handles the second part after the first part's values |
| VideoGallery.DistinctKeepsFirstOccurrenceOrder | src/components/VideoGallery.jsx:42-44 | de-duplication keeps values in the order of their first occurrence |
| VideoGallery.OrderShift | src/components/VideoGallery.jsx:42-44 | first-occurrence order in the tail carries over to the whole list when the head is not among the values |
| VideoGallery.OrderPrepend | src/components/VideoGallery.jsx:42-44 | putting the head in front of values that come after it keeps first-occurrence order |
| VideoGallery.HighlightIsDistinct | src/components/VideoGallery.jsx:40-45 | the highlight list is the spotlight ids de-duplicated, then the pinned ids not already present |
| VideoGallery.HighlightMembers | src/components/VideoGallery.jsx:41-44 | no duplicates, and the elements are exactly spotlight ids ∪ pinned ids |
| VideoGallery.HighlightKeepsFirstOccurrenceOrder | src/components/VideoGallery.jsx:41-44 | the highlight list follows first-occurrence order in spotlight-then-pinned |
| VideoGallery.HighlightSpotlightFirst | src/components/VideoGallery.jsx:41-44 | every spotlight id comes before every pinned-only id |
| VideoGallery.HighlightIgnoresKnownId | src/components/VideoGallery.jsx:150-152 | pinning an id already spotlighted or pinned leaves the highlight list unchanged |
| VideoGallery.HighlightElementsIgnorePinOrder | src/components/VideoGallery.jsx:41 | pinned lists with the same elements give highlight lists with the same elements |
| VideoGallery.Pin | src/components/VideoGallery.jsx:150-151 | `concat(userId)`; stated by `VideoGallery.UnpinAfterPin`, `VideoGallery.PinTwiceRepeats` and `VideoGallery.HighlightIgnoresKnownId` |
| VideoGallery.Unpin | src/components/VideoGallery.jsx:153-155 | `filter` out the id; stated by `VideoGallery.UnpinAfterPin` |
| VideoGallery.UnpinAfterPin | src/components/VideoGallery.jsx:150-155 | unpin removes every occurrence; it undoes a pin, and restores the list when the id was not pinned |
| VideoGallery.PinTwiceRepeats | src/components/VideoGallery.jsx:150-151 | `concat` has no membership check: pinning twice leaves the id twice at the end |
| VideoGallery.TileMenu | src/components/VideoGallery.jsx:57-80 | "Unpin" iff the participant is pinned; otherwise "Pin for me", disabled iff they are in the local spotlight list |
| VideoGallery.ApplyTileMenu | src/components/VideoGallery.jsx:57-80 | a click: "Pin for me" pins unless disabled, "Unpin" unpins; stated by `VideoGallery.TileMenuToggles` |
| VideoGallery.TileMenuToggles | src/components/VideoGallery.jsx:57-80 | clicking a disabled "Pin for me" changes nothing; clicking an enabled item switches the menu between "Pin for me" and "Unpin" |
| VideoGallery.TileIconsFor | src/components/VideoGallery.jsx:96-104 | the pin icon shows iff pinned and not spotlighted; the spotlight icon iff in the local spotlight list; the raised-hand icon iff the hand-raised test holds; the pin and spotlight icons never both show |
| VideoGallery.BackfillOne | src/components/VideoGallery.jsx:124-133 | one step of the backfill `map`; stated by `VideoGallery.BackfillOneKeeps`, `VideoGallery.BackfillUsesThirdField` and `VideoGallery.BackfillCrashesOnUnlistedUser` |
| VideoGallery.BackfillOneKeeps | src/components/VideoGallery.jsx:124-133 | a step keeps the user id and a present name; a filled name is a directory member's name, looked up by the third `:`-field |
| VideoGallery.BackfillDisplayNames | src/components/VideoGallery.jsx:122-138 | with no directory the list is unchanged. Otherwise every entry becomes its backfilled version, or the loop stops at the first failing entry with the entries before it already updated in place |
| VideoGallery.BackfillUsesThirdField | src/components/VideoGallery.jsx:126-130 | for raw id `a:b:c`, the name of directory member `c` is filled in |
| VideoGallery.BackfillCrashesOnUnlistedUser | src/components/VideoGallery.jsx:126-130 | for every raw id `a:b:c` and every directory with no member `c`, a nameless entry makes the step fail |
| VideoGallery.BackfillOneGuarded | src/components/VideoGallery.jsx:129-130 | the guarded step never fails, agrees with the step as written wherever that succeeds, and leaves an unmatched name absent |
| VideoGallery.BackfillGuarded | src/components/VideoGallery.jsx:122-138 | the guarded memo keeps length, ids and named entries; with no directory it is the identity; with one, every entry becomes its guarded step |
| VideoGallery.GetInitials | src/components/VideoGallery.jsx:162-167 | the first two characters (at most two), each one upper-cased on its own by the ASCII mapping |
| VideoGallery.GetInitialsIdempotent | src/components/VideoGallery.jsx:162-167 | initials of initials are the same initials |
| ParticipantList.ResolveDisplayName | src/components/ParticipantList.jsx:41-49 | a present name is kept; a missing or empty one becomes the name of the member whose id is the Teams user id, absent when none matches |
| ParticipantList.NewEntry | src/components/ParticipantList.jsx:51-69 | `userId` is the raw id and the entry is removable; state and mute are copied; the hand, spotlight and pin flags equal membership in the captured lists |
| ParticipantList.AppendUnlessCaptured | src/components/ParticipantList.jsx:36-71 | the updater as written: append unless the captured roster has the raw id; stated by `ParticipantList.StaleCheckAdmitsDuplicate` and `ParticipantList.AdditionsOne` |
| ParticipantList.Additions | src/components/ParticipantList.jsx:109 | the batch of entries a `forEach` over participants appends; stated by `ParticipantList.AdditionsMembers`, `ParticipantList.AdditionsOne` and `ParticipantList.AdditionsAppend` |
| ParticipantList.StaleCheckAdmitsDuplicate | src/components/ParticipantList.jsx:36-40 | with the check on the captured roster, a participant reported twice gets two entries |
| ParticipantList.AppendUnlessPresent | src/components/ParticipantList.jsx:36-71 | a check on the live roster keeps user ids distinct, holds the entry afterwards, and loses nothing |
| ParticipantList.AdditionsMembers | src/components/ParticipantList.jsx:109 | a batch appends exactly the new entries of the participants missing from the captured roster, each keyed by its raw id |
| ParticipantList.AdditionsOne | src/components/ParticipantList.jsx:36-71 | one participant adds its new entry iff the captured roster lacks its raw id |
| ParticipantList.AdditionsAppend | src/components/ParticipantList.jsx:109 | two batches in a row append what one concatenated batch appends |
| ParticipantList.AppendAdditions | src/components/ParticipantList.jsx:76-109 | the self block followed by the call's participants appends what one batch of both appends |
| ParticipantList.SelfParticipant | src/components/ParticipantList.jsx:76-92 | the self participant `activeAdmin` (named "You", Teams id the third `:`-field), present only when the participant list lists the user; stated by `ParticipantList.SelfEntryShape` and `ParticipantList.SelfAdditionGuarded` |
| ParticipantList.SelfList | src/components/ParticipantList.jsx:76-107 | the self participant as a batch of at most one; stated by `ParticipantList.AppendAdditions` |
| ParticipantList.SelfAdditionGuarded | src/components/ParticipantList.jsx:76-80 | when the captured roster already has the user, the self block adds nothing |
| ParticipantList.SelfEntryShape | src/components/ParticipantList.jsx:81-92 | the self entry is named "You", keyed by the user id, has no state, and its Teams user id is the third `:`-field |
| ParticipantList.RemoveUserId | src/components/ParticipantList.jsx:120-126 | removal keeps exactly the entries with another user id |
| ParticipantList.RemoveUserIdAppend | src/components/ParticipantList.jsx:120-126 | removal keeps the remaining entries in order |
| ParticipantList.RemoveUserIdAbsent | src/components/ParticipantList.jsx:120-126 | removing an id that is not there changes nothing |
| ParticipantList.RemoveAllOf | src/components/ParticipantList.jsx:116-127 | the removals, one raw id after another; stated by `ParticipantList.RemoveAllOfMembers` |
| ParticipantList.RemoveAllOfMembers | src/components/ParticipantList.jsx:119-126 | after the removals, no removed raw id remains and every other entry does |
| ParticipantList.WithSpotlight | src/components/ParticipantList.jsx:132-146 | same length; each entry changes only its spotlight flag, to membership in the new list |
| ParticipantList.WithPinState | src/components/ParticipantList.jsx:148-160 | same length; each entry changes only its pin flag, to membership in the new pinned list |
| ParticipantList.ResyncIsAuthoritative | src/components/ParticipantList.jsx:132-160 | a resync depends only on the new list: a later resync overrides an earlier one |
| ParticipantList.SetPinState | src/components/ParticipantList.jsx:208-217 | only the entries with the clicked user id get the new pin flag |
| ParticipantList.SetConnected | src/components/ParticipantList.jsx:251-260 | only the entries with the admitted user id become "Connected" |
| ParticipantList.TogglePinList | src/components/ParticipantList.jsx:195-206 | the pinned-list updater: append when unpinned, filter out when pinned; stated by `ParticipantList.TogglePinKeepsFlagInSync` |
| ParticipantList.TogglePinKeepsFlagInSync | src/components/ParticipantList.jsx:195-217 | the flag the click writes agrees with the pinned list it produces |
| ParticipantList.InPlacePinWrite | src/components/ParticipantList.jsx:207-213 | the `map` that writes `!callingParticipant.pinState` into the matching roster objects: non-matching entries are untouched; matching ones up to the clicked object get the flipped flag, those after it get the original flag back |
| ParticipantList.WrittenPinState | src/components/ParticipantList.jsx:209-211 | the flag written at one position: flipped, or the original one once the clicked object has been passed; stated through `ParticipantList.InPlacePinWrite` |
| ParticipantList.InPlacePinWriteUniform | src/components/ParticipantList.jsx:207-213 | when the clicked object has left the roster, or no matching entry follows it, the write flips every matching entry alike |
| ParticipantList.InPlacePinWriteSplitsDuplicates | src/components/ParticipantList.jsx:207-213 | two entries for one user, the first clicked: the first gets the flipped flag, the second keeps the old one |
| ParticipantList.PresenceOf | src/components/ParticipantList.jsx:166-175 | online iff "Connected"; no presence outside "Connected", "Idle" and "Connecting" |
| ParticipantList.SpotlightFlag | src/components/ParticipantList.jsx:59-62 | `isParticipantHandRaised(rawId, spotLightParticipant)`: the entry's raw id is on the spotlight list |
| ParticipantList.ParticipantMenu | src/components/ParticipantList.jsx:177-242 | items only for a connected participant other than oneself; the first item is the pin item, "Unpin" iff the entry is pinned and disabled iff the entry is spotlighted |
| ParticipantList.SpotlightRequestFor | src/components/ParticipantList.jsx:226-239 | the click stops the spotlight iff the entry is spotlighted and starts it otherwise, always on the entry's identifier |
| ParticipantList.SpotlightItemMatchesRequest | src/components/ParticipantList.jsx:219-239 | the spotlight item reads "Exit spotelight" iff its click stops the spotlight |
| ParticipantList.SelfEntryHasNoMenu | src/components/ParticipantList.jsx:81-92 | the self entry never gets pin or spotlight items |
| ParticipantList.RowIconsFor | src/components/ParticipantList.jsx:284-308 | admit/reject buttons iff the state is "InLobby" |
| ParticipantList.RowFor | src/components/ParticipantList.jsx:310-322 | a row iff the display name is truthy; it shows that name, is `me` iff the user id is the local user's (and then has no menu), and carries the entry's menu, presence and icons |
| ParticipantList.Roster.constructor | src/components/ParticipantList.jsx:29 | the roster starts empty, with every entry keyed by its raw id |
| ParticipantList.Roster.HandleParticipant | src/components/ParticipantList.jsx:35-74 | appends the new entry unless the captured roster has its raw id; keeps every entry keyed by its raw id |
| ParticipantList.Roster.HandleAll | src/components/ParticipantList.jsx:109 | the roster grows by exactly the batch's additions |
| ParticipantList.Roster.OnCallAvailable | src/components/ParticipantList.jsx:33-109 | captures the current lists, then appends the self entry and the call's participants as one batch |
| ParticipantList.Roster.AddSelf | src/components/ParticipantList.jsx:76-107 | the self block appends the self entry's addition |
| ParticipantList.Roster.RemoveAllParticipants | src/components/ParticipantList.jsx:119-126 | the removed raw ids are filtered out one after another |
| ParticipantList.Roster.OnRemoteParticipantsUpdated | src/components/ParticipantList.jsx:111-127 | the additions, then the removals |
| ParticipantList.Roster.ResyncSpotlight | src/components/ParticipantList.jsx:132-146 | the roster becomes its spotlight resync |
| ParticipantList.Roster.ResyncPins | src/components/ParticipantList.jsx:148-160 | the roster becomes its pin resync |
| ParticipantList.Roster.TogglePin | src/components/ParticipantList.jsx:188-218 | nothing changes while the entry is spotlighted (the item is disabled). Otherwise the raw id is appended when unpinned and filtered out when pinned, and the loop writes the flags as `ParticipantList.InPlacePinWrite` states; it keeps every entry keyed by its raw id |
| ParticipantList.Roster.WritePinStates | src/components/ParticipantList.jsx:207-215 | the updater's `map`, a loop over the roster that rereads the clicked object's flag at each matching entry; the result is `ParticipantList.InPlacePinWrite` of the old roster |
| ParticipantList.Roster.AdmitParticipant | src/components/ParticipantList.jsx:244-264 | ignored for `detail == 0` and on failure; on success only the matching entries become "Connected" |
| ParticipantList.Roster.RejectParticipant | src/components/ParticipantList.jsx:266-282 | ignored for `detail == 0` and on failure; on success the matching entries are removed |
| CallScreen.LobbyEntryOf | src/components/CallScreen.jsx:160-164 | a lobby entry carries the raw id, the identifier and the display name |
| CallScreen.LobbyArrivals | src/components/CallScreen.jsx:179-184 | the added participants in state "InLobby"; stated by `CallScreen.LobbyArrivalsMembers` and `CallScreen.ArrivalsSnoc` |
| CallScreen.Enqueued | src/components/CallScreen.jsx:153-169 | the batch the handler appends, checking the captured queue; stated by `CallScreen.EnqueuedMembers` and `CallScreen.EnqueuedAppend` |
| CallScreen.LobbyArrivalsMembers | src/components/CallScreen.jsx:179-184 | the arrivals are exactly the added participants in state "InLobby"; there are none iff no added participant is in the lobby |
| CallScreen.EnqueuedMembers | src/components/CallScreen.jsx:153-169 | a batch appends exactly the entries of arrivals whose id the captured queue lacks |
| CallScreen.RemoveLobbyUserId | src/components/CallScreen.jsx:202-207 | removal keeps exactly the entries with another user id |
| CallScreen.RemoveLobbyUserIdAppend | src/components/CallScreen.jsx:202-207 | removal keeps the queue order |
| CallScreen.RemoveFrontOfDistinct | src/components/CallScreen.jsx:202-207 | in a queue without duplicates, removing the front's id drops exactly the front |
| CallScreen.RemoveAbsentLobbyUserId | src/components/CallScreen.jsx:202-207 | removing an id not in the queue changes nothing |
| CallScreen.ArrivalStep | src/components/CallScreen.jsx:171-190 | the queue only grows, by the batch's entries; an arrival in the lobby shows the popup and clears `loadingBtn`; otherwise nothing changes; `removed` is not used |
| CallScreen.ArrivalStepShape | src/components/CallScreen.jsx:171-190 | with arrivals, the step appends their entries, shows the popup and clears `loadingBtn`; without any it is the identity |
| CallScreen.ArrivalsSnoc | src/components/CallScreen.jsx:179-184 | one more added participant extends the arrivals iff they are in the lobby |
| CallScreen.EnqueuedAppend | src/components/CallScreen.jsx:179-184 | enqueuing two batches in a row appends what their concatenation appends |
| CallScreen.DecisionStep | src/components/CallScreen.jsx:194-232 | ignored for `detail == 0`. On success the target's id leaves the queue, the others stay, and `loadingBtn` is cleared. On failure the queue is unchanged and `loadingBtn` stays set |
| CallScreen.PopupViewOf | src/components/CallScreen.jsx:298-348 | shown iff visible with a non-empty queue; it names the front entry; the buttons show iff `loadingBtn` is clear |
| CallScreen.PopupDecision | src/components/CallScreen.jsx:318-342 | a popup click acts on the front entry, and only while the buttons show |
| CallScreen.PopupDecisionAdvances | src/components/CallScreen.jsx:298-342 | a successful popup decision on a distinct queue moves to the next entry |
| CallScreen.FailedDecisionSticks | src/components/CallScreen.jsx:209-211 | after a failed decision the popup shows a spinner instead of buttons, and no popup click changes the state again |
| CallScreen.SettledDecisionStep | src/components/CallScreen.jsx:199-211 | clearing `loadingBtn` on both outcomes: same queue effect, `loadingBtn` always clear |
| CallScreen.SettledFailureReoffersButtons | src/components/CallScreen.jsx:209-211 | with the settled step, a failure shows the buttons again |
| CallScreen.StaleLobbyCheckAdmitsDuplicate | src/components/CallScreen.jsx:154-159 | with the check on the captured queue, one lobby participant reported by two events is queued twice |
| CallScreen.EnqueueUnlessPresent | src/components/CallScreen.jsx:154-166 | a check on the live queue keeps ids distinct and only appends |
| CallScreen.MainViewOf | src/components/CallScreen.jsx:236-263 | the gallery iff the state is not a loading state; otherwise the loader with that state's caption |
| CallScreen.Screen.constructor | src/components/CallScreen.jsx:98-107 | an empty queue, no popup, no loading flag and empty snapshots |
| CallScreen.Screen.RegisterLobbyHandler | src/components/CallScreen.jsx:151-153 | the handler captures the current queue |
| CallScreen.Screen.HandleLobbyParticipant | src/components/CallScreen.jsx:153-169 | appends the entry unless the captured queue has its id |
| CallScreen.Screen.EnqueueArrivals | src/components/CallScreen.jsx:178-184 | the loop enqueues the batch's arrivals and sets `addFlag` iff there was one |
| CallScreen.Screen.OnRemoteParticipantsUpdated | src/components/CallScreen.jsx:171-190 | the handler's lobby state is the arrival step |
| CallScreen.Screen.OnGraphMembers | src/components/CallScreen.jsx:173-175 | `results?.value \|\| []` |
| CallScreen.Screen.AdmitParticipant | src/components/CallScreen.jsx:194-212 | the decision step, with an admit call unless `detail == 0` |
| CallScreen.Screen.RejectParticipant | src/components/CallScreen.jsx:214-232 | the decision step, with a remove call unless `detail == 0` |
| CallScreen.Screen.HidePopup | src/components/CallScreen.jsx:304-311 | the popup is hidden |
| CallScreen.Screen.OnRaiseHandChanged | src/components/CallScreen.jsx:137-139 | the raised-hand list becomes the backend snapshot |
| CallScreen.Screen.OnSpotlightChanged | src/components/CallScreen.jsx:141-143 | the spotlight list becomes the backend snapshot |
| ChatMessages.ShownMessages | src/components/ChatMessages.jsx:80-82 | keeps exactly the messages of type "message" with non-empty content |
| ChatMessages.IdsOf | src/components/ChatMessages.jsx:84-92 | the ids of the messages, position by position |
| ChatMessages.IdsOfSnoc | src/components/ChatMessages.jsx:89 | appending a message appends its id |
| ChatMessages.FreshMessages | src/components/ChatMessages.jsx:84-92 | the `messageIds` filter as a function; stated by the four lemmas below and met by `ChatMessages.Thread.KeepUnseen` |
| ChatMessages.FreshMessagesAreNew | src/components/ChatMessages.jsx:84-92 | kept messages come from the input and have ids not seen before |
| ChatMessages.FreshMessagesDistinct | src/components/ChatMessages.jsx:84-92 | kept ids are pairwise distinct |
| ChatMessages.FreshMessagesCover | src/components/ChatMessages.jsx:84-92 | every input id was seen before or is kept |
| ChatMessages.FreshStep | src/components/ChatMessages.jsx:84-92 | one filter step: a seen id is dropped; an unseen one is kept and recorded for the rest |
| ChatMessages.KeepStep | src/components/ChatMessages.jsx:84-92 | the loop's kept prefix and the filter of the remainder together stay equal to the whole filter |
| ChatMessages.ConvertAll | src/components/ChatMessages.jsx:94-96 | each kept message is converted, in order |
| ChatMessages.Page | src/components/ChatMessages.jsx:79-98 | the filtered, converted and reversed page; stated by the page lemmas below |
| ChatMessages.PageIds | src/components/ChatMessages.jsx:79-98 | the page has one message per kept message, with the ids in reverse order |
| ChatMessages.PageIdsDistinctAndNew | src/components/ChatMessages.jsx:79-98 | a page's message ids are distinct and none was seen before |
| ChatMessages.PageKeepsNewMessages | src/components/ChatMessages.jsx:79-98 | every shown message with an unseen id appears in the page |
| ChatMessages.ShownNewIdsKept | src/components/ChatMessages.jsx:79-92 | a shown message whose id was not seen before is among the kept messages |
| ChatMessages.NewIdsReachPage | src/components/ChatMessages.jsx:79-98 | every kept message's id is a message id of the page |
| ChatMessages.PageIsReversed | src/components/ChatMessages.jsx:98 | the page is the kept messages in reverse order |
| ChatMessages.RemoveMessageId | src/components/ChatMessages.jsx:107-109 | keeps exactly the messages with another id |
| ChatMessages.FindMessageIndex | src/components/ChatMessages.jsx:141 | `findIndex`: -1 iff no message has the id; otherwise the first such position |
| ChatMessages.ShouldRefetch | src/components/ChatMessages.jsx:32-36 | a refetch iff the message's `chatId` equals the chat id: the same string, or `null` while there is no chat id |
| ChatMessages.IsMessageEvent | src/components/ChatMessages.jsx:14-17 | the websocket filter: the event's `type` is "MESSAGE_EVENT" |
| ChatMessages.RefetchOnSocketMessage | src/components/ChatMessages.jsx:23-36 | a websocket message refetches only when it passes the filter, and then iff its `chatId` matches |
| ChatMessages.MayLoadPrevious | src/components/ChatMessages.jsx:160-165 | the load-previous guard; stated by `ChatMessages.Thread.OnLoadPreviousChatMessages` and `ChatMessages.NextLinkRequestedOnce` |
| ChatMessages.Thread.constructor | src/components/ChatMessages.jsx:20-40 | no messages, ids, requested links or page; not loading and no request in flight |
| ChatMessages.Thread.KeepUnseen | src/components/ChatMessages.jsx:84-92 | the loop keeps exactly `FreshMessages`, and `messageIds` grows by exactly the kept ids |
| ChatMessages.Thread.Cleanify | src/components/ChatMessages.jsx:79-104 | the page replaces the list on an initial load and goes before it otherwise; `messageIds` grows by the kept ids |
| ChatMessages.Thread.GetMessages | src/components/ChatMessages.jsx:54-62 | `messageIds` is cleared first. A failure keeps the loading flag; a response without a value stops before the list; a full response replaces the list and clears the flag |
| ChatMessages.Thread.LoadFirstPage | src/components/ChatMessages.jsx:60-62 | a response with a value: the page replaces the list, `messageIds` holds exactly the kept ids, and `isLoading` is cleared |
| ChatMessages.Thread.OnChatIdChanged | src/components/ChatMessages.jsx:153-157 | nothing changes unless the chat id is truthy. Then `messageIds` is cleared; a failure keeps the list and sets the loading flag; a response is stored, and one with a value replaces the list by its page, sets `messageIds` to the page's kept ids and clears the flag |
| ChatMessages.Thread.OnDeleteMessage | src/components/ChatMessages.jsx:106-119 | the id is filtered out locally, whatever the remote outcome |
| ChatMessages.Thread.OnSendMessage | src/components/ChatMessages.jsx:121-136 | a created message is appended, converted; a refetch follows iff the ready state is 0; a failure changes nothing |
| ChatMessages.Thread.OnUpdateMessage | src/components/ChatMessages.jsx:138-151 | only the first message with the id gets the new content; an unknown id changes nothing |
| ChatMessages.Thread.OnLoadPreviousChatMessages | src/components/ChatMessages.jsx:159-182 | requests iff there is a token, a next link, no request in flight and the link was never requested; then records the link and sets the flag |
| ChatMessages.Thread.OnPreviousPage | src/components/ChatMessages.jsx:172-180 | a response clears the in-flight flag, stores the page, prepends its messages and grows `messageIds` by exactly the kept ids; a failure leaves the flag set |
| ChatMessages.NextLinkRequestedOnce | src/components/ChatMessages.jsx:159-171 | after a request, no further request while it is in flight, and never again for the same link |
| TeamsUserContent.InCallUser | src/components/TestCallTeamsUserContent.jsx:35-40 | true iff the call state is Connecting, Connected, Disconnecting or InLobby |
| TeamsUserContent.CanCreateAdapter | src/components/TestCallTeamsUserContent.jsx:86-93 | the creation condition: tokens with non-empty ACS token and user id, no adapter, `updatedAdapter` set, non-empty link; stated by `TeamsUserContent.CreateStep` and `TeamsUserContent.CreationIsExclusive` |
| TeamsUserContent.CreateStep | src/components/TestCallTeamsUserContent.jsx:85-95 | starts iff the creation condition holds, and then clears `updatedAdapter`; otherwise nothing changes |
| TeamsUserContent.CreatedStep | src/components/TestCallTeamsUserContent.jsx:110-121 | success sets adapter, client and agent; failure changes nothing |
| TeamsUserContent.StateChangedStep | src/components/TestCallTeamsUserContent.jsx:125-154 | records the state. Teardown runs only on a change to "Disconnected" and sends both signals. It resets everything and sets `updatedAdapter`, unless dispose throws |
| TeamsUserContent.CallsUpdatedStep | src/components/TestCallTeamsUserContent.jsx:115-119 | only the call changes, to the last added call |
| TeamsUserContent.CreationIsExclusive | src/components/TestCallTeamsUserContent.jsx:91-94 | while a creation is pending, no other starts |
| TeamsUserContent.FailedCreationBlocksRetry | src/components/TestCallTeamsUserContent.jsx:94-121 | after a failed creation, creation never starts again |
| TeamsUserContent.TeardownReenablesCreation | src/components/TestCallTeamsUserContent.jsx:134-153 | after a teardown whose dispose did not throw, creation starts again with valid tokens |
| TeamsUserContent.TeardownOnlyOnDisconnect | src/components/TestCallTeamsUserContent.jsx:151-153 | signals go out iff the state changes to "Disconnected" |
| TeamsUserContent.RenderBranch | src/components/TestCallTeamsUserContent.jsx:156-191 | a spinner iff there is no adapter; the composite iff not in a call; the call screen iff in a call with a stateful client |
| TeamsUserContent.Session.constructor | src/components/TestCallTeamsUserContent.jsx:21-33 | the lifecycle starts in its initial state |
| TeamsUserContent.Session.TryCreateAdapter | src/components/TestCallTeamsUserContent.jsx:85-95 | the creation step |
| TeamsUserContent.Session.OnAdapterCreated | src/components/TestCallTeamsUserContent.jsx:110-121 | the settled-creation step |
| TeamsUserContent.Session.OnCallsUpdated | src/components/TestCallTeamsUserContent.jsx:115-119 | the `forEach` leaves the last added call |
| TeamsUserContent.Session.DestroyCall | src/components/TestCallTeamsUserContent.jsx:134-149 | both signals on both paths; resets unless dispose throws |
| TeamsUserContent.Session.OnStateChanged | src/components/TestCallTeamsUserContent.jsx:125-154 | the state-changed step |
| ControlBar.ButtonsDisabled | src/components/ControlBar.jsx:39 | disabled iff the call is not "Connected" |
| ControlBar.MediaButtonDisabled | src/components/ControlBar.jsx:87-92 | `??` never falls back, so the camera and microphone follow only the call state |
| ControlBar.HandRequestFor | src/components/ControlBar.jsx:48-56 | lower the hand iff it is raised |
| ControlBar.HandLabel | src/components/ControlBar.jsx:138-147 | "Lower hand" iff the hand is raised, "Raise hand" otherwise |
| ControlBar.HandButtonFollowsList | src/components/ControlBar.jsx:42-56 | once the flag follows the list, the button lowers the hand and is captioned "Lower hand" iff the user's id is listed |
| ControlBar.HandState.constructor | src/components/ControlBar.jsx:33 | the hand starts lowered |
| ControlBar.HandState.OnRaisedHandsChanged | src/components/ControlBar.jsx:42-46 | the flag becomes the membership test on the new list |
| ControlBar.HandState.HandleRaiseHand | src/components/ControlBar.jsx:48-56 | the remote call follows the flag; the flag does not change |

## Left out

- Calling SDK, graph client, websocket and adapter factory. Their results are inputs; event
  subscription is not modelled.
- Asynchronous interleaving. Each handler or completion is one step, and the order of two pending
  completions is not modelled. In particular, `loadingBtn` is set and settled within one admit or
  reject step.
- Timestamps (`createdOn`), JSON parsing of websocket payloads, and the host page handshake.
- Identifier kind predicates. An identifier is a record whose optional kind fields stand for what
  the SDK's kind tests check.
- JSX layout and styling. Only the conditions that choose what renders are kept.
- src/acsAuthApiCaller.js, src/hook/index.js, src/App.jsx, the theming, local storage, the
  document list and the manual call input are not part of this model. The meeting-id regex in
  src/hook/index.js repeats `extractChatId`.
- The control bar's document window, screen-share toggle and scrolling, and the documents
  toggle. These are window and DOM operations.
- React's re-render bail-out. `onUpdateMessage` mutates the message in place and returns the same
  array, so React may skip a render. The model records the new content.
- Handler re-registration. Each run of the call-screen effect registers one more
  `remoteParticipantsUpdated` handler. The model keeps one handler with one captured queue.
- ParticipantList.NewEntry: the self entry's mute flag is `undefined` in the source. The model
  uses `false`, which renders the same.
- ParticipantList.Roster.TogglePin: the updater returns `undefined` when the pinned list is
  `undefined`. The model's pinned list always exists. The model also reads the pinned-list
  updater's `callingParticipant.pinState` before the roster updater flips it; the order in which
  React runs the two updaters is not modelled.
- TeamsUserContent.Session: `updatedAdapter` is module-level and shared by all instances. The
  model holds it as a field of one session.
- Strings.UpperCase: maps only the ASCII letters `a`–`z`. JavaScript's `toUpperCase` applies full
  Unicode case mapping, which can change the length ("ß" becomes "SS").
- VideoGallery.GetInitials: upper-cases ASCII only and splits by Dafny characters rather than
  UTF-16 code units, so names outside ASCII can give other initials than the source, and the
  model's result never exceeds two characters.
- ChatMessages.Thread.GetMessages: requests made without a graph client (no access token) throw.
  The model treats them as a failed response.

## Findings

| source | as written | input that shows it | evidently intended | confidence | as-written member | corrected member |
|---|---|---|---|---|---|---|
| src/components/ParticipantList.jsx:36-40 | the duplicate check reads the roster captured when the effect ran | a participant reported by `call.remoteParticipants` and again by a `remoteParticipantsUpdated` event gets two entries | check the roster the updater receives | not executed | ParticipantList.StaleCheckAdmitsDuplicate | ParticipantList.AppendUnlessPresent |
| src/components/CallScreen.jsx:154-159 | the lobby check reads the queue captured when the handler was registered | one InLobby participant reported by two events is queued twice | check the queue the updater receives | not executed | CallScreen.StaleLobbyCheckAdmitsDuplicate | CallScreen.EnqueueUnlessPresent |
| src/components/CallScreen.jsx:209-211 | a failed admit or deny leaves `loadingBtn` set | an admit whose remote call throws: the popup keeps its spinner and offers no buttons | clear `loadingBtn` whatever the outcome | not executed | CallScreen.FailedDecisionSticks | CallScreen.SettledDecisionStep |
| src/components/VideoGallery.jsx:129-130 | `part.displayName` when no directory member matches | any nameless entry `a:b:c` whose `c` no directory member has, such as a guest `8:orgid:guest` with a directory listing only `host` | `part?.displayName`, as the participant list does | not executed | VideoGallery.BackfillCrashesOnUnlistedUser | VideoGallery.BackfillOneGuarded |

For the roster and the lobby, the class methods keep the check as written, because that is the
behaviour of the component.
