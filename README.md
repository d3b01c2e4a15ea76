# GradSpace backend core, in Dafny

This project models the core of the GradSpace backend, a Go service (fiber and
gorm) for a college's student and alumni network, and proves properties of
that model.

**Real-time messaging.**
- The WebSocket endpoint keeps a registry with one live connection per user id
  (`Registry.Hub`).
- Its read loop decodes `{type, payload}` envelopes and dispatches
  `MARK_MESSAGES_AS_SEEN` and `TEXT` frames; everything else is skipped
  (`Socket`).
- The REST handlers send a message, list messages and conversations, suggest
  contacts and clear a conversation for one participant (`Messaging`).
- The store is a set of in-memory tables (`Models.ChatStore`). Its invariant,
  `Models.ChatConsistent`, is kept by every operation:
  - unique keys;
  - one conversation per unordered pair;
  - every message in an existing conversation, between its participants.
- Every socket write is one append to an outbox of (connection, frame)
  deliveries.

**Listings and social features.**
- Jobs, events and projects share one model of an owned table with a bookmark
  set (`Listings.Listing`), each with its request validator.
- Posts: likes, comments and deletion (`Posts`).
- Profiles: following, and the wholesale profile update (`Profile`).
- Notifications: their creation hooks and retention (`Models`).

**Administration.**
- Bulk user creation, batch promotion and per-user actions (`Admin`).
- Registration requests and decisions on them (`Registration`).
- The one-time code and the token claims (`Utils`).

**Modelling conventions.**
- A transaction is computed into local values and committed in one
  assignment, so it either applies every update or none.
- Database errors, the clock, the random source, uuid.Parse,
  url.ParseRequestURI, time.Parse and the JWT signer are parameters of the
  operations that use them. Where a handler answers a failed lookup with
  its not-found status whatever the error was, the model has no separate
  error parameter for it (see "Left out").
- A nullable column is an `Option`, and Go reads SQL NULL as "".
- Go's `len` of a string counts UTF-8 bytes (`Common.Utf8Len`).
- `strings.TrimSpace` follows `unicode.IsSpace` (`Common.TrimSpace`).
- Where the schema file and the handlers disagree, the model follows the handlers:
  - the chat handlers read and write `Message.ReceiverID` and
    `Conversation.LastMessageReceiverID`, which `database/models.go` does not
    declare; both are part of the model's rows;
  - the description check of job requests counts 10 bytes while its message
    says 20; that is modelled as written;
  - `database/models.go:199` declares `Message.SenderID` NOT NULL, yet
    ClearConversation sets `sender_id` to NULL (controller/user/message.go:520-521).
    Under the declared schema that UPDATE always fails, so the caller's sent
    messages stay visible; the model covers that outcome as the case where
    `SenderRefs` is among the failing steps, and models the handler's
    intended effect otherwise.

## Model

| member | source | states |
|---|---|---|
| Registry.Hub.GetSocket | ws/socket.go:20-24 | the connection registered for the id is returned exactly when the id is registered; nothing changes |
| Registry.Hub.Register | ws/socket.go:73-77 | the user's entry is replaced by the new connection, so an id has at most one; closed set and outbox kept |
| Registry.Hub.Unregister | ws/socket.go:58-61 | the entry for the id is deleted, whichever connection it names |
| Registry.Hub.Close | ws/socket.go:62-63 | the connection joins the closed set; the registry and the outbox are kept |
| Registry.Hub.Send | ws/socket.go:141-151 | one write appends exactly one delivery to the outbox |
| Registry.Hub.CollectUsers | ws/socket.go:130-133 | the snapshot lists every registered user id exactly once |
| Registry.Hub.CollectConnections | ws/socket.go:135-138 | the connections collected are those of every registered id, each reached once |
| Registry.Hub.SendAll | ws/socket.go:141-151 | one delivery of the frame per collected connection, in order, appended to the outbox |
| Registry.Hub.BroadcastOnlineUsers | ws/socket.go:126-152 | every registered connection gets one ONLINE_USERS frame listing exactly the registered ids, each once; the registry is unchanged |
| Registry.Fanout | ws/socket.go:141-151 | one delivery per connection, in order |
| Registry.FanoutReaches | ws/socket.go:141-151 | a connection receives the broadcast frame exactly when it is in the list |
| Registry.SnapshotExact | ws/socket.go:130-133 | a duplicate-free snapshot of the keys is as long as the registry and lists exactly its ids |
| Socket.StringField | ws/socket.go:93-97 | a key selects the field when it equals the field name up to encoding/json case folding; each selecting member in turn sets the field when it holds a string, leaves it when null, and fails the decode otherwise; with no selecting key the current value is kept |
| Socket.FoldChar | ws/socket.go:93-97 | ASCII lower-case letters fold to upper case; U+017F, U+212A, U+0130 and U+0131 fold to S, K and I; every other character is kept |
| Socket.Folded | ws/socket.go:93-97 | a key is folded character by character and keeps its length |
| Socket.DecodeEnvelope | ws/socket.go:93-97 | null decodes to the empty envelope and any other non-object is an error; an object's payload is its raw payload field, and an object without a type key has the empty tag |
| Socket.DecodeSeen | ws/socket.go:100-104 | an absent payload is an error, null gives empty ids, any other non-object is an error, and an object with neither key gives empty ids |
| Socket.DecodeText | ws/socket.go:108-112 | an absent payload is an error, null gives the empty payload, and any other non-object is an error |
| Socket.DecodeLaterFoldedKeyWins | ws/socket.go:93-97 | of a key "type" and a later "TYPE", the later one sets the tag |
| Socket.TextJsonDecodes | ws/socket.go:108-112 | the JSON object of a text payload decodes back to exactly that payload |
| Socket.RawField | ws/socket.go:93-97 | a raw payload is absent exactly when no member's key selects it, in any letter case |
| Socket.StringFieldSingle | ws/socket.go:100-106 | a field selected by exactly one member, whatever the case of its key, holding a string decodes to that string |
| Socket.RawFieldLast | ws/socket.go:93-97 | the payload is the value of the last member whose key selects it |
| Socket.StringFieldDuplicates | ws/socket.go:100-106 | a later duplicate key wins, but a later null does not erase an earlier string |
| Socket.DecodeTwoMembers | ws/socket.go:93-97 | an object holding a type tag and then a payload decodes to exactly that tag and that payload |
| Socket.Dispatch | ws/socket.go:87-121 | a frame is handed to a handler only when its envelope decodes with that handler's type tag, and then with exactly the payload DecodeSeen or DecodeText returns; otherwise it is skipped |
| Socket.DispatchSkipsBadPayload | ws/socket.go:100-112 | a SEEN or TEXT frame whose payload does not decode is skipped |
| Socket.DispatchEncodedSeen | ws/socket.go:100-106 | a well-formed MARK_MESSAGES_AS_SEEN frame reaches handleMessageSeen with exactly its payload |
| Socket.DispatchEncodedText | ws/socket.go:108-114 | a well-formed TEXT frame reaches handleTextMessage with exactly its payload |
| Socket.DispatchFoldsKeyCase | ws/socket.go:93-114 | a TEXT frame written with the keys "Type", "Payload", "Text" and "RecipientId" still reaches handleTextMessage with its payload |
| Socket.DispatchSkipsUnknown | ws/socket.go:118-119 | any other type tag is skipped, whatever the payload |
| Socket.DispatchPayloadPresence | ws/socket.go:93-106 | a frame without a payload key is skipped, while a null payload decodes to empty ids |
| Socket.MarkSeen | ws/socket.go:178-183 | the UPDATE keeps the row count and sets seen on exactly the unseen rows of that conversation and sender |
| Socket.CountUnseen | ws/socket.go:184-189 | the rows affected never exceed the table |
| Socket.CountZeroIff | ws/socket.go:184-189 | no row is affected exactly when no message of the conversation from that sender is unseen |
| Socket.MarkSeenRepeat | ws/socket.go:178-189 | marking seen is idempotent, and an immediate repeat affects 0 rows |
| Socket.MarkSeenSelective | ws/socket.go:178-183 | every field but seen is kept, and seen is set only on matching unseen rows |
| Socket.SeenSummary | ws/socket.go:191-197 | only last_message_seen changes, and it is set when the acting user is the last sender (NULL read as "") |
| Socket.SeenFlagFollowsSender | ws/socket.go:191-197 | the rule as written: the flag is not set when the actor received the last message, and is set when the actor sent it |
| Socket.MarkSeenRows | ws/socket.go:178-189 | the row-by-row update yields the MarkSeen table and the CountUnseen count |
| Socket.HandleMessageSeen | ws/socket.go:154-224 | a failing conversation lookup, a missing conversation, a non-participant or a failed transaction changes no row and sends nothing; otherwise the other participant's unseen messages become seen, the summary follows SeenSummary, and MESSAGES_SEEN goes to the other participant only when rows were affected and they are connected; the chat invariant is kept |
| Socket.SeenTransaction | ws/socket.go:176-204 | the two UPDATEs on copies of the tables: MarkSeen of the other participant's messages with its CountUnseen count, the summary by SeenSummary, and the chat invariant kept |
| Socket.SeenStep | ws/socket.go:154-224 | a fault, a missing conversation or a non-participant leaves the state as it was; otherwise no row is added or removed and at most one delivery is appended after the old outbox |
| Socket.TextStep | ws/socket.go:227-243 | no table changes, and the outbox grows exactly when the recipient is connected |
| Socket.HandleFrame | ws/socket.go:93-120 | handling one frame changes the tables and the outbox as Step does, and keeps the registry and the chat invariant |
| Socket.FirstError | ws/socket.go:87-91 | the number of frames handled before the first read error is at most the number of frames |
| Socket.FirstErrorStops | ws/socket.go:87-91 | every frame before the first read error was received, and the frame there, if any, is the read error |
| Socket.ReadRunGrows | ws/socket.go:87-121 | handling frames only appends to the outbox and never adds or removes a row |
| Socket.ReadRunKeepsTables | ws/socket.go:87-121 | frames that are not MARK_MESSAGES_AS_SEEN, or whose database calls fail, change no table |
| Socket.HandleTextMessage | ws/socket.go:227-243 | nothing is stored and the registry is unchanged; a connected recipient gets exactly one TEXT frame stamped with the time, and otherwise nothing is written |
| Socket.ReadLoop | ws/socket.go:87-121 | exactly the frames before the first read error are consumed; tables and outbox end as ReadRun, the fold of Step (Dispatch, then the seen or text handler) over those frames from the old state; the registry and the chat invariant are kept |
| Socket.Teardown | ws/socket.go:57-65 | the entry for the user id is deleted even when a newer connection replaced it, the connection is closed, and presence is broadcast to exactly the remaining users |
| Socket.Serve | ws/socket.go:56-122 | an empty user id gets the error frame, handles no frame and changes no table; otherwise the connection is registered, the join broadcast reaches exactly the registered users, the frames before the first read error are handled as ReadRun, and teardown deletes the id, closes the connection and ends with the presence broadcast to exactly the remaining users |
| Messaging.SendTx | controller/user/message.go:59-97 | a failing insert or summary update persists nothing; a commit appends exactly the new message |
| Messaging.FindPairUnique | controller/user/message.go:60-70 | in consistent tables the lookup in either order finds the pair's only conversation |
| Messaging.SendTransaction | controller/user/message.go:59-97 | the step-by-step transaction (find or insert the conversation, insert the message, update the summary) commits exactly the SendTx outcome, and nothing on any failure |
| Messaging.SendTxEffect | controller/user/message.go:71-94 | the message goes from the sender to the other participant, unseen, with the content; the summary equals the message; an existing conversation is reused and a new one is created only when the pair has none |
| Messaging.SendTxPreserves | controller/user/message.go:59-97 | a committed send keeps one conversation per pair and messages between their conversation's participants |
| Messaging.ReplySharesConversation | controller/user/message.go:60-70 | sends A to B and then B to A land in the same conversation |
| Messaging.SendMessage | controller/user/message.go:34-126 | an unknown caller gets 500 and an unparsable body 400; any transaction failure answers 500, persists nothing and pushes nothing; a commit stores the SendTx tables and pushes NEW_MESSAGE only to a connected recipient, and a push error does not change the answer |
| Messaging.VisibleToMembers | controller/user/message.go:162-168 | the caller sees exactly the conversation's messages on which they are still sender or receiver |
| Messaging.GetMessages | controller/user/message.go:136-186 | an unknown caller gets 500, a pair without a conversation 404, and a failing message query 500, all with no rows; otherwise one view per visible message of the caller in that conversation, a NULLed sender read as "" |
| Messaging.MaskedLast | controller/user/message.go:268-271 | the caller sees the last message exactly when they are its sender or its receiver (NULL read as ""); otherwise it is blank |
| Messaging.ConversationsOf | controller/user/message.go:209-216 | the listed conversations are exactly those the caller takes part in |
| Messaging.GetConversations | controller/user/message.go:204-293 | a failing conversation query gives 500, and so does a failing participant query when the caller has conversations; otherwise one row per conversation of the caller, each with the last message masked for the caller |
| Messaging.Unique | controller/user/message.go:333-342 | the deduplicated ids are no more than the input |
| Messaging.UniqueExact | controller/user/message.go:333-342 | every id but the caller's occurs exactly once |
| Messaging.UniquePrefix | controller/user/message.go:333-342 | later ids never disturb the result for earlier ones |
| Messaging.UniqueFirstOccurrence | controller/user/message.go:333-342 | the first occurrence of an id decides its position |
| Messaging.OtherParticipants | controller/user/message.go:324-331 | one id per recent conversation: the participant who is not the caller |
| Messaging.Deduplicate | controller/user/message.go:333-342 | the loop with its seen set computes Unique |
| Messaging.Shuffle | controller/user/message.go:344-347 | the shuffle permutes the ids in place |
| Messaging.PermutationKeepsUnique | controller/user/message.go:344-347 | a permutation of duplicate-free ids is duplicate-free with the same ids |
| Messaging.GetSuggestedUsers | controller/user/message.go:295-418 | a failing following or recent-conversations query gives 500; otherwise the candidates are a permutation of the followed and recent ids, deduplicated without the caller; the page is the window Go's 64-bit arithmetic computes, the handler panics exactly where that window is malformed, and a failing details query for a non-empty page gives 500; page and limit are clamped and totalPages is the ceiling; where page * limit fits in 64 bits there is no panic and any page served is Window |
| Messaging.SuggestionOnItsPage | controller/user/message.go:349-371 | every suggestion lies in the window of exactly its page |
| Messaging.HideAll | controller/user/message.go:518-521 | the UPDATE rewrites each row by Hidden, keeping the row count |
| Messaging.HideRows | controller/user/message.go:518-521 | the row-by-row update computes HideAll |
| Messaging.ClearMessageRefs | controller/user/message.go:518-521 | the two message UPDATEs that did not fail null the caller's references, and the invariant is kept |
| Messaging.ClearConversation | controller/user/message.go:503-536 | a missing conversation or a non-participant changes nothing; otherwise each of the four statements that did not fail nulls only the caller's references and the matching summary ids |
| Messaging.NothingVisible | controller/user/message.go:162-168 | a conversation none of whose messages involves the caller shows the caller nothing |
| Messaging.ClearHidesEverythingFromCaller | controller/user/message.go:518-521 | after a complete clear the caller sees no message of the conversation |
| Messaging.HiddenKeepsOthers | controller/user/message.go:518-521 | nulling the caller's references keeps the id, the conversation and whether the other participant is on the message |
| Messaging.ClearKeepsOthersMessages | controller/user/message.go:518-521 | clearing by one participant keeps the ids, in order, of the messages the other participant sees; their contents can change (Messaging.HiddenView) |
| Messaging.OthersViewAfterHide | controller/user/message.go:518-521 | the other participant's visible rows after the clear are their rows before, each with the caller's references nulled |
| Messaging.HiddenView | controller/user/message.go:518-521 | in the other participant's view only the sender id of the caller's own messages changes, to "" |
| Messaging.ClearErasesSenderForOther | controller/user/message.go:518-521 | a message A sent to B shows sender A to B before A clears and "" after |
| Messaging.ClearMasksLastMessage | controller/user/message.go:522-531 | after a complete clear the caller's conversation list shows no last message |
| Messaging.ClearKeepsOthersLastMessage | controller/user/message.go:522-531 | the other participant's view of the last message is unchanged |
| Models.StampBase | database/models.go:178-185 | the base gets the fresh id; CreatedAt equals UpdatedAt exactly when the two clock readings agree |
| Models.StampForgetsPrevious | database/models.go:178-185 | nothing of the previous base survives the hook |
| Models.NotificationBeforeCreate | database/models.go:164-176 | creation succeeds exactly for LIKE, COMMENT and FOLLOW, stamps the base, and keeps every other field |
| Models.NotificationStore.Create | database/models.go:164-176 | the row is appended exactly when the type is allowed, the id is free and the database accepts it; otherwise the table is unchanged |
| Models.DeleteOlder | database/models.go:219-227 | a delete keeps exactly the rows that do not match its read flag and age |
| Models.CleanupKeepsExactlyRetained | database/models.go:213-229 | the two deletes keep exactly the read notifications newer than 30 days and the unread ones newer than 90 |
| Models.NotificationStore.CleanupOldNotifications | database/models.go:213-229 | a failing first delete returns the error before the second is tried; with no error exactly the retained rows remain |
| Models.Other | database/models.go:187-194 | the other participant of a participant is a participant of the same pair |
| Models.SummaryChangePreserves | database/models.go:187-194 | rewriting a conversation's summary keeps the chat invariant |
| Models.InsertConversationPreserves | database/models.go:187-194 | a conversation with a fresh id for a pair with none keeps the invariant |
| Models.InsertMessagePreserves | database/models.go:196-203 | a message with a fresh id, in an existing conversation and between its participants, keeps the invariant |
| Models.MessageRewritePreserves | database/models.go:196-203 | marking seen or nulling references keeps the invariant |
| Models.FindPair | controller/user/message.go:60-70 | the conversation found is of the pair in either order, and none is found only when the pair has none |
| Models.FindId | ws/socket.go:158-162 | the conversation found has the id, and none is found only when the id is absent |
| Models.FindPairSymmetric | controller/user/message.go:60-70 | looking the pair up in either order finds the same conversation |
| Common.Flip | database/models.go:127-133 | a toggle flips the membership of exactly one key |
| Common.FlipTwice | database/models.go:136-142 | toggling twice restores the set |
| Common.TrimSpace | controller/user/job.go:653 | the trim is a window of the input with no white space at either end |
| Common.BlankIffAllSpace | controller/user/job.go:653 | a string trims to "" exactly when every character is white space |
| Common.Utf8Len | controller/user/job.go:655 | a string's byte length lies between its length and four times that, and equals its length for ASCII |
| Listings.Toggled | controller/user/job.go:447-488 | the pair flips, except that it is never added for a missing listing; other pairs stay |
| Listings.ToggleTwice | controller/user/job.go:447-488 | saving the same existing listing twice restores the bookmarks |
| Listings.Listing.Add | controller/user/job.go:564-583 | the insert succeeds exactly when the database accepts it and the key is free, adding the row posted by the caller |
| Listings.Listing.Save | controller/user/job.go:426-489 | SaveJob: 401 for an empty user; 400 for a bad body; an existing bookmark is removed; a missing job answers 400 and creates nothing; otherwise the bookmark is saved; a failing write answers 500 and changes nothing; SaveEvent (controller/user/event.go:381-430) and SaveProject (controller/user/project.go:326-375) are the same toggle without the user check |
| Listings.Listing.Delete | controller/user/job.go:491-515 | DeleteJob: 401 for an empty user; the row is deleted exactly when the delete reports no error, the row exists and the caller posted it; else 403 and no change, a database error included, since only RowsAffected is read; DeleteEvent (controller/user/event.go:432-448) and DeleteProject (controller/user/project.go:474-490) are the same owner-only delete |
| Listings.Listing.SetState | controller/user/job.go:597-640 | UpdateHiringStatus: 401, 400, 403 for a non-owner, 500 on a failed save, else only that row's is_open changes and is echoed; UpdateRegistrationStatus (controller/user/event.go:509-540, is_registration_open) and UpdateProjectStatus (controller/user/project.go:557-589, status) are the same owner-only update |
| Jobs.ValidateJobRequest | controller/user/job.go:642-684 | one entry per failing check, with its message; a blank title reports "required" rather than the length; the map is empty exactly for an acceptable request |
| Jobs.JobErrors | controller/user/job.go:651-683 | each error key is present exactly when its check failed |
| Jobs.AcceptableJobIff | controller/user/job.go:653-681 | acceptance in the terms the validator checks |
| Jobs.TenByteDescriptionAccepted | controller/user/job.go:663-665 | a 10-byte description passes although the message asks for 20 characters |
| Jobs.Contains | controller/user/job.go:686-692 | true exactly when the item occurs in the slice |
| Jobs.AddNewJob | controller/user/job.go:517-595 | 401 without a caller, 400 for a bad body, 422 exactly for an invalid request, 400 for an unknown company, 500 for a failed insert; created exactly when all pass, open and posted by the caller; otherwise nothing changes |
| Jobs.ListingDefaults | controller/user/job.go:85-86 | a page of 0 becomes 1 and a limit of 0 becomes 10; other values are kept |
| Jobs.ListingOffsetSkipsEarlierPages | controller/user/job.go:113 | the offset is non-negative, zero only on the first page, and the page ends where the next begins |
| Events.ValidateEventRequest | controller/user/event.go:543-572 | one entry per failing check; only a start strictly after the end fails; the link is checked only when given; empty exactly for an acceptable request |
| Events.EventErrors | controller/user/event.go:551-571 | each error key is present exactly when its check failed |
| Events.EndNotBeforeStart | controller/user/event.go:561-563 | an event ending before it starts is refused; a request ending no earlier than it starts is accepted exactly when the same request ending at its start instant is, so equal instants pass whenever the other fields do |
| Events.AddNewEvent | controller/user/event.go:450-506 | 400 for a bad body, 422 exactly for an invalid request, 500 for a failed insert; created exactly when all pass, with registration open and posted by the caller |
| Projects.ValidateProjectRequest | controller/user/project.go:591-633 | one entry per failing check; the year lies in [2000, currentYear + 5]; the links are checked only when present and non-empty; empty exactly for an acceptable request |
| Projects.ProjectErrors | controller/user/project.go:601-632 | each error key is present exactly when its check failed |
| Projects.AddNewProject | controller/user/project.go:492-555 | 400 exactly for a bad body, 500 on a failed insert, otherwise created; no validation |
| Posts.PostBoard.ToggleLike | controller/user/post.go:205-246 | an existing like is deleted, else one is created for an existing post; a LIKE notification is attempted only when the author is not the liker, and its failure does not fail the request |
| Posts.PostBoard.CreateComment | controller/user/post.go:248-316 | 400 for a bad body; the comment is inserted only for an existing post and a free id; a COMMENT notification is attempted only when the author is not the commenter |
| Posts.PostBoard.DeletePost | controller/user/post.go:318-345 | 404 for a missing post or a failing lookup and 403 for a non-author, 500 for a failing delete, all changing nothing; otherwise the post goes with its likes and comments, and the notifications that pointed at the post or at one of those comments lose that reference |
| Posts.CommentsOff | controller/user/post.go:338-342 | the remaining comments are exactly those on other posts |
| Posts.CommentIdsOn | database/models.go:114 | the comments the deletion cascades to are exactly those on the post |
| Posts.Detach | database/models.go:157-158 | after the deletion no notification points at the post or at a deleted comment; every other column and reference is kept |
| Posts.FeedPaging | controller/user/post.go:113-139 | the page and limit are the clamped values; the offset is (page - 1) * limit wrapped to 64 bits, exactly that product when it fits; a non-positive offset skips no row; totalPages is the ceiling of total / limit |
| Posts.FeedOffsetIsWindowStart | controller/user/post.go:123-139 | where (page - 1) * limit fits in 64 bits, the rows served start where the page's window starts |
| Posts.FeedHugePageServesFirst | controller/user/post.go:123-139 | as written, the largest page number wraps the offset to -20, no OFFSET is sent and the first posts are served |
| Paging.Wrap64 | controller/user/message.go:358 | Go's int arithmetic: unchanged in range, congruent modulo 2^64 otherwise |
| Paging.ClampPage | controller/user/message.go:352-354 | the page is at least 1: one below 1 becomes 1 and any other is kept |
| Paging.ClampLimit | controller/user/message.go:355-357 | the limit lies in 1..100: one outside becomes 10 and one inside is kept |
| Paging.TotalPages | controller/user/message.go:360 | the page count is the ceiling of total / limit |
| Paging.Window | controller/user/message.go:363-370 | a page's window never leaves the list and holds at most limit items |
| Paging.WindowNonEmptyIff | controller/user/message.go:363-370 | a window is non-empty exactly when its page starts inside the list |
| Paging.WindowsAdjacent | controller/user/message.go:363-370 | consecutive pages tile the list |
| Paging.IndexOnItsPage | controller/user/message.go:363-370 | every index lies in the window of its page |
| Paging.SuggestedWindowAsWritten | controller/user/message.go:358-371 | the window Go's int arithmetic gives lies inside the list whenever the slice expression does not panic |
| Paging.SuggestedWindowOverflows | controller/user/message.go:358-371 | as written, a huge page wraps the offset negative and the slice panics |
| Paging.SuggestedWindowWrongPage | controller/user/message.go:358-371 | as written, a wrapped offset can land inside the list: a page far past the end serves items 2..4 |
| Paging.SuggestedWindowAgrees | controller/user/message.go:358-371 | without overflow, the Go arithmetic gives exactly Window |
| Profile.Social.ToggleFollow | controller/user/profile.go:444-502 | 404 for an unknown name and 400 for oneself before any change; a failed lookup answers 500; otherwise an existing follow is deleted without a notification, or the follow and a FOLLOW notification are created together; failure rolls both back; a failing commit still answers 200 and persists nothing |
| Profile.OthersOf | controller/user/profile.go:265 | the delete keeps exactly the other users' rows |
| Profile.Own | controller/user/profile.go:270-277 | one new row per value, owned by the user |
| Profile.ValuesOfAppend | controller/user/profile.go:288-320 | the values of two tables appended are appended |
| Profile.ValuesOfOthers | controller/user/profile.go:283 | after the delete the user owns nothing and others keep their values |
| Profile.ValuesOfOwn | controller/user/profile.go:305-314 | the new rows hold exactly the user's new values |
| Profile.ReplaceAll | controller/user/profile.go:265-354 | delete-then-insert makes the user own exactly the new values, in order, and leaves every other user's rows |
| Profile.ParseExperiences | controller/user/profile.go:288-320 | rows exist exactly when every start date parses and every given end date parses; each row is built from its entry |
| Profile.ParseEducations | controller/user/profile.go:327-354 | rows exist exactly when both dates of every entry parse; each row is built from its entry |
| Profile.ProfileStore.UpdateUserProfile | controller/user/profile.go:170-362 | no form or data field or bad JSON gives 400 before any change; on success the profile is set and the user's links, experiences and educations are exactly the request's while other users' are kept; a bad date (400) or failing write (500) changes nothing |
| Admin.NewUser | controller/admin/user_management.go:55-68 | a new row keeps the given fields and is registered, unverified, not onboarded, without a user name |
| Admin.Built | controller/admin/user_management.go:55-68 | one new row per input, in order |
| Admin.BuildRows | controller/admin/user_management.go:55-68 | the build loop computes Built |
| Admin.ValidateUser | controller/admin/user_management.go:94-111 | accepts exactly the valid users, and otherwise reports the first failing check in the order full name, batch in [1995, currentYear], department, role, email |
| Admin.FirstInvalid | controller/admin/user_management.go:70-77 | finds the first invalid row, with its 1-based position and message, or none when all pass |
| Admin.WithAdded | controller/admin/user_management.go:79-85 | after the batch insert the table's ids are the old ids plus one fresh id per new row |
| Admin.WithAddedValues | controller/admin/user_management.go:79-85 | with fresh ids, every old row is kept unchanged and each new row is stored under its own fresh id |
| Admin.NewIdsExact | controller/admin/user_management.go:79-85 | the only ids the batch adds are those it gives to its rows |
| Admin.AddedKeepsEmailsUnique | controller/admin/user_management.go:79-85 | an insertable batch keeps the email column unique |
| Admin.AddUsers | controller/admin/user_management.go:39-92 | a bad body gives 400; any invalid user gives 400, its position and message, and creates nobody; an empty array gives 500, since gorm refuses an empty batch; otherwise all users are created, or, when the insert fails, none and 500 |
| Admin.Promoted | controller/admin/user_management.go:133-143 | the promotion keeps every key |
| Admin.PromotedMeaning | controller/admin/user_management.go:134-136 | no student is left in the batch, other rows are untouched, promoted rows change only in role, and promoting twice is promoting once |
| Admin.PromoteBatchToAlumni | controller/admin/user_management.go:113-149 | 400 exactly for a bad body or a batch outside [1995, currentYear - 3]; 500 exactly when the update of a valid batch fails; otherwise the batch's students become alumni |
| Admin.RoleAfter | controller/admin/user_management.go:255-270 | an action applies exactly to a student being promoted or an alumnus being demoted |
| Admin.PromoteThenDemote | controller/admin/user_management.go:255-270 | promotion and demotion undo each other |
| Admin.PerformUserAction | controller/admin/user_management.go:228-302 | 400 for an empty id or bad body, 404 for an unknown user; promote and demote change only the role where it applies, else 400; remove needs a reason and deletes the user; any other action gives 400; a failing save gives 500 |
| Registration.Decision | controller/register.go:94-109 | exactly "approve" and "reject" are decisions, and neither leads back to pending |
| Registration.WithStatus | controller/register.go:50-54 | only the chosen user's registration status changes |
| Registration.RegisterRequest | controller/register.go:29-59 | 400 for a bad body; otherwise 201, the request is stored when the insert succeeds, and the user with that email becomes pending unless the save fails |
| Registration.HandleRegistrationAction | controller/register.go:66-116 | 400, or 404 for a missing request or user, change nothing; approve registers and reject rejects the user and the request is deleted; any other action gives 400 with no change |
| Registration.EmailPicksOneUser | controller/register.go:50-54 | with unique emails the user an email picks is determined |
| Registration.RequestsPage | controller/register.go:119-136 | 400 exactly when the page does not parse or is below 1, then the same for the limit; values are otherwise kept |
| Registration.RequestsPageSkipsEarlierPages | controller/register.go:136 | the offset is non-negative, zero only on page 1, and the page ends where the next begins |
| Utils.OtpByte | util/utils.go:79 | each byte becomes '0' plus the byte modulo 10, always a digit code |
| Utils.OtpDigit | util/utils.go:79-81 | each character is a decimal digit with value byte modulo 10 |
| Utils.GenerateOtp | util/utils.go:72-82 | a failing read gives "" and an error; otherwise exactly six characters, character k being the digit of random byte k |
| Utils.GenerateToken | util/utils.go:24-50 | a result exactly when both tokens sign; it maps exactly access_token and refresh_token to the two signatures |
| Utils.AccessClaims | util/utils.go:26-31 | the access claims name the user, have type "access" and expire a day after the clock reading |
| Utils.RefreshClaims | util/utils.go:36-41 | the refresh claims name the user, have type "refresh" and expire seven days after the clock reading |
| Utils.TokensDiffer | util/utils.go:26-45 | both claims name the user; their types differ; the refresh token outlives the access token by at least six days |

## Left out

- WebSocket transport: the upgrade middleware, read deadlines, the pong handler and `pingRoutine` (ws/socket.go:47-56, 79-85, 246-255). These are timers and socket I/O for the ping/pong of section 5.5.2 of RFC 6455. Writes are outbox appends and reads are a given list of frames.
- Concurrency: the registry mutex and the `go` send per connection in `broadcastOnlineUsers`. Each registry operation is one atomic sequential method, and the sends are modelled in order.
- Map iteration order: `broadcastOnlineUsers` ranges over the map twice. The model picks each order by `:|`, so the two loops need not agree, as in Go.
- Registry.Hub.SendAll: a failing write is only logged in the source, so every write is modelled as an attempted delivery.
- SQL query construction: joins, LIKE/ILIKE filters and `DISTINCT ON` in GetSuggestedUsers' recent-conversations query (its result is a parameter), ordering clauses, the analytics handlers, controller/user/connect.go and GetSearchMatchUsers.
- Messaging.GetSuggestedUsers: the order of rand.Shuffle is not modelled. The shuffle is a Fisher-Yates over a given random source, and only that it is a permutation is stated and used.
- Messaging.GetSuggestedUsers: the answer lists the rows the details query returns, in the database's order and only for ids that have a user row; the model answers with the page's ids. The `LIMIT 10` of the two queries is not applied: `following` and `recent` are their results.
- Messaging.VisibleTo and Messaging.ConversationsOf: the queries have no ORDER BY, so the database promises no order. The model returns the rows in table order.
- Messaging.ClearConversation: nulling `sender_id` also changes what the other participant sees. Their view of the caller's messages shows the sender id "" afterwards (Messaging.HiddenView, Messaging.ClearErasesSenderForOther), and lastMessageSenderId in their conversation list changes the same way. This is how the source hides messages, and it is modelled as written.
- Socket.StringField: encoding/json prefers a field whose name equals the key exactly over one that only folds equal. No decoded struct here has two field names that fold equal, so the preference never changes the result, and the model matches by folding only.
- Listing handlers (GetJobs, GetEvents, GetProjects, GetPosts and the other read-only list endpoints): only their page/limit defaults and offset are modelled. Their filters and joins are SQL.
- Jobs.ListingDefaults, Registration.RequestsPage: the offset `(page - 1) * limit` is on unbounded integers. Go's int64 could wrap for huge values; gorm then drops a negative offset, so no panic follows.
- The Go `int` width elsewhere: batch years, project years and event instants are unbounded integers.
- Filesystem work: uploads and deletes of images, resumes and logos.
- Authentication: controller/auth.go, the JWT middleware, bcrypt, token verification, email sending and `RenderTemplate`. The caller's id is a parameter, and signing is the `sign` parameter of Utils.GenerateToken.
- Wall clock: `time.Now` is a parameter (`now`, `clock1`/`clock2`, `currentYear`). RFC 3339 parsing is the `parseTime` parameter, and uuid.Parse and url.ParseRequestURI are `isUuid` and `isRequestUri`.
- Response shaping: JSON bodies, user names and images joined into the conversation and suggestion lists, and error texts other than the validators' messages.
- Thin glue: controller/user/notification.go, main.go, the configuration files, the route tables and the unused legacy db/models.go.
- Admin.GetUsers (controller/admin/user_management.go:151-226) is a filtered listing built from SQL and is not part of this model.
- Admin.PerformUserAction: after "remove" the source calls Save on the deleted user. The model takes the row as deleted and answers 500 only when that save fails. Some gorm versions follow an UPDATE that affects no row with an INSERT, which would put the same row back; the gorm version is not part of this model.
- Registration.RegisterRequest: register.go assigns the request body's string Batch to the `RegisterRequest` row's int `Batch` (controller/register.go:43, database/models.go:22), which does not type-check in Go as written. The model carries an int batch.
- Admin.PerformUserAction: removing a user cascades (ON DELETE CASCADE) to every table that references the user, such as profiles, posts, comments, likes, follows, notifications, conversations and messages (database/models.go:33, 61, 72, 85, 97, 113, 123, 131, 140-141, 155-156). The model deletes only the user row.
- Lookups whose error is answered as not found: the conversation lookup of Messaging.GetMessages (404, controller/user/message.go:153-160) and of Messaging.ClearConversation (400, message.go:510-517), the target lookup of Profile.Social.ToggleFollow (404, controller/user/profile.go:452-454), the RowsAffected checks of Registration.HandleRegistrationAction (404, controller/register.go:79-92), and the existence lookups of Listings.Listing.Save and Jobs.AddNewJob (controller/user/job.go:555-560). A database error there takes the same exit as a missing row, so the model needs no separate parameter for it.
- Socket.HandleMessageSeen: the acting user is the payload's userId, as in the source, not the connection's id.
- Profile.ProfileStore.UpdateUserProfile: `dbFails` stands for a failure of the writes made before any date is parsed (the profile, the social links, the deletes); a later insert failing after some entries were written is folded into it, and so is not told apart from a bad date that follows it. The profile row's skills and interests are kept as lists rather than marshalled JSON; the profile image is managed by a separate endpoint and not modelled.
- Messaging.ClearConversation: its four statements are independent and their errors are ignored, because the source opens no transaction; each failure is the `failing` parameter.

## Findings

| source | as written | input that shows it | evidently intended | confidence | as-written member | corrected member |
|---|---|---|---|---|---|---|
| controller/user/message.go:358-371 | `offset := (page - 1) * limit` and `end := offset + limit` are computed in Go's 64-bit `int` before clamping | page=922337203685477582, limit=10: the offset wraps negative and `uniqueIDs[start:end]` panics | each page is the window [(page-1)*limit, page*limit) clamped to the list | not executed | Paging.SuggestedWindowOverflows | Paging.Window |
| controller/user/message.go:358-371 | the same 64-bit `(page - 1) * limit` | page=6148914691236517207, limit=3, 10 ids: the offset wraps to 2 and items 2..4 are served | a page past the end is empty | not executed | Paging.SuggestedWindowWrongPage | Paging.Window |
| controller/user/post.go:123-139 | `offset := (page - 1) * limit` in Go's 64-bit `int`, and gorm sends no OFFSET when it is not positive | page=9223372036854775807, limit=10: the offset wraps to -20 and the first ten posts are served | a page past the end is empty | not executed | Posts.FeedHugePageServesFirst | Paging.Window |
