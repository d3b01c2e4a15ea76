/** The conversation/message coordinator of the REST API: sending a message
    (resolve or create the conversation, insert, update the summary, push),
    what a participant sees of messages and conversations, the suggested
    contacts, and clearing a conversation for one participant. */
module Messaging {
  import opened Common
  import opened Models
  import opened Registry
  import opened Paging

  // ---------------------------------------------------------------------------
  // SendMessage

  /** The request body: `recipientId` and `content`. */
  datatype MessageData = MessageData(recipientId: Id, content: string)

  /** Which statement of the transaction reports an error, if any. */
  datatype SendFault = NoFault | ConversationInsertFails | MessageInsertFails | SummaryUpdateFails

  /** The response body: id, seen, senderId, text, createdAt. */
  datatype MessageView = MessageView(id: Id, seen: bool, senderId: Id, text: string, createdAt: int)

  /** The tables a committed SendMessage transaction leaves, and the new message. */
  datatype Committed = Committed(conversations: seq<Conversation>, messages: seq<Message>, message: Message)

  /** A conversation as inserted by SendMessage: participant1 is the sender;
      the summary columns hold Go's zero values. */
  function NewConversation(id: Id, sender: Id, recipient: Id): Conversation {
    Conversation(id, sender, recipient, "", Some(""), Some(""), false)
  }

  /** The transaction of SendMessage as one function of the tables: find the
      conversation of the pair in either order or insert a new one, insert the
      message to the other participant, point the summary at it. A fault or a
      primary key already in use aborts the whole transaction (None). */
  function SendTx(convs: seq<Conversation>, msgs: seq<Message>, sender: Id, recipient: Id, text: string,
                  convId: Id, msgId: Id, now: int, fault: SendFault): (r: Option<Committed>)
    ensures fault == MessageInsertFails || fault == SummaryUpdateFails ==> r.None?
    ensures fault == ConversationInsertFails && FindPair(convs, sender, recipient).None? ==> r.None?
    ensures r.Some? ==> r.value.messages == msgs + [r.value.message]
  {
    var found := FindPair(convs, sender, recipient);
    if found.None? && (convId in ConversationIds(convs) || fault == ConversationInsertFails) then None
    else
      var convs1 := if found.None? then convs + [NewConversation(convId, sender, recipient)] else convs;
      var i := if found.None? then |convs| else found.value;
      var c := convs1[i];
      var receiver := Other(c, sender);
      var m := Message(msgId, c.id, Some(sender), Some(receiver), text, false, now);
      if msgId in MessageIds(msgs) || fault == MessageInsertFails || fault == SummaryUpdateFails then None
      else
        Some(Committed(convs1[i := c.(lastMessage := text, lastSender := Some(sender), lastReceiver := Some(receiver))],
                       msgs + [m], m))
  }

  /** In consistent tables the conversation of a pair is the only one, so the
      lookup finds exactly it. */
  lemma FindPairUnique(convs: seq<Conversation>, msgs: seq<Message>, a: Id, b: Id, i: nat)
    requires ChatConsistent(convs, msgs)
    requires i < |convs| && SamePair(convs[i], a, b)
    ensures FindPair(convs, a, b) == Some(i)
  {
    forall k | 0 <= k < i ensures !SamePair(convs[k], a, b) {
      assert !SamePair(convs[i], convs[k].participant1, convs[k].participant2);
    }
  }

  /** The new message goes from the sender to the recipient, unseen, with the
      content as text, in the conversation of the pair; and that conversation's
      summary is now this message. An existing conversation is reused; a new
      one is inserted only when the pair had none. */
  lemma SendTxEffect(convs: seq<Conversation>, msgs: seq<Message>, sender: Id, recipient: Id, text: string,
                     convId: Id, msgId: Id, now: int, fault: SendFault)
    requires SendTx(convs, msgs, sender, recipient, text, convId, msgId, now, fault).Some?
    ensures var r := SendTx(convs, msgs, sender, recipient, text, convId, msgId, now, fault).value;
            && r.message.sender == Some(sender) && r.message.receiver == Some(recipient)
            && !r.message.seen && r.message.text == text && r.message.id == msgId
            && exists i :: 0 <= i < |r.conversations| && r.conversations[i].id == r.message.conversationId
                           && SamePair(r.conversations[i], sender, recipient)
                           && r.conversations[i].lastMessage == text
                           && r.conversations[i].lastSender == Some(sender)
                           && r.conversations[i].lastReceiver == Some(recipient)
    ensures var r := SendTx(convs, msgs, sender, recipient, text, convId, msgId, now, fault).value;
            if FindPair(convs, sender, recipient).None?
            then |r.conversations| == |convs| + 1 && r.conversations[..|convs|] == convs
                 && r.message.conversationId == convId
            else |r.conversations| == |convs|
                 && r.message.conversationId == convs[FindPair(convs, sender, recipient).value].id
  {
    var found := FindPair(convs, sender, recipient);
    var convs1 := if found.None? then convs + [NewConversation(convId, sender, recipient)] else convs;
    var i := if found.None? then |convs| else found.value;
    var r := SendTx(convs, msgs, sender, recipient, text, convId, msgId, now, fault).value;
    assert r.conversations[i].id == r.message.conversationId;
    if found.None? {
      assert r.conversations[..|convs|] == convs;
    }
  }

  /** A committed send keeps the chat tables consistent: still one conversation
      per pair, and the message's participants are those of its conversation. */
  lemma SendTxPreserves(convs: seq<Conversation>, msgs: seq<Message>, sender: Id, recipient: Id, text: string,
                        convId: Id, msgId: Id, now: int, fault: SendFault)
    requires ChatConsistent(convs, msgs)
    requires SendTx(convs, msgs, sender, recipient, text, convId, msgId, now, fault).Some?
    ensures var r := SendTx(convs, msgs, sender, recipient, text, convId, msgId, now, fault).value;
            ChatConsistent(r.conversations, r.messages)
  {
    var found := FindPair(convs, sender, recipient);
    var convs1 := if found.None? then convs + [NewConversation(convId, sender, recipient)] else convs;
    var i := if found.None? then |convs| else found.value;
    if found.None? {
      InsertConversationPreserves(convs, msgs, NewConversation(convId, sender, recipient));
    }
    var c := convs1[i];
    var c' := c.(lastMessage := text, lastSender := Some(sender), lastReceiver := Some(Other(c, sender)));
    SummaryChangePreserves(convs1, msgs, i, c');
    var m := Message(msgId, c.id, Some(sender), Some(Other(c, sender)), text, false, now);
    InsertMessagePreserves(convs1[i := c'], msgs, m, i);
  }

  /** Sends A -> B and then B -> A land in the same conversation. */
  lemma ReplySharesConversation(convs: seq<Conversation>, msgs: seq<Message>, a: Id, b: Id,
                                text1: string, convId1: Id, msgId1: Id, now1: int,
                                text2: string, convId2: Id, msgId2: Id, now2: int)
    requires ChatConsistent(convs, msgs)
    requires SendTx(convs, msgs, a, b, text1, convId1, msgId1, now1, NoFault).Some?
    requires var r1 := SendTx(convs, msgs, a, b, text1, convId1, msgId1, now1, NoFault).value;
             SendTx(r1.conversations, r1.messages, b, a, text2, convId2, msgId2, now2, NoFault).Some?
    ensures var r1 := SendTx(convs, msgs, a, b, text1, convId1, msgId1, now1, NoFault).value;
            var r2 := SendTx(r1.conversations, r1.messages, b, a, text2, convId2, msgId2, now2, NoFault).value;
            r2.message.conversationId == r1.message.conversationId
            && |r2.conversations| == |r1.conversations|
  {
    var r1 := SendTx(convs, msgs, a, b, text1, convId1, msgId1, now1, NoFault).value;
    SendTxEffect(convs, msgs, a, b, text1, convId1, msgId1, now1, NoFault);
    SendTxPreserves(convs, msgs, a, b, text1, convId1, msgId1, now1, NoFault);
    var i :| 0 <= i < |r1.conversations| && r1.conversations[i].id == r1.message.conversationId
             && SamePair(r1.conversations[i], a, b);
    FindPairUnique(r1.conversations, r1.messages, b, a, i);
    SendTxEffect(r1.conversations, r1.messages, b, a, text2, convId2, msgId2, now2, NoFault);
  }

  /** SendMessage for the authenticated user `caller`; `body` is None when the
      body does not parse. `convId`, `msgId` and `now` are what the creation
      hooks draw. After a commit the recipient, if connected, is pushed the
      message; a failed push does not change the answer. */
  method SendMessage(hub: Hub, store: ChatStore, caller: Id, body: Option<MessageData>,
                     convId: Id, msgId: Id, now: int, fault: SendFault)
    returns (status: Status, response: Option<MessageView>)
    requires store.Valid()
    modifies hub, store
    ensures store.Valid() && store.users == old(store.users)
    ensures hub.connected == old(hub.connected) && hub.closed == old(hub.closed)
    ensures caller !in old(store.users) ==> status == InternalServerError
    ensures caller in old(store.users) && body.None? ==> status == BadRequest
    ensures status != OK ==>
              (response.None? && hub.outbox == old(hub.outbox)
               && store.conversations == old(store.conversations) && store.messages == old(store.messages))
    ensures caller in old(store.users) && body.Some? ==>
              var tx := SendTx(old(store.conversations), old(store.messages), caller, body.value.recipientId,
                               body.value.content, convId, msgId, now, fault);
              if tx.None? then status == InternalServerError
              else
                && status == OK
                && store.conversations == tx.value.conversations && store.messages == tx.value.messages
                && response == Some(MessageView(msgId, false, caller, body.value.content, now))
                && hub.outbox == old(hub.outbox)
                     + (if body.value.recipientId in hub.connected
                        then [Delivery(hub.connected[body.value.recipientId],
                                       NewMessage(msgId, false, caller, body.value.content, now,
                                                  tx.value.message.conversationId))]
                        else [])
  {
    response := None;
    if caller !in store.users {
      return InternalServerError, None;
    }
    if body.None? {
      return BadRequest, None;
    }
    var data := body.value;
    var tx := SendTransaction(store.conversations, store.messages, caller, data.recipientId, data.content,
                              convId, msgId, now, fault);
    if tx.None? {
      return InternalServerError, None;
    }
    // commit
    SendTxPreserves(store.conversations, store.messages, caller, data.recipientId, data.content,
                    convId, msgId, now, fault);
    var message := tx.value.message;
    store.conversations, store.messages := tx.value.conversations, tx.value.messages;
    status := OK;
    response := Some(MessageView(message.id, message.seen, caller, message.text, message.createdAt));

    var h := hub.GetSocket(data.recipientId);
    if h.Some? {
      hub.Send(h.value, NewMessage(message.id, message.seen, caller, message.text, message.createdAt,
                                   message.conversationId));
    }
  }

  /** The statements of SendMessage's transaction, on copies of the tables:
      look the pair up, insert a conversation if there is none, build the
      message to the participant that is not the sender, insert it, and update
      the summary. */
  method SendTransaction(convs0: seq<Conversation>, msgs: seq<Message>, sender: Id, recipient: Id,
                         text: string, convId: Id, msgId: Id, now: int, fault: SendFault)
    returns (r: Option<Committed>)
    ensures r == SendTx(convs0, msgs, sender, recipient, text, convId, msgId, now, fault)
  {
    var convs := convs0;
    var found := FindPair(convs, sender, recipient);
    var i: nat;
    if found.None? {
      if convId in ConversationIds(convs) || fault == ConversationInsertFails {
        return None;
      }
      convs := convs + [NewConversation(convId, sender, recipient)];
      i := |convs| - 1;
    } else {
      i := found.value;
    }
    var conversation := convs[i];
    var receiver := conversation.participant1;
    if sender == conversation.participant1 {
      receiver := conversation.participant2;
    }
    var message := Message(msgId, conversation.id, Some(sender), Some(receiver), text, false, now);
    if msgId in MessageIds(msgs) || fault == MessageInsertFails {
      return None;
    }
    if fault == SummaryUpdateFails {
      return None;
    }
    convs := convs[i := conversation.(lastMessage := message.text, lastSender := message.sender,
                                      lastReceiver := message.receiver)];
    r := Some(Committed(convs, msgs + [message], message));
  }

  // ---------------------------------------------------------------------------
  // GetMessages

  /** The caller still appears on the message as its sender or its receiver. */
  predicate Involves(m: Message, u: Id) {
    m.sender == Some(u) || m.receiver == Some(u)
  }

  /** `WHERE conversation_id = convId AND (sender_id = u OR receiver_id = u)`. The
      query has no ORDER BY, so the database promises no order; the model keeps table order. */
  function VisibleTo(msgs: seq<Message>, convId: Id, u: Id): (r: seq<Message>)
  {
    if msgs == [] then []
    else
      var init := VisibleTo(msgs[..|msgs| - 1], convId, u);
      var last := msgs[|msgs| - 1];
      if last.conversationId == convId && Involves(last, u) then init + [last] else init
  }

  /** Exactly the conversation's messages that still name `u` are visible to `u`. */
  lemma {:induction false} VisibleToMembers(msgs: seq<Message>, convId: Id, u: Id)
    ensures forall m :: m in VisibleTo(msgs, convId, u) <==> m in msgs && m.conversationId == convId && Involves(m, u)
  {
    if msgs != [] {
      var init := msgs[..|msgs| - 1];
      VisibleToMembers(init, convId, u);
      assert msgs == init + [msgs[|msgs| - 1]];
    }
  }

  /** A row of the answer; a NULLed sender reads as "". */
  function ViewOf(m: Message): MessageView {
    MessageView(m.id, m.seen, ColumnValue(m.sender), m.text, m.createdAt)
  }

  /** GetMessages(otherUserId) for `caller`: 500 for an unknown caller, 404 when
      the pair has no conversation, 500 when the message query reports an error
      (`findFails`), otherwise the caller's visible messages of it. */
  method GetMessages(store: ChatStore, caller: Id, otherUserId: Id, findFails: bool)
    returns (status: Status, views: seq<MessageView>)
    ensures caller !in store.users ==> status == InternalServerError && views == []
    ensures caller in store.users && FindPair(store.conversations, caller, otherUserId).None?
            ==> status == NotFound && views == []
    ensures caller in store.users && FindPair(store.conversations, caller, otherUserId).Some? && findFails
            ==> status == InternalServerError && views == []
    ensures caller in store.users && FindPair(store.conversations, caller, otherUserId).Some? && !findFails ==>
              var rows := VisibleTo(store.messages, store.conversations[FindPair(store.conversations, caller, otherUserId).value].id, caller);
              status == OK && |views| == |rows| && forall k :: 0 <= k < |rows| ==> views[k] == ViewOf(rows[k])
  {
    if caller !in store.users {
      return InternalServerError, [];
    }
    var found := FindPair(store.conversations, caller, otherUserId);
    if found.None? {
      return NotFound, [];
    }
    if findFails {
      return InternalServerError, [];
    }
    var rows := VisibleTo(store.messages, store.conversations[found.value].id, caller);
    views := [];
    for k := 0 to |rows|
      invariant |views| == k
      invariant forall j :: 0 <= j < k ==> views[j] == ViewOf(rows[j])
    {
      views := views + [ViewOf(rows[k])];
    }
    status := OK;
  }

  // ---------------------------------------------------------------------------
  // GetConversations

  /** A row of the conversation list (participant names and images left out). */
  datatype ConversationView = ConversationView(
    id: Id, participant1: Id, participant2: Id, lastMessage: string,
    lastSenderId: Id, lastReceiverId: Id, lastSeen: bool)

  /** The last message is shown only to the user that still appears as its
      receiver or its sender. */
  function MaskedLast(c: Conversation, u: Id): (text: string)
    ensures ColumnValue(c.lastSender) == u || ColumnValue(c.lastReceiver) == u ==> text == c.lastMessage
    ensures ColumnValue(c.lastSender) != u && ColumnValue(c.lastReceiver) != u ==> text == ""
  {
    if ColumnValue(c.lastReceiver) == u || ColumnValue(c.lastSender) == u then c.lastMessage else ""
  }

  function ConversationViewOf(c: Conversation, u: Id): ConversationView {
    ConversationView(c.id, c.participant1, c.participant2, MaskedLast(c, u),
                     ColumnValue(c.lastSender), ColumnValue(c.lastReceiver), c.lastSeen)
  }

  /** `WHERE participant1_id = u OR participant2_id = u`. No ORDER BY: the model
      keeps table order, the database promises none. */
  function ConversationsOf(convs: seq<Conversation>, u: Id): (r: seq<Conversation>)
    ensures forall c :: c in r <==> c in convs && IsParticipant(c, u)
  {
    if convs == [] then []
    else
      var init := ConversationsOf(convs[..|convs| - 1], u);
      var last := convs[|convs| - 1];
      assert convs == convs[..|convs| - 1] + [last];
      if IsParticipant(last, u) then init + [last] else init
  }

  /** GetConversations: every conversation of the caller, each with the last
      message masked for the caller. `listFails` and `detailsFails` stand for an
      error from the conversation query and from the participant-details query;
      the second query runs only when some conversation was found. */
  method GetConversations(store: ChatStore, caller: Id, listFails: bool, detailsFails: bool)
    returns (status: Status, views: seq<ConversationView>)
    ensures listFails ==> status == InternalServerError && views == []
    ensures !listFails && detailsFails && ConversationsOf(store.conversations, caller) != []
            ==> status == InternalServerError && views == []
    ensures !listFails && (!detailsFails || ConversationsOf(store.conversations, caller) == []) ==>
            var rows := ConversationsOf(store.conversations, caller);
            status == OK && |views| == |rows| && forall k :: 0 <= k < |rows| ==> views[k] == ConversationViewOf(rows[k], caller)
  {
    if listFails {
      return InternalServerError, [];
    }
    var rows := ConversationsOf(store.conversations, caller);
    if detailsFails && rows != [] {
      return InternalServerError, [];
    }
    views := [];
    for k := 0 to |rows|
      invariant |views| == k
      invariant forall j :: 0 <= j < k ==> views[j] == ConversationViewOf(rows[j], caller)
    {
      views := views + [ConversationViewOf(rows[k], caller)];
    }
    status := OK;
  }

  // ---------------------------------------------------------------------------
  // GetSuggestedUsers

  /** The ids in order of first occurrence, each once, without `u`. */
  function Unique(ids: seq<Id>, u: Id): (r: seq<Id>)
    ensures |r| <= |ids|
  {
    if ids == [] then []
    else
      var init := Unique(ids[..|ids| - 1], u);
      var x := ids[|ids| - 1];
      if x != u && x !in Elems(init) then init + [x] else init
  }

  /** Unique lists every id but `u` exactly once. */
  lemma {:induction false} UniqueExact(ids: seq<Id>, u: Id)
    ensures NoDup(Unique(ids, u))
    ensures Elems(Unique(ids, u)) == Elems(ids) - {u}
  {
    if ids != [] {
      var init := ids[..|ids| - 1];
      var x := ids[|ids| - 1];
      UniqueExact(init, u);
      assert ids == init + [x];
      assert Elems(ids) == Elems(init) + {x};
      var r := Unique(init, u);
      if x != u && x !in Elems(r) {
        AppendFresh(r, x);
      }
    }
  }

  /** Later ids never disturb what earlier ones produced: the result for a
      prefix of the input is a prefix of the result. */
  lemma {:induction false} UniquePrefix(ids: seq<Id>, u: Id, k: nat)
    requires k <= |ids|
    ensures Unique(ids[..k], u) <= Unique(ids, u)
    decreases |ids|
  {
    if k < |ids| {
      var init := ids[..|ids| - 1];
      assert ids[..k] == init[..k];
      UniquePrefix(init, u, k);
    } else {
      assert ids[..k] == ids;
    }
  }

  /** The first occurrence of an id decides its place: it comes right after
      what the ids before it produced. */
  lemma UniqueFirstOccurrence(ids: seq<Id>, u: Id, k: nat)
    requires k < |ids| && ids[k] != u && ids[k] !in Elems(ids[..k])
    ensures |Unique(ids[..k], u)| < |Unique(ids, u)|
    ensures Unique(ids, u)[|Unique(ids[..k], u)|] == ids[k]
  {
    UniqueExact(ids[..k], u);
    assert ids[..k + 1][..k] == ids[..k];
    assert Unique(ids[..k + 1], u) == Unique(ids[..k], u) + [ids[k]];
    UniquePrefix(ids, u, k + 1);
  }

  /** `for _, conv := range conversations`: the participant that is not the caller. */
  method OtherParticipants(recent: seq<Conversation>, caller: Id) returns (ids: seq<Id>)
    ensures |ids| == |recent| && forall k :: 0 <= k < |recent| ==> ids[k] == Other(recent[k], caller)
  {
    ids := [];
    for k := 0 to |recent|
      invariant |ids| == k && forall j :: 0 <= j < k ==> ids[j] == Other(recent[j], caller)
    {
      ids := ids + [Other(recent[k], caller)];
    }
  }

  /** The combine/deduplicate loop with its `seen` set. */
  method Deduplicate(all: seq<Id>, caller: Id) returns (unique: seq<Id>)
    ensures unique == Unique(all, caller)
  {
    unique := [];
    var seen: set<Id> := {};
    for k := 0 to |all|
      invariant unique == Unique(all[..k], caller)
      invariant seen == Elems(unique)
    {
      assert all[..k + 1][..k] == all[..k];
      if all[k] != caller && all[k] !in seen {
        seen := seen + {all[k]};
        unique := unique + [all[k]];
      }
    }
    assert all[..|all|] == all;
  }

  /** rand.Shuffle as Fisher-Yates: position i (from the end down to 1) swaps
      with `rnd(i) % (i + 1)`. */
  method Shuffle(a: array<Id>, rnd: nat -> nat)
    modifies a
    ensures multiset(a[..]) == multiset(old(a[..]))
  {
    var i := a.Length - 1;
    while i > 0
      invariant -1 <= i < a.Length || a.Length == 0
      invariant multiset(a[..]) == multiset(old(a[..]))
    {
      var j := rnd(i) % (i + 1);
      a[i], a[j] := a[j], a[i];
      i := i - 1;
    }
  }

  /** A sequence whose distinct elements are as many as its length has no duplicate. */
  lemma {:induction false} CardNoDup(s: seq<Id>)
    requires |Elems(s)| == |s|
    ensures NoDup(s)
  {
    if s != [] {
      var init := s[..|s| - 1];
      var x := s[|s| - 1];
      assert s == init + [x];
      assert Elems(s) == Elems(init) + {x};
      ElemsCard(init);
      assert x !in Elems(init);
      CardNoDup(init);
    }
  }

  lemma {:induction false} ElemsCard(s: seq<Id>)
    ensures |Elems(s)| <= |s|
  {
    if s != [] {
      var init := s[..|s| - 1];
      assert s == init + [s[|s| - 1]];
      assert Elems(s) == Elems(init) + {s[|s| - 1]};
      ElemsCard(init);
    }
  }

  /** A permutation of a duplicate-free sequence is duplicate-free, with the same elements. */
  lemma PermutationKeepsUnique(s: seq<Id>, t: seq<Id>)
    requires NoDup(s) && multiset(s) == multiset(t)
    ensures NoDup(t) && Elems(t) == Elems(s) && |t| == |s|
  {
    assert |t| == |multiset(t)| == |multiset(s)| == |s|;
    assert forall x :: x in Elems(t) <==> x in multiset(t);
    assert forall x :: x in Elems(s) <==> x in multiset(s);
    assert Elems(t) == Elems(s);
    NoDupCard(s);
    CardNoDup(t);
  }

  /** The page of suggestions and its metadata. */
  datatype Suggestions = Suggestions(ids: seq<Id>, page: int, limit: int, totalPages: nat, totalItems: nat)

  /** Which of the three queries reports an error, if any. */
  datatype SuggestFault = NoSuggestFault | FollowingFails | RecentFails | DetailsFails

  /** How the handler ends: a page, a 500 from a failed query, or a panic in the
      slice expression. */
  datatype SuggestOutcome = Served(suggestions: Suggestions) | QueryFailed | Panics

  /** GetSuggestedUsers: `following` are the ids the caller follows and
      `recent` the caller's recent conversations, as the two queries return
      them; `page`/`limit` are the values strconv.Atoi produced. The page window
      is the one Go's 64-bit arithmetic computes. */
  method GetSuggestedUsers(following: seq<Id>, recent: seq<Conversation>, caller: Id,
                           page: Int64, limit: Int64, rnd: nat -> nat, fault: SuggestFault)
    returns (out: SuggestOutcome, ghost shuffled: seq<Id>)
    ensures fault == FollowingFails || fault == RecentFails ==> out == QueryFailed
    ensures fault != FollowingFails && fault != RecentFails ==>
            var all := following + seq(|recent|, k requires 0 <= k < |recent| => Other(recent[k], caller));
            NoDup(shuffled) && Elems(shuffled) == Elems(all) - {caller} && |shuffled| == |Unique(all, caller)|
    ensures fault != FollowingFails && fault != RecentFails ==>
            match SuggestedWindowAsWritten(page, limit, |shuffled|)
            case None => out == Panics
            case Some(w) =>
              if fault == DetailsFails && w.0 < w.1 then out == QueryFailed
              else out == Served(Suggestions(shuffled[w.0..w.1], ClampPage(page), ClampLimit(limit),
                                             TotalPages(|shuffled|, ClampLimit(limit)), |shuffled|))
    ensures fault != FollowingFails && fault != RecentFails && ClampPage(page) * ClampLimit(limit) <= MaxInt64 ==>
            out != Panics
            && (out.Served? ==> var w := Window(ClampPage(page), ClampLimit(limit), |shuffled|);
                                out.suggestions.ids == shuffled[w.0..w.1])
  {
    shuffled := [];
    if fault == FollowingFails || fault == RecentFails {
      return QueryFailed, shuffled;
    }
    var participants := OtherParticipants(recent, caller);
    ghost var all := following + seq(|recent|, k requires 0 <= k < |recent| => Other(recent[k], caller));
    assert following + participants == all;
    var unique := Deduplicate(following + participants, caller);
    UniqueExact(all, caller);

    var arr := new Id[|unique|](k requires 0 <= k < |unique| => unique[k]);
    assert arr[..] == unique;
    Shuffle(arr, rnd);
    shuffled := arr[..];
    PermutationKeepsUnique(unique, shuffled);

    var total := arr.Length;
    if ClampPage(page) * ClampLimit(limit) <= MaxInt64 {
      SuggestedWindowAgrees(page, limit, total);
    }
    var window := SuggestedWindowAsWritten(page, limit, total);
    if window.None? {
      return Panics, shuffled;
    }
    var w := window.value;
    if fault == DetailsFails && w.0 < w.1 {
      return QueryFailed, shuffled;
    }
    var l := ClampLimit(limit);
    out := Served(Suggestions(arr[w.0..w.1], ClampPage(page), l, TotalPages(total, l), total));
  }

  /** Every suggestion is on exactly one page: the pages tile the shuffled list. */
  lemma SuggestionOnItsPage(shuffled: seq<Id>, limit: int, k: nat)
    requires 1 <= limit && k < |shuffled|
    ensures var w := Window(k / limit + 1, limit, |shuffled|);
            w.0 <= k < w.1 && shuffled[k] in shuffled[w.0..w.1]
  {
    IndexOnItsPage(k, limit, |shuffled|);
    var w := Window(k / limit + 1, limit, |shuffled|);
    assert shuffled[w.0..w.1][k - w.0] == shuffled[k];
  }

  // ---------------------------------------------------------------------------
  // ClearConversation

  /** Which of the caller's references an UPDATE nulls. */
  datatype Side = AsReceiver | AsSender

  /** `UPDATE messages SET receiver_id (or sender_id) = NULL WHERE conversation_id =
      convId AND receiver_id (sender_id) = u`. */
  function Hidden(m: Message, convId: Id, u: Id, side: Side): Message {
    if m.conversationId != convId then m
    else match side
      case AsReceiver => if m.receiver == Some(u) then m.(receiver := None) else m
      case AsSender => if m.sender == Some(u) then m.(sender := None) else m
  }

  function HideAll(msgs: seq<Message>, convId: Id, u: Id, side: Side): (r: seq<Message>)
    ensures |r| == |msgs| && forall i :: 0 <= i < |msgs| ==> r[i] == Hidden(msgs[i], convId, u, side)
  {
    seq(|msgs|, i requires 0 <= i < |msgs| => Hidden(msgs[i], convId, u, side))
  }

  /** One of the two message UPDATEs, row by row. */
  method HideRows(msgs: seq<Message>, convId: Id, u: Id, side: Side) returns (r: seq<Message>)
    ensures r == HideAll(msgs, convId, u, side)
  {
    r := msgs;
    for k := 0 to |msgs|
      invariant |r| == |msgs|
      invariant forall i :: 0 <= i < k ==> r[i] == Hidden(msgs[i], convId, u, side)
      invariant forall i :: k <= i < |msgs| ==> r[i] == msgs[i]
    {
      r := r[k := Hidden(msgs[k], convId, u, side)];
    }
  }

  /** The conversation row after the two conditional summary UPDATEs. */
  function ClearedSummary(c: Conversation, u: Id, receiverStep: bool, senderStep: bool): Conversation {
    var c1 := if receiverStep && ColumnValue(c.lastReceiver) == u then c.(lastReceiver := None) else c;
    if senderStep && ColumnValue(c.lastSender) == u then c1.(lastSender := None) else c1
  }

  /** Which of the four independent statements report an error (and so change nothing). */
  datatype ClearStep = ReceiverRefs | SenderRefs | LastReceiverRef | LastSenderRef

  /** The table after the two message UPDATEs, those that did not fail. */
  function ClearedMessages(msgs: seq<Message>, convId: Id, u: Id, failing: set<ClearStep>): seq<Message> {
    var m1 := if ReceiverRefs in failing then msgs else HideAll(msgs, convId, u, AsReceiver);
    if SenderRefs in failing then m1 else HideAll(m1, convId, u, AsSender)
  }

  /** The two message UPDATEs of ClearConversation. */
  method ClearMessageRefs(store: ChatStore, convId: Id, caller: Id, failing: set<ClearStep>)
    requires store.Valid()
    modifies store
    ensures store.Valid() && store.users == old(store.users) && store.conversations == old(store.conversations)
    ensures store.messages == ClearedMessages(old(store.messages), convId, caller, failing)
  {
    if ReceiverRefs !in failing {
      var msgs := HideRows(store.messages, convId, caller, AsReceiver);
      MessageRewritePreserves(store.conversations, store.messages, msgs);
      store.messages := msgs;
    }
    if SenderRefs !in failing {
      var msgs := HideRows(store.messages, convId, caller, AsSender);
      MessageRewritePreserves(store.conversations, store.messages, msgs);
      store.messages := msgs;
    }
  }

  /** ClearConversation(conversationID) for `caller`: no transaction, each
      statement's error ignored. */
  method ClearConversation(store: ChatStore, caller: Id, convId: Id, failing: set<ClearStep>)
    returns (status: Status)
    requires store.Valid()
    modifies store
    ensures store.Valid() && store.users == old(store.users)
    ensures var idx := FindId(old(store.conversations), convId);
            if idx.None? || !IsParticipant(old(store.conversations)[idx.value], caller) then
              status == BadRequest
              && store.conversations == old(store.conversations) && store.messages == old(store.messages)
            else
              && status == OK
              && store.messages == ClearedMessages(old(store.messages), convId, caller, failing)
              && store.conversations == old(store.conversations)[idx.value :=
                   ClearedSummary(old(store.conversations)[idx.value], caller,
                                  LastReceiverRef !in failing, LastSenderRef !in failing)]
  {
    var idx := FindId(store.conversations, convId);
    if idx.None? || !IsParticipant(store.conversations[idx.value], caller) {
      return BadRequest;
    }
    var i := idx.value;
    var conversation := store.conversations[i];
    ClearMessageRefs(store, convId, caller, failing);
    var c := conversation;
    if LastReceiverRef !in failing && ColumnValue(conversation.lastReceiver) == caller {
      c := c.(lastReceiver := None);
    }
    if LastSenderRef !in failing && ColumnValue(conversation.lastSender) == caller {
      c := c.(lastSender := None);
    }
    assert c == ClearedSummary(conversation, caller, LastReceiverRef !in failing, LastSenderRef !in failing);
    SummaryChangePreserves(store.conversations, store.messages, i, c);
    store.conversations := store.conversations[i := c];
    status := OK;
  }

  /** No message of the conversation involves `u`: nothing is visible to `u`. */
  lemma {:induction false} NothingVisible(msgs: seq<Message>, convId: Id, u: Id)
    requires forall i :: 0 <= i < |msgs| ==> !(msgs[i].conversationId == convId && Involves(msgs[i], u))
    ensures VisibleTo(msgs, convId, u) == []
  {
    if msgs != [] {
      NothingVisible(msgs[..|msgs| - 1], convId, u);
    }
  }

  /** After a complete clear the caller no longer sees any message of the conversation. */
  lemma ClearHidesEverythingFromCaller(msgs: seq<Message>, convId: Id, u: Id)
    ensures VisibleTo(HideAll(HideAll(msgs, convId, u, AsReceiver), convId, u, AsSender), convId, u) == []
  {
    NothingVisible(HideAll(HideAll(msgs, convId, u, AsReceiver), convId, u, AsSender), convId, u);
  }

  /** The ids of a list of messages. */
  function IdsOf(rows: seq<Message>): (r: seq<Id>)
    ensures |r| == |rows|
  {
    if rows == [] then [] else IdsOf(rows[..|rows| - 1]) + [rows[|rows| - 1].id]
  }

  /** Nulling `u`'s references keeps the id and whether the message involves anyone else. */
  lemma HiddenKeepsOthers(m: Message, convId: Id, u: Id, other: Id, side: Side)
    requires other != u
    ensures Hidden(m, convId, u, side).id == m.id
    ensures Hidden(m, convId, u, side).conversationId == m.conversationId
    ensures Involves(Hidden(m, convId, u, side), other) == Involves(m, other)
  {
  }

  /** Clearing by one participant does not change which messages the other one sees. */
  lemma {:induction false} ClearKeepsOthersMessages(msgs: seq<Message>, convId: Id, u: Id, other: Id, side: Side)
    requires other != u
    ensures IdsOf(VisibleTo(HideAll(msgs, convId, u, side), convId, other)) == IdsOf(VisibleTo(msgs, convId, other))
  {
    if msgs != [] {
      var n := |msgs|;
      var init := msgs[..n - 1];
      var h := HideAll(msgs, convId, u, side);
      ClearKeepsOthersMessages(init, convId, u, other, side);
      assert h[..n - 1] == HideAll(init, convId, u, side);
      HiddenKeepsOthers(msgs[n - 1], convId, u, other, side);
      var a := VisibleTo(h[..n - 1], convId, other);
      var b := VisibleTo(init, convId, other);
      if msgs[n - 1].conversationId == convId && Involves(msgs[n - 1], other) {
        assert VisibleTo(h, convId, other) == a + [h[n - 1]];
        assert VisibleTo(msgs, convId, other) == b + [msgs[n - 1]];
        assert (a + [h[n - 1]])[..|a|] == a;
        assert (b + [msgs[n - 1]])[..|b|] == b;
      } else {
        assert VisibleTo(h, convId, other) == a;
        assert VisibleTo(msgs, convId, other) == b;
      }
    }
  }

  /** What the other participant sees after the clear is what they saw before,
      with `u`'s references nulled: the rows correspond one to one. */
  lemma {:induction false} OthersViewAfterHide(msgs: seq<Message>, convId: Id, u: Id, other: Id, side: Side)
    requires other != u
    ensures VisibleTo(HideAll(msgs, convId, u, side), convId, other)
            == HideAll(VisibleTo(msgs, convId, other), convId, u, side)
  {
    if msgs != [] {
      var n := |msgs|;
      var init := msgs[..n - 1];
      var h := HideAll(msgs, convId, u, side);
      OthersViewAfterHide(init, convId, u, other, side);
      assert h[..n - 1] == HideAll(init, convId, u, side);
      HiddenKeepsOthers(msgs[n - 1], convId, u, other, side);
      var b := VisibleTo(init, convId, other);
      if msgs[n - 1].conversationId == convId && Involves(msgs[n - 1], other) {
        assert HideAll(b + [msgs[n - 1]], convId, u, side)
               == HideAll(b, convId, u, side) + [Hidden(msgs[n - 1], convId, u, side)];
      }
    }
  }

  /** Row by row, the clear changes the other participant's view in one field
      only: a message `u` sent in the conversation shows the sender id "". */
  lemma HiddenView(m: Message, convId: Id, u: Id, side: Side)
    ensures ViewOf(Hidden(m, convId, u, side))
            == if side == AsSender && m.conversationId == convId && m.sender == Some(u)
               then ViewOf(m).(senderId := "") else ViewOf(m)
  {
  }

  /** A clear by "A" erases the sender id "B" saw on A's message. */
  lemma ClearErasesSenderForOther()
    ensures var m := Message("m1", "c1", Some("A"), Some("B"), "hi", false, 0);
            && VisibleTo([m], "c1", "B") == [m] && ViewOf(m).senderId == "A"
            && VisibleTo(HideAll([m], "c1", "A", AsSender), "c1", "B") == [m.(sender := None)]
            && ViewOf(m.(sender := None)).senderId == ""
  {
    var m := Message("m1", "c1", Some("A"), Some("B"), "hi", false, 0);
    assert HideAll([m], "c1", "A", AsSender) == [m.(sender := None)];
  }

  /** After a complete clear the caller's conversation list shows no last message. */
  lemma ClearMasksLastMessage(c: Conversation, u: Id)
    requires u != ""
    ensures MaskedLast(ClearedSummary(c, u, true, true), u) == ""
  {
  }

  /** The other participant's view of the last message is untouched. */
  lemma ClearKeepsOthersLastMessage(c: Conversation, u: Id, other: Id, receiverStep: bool, senderStep: bool)
    requires other != u && other != ""
    ensures MaskedLast(ClearedSummary(c, u, receiverStep, senderStep), other) == MaskedLast(c, other)
  {
  }
}
