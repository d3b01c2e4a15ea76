/** The WebSocket endpoint: the `{type, payload}` envelope as encoding/json
    decodes it into Go structs, the dispatch of the read loop, the two message
    handlers, and the life of one connection from connect to teardown. */
module Socket {
  import opened Common
  import opened Models
  import opened Registry

  // ---------------------------------------------------------------------------
  // JSON documents and Go's decoding of them into structs

  /** A parsed JSON document; object members keep their order and duplicates. */
  datatype Json =
    | JNull
    | JBool(b: bool)
    | JNumber(n: int)
    | JString(s: string)
    | JArray(items: seq<Json>)
    | JObject(members: seq<(string, Json)>)

  /** BaseMessage: `payload` is a json.RawMessage, None when the key is absent. */
  datatype Envelope = Envelope(kind: string, payload: Option<Json>)

  /** MarkMessagesAsSeenPayload */
  datatype SeenPayload = SeenPayload(conversationId: Id, userId: Id)

  /** TextMessagePayload */
  datatype TextPayload = TextPayload(text: string, senderId: Id, recipientId: Id, conversationId: Id)

  const SeenTag: string := "MARK_MESSAGES_AS_SEEN"
  const TextTag: string := "TEXT"

  /** The folding encoding/json applies to an object key before it looks the
      key up among a struct's field names (`foldName`, which maps every rune r
      to ToUpper(ToLower(r))), as far as it can make a key equal to an ASCII
      name: an ASCII lower-case letter becomes upper case, and the only other
      runes that fold to ASCII are U+017F (long s) to 'S', U+212A (Kelvin
      sign) to 'K', and U+0130 and U+0131 (dotted and dotless I) to 'I'.
      Every other rune is left as it is, which cannot make it match an ASCII
      name. */
  function FoldChar(c: char): (f: char)
    ensures 'a' <= c <= 'z' ==> f as int == c as int - 32
    ensures !('a' <= c <= 'z') && c !in {'\U{17F}', '\U{212A}', '\U{130}', '\U{131}'} ==> f == c
  {
    if 'a' <= c <= 'z' then (c as int - 32) as char
    else if c == '\U{17F}' then 'S'
    else if c == '\U{212A}' then 'K'
    else if c == '\U{130}' || c == '\U{131}' then 'I'
    else c
  }

  /** A key with every character folded. */
  function Folded(key: string): (f: string)
    ensures |f| == |key| && forall i :: 0 <= i < |key| ==> f[i] == FoldChar(key[i])
  {
    seq(|key|, i requires 0 <= i < |key| => FoldChar(key[i]))
  }

  /** An object key selects the field `name` when the two are equal up to case
      folding, character by character. */
  predicate KeyMatches(key: string, name: string) {
    |key| == |name| && Folded(key) == Folded(name)
  }

  /** Decoding a string-typed struct field from the object's members, starting
      from `current`: each member whose key selects the field, in turn, sets it
      when its value is a string and leaves it alone when it is null; any other
      value is a type error (None), which fails the whole Unmarshal. */
  function StringField(members: seq<(string, Json)>, name: string, current: string): (r: Option<string>)
    ensures (forall i :: 0 <= i < |members| ==> !KeyMatches(members[i].0, name)) ==> r == Some(current)
    decreases |members|
  {
    if members == [] then Some(current)
    else if !KeyMatches(members[0].0, name) then StringField(members[1..], name, current)
    else match members[0].1
      case JString(s) => StringField(members[1..], name, s)
      case JNull => StringField(members[1..], name, current)
      case _ => None
  }

  /** A json.RawMessage field: the value of the last member whose key selects
      it, null included. */
  function RawField(members: seq<(string, Json)>, name: string): (r: Option<Json>)
    ensures r.None? <==> forall i :: 0 <= i < |members| ==> !KeyMatches(members[i].0, name)
    decreases |members|
  {
    if members == [] then None
    else
      var rest := RawField(members[1..], name);
      if rest.Some? then rest
      else if KeyMatches(members[0].0, name) then Some(members[0].1)
      else None
  }

  /** A field selected by exactly one member, holding a string, decodes to that
      string, whatever the case of the key. */
  lemma {:induction false} StringFieldSingle(members: seq<(string, Json)>, name: string, i: nat, s: string, current: string)
    requires i < |members| && KeyMatches(members[i].0, name) && members[i].1 == JString(s)
    requires forall j :: 0 <= j < |members| && j != i ==> !KeyMatches(members[j].0, name)
    ensures StringField(members, name, current) == Some(s)
    decreases |members|
  {
    var rest := members[1..];
    assert forall j :: 0 <= j < |rest| ==> rest[j] == members[j + 1];
    if i > 0 {
      StringFieldSingle(rest, name, i - 1, s, current);
    }
  }

  /** The raw value of a field is that of the last member selecting it. */
  lemma {:induction false} RawFieldLast(members: seq<(string, Json)>, name: string, i: nat)
    requires i < |members| && KeyMatches(members[i].0, name)
    requires forall j :: i < j < |members| ==> !KeyMatches(members[j].0, name)
    ensures RawField(members, name) == Some(members[i].1)
    decreases |members|
  {
    var rest := members[1..];
    assert forall j :: 0 <= j < |rest| ==> rest[j] == members[j + 1];
    if i > 0 {
      RawFieldLast(rest, name, i - 1);
    }
  }

  /** json.Unmarshal(msg, &baseMessage): an object fills the fields, null leaves
      the zero value, anything else is an error. */
  function DecodeEnvelope(doc: Json): (r: Option<Envelope>)
    ensures doc.JNull? ==> r == Some(Envelope("", None))
    ensures !doc.JNull? && !doc.JObject? ==> r.None?
    ensures doc.JObject? && r.Some? ==> r.value.payload == RawField(doc.members, "payload")
    ensures doc.JObject? && (forall i :: 0 <= i < |doc.members| ==> !KeyMatches(doc.members[i].0, "type"))
            ==> r == Some(Envelope("", RawField(doc.members, "payload")))
  {
    match doc
    case JNull => Some(Envelope("", None))
    case JObject(ms) =>
      (match StringField(ms, "type", "")
       case None => None
       case Some(t) => Some(Envelope(t, RawField(ms, "payload"))))
    case _ => None
  }

  /** json.Unmarshal(baseMessage.Payload, &payload) for MarkMessagesAsSeenPayload.
      An absent payload is empty input, which is an error. */
  function DecodeSeen(raw: Option<Json>): (r: Option<SeenPayload>)
    ensures raw.None? ==> r.None?
    ensures raw == Some(JNull) ==> r == Some(SeenPayload("", ""))
    ensures raw.Some? && !raw.value.JNull? && !raw.value.JObject? ==> r.None?
    ensures raw.Some? && raw.value.JObject?
            && (forall i :: 0 <= i < |raw.value.members| ==>
                  !KeyMatches(raw.value.members[i].0, "conversationId") && !KeyMatches(raw.value.members[i].0, "userId"))
            ==> r == Some(SeenPayload("", ""))
  {
    match raw
    case None => None
    case Some(JNull) => Some(SeenPayload("", ""))
    case Some(JObject(ms)) =>
      (match (StringField(ms, "conversationId", ""), StringField(ms, "userId", ""))
       case (Some(c), Some(u)) => Some(SeenPayload(c, u))
       case _ => None)
    case Some(_) => None
  }

  /** json.Unmarshal(baseMessage.Payload, &payload) for TextMessagePayload. */
  function DecodeText(raw: Option<Json>): (r: Option<TextPayload>)
    ensures raw.None? ==> r.None?
    ensures raw == Some(JNull) ==> r == Some(TextPayload("", "", "", ""))
    ensures raw.Some? && !raw.value.JNull? && !raw.value.JObject? ==> r.None?
  {
    match raw
    case None => None
    case Some(JNull) => Some(TextPayload("", "", "", ""))
    case Some(JObject(ms)) =>
      (match (StringField(ms, "text", ""), StringField(ms, "senderId", ""),
              StringField(ms, "recipientId", ""), StringField(ms, "conversationId", ""))
       case (Some(t), Some(s), Some(r), Some(c)) => Some(TextPayload(t, s, r, c))
       case _ => None)
    case Some(_) => None
  }

  // ---------------------------------------------------------------------------
  // Dispatch

  /** What the read loop does with one frame. */
  datatype Action = Skip | ToSeen(seen: SeenPayload) | ToText(textMsg: TextPayload)

  /** One result of conn.ReadMessage(): an error, or a frame whose bytes parsed
      as the JSON document `doc` (None: not JSON at all). */
  datatype Frame = ReadError | Received(doc: Option<Json>)

  /** The body of the read loop for one received frame: a bad envelope, a bad
      payload and an unknown type all come out as Skip. */
  function Dispatch(doc: Option<Json>): (a: Action)
    ensures a.ToSeen? ==> doc.Some? && DecodeEnvelope(doc.value).Some?
                          && DecodeEnvelope(doc.value).value.kind == SeenTag
                          && DecodeSeen(DecodeEnvelope(doc.value).value.payload) == Some(a.seen)
    ensures a.ToText? ==> doc.Some? && DecodeEnvelope(doc.value).Some?
                          && DecodeEnvelope(doc.value).value.kind == TextTag
                          && DecodeText(DecodeEnvelope(doc.value).value.payload) == Some(a.textMsg)
  {
    if doc.None? then Skip
    else match DecodeEnvelope(doc.value)
      case None => Skip
      case Some(env) =>
        if env.kind == SeenTag then
          match DecodeSeen(env.payload)
          case None => Skip
          case Some(p) => ToSeen(p)
        else if env.kind == TextTag then
          match DecodeText(env.payload)
          case None => Skip
          case Some(p) => ToText(p)
        else Skip
  }

  /** The payload object of a MARK_MESSAGES_AS_SEEN frame. */
  function SeenJson(p: SeenPayload): Json {
    JObject([("conversationId", JString(p.conversationId)), ("userId", JString(p.userId))])
  }

  /** The payload object of a TEXT frame. */
  function TextJson(p: TextPayload): Json {
    JObject([("text", JString(p.text)), ("senderId", JString(p.senderId)),
             ("recipientId", JString(p.recipientId)), ("conversationId", JString(p.conversationId))])
  }

  /** The frame a client sends to mark a conversation seen. */
  function EncodeSeen(p: SeenPayload): Json {
    JObject([("type", JString(SeenTag)), ("payload", SeenJson(p))])
  }

  /** The frame a client sends to forward a text. */
  function EncodeText(p: TextPayload): Json {
    JObject([("type", JString(TextTag)), ("payload", TextJson(p))])
  }

  /** The envelope of a frame with a type and a payload, in that order. */
  lemma DecodeTwoMembers(kind: string, payload: Json)
    ensures DecodeEnvelope(JObject([("type", JString(kind)), ("payload", payload)]))
            == Some(Envelope(kind, Some(payload)))
  {
    var ms := [("type", JString(kind)), ("payload", payload)];
    StringFieldSingle(ms, "type", 0, kind, "");
    RawFieldLast(ms, "payload", 1);
  }

  /** A well-formed MARK_MESSAGES_AS_SEEN frame reaches handleMessageSeen with
      exactly the payload it carries. */
  lemma DispatchEncodedSeen(p: SeenPayload)
    ensures Dispatch(Some(EncodeSeen(p))) == ToSeen(p)
  {
    DecodeTwoMembers(SeenTag, SeenJson(p));
    var ps := SeenJson(p).members;
    StringFieldSingle(ps, "conversationId", 0, p.conversationId, "");
    StringFieldSingle(ps, "userId", 1, p.userId, "");
    assert DecodeSeen(Some(SeenJson(p))) == Some(p);
  }

  /** A well-formed TEXT frame reaches handleTextMessage with its payload. */
  lemma DispatchEncodedText(p: TextPayload)
    ensures Dispatch(Some(EncodeText(p))) == ToText(p)
  {
    DecodeTwoMembers(TextTag, TextJson(p));
    TextJsonDecodes(p);
  }

  /** The payload object of a TEXT frame decodes to the payload. */
  lemma TextJsonDecodes(p: TextPayload)
    ensures DecodeText(Some(TextJson(p))) == Some(p)
  {
    var ps := TextJson(p).members;
    StringFieldSingle(ps, "text", 0, p.text, "");
    StringFieldSingle(ps, "senderId", 1, p.senderId, "");
    StringFieldSingle(ps, "recipientId", 2, p.recipientId, "");
    StringFieldSingle(ps, "conversationId", 3, p.conversationId, "");
  }

  /** A SEEN or TEXT frame whose payload does not decode is skipped. */
  lemma DispatchSkipsBadPayload(doc: Json)
    requires DecodeEnvelope(doc).Some?
    requires var env := DecodeEnvelope(doc).value;
             (env.kind == SeenTag && DecodeSeen(env.payload).None?)
             || (env.kind == TextTag && DecodeText(env.payload).None?)
    ensures Dispatch(Some(doc)) == Skip
  {
  }

  /** Any other type tag is skipped, whatever the payload. */
  lemma DispatchSkipsUnknown(kind: string, payload: Json)
    requires kind != SeenTag && kind != TextTag
    ensures Dispatch(Some(JObject([("type", JString(kind)), ("payload", payload)]))) == Skip
  {
    DecodeTwoMembers(kind, payload);
  }

  /** A frame without a payload key is skipped even when its type is known, but
      a `null` payload is a payload of empty ids. */
  lemma DispatchPayloadPresence(kind: string)
    requires kind == SeenTag
    ensures Dispatch(Some(JObject([("type", JString(kind))]))) == Skip
    ensures Dispatch(Some(JObject([("type", JString(kind)), ("payload", JNull)])))
            == ToSeen(SeenPayload("", ""))
  {
    var ms := [("type", JString(kind))];
    StringFieldSingle(ms, "type", 0, kind, "");
    DecodeTwoMembers(kind, JNull);
  }

  /** Keys match fields whatever their case: a frame written with capitalised
      keys is forwarded exactly as its lower-case twin would be. */
  lemma DispatchFoldsKeyCase()
    ensures Dispatch(Some(JObject([("Type", JString(TextTag)),
                                   ("Payload", JObject([("Text", JString("hi")), ("RecipientId", JString("b"))]))])))
            == ToText(TextPayload("hi", "", "b", ""))
  {
    var ms := [("Type", JString(TextTag)),
               ("Payload", JObject([("Text", JString("hi")), ("RecipientId", JString("b"))]))];
    assert KeyMatches("Type", "type") && KeyMatches("Payload", "payload");
    StringFieldSingle(ms, "type", 0, TextTag, "");
    RawFieldLast(ms, "payload", 1);
    assert DecodeEnvelope(JObject(ms)) == Some(Envelope(TextTag, Some(ms[1].1)));
    var ps := [("Text", JString("hi")), ("RecipientId", JString("b"))];
    CapitalisedKeyMatches();
    StringFieldSingle(ps, "text", 0, "hi", "");
    StringFieldSingle(ps, "recipientId", 1, "b", "");
    assert DecodeText(Some(JObject(ps))) == Some(TextPayload("hi", "", "b", ""));
  }

  lemma CapitalisedKeyMatches()
    ensures KeyMatches("Text", "text") && KeyMatches("RecipientId", "recipientId")
  {
    assert FoldChar('R') == FoldChar('r') && FoldChar('T') == FoldChar('t');
  }

  /** Two keys that differ only in case select the same field, and the later
      one wins. */
  lemma DecodeLaterFoldedKeyWins()
    ensures DecodeEnvelope(JObject([("type", JString("X")), ("TYPE", JString(TextTag))]))
            == Some(Envelope(TextTag, None))
  {
    var ms := [("type", JString("X")), ("TYPE", JString(TextTag))];
    assert KeyMatches("type", "type") && KeyMatches("TYPE", "type");
    assert ms[1..] == [("TYPE", JString(TextTag))] && ms[1..][1..] == [];
    assert StringField(ms[1..], "type", "X") == StringField([], "type", TextTag);
  }

  /** A later duplicate key wins, except that a later null does not erase an
      earlier string. */
  lemma {:induction false} StringFieldDuplicates(key: string, a: string, b: string)
    ensures StringField([(key, JString(a)), (key, JString(b))], key, "") == Some(b)
    ensures StringField([(key, JString(a)), (key, JNull)], key, "") == Some(a)
  {
    var m1 := [(key, JString(a)), (key, JString(b))];
    assert m1[1..] == [(key, JString(b))] && m1[1..][1..] == [];
    assert StringField(m1[1..], key, a) == StringField([], key, b);
    var m2 := [(key, JString(a)), (key, JNull)];
    assert m2[1..] == [(key, JNull)] && m2[1..][1..] == [];
    assert StringField(m2[1..], key, a) == StringField([], key, a);
  }

  // ---------------------------------------------------------------------------
  // handleMessageSeen: the batch update, specified on the message table

  /** The rows the UPDATE touches: in the conversation, sent by `sender`, not yet seen. */
  predicate Unseen(m: Message, convId: Id, sender: Id) {
    m.conversationId == convId && m.sender == Some(sender) && !m.seen
  }

  /** The message table after `UPDATE messages SET seen = true WHERE conversation_id
      = convId AND sender_id = sender AND seen = false`. */
  function MarkSeen(msgs: seq<Message>, convId: Id, sender: Id): (r: seq<Message>)
    ensures |r| == |msgs|
    ensures forall i :: 0 <= i < |msgs| ==>
              r[i] == if Unseen(msgs[i], convId, sender) then msgs[i].(seen := true) else msgs[i]
  {
    seq(|msgs|, i requires 0 <= i < |msgs| =>
      if Unseen(msgs[i], convId, sender) then msgs[i].(seen := true) else msgs[i])
  }

  /** The number of rows the UPDATE affects. */
  function CountUnseen(msgs: seq<Message>, convId: Id, sender: Id): (n: nat)
    ensures n <= |msgs|
  {
    if msgs == [] then 0
    else CountUnseen(msgs[..|msgs| - 1], convId, sender)
         + (if Unseen(msgs[|msgs| - 1], convId, sender) then 1 else 0)
  }

  /** No row is affected exactly when no message matches. */
  lemma {:induction false} CountZeroIff(msgs: seq<Message>, convId: Id, sender: Id)
    ensures CountUnseen(msgs, convId, sender) == 0
            <==> forall i :: 0 <= i < |msgs| ==> !Unseen(msgs[i], convId, sender)
  {
    if msgs != [] {
      var init := msgs[..|msgs| - 1];
      CountZeroIff(init, convId, sender);
      assert forall i :: 0 <= i < |init| ==> init[i] == msgs[i];
    }
  }

  /** Marking twice is marking once, and an immediate repeat affects no rows. */
  lemma MarkSeenRepeat(msgs: seq<Message>, convId: Id, sender: Id)
    ensures MarkSeen(MarkSeen(msgs, convId, sender), convId, sender) == MarkSeen(msgs, convId, sender)
    ensures CountUnseen(MarkSeen(msgs, convId, sender), convId, sender) == 0
  {
    CountZeroIff(MarkSeen(msgs, convId, sender), convId, sender);
  }

  /** What the UPDATE leaves alone: other conversations, other senders, messages
      already seen, and every field but `seen`. */
  lemma MarkSeenSelective(msgs: seq<Message>, convId: Id, sender: Id, i: nat)
    requires i < |msgs|
    ensures MarkSeen(msgs, convId, sender)[i].(seen := msgs[i].seen) == msgs[i]
    ensures MarkSeen(msgs, convId, sender)[i].seen <==> msgs[i].seen || Unseen(msgs[i], convId, sender)
  {
  }

  /** The conversation row after the transaction: `last_message_seen` is set when
      the acting user's id equals LastMessageSenderID (read as "" when NULL). */
  function SeenSummary(c: Conversation, actor: Id): (r: Conversation)
    ensures r.(lastSeen := c.lastSeen) == c
    ensures r.lastSeen <==> c.lastSeen || ColumnValue(c.lastSender) == actor
  {
    if ColumnValue(c.lastSender) == actor then c.(lastSeen := true) else c
  }

  /** The rule as written: when the acting user is the one who received the last
      message, the flag is not set; when they sent it, it is. */
  lemma SeenFlagFollowsSender(c: Conversation, actor: Id)
    requires IsParticipant(c, actor) && c.participant1 != c.participant2
    ensures c.lastSender == Some(Other(c, actor)) ==> SeenSummary(c, actor).lastSeen == c.lastSeen
    ensures c.lastSender == Some(actor) ==> SeenSummary(c, actor).lastSeen
  {
  }

  /** The batch UPDATE, row by row: the new table and the rows affected. */
  method MarkSeenRows(msgs: seq<Message>, convId: Id, sender: Id) returns (r: seq<Message>, count: nat)
    ensures r == MarkSeen(msgs, convId, sender)
    ensures count == CountUnseen(msgs, convId, sender)
  {
    r := msgs;
    count := 0;
    var k := 0;
    while k < |r|
      invariant 0 <= k <= |r| && |r| == |msgs|
      invariant forall i :: 0 <= i < k ==> r[i] == MarkSeen(msgs, convId, sender)[i]
      invariant forall i :: k <= i < |r| ==> r[i] == msgs[i]
      invariant count == CountUnseen(msgs[..k], convId, sender)
    {
      assert msgs[..k + 1][..k] == msgs[..k];
      if Unseen(r[k], convId, sender) {
        r := r[k := r[k].(seen := true)];
        count := count + 1;
      }
      k := k + 1;
    }
    assert msgs[..k] == msgs;
  }

  /** A database error in handleMessageSeen: the conversation lookup failing
      for another reason than a missing row, or either UPDATE failing, which
      rolls the transaction back. */
  datatype SeenFault = NoSeenFault | LookupFails | TxFails

  /** The tables and the frames written, as one value. */
  datatype ChatState = ChatState(conversations: seq<Conversation>, messages: seq<Message>, outbox: seq<Delivery>)

  /** handleMessageSeen as a function of the state: a failed lookup, a missing
      conversation, a caller who is not a participant or a failed transaction
      leave everything as it was; otherwise the other participant's unseen
      messages become seen, the summary follows SeenSummary, and MESSAGES_SEEN
      goes to the other participant when rows were affected and they are
      connected. */
  function SeenStep(s: ChatState, connected: map<Id, Handle>, p: SeenPayload, fault: SeenFault): (r: ChatState)
    ensures |r.messages| == |s.messages| && |r.conversations| == |s.conversations|
    ensures |s.outbox| <= |r.outbox| <= |s.outbox| + 1 && r.outbox[..|s.outbox|] == s.outbox
    ensures fault != NoSeenFault ==> r == s
  {
    var idx := FindId(s.conversations, p.conversationId);
    if fault != NoSeenFault || idx.None? || !IsParticipant(s.conversations[idx.value], p.userId) then s
    else
      var c := s.conversations[idx.value];
      var other := Other(c, p.userId);
      var n := CountUnseen(s.messages, p.conversationId, other);
      var sent := if n > 0 && other in connected then [Delivery(connected[other], MessagesSeen(p.conversationId))] else [];
      assert (s.outbox + sent)[..|s.outbox|] == s.outbox;
      ChatState(s.conversations[idx.value := SeenSummary(c, p.userId)],
                MarkSeen(s.messages, p.conversationId, other), s.outbox + sent)
  }

  /** handleTextMessage as a function of the state: only a frame to a
      connected recipient is written. */
  function TextStep(s: ChatState, connected: map<Id, Handle>, t: TextPayload, now: string): (r: ChatState)
    ensures r.conversations == s.conversations && r.messages == s.messages
    ensures r.outbox == s.outbox <==> t.recipientId !in connected
  {
    if t.recipientId in connected
    then s.(outbox := s.outbox + [Delivery(connected[t.recipientId], Text(t.text, t.senderId, t.conversationId, now))])
    else s
  }

  /** What the read loop does with one received frame. */
  function Step(s: ChatState, connected: map<Id, Handle>, f: Frame, fault: SeenFault, now: string): ChatState {
    if f.ReadError? then s
    else match Dispatch(f.doc)
      case Skip => s
      case ToSeen(p) => SeenStep(s, connected, p, fault)
      case ToText(t) => TextStep(s, connected, t, now)
  }

  /** The state after the read loop has handled the first `n` frames, the i-th
      with database outcome `faults(i)` and time `clock(i)`. */
  function ReadRun(s: ChatState, connected: map<Id, Handle>, frames: seq<Frame>,
                   faults: nat -> SeenFault, clock: nat -> string, n: nat): ChatState
    requires n <= |frames|
  {
    if n == 0 then s
    else Step(ReadRun(s, connected, frames, faults, clock, n - 1), connected, frames[n - 1], faults(n - 1), clock(n - 1))
  }

  lemma ReadRunNext(s: ChatState, connected: map<Id, Handle>, frames: seq<Frame>,
                    faults: nat -> SeenFault, clock: nat -> string, n: nat)
    requires n < |frames|
    ensures ReadRun(s, connected, frames, faults, clock, n + 1)
            == Step(ReadRun(s, connected, frames, faults, clock, n), connected, frames[n], faults(n), clock(n))
  {
  }

  /** The read loop only appends frames and never adds or removes a row. */
  lemma {:induction false} ReadRunGrows(s: ChatState, connected: map<Id, Handle>, frames: seq<Frame>,
                                        faults: nat -> SeenFault, clock: nat -> string, n: nat)
    requires n <= |frames|
    ensures var r := ReadRun(s, connected, frames, faults, clock, n);
            |s.outbox| <= |r.outbox| && r.outbox[..|s.outbox|] == s.outbox
            && |r.messages| == |s.messages| && |r.conversations| == |s.conversations|
  {
    if n > 0 {
      ReadRunGrows(s, connected, frames, faults, clock, n - 1);
      var r0 := ReadRun(s, connected, frames, faults, clock, n - 1);
      var r := ReadRun(s, connected, frames, faults, clock, n);
      assert |r0.outbox| <= |r.outbox| && r.outbox[..|r0.outbox|] == r0.outbox;
      assert r.outbox[..|s.outbox|] == r0.outbox[..|s.outbox|];
    }
  }

  /** Without a MARK_MESSAGES_AS_SEEN frame, or with every database call
      failing, the read loop changes no table. */
  lemma {:induction false} ReadRunKeepsTables(s: ChatState, connected: map<Id, Handle>, frames: seq<Frame>,
                                              faults: nat -> SeenFault, clock: nat -> string, n: nat)
    requires n <= |frames|
    requires forall k :: 0 <= k < n ==> frames[k].ReadError? || !Dispatch(frames[k].doc).ToSeen? || faults(k) != NoSeenFault
    ensures ReadRun(s, connected, frames, faults, clock, n).conversations == s.conversations
    ensures ReadRun(s, connected, frames, faults, clock, n).messages == s.messages
  {
    if n > 0 {
      ReadRunKeepsTables(s, connected, frames, faults, clock, n - 1);
    }
  }

  /** The two UPDATEs of handleMessageSeen on copies of the tables: the other
      participant's unseen messages of conversation `i` become seen and its
      summary follows SeenSummary; the tables stay consistent. */
  method SeenTransaction(convs0: seq<Conversation>, msgs0: seq<Message>, i: nat, actor: Id, other: Id)
    returns (convs: seq<Conversation>, msgs: seq<Message>, count: nat)
    requires ChatConsistent(convs0, msgs0) && i < |convs0|
    ensures msgs == MarkSeen(msgs0, convs0[i].id, other) && count == CountUnseen(msgs0, convs0[i].id, other)
    ensures convs == convs0[i := SeenSummary(convs0[i], actor)]
    ensures ChatConsistent(convs, msgs)
  {
    msgs, count := MarkSeenRows(msgs0, convs0[i].id, other);
    convs := convs0[i := SeenSummary(convs0[i], actor)];
    MessageRewritePreserves(convs0, msgs0, msgs);
    SummaryChangePreserves(convs0, msgs, i, SeenSummary(convs0[i], actor));
  }

  /** handleMessageSeen. Returns the rows the committed UPDATE affected. */
  method HandleMessageSeen(hub: Hub, store: ChatStore, p: SeenPayload, fault: SeenFault) returns (rows: nat)
    requires store.Valid()
    modifies hub, store
    ensures store.Valid() && store.users == old(store.users)
    ensures hub.connected == old(hub.connected) && hub.closed == old(hub.closed)
    ensures var idx := FindId(old(store.conversations), p.conversationId);
            if fault != NoSeenFault || idx.None? || !IsParticipant(old(store.conversations)[idx.value], p.userId) then
              && rows == 0
              && store.conversations == old(store.conversations) && store.messages == old(store.messages)
              && hub.outbox == old(hub.outbox)
            else
              var c := old(store.conversations)[idx.value];
              var other := Other(c, p.userId);
              && rows == CountUnseen(old(store.messages), p.conversationId, other)
              && store.messages == MarkSeen(old(store.messages), p.conversationId, other)
              && store.conversations == old(store.conversations)[idx.value := SeenSummary(c, p.userId)]
              && hub.outbox == old(hub.outbox)
                   + (if rows > 0 && other in hub.connected
                      then [Delivery(hub.connected[other], MessagesSeen(p.conversationId))] else [])
  {
    if fault == LookupFails {
      return 0;
    }
    var idx := FindId(store.conversations, p.conversationId);
    if idx.None? {
      return 0;
    }
    var c := store.conversations[idx.value];
    if c.participant1 != p.userId && c.participant2 != p.userId {
      return 0;
    }
    var other := c.participant1;
    if other == p.userId {
      other := c.participant2;
    }

    // the transaction, computed on copies and committed at once
    var convs, msgs, count := SeenTransaction(store.conversations, store.messages, idx.value, p.userId, other);
    if fault == TxFails {
      return 0;
    }
    store.messages, store.conversations := msgs, convs;
    rows := count;

    if rows > 0 {
      var h := hub.GetSocket(other);
      if h.Some? {
        hub.Send(h.value, MessagesSeen(p.conversationId));
      }
    }
  }

  /** handleTextMessage: nothing is stored; a connected recipient gets the text,
      stamped with the current time `now`. */
  method HandleTextMessage(hub: Hub, p: TextPayload, now: string)
    modifies hub
    ensures hub.connected == old(hub.connected) && hub.closed == old(hub.closed)
    ensures hub.outbox == old(hub.outbox)
              + (if p.recipientId in hub.connected
                 then [Delivery(hub.connected[p.recipientId], Text(p.text, p.senderId, p.conversationId, now))]
                 else [])
  {
    var h := hub.GetSocket(p.recipientId);
    if h.Some? {
      hub.Send(h.value, Text(p.text, p.senderId, p.conversationId, now));
    }
  }

  // ---------------------------------------------------------------------------
  // One connection

  /** How many frames come before the first read error (all of them when
      there is none). */
  function FirstError(frames: seq<Frame>): (n: nat)
    ensures n <= |frames|
  {
    if frames == [] || frames[0].ReadError? then 0 else 1 + FirstError(frames[1..])
  }

  /** The read loop stops exactly at the first read error: every frame before
      it was received, and the frame at it, if any, is the error. */
  lemma {:induction false} FirstErrorStops(frames: seq<Frame>)
    ensures forall k :: 0 <= k < FirstError(frames) ==> frames[k].Received?
    ensures FirstError(frames) < |frames| ==> frames[FirstError(frames)].ReadError?
  {
    if frames != [] && frames[0].Received? {
      FirstErrorStops(frames[1..]);
      assert forall k :: 1 <= k < |frames| ==> frames[k] == frames[1..][k - 1];
    }
  }

  /** The body of the read loop for one received frame: the envelope and the
      payload are decoded, and the frame goes to its handler or is skipped. */
  method HandleFrame(hub: Hub, store: ChatStore, f: Frame, fault: SeenFault, now: string)
    requires store.Valid()
    modifies hub, store
    ensures store.Valid() && store.users == old(store.users)
    ensures hub.connected == old(hub.connected) && hub.closed == old(hub.closed)
    ensures ChatState(store.conversations, store.messages, hub.outbox)
            == Step(ChatState(old(store.conversations), old(store.messages), old(hub.outbox)),
                    old(hub.connected), f, fault, now)
  {
    if f.Received? {
      match Dispatch(f.doc) {
        case Skip =>
        case ToSeen(p) =>
          var _ := HandleMessageSeen(hub, store, p, fault);
        case ToText(t) =>
          HandleTextMessage(hub, t, now);
      }
    }
  }

  /** The read loop: frames are handled in order until a read error (or the
      end of the input); `consumed` frames were handled, and the tables and
      the frames written are those ReadRun gives for them. */
  method ReadLoop(hub: Hub, store: ChatStore, frames: seq<Frame>, faults: nat -> SeenFault, clock: nat -> string)
    returns (consumed: nat)
    requires store.Valid()
    modifies hub, store
    ensures store.Valid() && store.users == old(store.users)
    ensures hub.connected == old(hub.connected) && hub.closed == old(hub.closed)
    ensures consumed <= |frames|
    ensures consumed == FirstError(frames)
    ensures ChatState(store.conversations, store.messages, hub.outbox)
            == ReadRun(ChatState(old(store.conversations), old(store.messages), old(hub.outbox)),
                       old(hub.connected), frames, faults, clock, consumed)
  {
    ghost var s0 := ChatState(store.conversations, store.messages, hub.outbox);
    var i := 0;
    while i < |frames| && frames[i].Received?
      invariant 0 <= i <= |frames|
      invariant FirstError(frames) == i + FirstError(frames[i..])
      invariant store.Valid() && store.users == old(store.users)
      invariant hub.connected == old(hub.connected) && hub.closed == old(hub.closed)
      invariant ChatState(store.conversations, store.messages, hub.outbox)
                == ReadRun(s0, hub.connected, frames, faults, clock, i)
      decreases |frames| - i
    {
      HandleFrame(hub, store, frames[i], faults(i), clock(i));
      ReadRunNext(s0, hub.connected, frames, faults, clock, i);
      assert frames[i..][1..] == frames[i + 1..];
      i := i + 1;
    }
    consumed := i;
  }

  /** The deferred teardown: delete the entry for `userId` (whichever
      connection it names), close `conn`, broadcast presence. */
  method Teardown(hub: Hub, conn: Handle, userId: Id) returns (ghost users: seq<Id>, ghost owners: seq<Id>)
    modifies hub
    ensures hub.connected == old(hub.connected) - {userId}
    ensures hub.closed == old(hub.closed) + {conn}
    ensures NoDup(users) && Elems(users) == hub.connected.Keys
    ensures NoDup(owners) && Elems(owners) == hub.connected.Keys
    ensures hub.outbox == old(hub.outbox) + Fanout(HandlesOf(owners, hub.connected), OnlineUsers(users))
  {
    hub.Unregister(userId);
    hub.Close(conn);
    users, owners := hub.BroadcastOnlineUsers();
  }

  /** The /ws handler for connection `conn` opened with query `userId`, reading
      `frames`. `faults(i)` and `clock(i)` are the database outcome and the
      time for the i-th frame. `consumed` is how many frames were handled
      before the loop ended; `joinUsers`/`joinOwners` describe the presence
      broadcast after registering, `users`/`owners` the one after teardown. */
  method Serve(hub: Hub, store: ChatStore, conn: Handle, userId: Id, frames: seq<Frame>,
               faults: nat -> SeenFault, clock: nat -> string)
    returns (ghost consumed: nat, ghost joinUsers: seq<Id>, ghost joinOwners: seq<Id>,
             ghost users: seq<Id>, ghost owners: seq<Id>)
    requires store.Valid()
    modifies hub, store
    ensures store.Valid() && store.users == old(store.users)
    // teardown deletes by id, closes and broadcasts the remaining users
    ensures hub.connected == old(hub.connected) - {userId}
    ensures hub.closed == old(hub.closed) + {conn}
    ensures NoDup(users) && Elems(users) == hub.connected.Keys && Elems(owners) == hub.connected.Keys
    // an empty id gets the error frame and handles nothing
    ensures userId == "" ==>
      && consumed == 0 && store.messages == old(store.messages)
      && store.conversations == old(store.conversations)
      && hub.outbox == old(hub.outbox) + [Delivery(conn, ErrorFrame("User ID required"))]
                       + Fanout(HandlesOf(owners, hub.connected), OnlineUsers(users))
    // otherwise: register, broadcast the users now online, handle frames
    // until a read error, then tear down
    ensures userId != "" ==>
      var online := old(hub.connected)[userId := conn];
      && NoDup(joinUsers) && Elems(joinUsers) == online.Keys && Elems(joinOwners) == online.Keys
      && consumed == FirstError(frames)
      && var r := ReadRun(ChatState(old(store.conversations), old(store.messages),
                                    old(hub.outbox) + Fanout(HandlesOf(joinOwners, online), OnlineUsers(joinUsers))),
                          online, frames, faults, clock, consumed);
         && store.conversations == r.conversations && store.messages == r.messages
         && hub.outbox == r.outbox + Fanout(HandlesOf(owners, hub.connected), OnlineUsers(users))
  {
    consumed := 0;
    joinUsers, joinOwners := [], [];
    if userId == "" {
      hub.Send(conn, ErrorFrame("User ID required"));
    } else {
      hub.Register(userId, conn);
      joinUsers, joinOwners := hub.BroadcastOnlineUsers();
      consumed := ReadLoop(hub, store, frames, faults, clock);
    }
    users, owners := Teardown(hub, conn, userId);
  }
}
