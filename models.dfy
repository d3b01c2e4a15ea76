/** The rows of the relational schema that the core reads and writes, the
    creation hooks, the invariants the chat tables keep, and the periodic
    notification cleanup. */
module Models {
  import opened Common

  const Day: int := 86400  // seconds; times are Unix seconds in UTC

  // ---------------------------------------------------------------------------
  // BaseModel and its creation hook

  /** The primary key and timestamps embedded in every row. */
  datatype BaseModel = BaseModel(id: Id, createdAt: int, updatedAt: int)

  /** BaseModel.BeforeCreate: the whole base is overwritten with a fresh id and
      two separate reads of the clock (`clock1` for CreatedAt, `clock2` for UpdatedAt). */
  function StampBase(previous: BaseModel, freshId: Id, clock1: int, clock2: int): (b: BaseModel)
    ensures b.id == freshId
    ensures b.createdAt == b.updatedAt <==> clock1 == clock2
  {
    BaseModel(freshId, clock1, clock2)
  }

  /** Nothing of the previous base survives the hook. */
  lemma StampForgetsPrevious(a: BaseModel, b: BaseModel, freshId: Id, clock1: int, clock2: int)
    ensures StampBase(a, freshId, clock1, clock2) == StampBase(b, freshId, clock1, clock2)
  {
  }

  // ---------------------------------------------------------------------------
  // Notifications

  const Like: string := "LIKE"
  const Comment: string := "COMMENT"
  const Follow: string := "FOLLOW"

  datatype Notification = Notification(
    base: BaseModel,
    userId: Id,        // who is notified
    creatorId: Id,     // who caused it
    kind: string,      // NotificationType
    read: bool,
    postId: Option<Id>,
    commentId: Option<Id>)

  /** Notification.BeforeCreate: stamps the base, then refuses any type but
      LIKE, COMMENT and FOLLOW. */
  function NotificationBeforeCreate(n: Notification, freshId: Id, clock1: int, clock2: int)
    : (r: Option<Notification>)
    ensures r.Some? <==> n.kind in {Like, Comment, Follow}
    ensures r.Some? ==> r.value.base.id == freshId && r.value.base.createdAt == clock1
    ensures r.Some? ==> r.value.(base := n.base) == n
  {
    var stamped := n.(base := StampBase(n.base, freshId, clock1, clock2));
    match n.kind
    case "LIKE" => Some(stamped)
    case "COMMENT" => Some(stamped)
    case "FOLLOW" => Some(stamped)
    case _ => None
  }

  /** A read notification is kept for 30 days, an unread one for 90. */
  predicate Retained(n: Notification, now: int) {
    if n.read then n.base.createdAt >= now - 30 * Day else n.base.createdAt >= now - 90 * Day
  }

  /** DELETE ... WHERE read = `read` AND created_at < `threshold`. */
  function DeleteOlder(rows: seq<Notification>, read: bool, threshold: int): (r: seq<Notification>)
    ensures forall n :: n in r <==> n in rows && !(n.read == read && n.base.createdAt < threshold)
    ensures |r| <= |rows|
  {
    if rows == [] then []
    else
      var rest := DeleteOlder(rows[1..], read, threshold);
      if rows[0].read == read && rows[0].base.createdAt < threshold then rest else [rows[0]] + rest
  }

  /** The two deletes back to back keep exactly the retained notifications. */
  lemma {:induction false} CleanupKeepsExactlyRetained(rows: seq<Notification>, now: int)
    ensures forall n :: n in DeleteOlder(DeleteOlder(rows, true, now - 30 * Day), false, now - 90 * Day)
                        <==> n in rows && Retained(n, now)
  {
  }

  /** The notifications table. */
  class NotificationStore {
    var rows: seq<Notification>

    constructor (rows: seq<Notification>)
      ensures this.rows == rows
    {
      this.rows := rows;
    }

    /** Whether some row already uses this primary key. */
    predicate IdTaken(id: Id)
      reads this
    {
      exists k :: 0 <= k < |rows| && rows[k].base.id == id
    }

    /** session.Create(&notification): the hook runs, then the insert. The insert
        fails when the hook refuses the type, when the fresh id is already a
        key, or when the database reports an error (`dbFails`). */
    method Create(n: Notification, freshId: Id, clock1: int, clock2: int, dbFails: bool)
      returns (ok: bool)
      modifies this
      ensures ok <==> n.kind in {Like, Comment, Follow} && !old(IdTaken(freshId)) && !dbFails
      ensures ok ==> rows == old(rows) + [NotificationBeforeCreate(n, freshId, clock1, clock2).value]
      ensures !ok ==> rows == old(rows)
    {
      var stamped := NotificationBeforeCreate(n, freshId, clock1, clock2);
      if stamped.None? || IdTaken(freshId) || dbFails {
        return false;
      }
      rows := rows + [stamped.value];
      ok := true;
    }

    /** CleanupOldNotifications: delete read ones older than 30 days, then unread
        ones older than 90 days. A failing first delete returns its error before
        the second is attempted. */
    method CleanupOldNotifications(now: int, readDeleteFails: bool, unreadDeleteFails: bool)
      returns (err: bool)
      modifies this
      ensures err <==> readDeleteFails || unreadDeleteFails
      ensures readDeleteFails ==> rows == old(rows)
      ensures !readDeleteFails && unreadDeleteFails ==> rows == DeleteOlder(old(rows), true, now - 30 * Day)
      ensures !err ==> forall n :: n in rows <==> n in old(rows) && Retained(n, now)
    {
      var readThreshold := now - 30 * Day;
      var unreadThreshold := now - 90 * Day;
      if readDeleteFails {
        return true;
      }
      rows := DeleteOlder(rows, true, readThreshold);
      if unreadDeleteFails {
        return true;
      }
      ghost var before := old(rows);
      rows := DeleteOlder(rows, false, unreadThreshold);
      CleanupKeepsExactlyRetained(before, now);
      err := false;
    }
  }

  // ---------------------------------------------------------------------------
  // Likes and follows

  /** A like is unique per (post_id, user_id): the table is a set of these keys. */
  datatype LikeKey = LikeKey(postId: Id, userId: Id)

  /** A follow is keyed by (follower_id, following_id). */
  datatype FollowKey = FollowKey(followerId: Id, followingId: Id)

  // ---------------------------------------------------------------------------
  // Conversations and messages

  /** A conversation between two users, with the summary of its last message.
      The last-message ids are nullable columns: None is SQL NULL. */
  datatype Conversation = Conversation(
    id: Id,
    participant1: Id,
    participant2: Id,
    lastMessage: string,
    lastSender: Option<Id>,
    lastReceiver: Option<Id>,
    lastSeen: bool)

  /** A message; `sender` and `receiver` become NULL when a participant clears
      the conversation. */
  datatype Message = Message(
    id: Id,
    conversationId: Id,
    sender: Option<Id>,
    receiver: Option<Id>,
    text: string,
    seen: bool,
    createdAt: int)

  /** What a Go `string` field holds after reading a nullable column: NULL reads as "". */
  function ColumnValue(o: Option<Id>): Id {
    if o.Some? then o.value else ""
  }

  predicate IsParticipant(c: Conversation, u: Id) {
    c.participant1 == u || c.participant2 == u
  }

  /** The conversation is between `a` and `b`, in either order. */
  predicate SamePair(c: Conversation, a: Id, b: Id) {
    (c.participant1 == a && c.participant2 == b) || (c.participant1 == b && c.participant2 == a)
  }

  /** The participant that is not `u`: participant2 when `u` is participant1,
      otherwise participant1. */
  function Other(c: Conversation, u: Id): (o: Id)
    ensures IsParticipant(c, u) ==> IsParticipant(c, o) && SamePair(c, u, o)
  {
    if c.participant1 == u then c.participant2 else c.participant1
  }

  function ConversationIds(convs: seq<Conversation>): set<Id> {
    set c | c in convs :: c.id
  }

  /** The invariants of the chat tables: primary keys are unique, at most one
      conversation per unordered pair, every message belongs to an existing
      conversation, and a message's sender and receiver, while present, are
      participants of that conversation. */
  ghost predicate ChatConsistent(convs: seq<Conversation>, msgs: seq<Message>) {
    && (forall i, j :: 0 <= i < j < |convs| ==> convs[i].id != convs[j].id)
    && (forall i, j :: 0 <= i < j < |convs| ==> !SamePair(convs[j], convs[i].participant1, convs[i].participant2))
    && (forall i, j :: 0 <= i < j < |msgs| ==> msgs[i].id != msgs[j].id)
    && (forall i :: 0 <= i < |msgs| ==> msgs[i].conversationId in ConversationIds(convs))
    && (forall i, j :: 0 <= i < |msgs| && 0 <= j < |convs| && msgs[i].conversationId == convs[j].id ==>
          (msgs[i].sender.Some? ==> IsParticipant(convs[j], msgs[i].sender.value))
          && (msgs[i].receiver.Some? ==> IsParticipant(convs[j], msgs[i].receiver.value)))
  }

  /** Rewriting a conversation's summary (not its id or participants) keeps the
      chat tables consistent. */
  lemma SummaryChangePreserves(convs: seq<Conversation>, msgs: seq<Message>, i: nat, c: Conversation)
    requires ChatConsistent(convs, msgs) && i < |convs|
    requires c.id == convs[i].id
    requires c.participant1 == convs[i].participant1 && c.participant2 == convs[i].participant2
    ensures ChatConsistent(convs[i := c], msgs)
  {
    var convs' := convs[i := c];
    assert ConversationIds(convs') == ConversationIds(convs) by {
      forall x | x in ConversationIds(convs) ensures x in ConversationIds(convs') {
        var k :| 0 <= k < |convs| && convs[k].id == x;
        assert convs'[k].id == x;
      }
      forall x | x in ConversationIds(convs') ensures x in ConversationIds(convs) {
        var k :| 0 <= k < |convs'| && convs'[k].id == x;
        assert convs[k].id == x;
      }
    }
  }

  function MessageIds(msgs: seq<Message>): set<Id> {
    set m | m in msgs :: m.id
  }

  /** Inserting a conversation with a fresh id for a pair that has none keeps
      the chat tables consistent. */
  lemma InsertConversationPreserves(convs: seq<Conversation>, msgs: seq<Message>, c: Conversation)
    requires ChatConsistent(convs, msgs)
    requires c.id !in ConversationIds(convs)
    requires forall k :: 0 <= k < |convs| ==> !SamePair(convs[k], c.participant1, c.participant2)
    ensures ChatConsistent(convs + [c], msgs)
  {
    var convs' := convs + [c];
    assert ConversationIds(convs') == ConversationIds(convs) + {c.id} by {
      forall x | x in ConversationIds(convs') ensures x in ConversationIds(convs) + {c.id} {
        var k :| 0 <= k < |convs'| && convs'[k].id == x;
        if k < |convs| { assert convs[k].id == x; }
      }
    }
    forall i, j | 0 <= i < j < |convs'|
      ensures !SamePair(convs'[j], convs'[i].participant1, convs'[i].participant2)
    {
      if j == |convs| {
        assert !SamePair(convs[i], c.participant1, c.participant2);
      }
    }
    forall i | 0 <= i < |convs| ensures convs[i].id != c.id {
      assert convs[i].id in ConversationIds(convs);
    }
  }

  /** Inserting a message with a fresh id into conversation `i`, between its
      participants, keeps the chat tables consistent. */
  lemma InsertMessagePreserves(convs: seq<Conversation>, msgs: seq<Message>, m: Message, i: nat)
    requires ChatConsistent(convs, msgs)
    requires i < |convs| && convs[i].id == m.conversationId && m.id !in MessageIds(msgs)
    requires m.sender.Some? ==> IsParticipant(convs[i], m.sender.value)
    requires m.receiver.Some? ==> IsParticipant(convs[i], m.receiver.value)
    ensures ChatConsistent(convs, msgs + [m])
  {
    var msgs' := msgs + [m];
    assert m.conversationId in ConversationIds(convs);
    forall k | 0 <= k < |msgs| ensures msgs[k].id != m.id {
      assert msgs[k].id in MessageIds(msgs);
    }
    assert forall k :: 0 <= k < |msgs| ==> msgs'[k] == msgs[k];
  }

  /** `m2` is `m1` with possibly its seen flag changed and its sender/receiver
      references possibly nulled. */
  predicate SameRowOrHidden(m1: Message, m2: Message) {
    && m2.id == m1.id && m2.conversationId == m1.conversationId
    && (m2.sender == m1.sender || m2.sender.None?)
    && (m2.receiver == m1.receiver || m2.receiver.None?)
  }

  /** Marking messages seen or nulling references keeps the chat tables consistent. */
  lemma MessageRewritePreserves(convs: seq<Conversation>, msgs: seq<Message>, msgs': seq<Message>)
    requires ChatConsistent(convs, msgs)
    requires |msgs'| == |msgs|
    requires forall i :: 0 <= i < |msgs| ==> SameRowOrHidden(msgs[i], msgs'[i])
    ensures ChatConsistent(convs, msgs')
  {
  }

  /** The first conversation between `a` and `b`, in either order. */
  function FindPair(convs: seq<Conversation>, a: Id, b: Id): (r: Option<nat>)
    ensures r.Some? ==> r.value < |convs| && SamePair(convs[r.value], a, b)
                        && forall k :: 0 <= k < r.value ==> !SamePair(convs[k], a, b)
    ensures r.None? ==> forall k :: 0 <= k < |convs| ==> !SamePair(convs[k], a, b)
  {
    if convs == [] then None
    else if SamePair(convs[0], a, b) then Some(0)
    else match FindPair(convs[1..], a, b)
      case None => None
      case Some(k) => Some(k + 1)
  }

  /** The conversation with this id. */
  function FindId(convs: seq<Conversation>, id: Id): (r: Option<nat>)
    ensures r.Some? ==> r.value < |convs| && convs[r.value].id == id
    ensures r.None? ==> id !in ConversationIds(convs)
  {
    if convs == [] then None
    else if convs[0].id == id then Some(0)
    else match FindId(convs[1..], id)
      case None => None
      case Some(k) => Some(k + 1)
  }

  /** Looking the pair up in either order finds the same conversation. */
  lemma {:induction false} FindPairSymmetric(convs: seq<Conversation>, a: Id, b: Id)
    ensures FindPair(convs, a, b) == FindPair(convs, b, a)
  {
    if convs != [] {
      FindPairSymmetric(convs[1..], a, b);
    }
  }

  /** The users, conversations and messages tables. */
  class ChatStore {
    var users: set<Id>
    var conversations: seq<Conversation>
    var messages: seq<Message>

    ghost predicate Valid()
      reads this
    {
      ChatConsistent(conversations, messages)
    }

    constructor (users: set<Id>)
      ensures Valid()
      ensures this.users == users && conversations == [] && messages == []
    {
      this.users := users;
      conversations := [];
      messages := [];
    }
  }

  // ---------------------------------------------------------------------------
  // Users and registration requests

  const Student: string := "Student"
  const Alumni: string := "Alumni"
  const Faculty: string := "Faculty"

  /** A user row; the user name is a nullable unique column, the password is
      not part of this model. */
  datatype User = User(
    fullName: string,
    userName: Option<string>,
    department: string,
    batch: int,
    role: string,
    isVerified: bool,
    isOnboard: bool,
    registrationStatus: string,
    email: string)

  /** A pending request to join. */
  datatype RegisterRequest = RegisterRequest(
    fullName: string, department: string, batch: int, email: string, phoneNumber: string, role: string)

  /** The email column is unique. */
  predicate EmailsUnique(users: map<Id, User>) {
    forall a, b :: a in users && b in users && users[a].email == users[b].email ==> a == b
  }

  /** The users and register_requests tables. */
  class UserStore {
    var users: map<Id, User>
    var requests: map<Id, RegisterRequest>

    constructor (users: map<Id, User>)
      ensures this.users == users && requests == map[]
    {
      this.users := users;
      requests := map[];
    }
  }
}
