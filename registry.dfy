/** The connection registry of the WebSocket server: one live connection per
    user id, the frames written to connections, and the presence broadcast. */
module Registry {
  import opened Common

  /** A WebSocket connection, by identity. */
  type Handle = nat

  /** The JSON frames the server writes. */
  datatype Event =
    | ErrorFrame(error: string)
    | OnlineUsers(users: seq<Id>)
    | NewMessage(id: Id, seen: bool, senderId: Id, text: string, createdAt: int, conversationId: Id)
    | MessagesSeen(conversationId: Id)
    | Text(text: string, senderId: Id, conversationId: Id, timestamp: string)  // RFC 3339 "now"

  /** One attempted write of a frame to a connection. */
  datatype Delivery = Delivery(to: Handle, event: Event)

  /** One delivery of `e` per connection, in order. */
  function Fanout(conns: seq<Handle>, e: Event): (r: seq<Delivery>)
    ensures |r| == |conns|
    ensures forall i :: 0 <= i < |conns| ==> r[i] == Delivery(conns[i], e)
  {
    seq(|conns|, i requires 0 <= i < |conns| => Delivery(conns[i], e))
  }

  /** The connections registered for `owners`, in order. */
  function HandlesOf(owners: seq<Id>, m: map<Id, Handle>): (r: seq<Handle>)
    requires forall i :: 0 <= i < |owners| ==> owners[i] in m
    ensures |r| == |owners| && forall i :: 0 <= i < |owners| ==> r[i] == m[owners[i]]
  {
    seq(|owners|, i requires 0 <= i < |owners| => m[owners[i]])
  }

  /** Reaching one more key appends its connection. */
  lemma HandlesOfAppend(owners: seq<Id>, id: Id, m: map<Id, Handle>)
    requires forall i :: 0 <= i < |owners| ==> owners[i] in m
    requires id in m
    ensures HandlesOf(owners + [id], m) == HandlesOf(owners, m) + [m[id]]
  {
    var o := owners + [id];
    assert forall i :: 0 <= i < |owners| ==> o[i] == owners[i];
  }

  /** A connection receives the fanned-out frame exactly when it is in the list. */
  lemma FanoutReaches(conns: seq<Handle>, e: Event, h: Handle)
    ensures Delivery(h, e) in Fanout(conns, e) <==> h in conns
  {
    if h in conns {
      var i :| 0 <= i < |conns| && conns[i] == h;
      assert Fanout(conns, e)[i] == Delivery(h, e);
    }
  }

  /** `connectedUsers`, the connections closed so far, and every frame written. */
  class Hub {
    var connected: map<Id, Handle>
    var closed: set<Handle>
    var outbox: seq<Delivery>

    constructor ()
      ensures connected == map[] && closed == {} && outbox == []
    {
      connected := map[];
      closed := {};
      outbox := [];
    }

    /** GetSocket: the connection registered for `id`, if any; reads only. */
    method GetSocket(id: Id) returns (h: Option<Handle>)
      ensures h.Some? <==> id in connected
      ensures h.Some? ==> h.value == connected[id]
    {
      if id in connected {
        h := Some(connected[id]);
      } else {
        h := None;
      }
    }

    /** `connectedUsers[userID] = conn`: replaces any earlier connection of the user. */
    method Register(id: Id, conn: Handle)
      modifies this
      ensures connected == old(connected)[id := conn]
      ensures closed == old(closed) && outbox == old(outbox)
    {
      connected := connected[id := conn];
    }

    /** `delete(connectedUsers, userID)`: by id, whichever connection is registered. */
    method Unregister(id: Id)
      modifies this
      ensures connected == old(connected) - {id}
      ensures closed == old(closed) && outbox == old(outbox)
    {
      connected := connected - {id};
    }

    /** `conn.Close()` */
    method Close(conn: Handle)
      modifies this
      ensures closed == old(closed) + {conn}
      ensures connected == old(connected) && outbox == old(outbox)
    {
      closed := closed + {conn};
    }

    /** A write of one frame to one connection. */
    method Send(conn: Handle, e: Event)
      modifies this
      ensures outbox == old(outbox) + [Delivery(conn, e)]
      ensures connected == old(connected) && closed == old(closed)
    {
      outbox := outbox + [Delivery(conn, e)];
    }

    /** broadcastOnlineUsers: collect the user ids, then the connections, each in
        the map's (unspecified) iteration order, and send every connection the
        list of ids. `users` is the snapshot; `owners[i]` is the user whose
        connection got the i-th frame. */
    method BroadcastOnlineUsers() returns (ghost users: seq<Id>, ghost owners: seq<Id>)
      modifies this
      ensures NoDup(users) && Elems(users) == connected.Keys
      ensures NoDup(owners) && Elems(owners) == connected.Keys
      ensures outbox == old(outbox) + Fanout(HandlesOf(owners, connected), OnlineUsers(users))
      ensures connected == old(connected) && closed == old(closed)
    {
      var snapshot := CollectUsers();
      var conns;
      conns, owners := CollectConnections();
      SendAll(conns, OnlineUsers(snapshot));
      users := snapshot;
    }

    /** `for userID := range connectedUsers { users = append(users, userID) }` */
    method CollectUsers() returns (users: seq<Id>)
      ensures NoDup(users) && Elems(users) == connected.Keys
    {
      users := [];
      var remaining := connected.Keys;
      while remaining != {}
        invariant NoDup(users)
        invariant Elems(users) + remaining == connected.Keys
        invariant Elems(users) !! remaining
        decreases |remaining|
      {
        var id :| id in remaining;
        CollectStep(users, remaining, connected.Keys, id);
        users := users + [id];
        remaining := remaining - {id};
      }
    }

    /** `for _, conn := range connectedUsers { connections = append(connections, conn) }`;
        `owners` records the key each value was reached through. */
    method CollectConnections() returns (conns: seq<Handle>, ghost owners: seq<Id>)
      ensures NoDup(owners) && Elems(owners) == connected.Keys
      ensures conns == HandlesOf(owners, connected)
    {
      var m := connected;
      conns := [];
      owners := [];
      var remaining := m.Keys;
      while remaining != {}
        invariant NoDup(owners)
        invariant Elems(owners) + remaining == m.Keys
        invariant Elems(owners) !! remaining
        invariant forall i :: 0 <= i < |owners| ==> owners[i] in m
        invariant conns == HandlesOf(owners, m)
        decreases |remaining|
      {
        var id :| id in remaining;
        CollectStep(owners, remaining, m.Keys, id);
        HandlesOfAppend(owners, id, m);
        conns := conns + [m[id]];
        owners := owners + [id];
        remaining := remaining - {id};
      }
    }

    /** One write of `e` per connection, in order. */
    method SendAll(conns: seq<Handle>, e: Event)
      modifies this
      ensures outbox == old(outbox) + Fanout(conns, e)
      ensures connected == old(connected) && closed == old(closed)
    {
      var k := 0;
      while k < |conns|
        invariant 0 <= k <= |conns|
        invariant connected == old(connected) && closed == old(closed)
        invariant outbox == old(outbox) + Fanout(conns[..k], e)
      {
        assert Fanout(conns[..k + 1], e) == Fanout(conns[..k], e) + [Delivery(conns[k], e)];
        outbox := outbox + [Delivery(conns[k], e)];
        k := k + 1;
      }
      assert conns[..k] == conns;
    }
  }

  /** One step of a collect loop: the key taken from the remaining ones is
      appended, and the collected keys stay distinct and disjoint from the rest. */
  lemma CollectStep(collected: seq<Id>, remaining: set<Id>, keys: set<Id>, id: Id)
    requires NoDup(collected) && Elems(collected) + remaining == keys && Elems(collected) !! remaining
    requires id in remaining
    ensures NoDup(collected + [id])
    ensures Elems(collected + [id]) + (remaining - {id}) == keys
    ensures Elems(collected + [id]) !! (remaining - {id})
  {
    AppendFresh(collected, id);
  }

  /** The presence snapshot names every registered user exactly once. */
  lemma SnapshotExact(users: seq<Id>, connected: map<Id, Handle>)
    requires NoDup(users) && Elems(users) == connected.Keys
    ensures |users| == |connected|
    ensures forall id :: id in connected <==> id in users
  {
    NoDupCard(users);
    assert |connected.Keys| == |connected|;
  }
}
