/** The connection manager's methods, each the atomic stretch between two awaits. */
module ConnectionManager {
  import opened Basics
  import opened ConnectionTable

  class Manager {
    var activeConnections: map<SessionId, map<UserId, SocketId>>
    var authorizers: set<SocketId>

    ghost function Value(): State
      reads this
    {
      State(activeConnections, authorizers)
    }

    constructor ()
      ensures Value() == Empty
    {
      activeConnections, authorizers := map[], {};
    }

    /** `connect` after the socket was accepted; the replaced socket is returned to be closed. */
    method Connect(socket: SocketId, session: SessionId, user: UserId) returns (replaced: Option<SocketId>)
      modifies this
      ensures Value() == After(old(Value()), Connected(socket, session, user))
      ensures replaced == if Lookup(old(Value()), session, user) == Some(socket) then None
                          else Lookup(old(Value()), session, user)
    {
      var table := if session in activeConnections then activeConnections[session] else map[];
      var previous := if user in table then Some(table[user]) else None;
      activeConnections := activeConnections[session := table[user := socket]];
      authorizers := authorizers + {socket};
      if previous.None? || previous.value == socket {
        return None;
      }
      authorizers := authorizers - {previous.value};
      return previous;
    }

    method Disconnect(session: SessionId, user: UserId, socket: SocketId)
      modifies this
      ensures Value() == After(old(Value()), Dropped(socket, session, user))
    {
      if session in activeConnections {
        var table := activeConnections[session];
        if user !in table || table[user] != socket {
          return;
        }
        table := table - {user};
        authorizers := authorizers - {socket};
        activeConnections :=
          if table == map[] then activeConnections - {session} else activeConnections[session := table];
      }
    }

    /** What other coroutines do to the table before this one runs on. */
    method Happen(events: seq<Event>)
      modifies this
      ensures Value() == AfterAll(old(Value()), events)
    {
      for i := 0 to |events|
        invariant Value() == AfterAll(old(Value()), events[..i])
      {
        ghost var before := Value();
        match events[i] {
          case Connected(socket, session, user) =>
            var replaced := Connect(socket, session, user);
          case Dropped(socket, session, user) =>
            Disconnect(session, user, socket);
        }
        assert Value() == After(before, events[i]);
        assert events[..i + 1][..i] == events[..i];
      }
      assert events[..|events|] == events;
    }

    /**
     The sends of `deliver_local` to the sockets registered when it began. They end in any `order`, and the
     events `meanwhile[i]` happen while the i-th of them is awaited.
     */
    method DeliverLocal(session: SessionId, failed: set<SocketId>, order: seq<UserId>, meanwhile: seq<seq<Event>>)
        returns (snapshot: map<UserId, SocketId>)
      requires |meanwhile| == |order| && Lists(order, TableOf(Value(), session))
      modifies this
      ensures snapshot == TableOf(old(Value()), session)
      ensures Value() == AfterAll(old(Value()), Delivery(session, snapshot, failed, order, meanwhile))
    {
      snapshot := if session in activeConnections then activeConnections[session] else map[];
      for i := 0 to |order|
        invariant Value() == AfterAll(old(Value()), Delivery(session, snapshot, failed, order[..i], meanwhile[..i]))
      {
        hide After, AfterAll, Delivery;
        Happen(meanwhile[i]);
        if snapshot[order[i]] in failed {
          AfterOne(Value(), Dropped(snapshot[order[i]], session, order[i]));
          Disconnect(session, order[i], snapshot[order[i]]);
        } else {
          NoEvent(Value());
        }
        DeliveryStep(old(Value()), session, snapshot, failed, order, meanwhile, i);
      }
      assert order[..|order|] == order && meanwhile[..|order|] == meanwhile;
    }
  }
}
