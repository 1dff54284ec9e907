/** The shared-socket module as its callbacks run: each mutates one connection record. */
module SessionSocket {
  import opened Basics
  import opened SharedSocket

  class Connections {
    var connections: map<Key, EntryId>
    var entries: map<EntryId, Entry>
    var sockets: map<SocketId, Socket>
    var timers: map<TimerId, EntryId>
    var active: set<Subscription>

    ghost function Value(): State
      reads this
    {
      State(connections, entries, sockets, timers, active)
    }

    constructor ()
      ensures Value() == Initial
    {
      connections, entries, sockets, timers, active := map[], map[], map[], map[], {};
    }

    /** The `connect` closure of a record. */
    method Connect(e: EntryId, ws: SocketId)
      requires e in entries
      modifies this
      ensures Value() == SharedSocket.Connect(old(Value()), e, ws)
    {
      entries := entries[e := entries[e].(reconnect := None)];
      if entries[e].listeners == {} {
        return;
      }
      sockets := sockets[ws := Socket(e, CONNECTING)];
      entries := entries[e := entries[e].(socket := Some(ws))];
    }

    method Subscribe(key: Key, listener: ListenerId, blank: EntryId, ws: SocketId) returns (isOpen: bool)
      requires key in connections ==> connections[key] in entries
      requires Enabled(Value(), Step.Subscribe(key, listener, blank, ws))
      modifies this
      ensures Value() == Next(old(Value()), Step.Subscribe(key, listener, blank, ws))
      ensures key in connections && connections[key] in entries
      ensures isOpen <==> exists w | w in sockets ::
        entries[connections[key]].socket == Some(w) && sockets[w].state == OPEN
    {
      var e := blank;
      if key in connections {
        e := connections[key];
      } else {
        entries := entries[e := Entry(key, {}, None, None, false)];
        connections := connections[key := e];
      }
      entries := entries[e := entries[e].(listeners := entries[e].listeners + {listener})];
      active := active + {Subscription(e, listener)};
      assert connections == old(connections)[key := e];
      if entries[e].socket.None? && entries[e].reconnect.None? {
        Connect(e, ws);
      }
      var current := entries[e].socket;
      isOpen := current.Some? && current.value in sockets && sockets[current.value].state == OPEN;
      entries := entries[e := entries[e].(heartbeat := true)];
    }

    method Unsubscribe(sub: Subscription)
      requires Enabled(Value(), Step.Unsubscribe(sub))
      modifies this
      ensures Value() == Next(old(Value()), Step.Unsubscribe(sub))
    {
      var entry := entries[sub.entry];
      active := active - {sub};
      entries := entries[sub.entry := entry.(listeners := entry.listeners - {sub.listener})];
      if entries[sub.entry].listeners != {} {
        return;
      }
      if entry.reconnect.Some? {
        timers := timers - {entry.reconnect.value};
      }
      entries := entries[sub.entry := entries[sub.entry].(socket := None, heartbeat := false)];
      connections := connections - {entry.key};
      sockets := CloseSocket(sockets, entry.socket);
    }

    method OnMessage(ws: SocketId) returns (delivered: set<ListenerId>)
      requires Enabled(Value(), Step.Message(ws))
      ensures delivered == Heard(Value(), ws)
    {
      var entry := entries[sockets[ws].entry];
      if entry.socket != Some(ws) {
        return {};
      }
      return entry.listeners;
    }

    method OnClose(ws: SocketId, code: int, timer: TimerId) returns (told: set<ListenerId>)
      requires Enabled(Value(), Step.Closed(ws, code, timer))
      modifies this
      ensures Value() == Next(old(Value()), Step.Closed(ws, code, timer))
      ensures told == old(Heard(Value(), ws))
    {
      var e := sockets[ws].entry;
      sockets := sockets[ws := sockets[ws].(state := CLOSED)];
      if entries[e].socket != Some(ws) {
        return {};
      }
      told := entries[e].listeners;
      entries := entries[e := entries[e].(socket := None)];
      if entries[e].listeners != {} && code != 4001 && code != 4003 {
        entries := entries[e := entries[e].(reconnect := Some(timer))];
        timers := timers[timer := e];
      }
    }

    method OnTimeout(timer: TimerId, ws: SocketId)
      requires Enabled(Value(), Step.Timeout(timer, ws))
      modifies this
      ensures Value() == Next(old(Value()), Step.Timeout(timer, ws))
    {
      var e := timers[timer];
      timers := timers - {timer};
      Connect(e, ws);
    }
  }
}
