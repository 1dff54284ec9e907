/**
 The shared session socket: one connection per url and token, however many screens listen.

 `entries` is the heap of connection records; the closures of a subscription keep using their record after
 it has left the map. Timers and sockets fire one event at a time, and a listener's callback does not
 itself subscribe or unsubscribe.
 */
module SharedSocket {
  import opened Basics

  type Key = int
  type EntryId = nat
  type SocketId = nat
  type TimerId = nat
  type ListenerId = nat

  datatype Entry = Entry(
    key: Key, listeners: set<ListenerId>, socket: Option<SocketId>, reconnect: Option<TimerId>, heartbeat: bool)

  datatype SocketState = CONNECTING | OPEN | CLOSING | CLOSED

  datatype Socket = Socket(entry: EntryId, state: SocketState)

  /** What `subscribe` returned: the record and listener its unsubscribe function closes over. */
  datatype Subscription = Subscription(entry: EntryId, listener: ListenerId)

  datatype State = State(
    connections: map<Key, EntryId>,
    entries: map<EntryId, Entry>,
    sockets: map<SocketId, Socket>,
    /** Pending `setTimeout(connect)` callbacks. */
    timers: map<TimerId, EntryId>,
    /** Subscriptions whose unsubscribe function has not been called yet. */
    active: set<Subscription>)

  const Initial := State(map[], map[], map[], map[], {})

  datatype Step =
    | Subscribe(key: Key, listener: ListenerId, entry: EntryId, socket: SocketId)
    | Unsubscribe(subscription: Subscription)
    | Opened(socket: SocketId)
    | Message(socket: SocketId)
    | Closed(socket: SocketId, code: int, timer: TimerId)
    | Failed(socket: SocketId)
    | Timeout(timer: TimerId, socket: SocketId)

  /** Identifiers handed to a step are new; sockets report on themselves until they are closed. */
  predicate Enabled(s: State, step: Step) {
    match step
    case Subscribe(key, listener, entry, socket) =>
      entry !in s.entries && socket !in s.sockets &&
      forall sub | sub in s.active :: sub.listener != listener
    case Unsubscribe(subscription) => subscription in s.active && subscription.entry in s.entries
    case Opened(socket) => Reports(s, socket)
    case Message(socket) => Reports(s, socket)
    case Closed(socket, _, timer) =>
      Reports(s, socket) && timer !in s.timers && forall e | e in s.entries :: s.entries[e].reconnect != Some(timer)
    case Failed(socket) => Reports(s, socket)
    case Timeout(timer, socket) => timer in s.timers && s.timers[timer] in s.entries && socket !in s.sockets
  }

  predicate Reports(s: State, socket: SocketId) {
    socket in s.sockets && s.sockets[socket].state != CLOSED && HasEntry(s, socket)
  }

  predicate HasEntry(s: State, socket: SocketId)
    requires socket in s.sockets
  {
    s.sockets[socket].entry in s.entries
  }

  /** `connect`: only with listeners, and it takes over the record's socket slot. */
  function Connect(s: State, e: EntryId, socket: SocketId): State
    requires e in s.entries
  {
    var entry := s.entries[e].(reconnect := None);
    if entry.listeners == {} then s.(entries := s.entries[e := entry])
    else
      s.(entries := s.entries[e := entry.(socket := Some(socket))],
         sockets := s.sockets[socket := Socket(e, CONNECTING)])
  }

  function AfterSubscribe(s: State, key: Key, listener: ListenerId, blank: EntryId, socket: SocketId): State {
    var e := if key in s.connections && s.connections[key] in s.entries then s.connections[key] else blank;
    var found := if e in s.entries then s.entries[e] else Entry(key, {}, None, None, false);
    var joined := found.(listeners := found.listeners + {listener});
    var t := s.(connections := s.connections[key := e],
                entries := s.entries[e := joined],
                active := s.active + {Subscription(e, listener)});
    var u := if joined.socket.None? && joined.reconnect.None? then Connect(t, e, socket) else t;
    u.(entries := u.entries[e := u.entries[e].(heartbeat := true)])
  }

  /** `socket?.close()`: events of the closing socket may still arrive, its close event last. */
  function CloseSocket(sockets: map<SocketId, Socket>, socket: Option<SocketId>): map<SocketId, Socket> {
    if socket.Some? && socket.value in sockets && sockets[socket.value].state != CLOSED
    then sockets[socket.value := sockets[socket.value].(state := CLOSING)] else sockets
  }

  function AfterUnsubscribe(s: State, sub: Subscription): State
    requires sub.entry in s.entries
  {
    var entry := s.entries[sub.entry];
    var left := entry.(listeners := entry.listeners - {sub.listener});
    var t := s.(active := s.active - {sub});
    if left.listeners != {} then t.(entries := s.entries[sub.entry := left])
    else
      t.(entries := s.entries[sub.entry := left.(socket := None, heartbeat := false)],
         timers := if entry.reconnect.Some? then s.timers - {entry.reconnect.value} else s.timers,
         connections := s.connections - {entry.key},
         sockets := CloseSocket(s.sockets, entry.socket))
  }

  /** `socket?.readyState === OPEN`. */
  predicate IsConnected(s: State, e: EntryId)
    requires e in s.entries
  {
    var socket := s.entries[e].socket;
    socket.Some? && socket.value in s.sockets && s.sockets[socket.value].state == OPEN
  }

  /** The record's listeners hear of an event only from its current socket. */
  function Heard(s: State, socket: SocketId): set<ListenerId>
    requires socket in s.sockets && HasEntry(s, socket)
  {
    var entry := s.entries[s.sockets[socket].entry];
    if entry.socket == Some(socket) then entry.listeners else {}
  }

  /** Codes 4001 and 4003 say the token is refused, so there is no point in trying again. */
  function AfterClosed(s: State, socket: SocketId, code: int, timer: TimerId): State
    requires socket in s.sockets && HasEntry(s, socket)
  {
    var e := s.sockets[socket].entry;
    var closed := s.(sockets := s.sockets[socket := Socket(e, CLOSED)]);
    if s.entries[e].socket != Some(socket) then closed
    else
      var entry := s.entries[e].(socket := None);
      if entry.listeners != {} && code != 4001 && code != 4003 then
        closed.(entries := s.entries[e := entry.(reconnect := Some(timer))], timers := s.timers[timer := e])
      else closed.(entries := s.entries[e := entry])
  }

  function Next(s: State, step: Step): State
    requires Enabled(s, step)
  {
    match step
    case Subscribe(key, listener, entry, socket) => AfterSubscribe(s, key, listener, entry, socket)
    case Unsubscribe(subscription) => AfterUnsubscribe(s, subscription)
    case Opened(socket) =>
      if s.sockets[socket].state == CONNECTING
      then s.(sockets := s.sockets[socket := s.sockets[socket].(state := OPEN)]) else s
    case Message(_) => s
    case Closed(socket, code, timer) => AfterClosed(s, socket, code, timer)
    case Failed(socket) => s.(sockets := CloseSocket(s.sockets, Some(socket)))
    case Timeout(timer, socket) => Connect(s.(timers := s.timers - {timer}), s.timers[timer], socket)
  }

  predicate Runs(s: State, steps: seq<Step>)
    decreases |steps|
  {
    steps == [] || (Enabled(s, steps[0]) && Runs(Next(s, steps[0]), steps[1..]))
  }

  function Run(s: State, steps: seq<Step>): State
    requires Runs(s, steps)
    decreases |steps|
  {
    if steps == [] then s else Run(Next(s, steps[0]), steps[1..])
  }

  // ─── Invariant ───

  /** In the map exactly while it has listeners; never both connected and about to reconnect. */
  ghost predicate EntryValid(s: State, e: EntryId, entry: Entry) {
    && (entry.listeners != {} <==> entry.key in s.connections && s.connections[entry.key] == e)
    && (entry.heartbeat <==> entry.listeners != {})
    && (entry.listeners == {} ==> entry.socket.None?)
    && (entry.listeners == {} && entry.reconnect.Some? ==> entry.reconnect.value !in s.timers)
    && !(entry.socket.Some? && entry.reconnect.Some? && entry.listeners != {})
    && (entry.socket.Some? ==> Owns(s, e, entry.socket.value))
    && TimersValid(s, e, entry)
    && (forall listener :: listener in entry.listeners <==> Subscription(e, listener) in s.active)
  }

  ghost predicate Owns(s: State, e: EntryId, socket: SocketId) {
    socket in s.sockets && s.sockets[socket].entry == e && s.sockets[socket].state != CLOSED
  }

  /** The one timer that may be pending for a record is the one it remembers. */
  ghost predicate TimersValid(s: State, e: EntryId, entry: Entry) {
    forall t | t in s.timers && s.timers[t] == e :: entry.listeners != {} && entry.reconnect == Some(t)
  }

  ghost predicate EntriesValid(s: State) {
    forall e | e in s.entries :: EntryValid(s, e, s.entries[e])
  }

  ghost predicate ReferencesValid(s: State) {
    && (forall key | key in s.connections ::
          s.connections[key] in s.entries && s.entries[s.connections[key]].key == key)
    && (forall socket | socket in s.sockets :: s.sockets[socket].entry in s.entries)
    && (forall t | t in s.timers :: s.timers[t] in s.entries)
    && (forall sub | sub in s.active :: sub.entry in s.entries)
  }

  /** A record that waits to reconnect really has its timer pending. */
  ghost predicate WillReconnect(s: State) {
    forall e | e in s.entries && s.entries[e].listeners != {} && s.entries[e].reconnect.Some? ::
      s.entries[e].reconnect.value in s.timers && s.timers[s.entries[e].reconnect.value] == e
  }

  predicate IsLive(socket: Socket) {
    socket.state == CONNECTING || socket.state == OPEN
  }

  /** Every connecting or open socket is the one its record is using. */
  ghost predicate LiveAreCurrent(s: State) {
    forall w | w in s.sockets && IsLive(s.sockets[w]) && HasEntry(s, w) ::
      s.entries[s.sockets[w].entry].socket == Some(w)
  }

  ghost predicate Inv(s: State) {
    EntriesValid(s) && ReferencesValid(s) && WillReconnect(s) && LiveAreCurrent(s)
  }

  /** A record keeps its validity when nothing it depends on changes. */
  lemma EntryFrame(s: State, t: State, e: EntryId)
    requires e in s.entries && e in t.entries && t.entries[e] == s.entries[e] && EntryValid(s, e, s.entries[e])
    requires var key := s.entries[e].key;
      (key in s.connections && s.connections[key] == e) <==> (key in t.connections && t.connections[key] == e)
    requires s.entries[e].socket.Some? ==> Owns(t, e, s.entries[e].socket.value)
    requires forall timer | timer in t.timers && t.timers[timer] == e :: timer in s.timers && s.timers[timer] == e
    requires forall timer | timer in t.timers && s.entries[e].reconnect == Some(timer) :: timer in s.timers
    requires forall listener :: Subscription(e, listener) in s.active <==> Subscription(e, listener) in t.active
    ensures EntryValid(t, e, t.entries[e])
  {
  }

  lemma SubscribeKeepsReferences(s: State, key: Key, listener: ListenerId, blank: EntryId, socket: SocketId)
    requires ReferencesValid(s) && Enabled(s, Subscribe(key, listener, blank, socket))
    ensures ReferencesValid(AfterSubscribe(s, key, listener, blank, socket))
  {
  }

  lemma SubscribeElsewhere(s: State, key: Key, listener: ListenerId, blank: EntryId, socket: SocketId, e: EntryId)
    requires Enabled(s, Subscribe(key, listener, blank, socket)) && e in s.entries && EntryValid(s, e, s.entries[e])
    requires e != AfterSubscribe(s, key, listener, blank, socket).connections[key]
    requires ReferencesValid(s)
    ensures var t := AfterSubscribe(s, key, listener, blank, socket); e in t.entries && EntryValid(t, e, t.entries[e])
  {
    EntryFrame(s, AfterSubscribe(s, key, listener, blank, socket), e);
  }

  lemma SubscribeJoins(s: State, key: Key, listener: ListenerId, blank: EntryId, socket: SocketId)
    requires Enabled(s, Subscribe(key, listener, blank, socket))
    requires key in s.connections && s.connections[key] in s.entries
    requires s.entries[s.connections[key]].key == key
    requires EntryValid(s, s.connections[key], s.entries[s.connections[key]])
    ensures var t := AfterSubscribe(s, key, listener, blank, socket);
      EntryValid(t, s.connections[key], t.entries[s.connections[key]])
  {
  }

  lemma SubscribeOpens(s: State, key: Key, listener: ListenerId, blank: EntryId, socket: SocketId)
    requires Enabled(s, Subscribe(key, listener, blank, socket))
    requires key !in s.connections && ReferencesValid(s)
    ensures var t := AfterSubscribe(s, key, listener, blank, socket); EntryValid(t, blank, t.entries[blank])
  {
  }

  lemma SubscribeKeepsEntries(s: State, key: Key, listener: ListenerId, blank: EntryId, socket: SocketId)
    requires Inv(s) && Enabled(s, Subscribe(key, listener, blank, socket))
    ensures EntriesValid(AfterSubscribe(s, key, listener, blank, socket))
  {
    hide EntryValid, WillReconnect, LiveAreCurrent;
    var t := AfterSubscribe(s, key, listener, blank, socket);
    var mine := t.connections[key];
    if key in s.connections {
      SubscribeJoins(s, key, listener, blank, socket);
    } else {
      SubscribeOpens(s, key, listener, blank, socket);
    }
    forall e | e in t.entries ensures EntryValid(t, e, t.entries[e]) {
      if e != mine {
        assert EntryValid(s, e, s.entries[e]);
        SubscribeElsewhere(s, key, listener, blank, socket, e);
      }
    }
  }

  lemma SubscribeKeeps(s: State, key: Key, listener: ListenerId, blank: EntryId, socket: SocketId)
    requires Inv(s) && Enabled(s, Subscribe(key, listener, blank, socket))
    ensures Inv(AfterSubscribe(s, key, listener, blank, socket))
  {
    hide EntriesValid, ReferencesValid, WillReconnect, LiveAreCurrent, AfterSubscribe, Enabled;
    SubscribeKeepsReferences(s, key, listener, blank, socket);
    SubscribeKeepsEntries(s, key, listener, blank, socket);
    SubscribeKeepsTimers(s, key, listener, blank, socket);
    SubscribeKeepsLive(s, key, listener, blank, socket);
  }

  lemma SubscribeKeepsTimers(s: State, key: Key, listener: ListenerId, blank: EntryId, socket: SocketId)
    requires Inv(s) && Enabled(s, Subscribe(key, listener, blank, socket))
    ensures WillReconnect(AfterSubscribe(s, key, listener, blank, socket))
  {
    if key in s.connections {
      assert EntryValid(s, s.connections[key], s.entries[s.connections[key]]);
    }
    hide EntriesValid, LiveAreCurrent;
  }

  lemma SubscribeKeepsLive(s: State, key: Key, listener: ListenerId, blank: EntryId, socket: SocketId)
    requires Inv(s) && Enabled(s, Subscribe(key, listener, blank, socket))
    ensures LiveAreCurrent(AfterSubscribe(s, key, listener, blank, socket))
  {
    hide EntriesValid, WillReconnect;
  }

  lemma UnsubscribeKeeps(s: State, sub: Subscription)
    requires Inv(s) && Enabled(s, Unsubscribe(sub))
    ensures Inv(AfterUnsubscribe(s, sub))
  {
    UnsubscribeKeepsReferences(s, sub);
    UnsubscribeKeepsEntries(s, sub);
    UnsubscribeKeepsTimers(s, sub);
    UnsubscribeKeepsLive(s, sub);
    hide EntriesValid, ReferencesValid, WillReconnect, LiveAreCurrent, AfterUnsubscribe;
  }

  lemma UnsubscribeKeepsLive(s: State, sub: Subscription)
    requires Inv(s) && Enabled(s, Unsubscribe(sub))
    ensures LiveAreCurrent(AfterUnsubscribe(s, sub))
  {
    hide EntriesValid, WillReconnect, ReferencesValid;
  }

  lemma UnsubscribeKeepsReferences(s: State, sub: Subscription)
    requires Inv(s) && Enabled(s, Unsubscribe(sub))
    ensures ReferencesValid(AfterUnsubscribe(s, sub))
  {
    hide EntriesValid, WillReconnect;
  }

  lemma UnsubscribeKeepsTimers(s: State, sub: Subscription)
    requires Inv(s) && Enabled(s, Unsubscribe(sub))
    ensures WillReconnect(AfterUnsubscribe(s, sub))
  {
    assert EntryValid(s, sub.entry, s.entries[sub.entry]);
    assert sub.listener in s.entries[sub.entry].listeners;
    hide EntriesValid, ReferencesValid;
  }

  lemma UnsubscribeKeepsEntries(s: State, sub: Subscription)
    requires Inv(s) && Enabled(s, Unsubscribe(sub))
    ensures EntriesValid(AfterUnsubscribe(s, sub))
  {
    var t := AfterUnsubscribe(s, sub);
    var entry := s.entries[sub.entry];
    assert EntryValid(s, sub.entry, entry);
    forall e | e in t.entries ensures EntryValid(t, e, t.entries[e]) {
      assert EntryValid(s, e, s.entries[e]);
      if e != sub.entry {
        assert entry.key in s.connections && s.connections[entry.key] == sub.entry;
        EntryFrame(s, t, e);
      }
    }
  }

  lemma ClosedKeepsEntries(s: State, socket: SocketId, code: int, timer: TimerId)
    requires Inv(s) && Enabled(s, Closed(socket, code, timer))
    ensures EntriesValid(AfterClosed(s, socket, code, timer))
  {
    var t := AfterClosed(s, socket, code, timer);
    forall e | e in t.entries ensures EntryValid(t, e, t.entries[e]) {
      assert EntryValid(s, e, s.entries[e]);
      if e != s.sockets[socket].entry || s.entries[e].socket != Some(socket) {
        hide EntryValid, EntriesValid, ReferencesValid, WillReconnect, LiveAreCurrent;
        ClosedElsewhere(s, socket, code, timer, e);
      }
    }
  }

  lemma ClosedElsewhere(s: State, socket: SocketId, code: int, timer: TimerId, e: EntryId)
    requires Enabled(s, Closed(socket, code, timer)) && e in s.entries && EntryValid(s, e, s.entries[e])
    requires e != s.sockets[socket].entry || s.entries[e].socket != Some(socket)
    ensures e in AfterClosed(s, socket, code, timer).entries
    ensures EntryValid(AfterClosed(s, socket, code, timer), e, AfterClosed(s, socket, code, timer).entries[e])
  {
    EntryFrame(s, AfterClosed(s, socket, code, timer), e);
  }

  lemma ClosedKeeps(s: State, socket: SocketId, code: int, timer: TimerId)
    requires Inv(s) && Enabled(s, Closed(socket, code, timer))
    ensures Inv(AfterClosed(s, socket, code, timer))
  {
    hide EntriesValid, WillReconnect, ReferencesValid, LiveAreCurrent, AfterClosed;
    ClosedKeepsEntries(s, socket, code, timer);
    ClosedKeepsTimers(s, socket, code, timer);
    ClosedKeepsReferences(s, socket, code, timer);
  }

  lemma ClosedKeepsReferences(s: State, socket: SocketId, code: int, timer: TimerId)
    requires Inv(s) && Enabled(s, Closed(socket, code, timer))
    ensures ReferencesValid(AfterClosed(s, socket, code, timer)) && LiveAreCurrent(AfterClosed(s, socket, code, timer))
  {
    hide EntriesValid, WillReconnect;
  }

  lemma ClosedKeepsTimers(s: State, socket: SocketId, code: int, timer: TimerId)
    requires WillReconnect(s) && Enabled(s, Closed(socket, code, timer))
    ensures WillReconnect(AfterClosed(s, socket, code, timer))
  {
  }

  lemma TimeoutKeepsEntries(s: State, timer: TimerId, socket: SocketId)
    requires Inv(s) && Enabled(s, Timeout(timer, socket))
    ensures EntriesValid(Next(s, Timeout(timer, socket)))
  {
    var t := Next(s, Timeout(timer, socket));
    forall e | e in t.entries ensures EntryValid(t, e, t.entries[e]) {
      assert EntryValid(s, e, s.entries[e]);
      if e != s.timers[timer] {
        EntryFrame(s, t, e);
      }
    }
  }

  lemma TimeoutKeeps(s: State, timer: TimerId, socket: SocketId)
    requires Inv(s) && Enabled(s, Timeout(timer, socket))
    ensures Inv(Next(s, Timeout(timer, socket)))
  {
    TimeoutKeepsEntries(s, timer, socket);
    assert EntryValid(s, s.timers[timer], s.entries[s.timers[timer]]);
    hide EntriesValid, EntryValid;
  }

  /** A socket that opens, or is asked to close, is still its record's socket. */
  lemma SocketStateKeeps(s: State, socket: SocketId, state: SocketState)
    requires Inv(s) && Reports(s, socket) && state != CLOSED
    requires state == CLOSING || IsLive(s.sockets[socket])
    ensures Inv(s.(sockets := s.sockets[socket := s.sockets[socket].(state := state)]))
  {
    var t := s.(sockets := s.sockets[socket := s.sockets[socket].(state := state)]);
    forall e | e in t.entries ensures EntryValid(t, e, t.entries[e]) {
      EntryFrame(s, t, e);
    }
  }

  lemma StepKeepsInv(s: State, step: Step)
    requires Inv(s) && Enabled(s, step)
    ensures Inv(Next(s, step))
  {
    hide EntriesValid, ReferencesValid, WillReconnect, LiveAreCurrent;
    hide AfterSubscribe, AfterUnsubscribe, AfterClosed, Connect;
    match step {
      case Subscribe(key, listener, entry, socket) => SubscribeKeeps(s, key, listener, entry, socket);
      case Unsubscribe(subscription) => UnsubscribeKeeps(s, subscription);
      case Closed(socket, code, timer) => ClosedKeeps(s, socket, code, timer);
      case Timeout(timer, socket) => TimeoutKeeps(s, timer, socket);
      case Opened(socket) =>
        if s.sockets[socket].state == CONNECTING { SocketStateKeeps(s, socket, OPEN); }
      case Failed(socket) => SocketStateKeeps(s, socket, CLOSING);
      case Message(_) =>
    }
  }

  lemma {:induction false} RunKeepsInv(s: State, steps: seq<Step>)
    requires Inv(s) && Runs(s, steps)
    ensures Inv(Run(s, steps))
    decreases |steps|
  {
    if steps != [] {
      StepKeepsInv(s, steps[0]);
      RunKeepsInv(Next(s, steps[0]), steps[1..]);
    }
  }

  lemma InitiallyValid()
    ensures Inv(Initial)
  {
  }

  // ─── What the screens can rely on ───

  /** At most one connecting or open socket per url and token, in every reachable state. */
  lemma OneLiveSocketPerKey(s: State, v: SocketId, w: SocketId)
    requires Inv(s) && v in s.sockets && w in s.sockets && IsLive(s.sockets[v]) && IsLive(s.sockets[w])
    requires HasEntry(s, v) && HasEntry(s, w)
    requires s.entries[s.sockets[v].entry].key == s.entries[s.sockets[w].entry].key
    ensures v == w
  {
    assert EntryValid(s, s.sockets[v].entry, s.entries[s.sockets[v].entry]);
    assert EntryValid(s, s.sockets[w].entry, s.entries[s.sockets[w].entry]);
  }

  /**
   A record's socket is never replaced: a step keeps it, or lets go of it because that very socket closed
   or the last listener left.
   */
  lemma SocketNeverReplaced(s: State, step: Step, e: EntryId)
    requires Inv(s) && Enabled(s, step) && e in s.entries && s.entries[e].socket.Some?
    ensures e in Next(s, step).entries
    ensures var kept := Next(s, step).entries[e].socket;
      || kept == s.entries[e].socket
      || (kept.None? && step.Closed? && Some(step.socket) == s.entries[e].socket)
      || (kept.None? && step.Unsubscribe? && s.entries[e].listeners == {step.subscription.listener})
  {
    assert EntryValid(s, e, s.entries[e]);
  }

  /** Every listener subscribed to the record hears its current socket, and nobody hears any other. */
  lemma HeardExactly(s: State, w: SocketId)
    requires Inv(s) && Reports(s, w)
    ensures var e := s.sockets[w].entry;
      && (s.entries[e].socket == Some(w) ==>
            forall listener :: listener in Heard(s, w) <==> Subscription(e, listener) in s.active)
      && (s.entries[e].socket != Some(w) ==> Heard(s, w) == {})
      && (Heard(s, w) != {} ==> s.entries[e].key in s.connections && s.connections[s.entries[e].key] == e)
  {
    assert EntryValid(s, s.sockets[w].entry, s.entries[s.sockets[w].entry]);
  }

  /** Whoever subscribes is among the listeners of the key's record, which is connected or about to reconnect. */
  lemma SubscribersAreServed(s: State, key: Key, listener: ListenerId, blank: EntryId, socket: SocketId)
    requires Inv(s) && Enabled(s, Subscribe(key, listener, blank, socket))
    ensures var t := AfterSubscribe(s, key, listener, blank, socket);
      && key in t.connections && t.connections[key] in t.entries
      && var entry := t.entries[t.connections[key]];
      && listener in entry.listeners && entry.heartbeat
      && (entry.socket.Some? || entry.reconnect.Some?)
      && (key in s.connections ==> entry.listeners == s.entries[s.connections[key]].listeners + {listener})
  {
  }

  /** Neither connected nor about to reconnect. */
  predicate IsIdle(s: State, e: EntryId) {
    e in s.entries && s.entries[e].socket.None? && s.entries[e].reconnect.None?
  }

  predicate HasListeners(s: State, e: EntryId) {
    e in s.entries && s.entries[e].listeners != {}
  }

  /** The server closes the record's socket with a code that says its token is refused. */
  predicate IsRefusal(s: State, step: Step, e: EntryId) {
    && step.Closed? && (step.code == 4001 || step.code == 4003)
    && e in s.entries && s.entries[e].socket == Some(step.socket)
  }

  /** Another screen subscribes to the record, which makes it connect again. */
  predicate IsJoined(s: State, step: Step, e: EntryId) {
    step.Subscribe? && step.key in s.connections && s.connections[step.key] == e
  }

  predicate NobodyJoins(s: State, steps: seq<Step>, e: EntryId)
    requires Runs(s, steps)
    decreases |steps|
  {
    steps == [] || (!IsJoined(s, steps[0], e) && NobodyJoins(Next(s, steps[0]), steps[1..], e))
  }

  /** Somewhere in the run the record is refused, and nobody joins it afterwards. */
  predicate EndsRefused(s: State, steps: seq<Step>, e: EntryId)
    requires Runs(s, steps)
    decreases |steps|
  {
    steps != [] && var next := Next(s, steps[0]);
      (IsRefusal(s, steps[0], e) && NobodyJoins(next, steps[1..], e)) || EndsRefused(next, steps[1..], e)
  }

  /** A step leaves a listened-to record idle exactly when it refuses it, or finds it idle and does not join it. */
  lemma IdleStep(s: State, step: Step, e: EntryId)
    requires Inv(s) && Enabled(s, step) && HasListeners(Next(s, step), e)
    ensures IsIdle(Next(s, step), e) <==> IsRefusal(s, step, e) || (IsIdle(s, e) && !IsJoined(s, step, e))
  {
    if e in s.entries {
      assert EntryValid(s, e, s.entries[e]);
    }
    hide EntriesValid, LiveAreCurrent, WillReconnect, AfterSubscribe, IsJoined;
    if step.Subscribe? {
      IdleAfterSubscribe(s, step.key, step.listener, step.entry, step.socket, e);
    }
  }

  lemma IdleAfterSubscribe(s: State, key: Key, listener: ListenerId, blank: EntryId, socket: SocketId, e: EntryId)
    requires Inv(s) && Enabled(s, Subscribe(key, listener, blank, socket))
    requires e in AfterSubscribe(s, key, listener, blank, socket).entries
    ensures IsIdle(AfterSubscribe(s, key, listener, blank, socket), e)
       <==> IsIdle(s, e) && !IsJoined(s, Subscribe(key, listener, blank, socket), e)
  {
    hide EntriesValid, LiveAreCurrent, WillReconnect;
  }

  /** Once the last listener has left a record, nobody ever listens to it again. */
  lemma AbandonedStays(s: State, step: Step, e: EntryId)
    requires Inv(s) && Enabled(s, step) && e in s.entries && !HasListeners(s, e)
    ensures e in Next(s, step).entries && !HasListeners(Next(s, step), e)
  {
    assert EntryValid(s, e, s.entries[e]);
    hide EntriesValid, LiveAreCurrent, WillReconnect;
  }

  lemma {:induction false} AbandonedForever(s: State, steps: seq<Step>, e: EntryId)
    requires Inv(s) && Runs(s, steps) && e in s.entries && !HasListeners(s, e)
    ensures !HasListeners(Run(s, steps), e)
    decreases |steps|
  {
    if steps != [] {
      StepKeepsInv(s, steps[0]);
      AbandonedStays(s, steps[0], e);
      AbandonedForever(Next(s, steps[0]), steps[1..], e);
    }
  }

  lemma {:induction false} IdleRun(s: State, steps: seq<Step>, e: EntryId)
    requires Inv(s) && Runs(s, steps) && HasListeners(Run(s, steps), e)
    ensures IsIdle(Run(s, steps), e) <==> (IsIdle(s, e) && NobodyJoins(s, steps, e)) || EndsRefused(s, steps, e)
    decreases |steps|
  {
    if steps != [] {
      hide IsRefusal, IsJoined, IsIdle, Inv, Enabled, Next, HasListeners;
      var next := Next(s, steps[0]);
      StepKeepsInv(s, steps[0]);
      IdleRun(next, steps[1..], e);
      ListenedToFrom(s, steps[0], steps[1..], e);
    }
  }

  /** A record that is listened to in the end was so after the step, or did not exist then. */
  lemma ListenedToFrom(s: State, step: Step, rest: seq<Step>, e: EntryId)
    requires Inv(s) && Enabled(s, step) && Runs(Next(s, step), rest) && HasListeners(Run(Next(s, step), rest), e)
    ensures IsIdle(Next(s, step), e) <==> IsRefusal(s, step, e) || (IsIdle(s, e) && !IsJoined(s, step, e))
  {
    hide Inv, Next, Enabled, Run, Runs, IsJoined;
    StepKeepsInv(s, step);
    if HasListeners(Next(s, step), e) {
      IdleStep(s, step, e);
    } else if e in Next(s, step).entries {
      AbandonedForever(Next(s, step), rest, e);
    } else if e in s.entries {
      RecordsStay(s, step, e);
    }
  }

  lemma RecordsStay(s: State, step: Step, e: EntryId)
    requires Enabled(s, step) && e in s.entries
    ensures e in Next(s, step).entries
  {
  }

  /**
   While anybody listens to a record it is connected or about to reconnect, unless the server refused it and
   nobody has joined it since; and then it is neither.
   */
  lemma ListenersAreServed(steps: seq<Step>, e: EntryId)
    requires Runs(Initial, steps) && HasListeners(Run(Initial, steps), e)
    ensures IsIdle(Run(Initial, steps), e) <==> EndsRefused(Initial, steps, e)
  {
    InitiallyValid();
    IdleRun(Initial, steps, e);
  }

  // ─── What a step does not touch ───

  /** Listeners come by subscribing and go by unsubscribing, and in no other way. */
  lemma ActiveExactly(s: State, step: Step)
    requires Inv(s) && Enabled(s, step)
    ensures var t := Next(s, step);
      match step
      case Subscribe(key, listener, _, _) =>
        key in t.connections && t.active == s.active + {Subscription(t.connections[key], listener)}
      case Unsubscribe(sub) => t.active == s.active - {sub}
      case _ => t.active == s.active
  {
  }

  /** The record a step is about, if it is there already. */
  function RecordOf(s: State, step: Step): Option<EntryId>
    requires Enabled(s, step)
  {
    match step
    case Subscribe(key, _, _, _) => if key in s.connections then Some(s.connections[key]) else None
    case Unsubscribe(sub) => Some(sub.entry)
    case Opened(w) => Some(s.sockets[w].entry)
    case Message(w) => Some(s.sockets[w].entry)
    case Closed(w, _, _) => Some(s.sockets[w].entry)
    case Failed(w) => Some(s.sockets[w].entry)
    case Timeout(timer, _) => Some(s.timers[timer])
  }

  /** A step about one record leaves every other record and its socket alone. */
  lemma OtherRecordsUntouched(s: State, step: Step, e: EntryId)
    requires Inv(s) && Enabled(s, step) && e in s.entries && RecordOf(s, step) != Some(e)
    ensures e in Next(s, step).entries && Next(s, step).entries[e] == s.entries[e]
    ensures s.entries[e].socket.Some? ==>
              var w := s.entries[e].socket.value;
              w in s.sockets && w in Next(s, step).sockets && Next(s, step).sockets[w] == s.sockets[w]
  {
    assert EntryValid(s, e, s.entries[e]);
    if RecordOf(s, step).Some? {
      var other := RecordOf(s, step).value;
      assert other in s.entries ==> EntryValid(s, other, s.entries[other]);
    }
    hide EntriesValid, LiveAreCurrent, WillReconnect, TimersValid;
  }

  /**
   Of the others who listen to the record nobody notices that one leaves; when the last one leaves, the record
   gives up its key and its socket, which is asked to close.
   */
  lemma LeavingExactly(s: State, sub: Subscription)
    requires Inv(s) && Enabled(s, Unsubscribe(sub))
    ensures var t, before := Next(s, Unsubscribe(sub)), s.entries[sub.entry];
      && sub.entry in t.entries && t.entries[sub.entry].listeners == before.listeners - {sub.listener}
      && if before.listeners != {sub.listener} then
           t.entries[sub.entry] == before.(listeners := before.listeners - {sub.listener})
           && t.connections == s.connections && t.sockets == s.sockets && t.timers == s.timers
         else
           before.key !in t.connections && t.entries[sub.entry].socket == None
           && (before.socket.Some? ==> before.socket.value in t.sockets && !IsLive(t.sockets[before.socket.value]))
  {
    assert EntryValid(s, sub.entry, s.entries[sub.entry]);
    assert sub.listener in s.entries[sub.entry].listeners;
    hide EntriesValid, LiveAreCurrent, WillReconnect;
  }

  /** When its time comes, a record that waits to reconnect gets a new socket. */
  lemma TimeoutReconnects(s: State, timer: TimerId, w: SocketId)
    requires Inv(s) && Enabled(s, Timeout(timer, w))
    ensures var t, e := Next(s, Timeout(timer, w)), s.timers[timer];
      && e in t.entries && t.entries[e].socket == Some(w) && t.entries[e].reconnect == None
      && w in t.sockets && t.sockets[w] == Socket(e, CONNECTING)
      && t.entries[e].listeners == s.entries[e].listeners
  {
    assert EntryValid(s, s.timers[timer], s.entries[s.timers[timer]]);
  }

  /** A socket that opens makes its record connected, one that closes makes it unconnected. */
  lemma ConnectedExactly(s: State, step: Step)
    requires Inv(s) && Enabled(s, step) && (step.Opened? || step.Closed?)
    requires s.entries[s.sockets[step.socket].entry].socket == Some(step.socket)
    requires IsLive(s.sockets[step.socket])
    ensures s.sockets[step.socket].entry in Next(s, step).entries
    ensures IsConnected(Next(s, step), s.sockets[step.socket].entry) <==> step.Opened?
  {
    hide EntriesValid, LiveAreCurrent, WillReconnect;
  }

  /**
   Calling an unsubscribe function a second time does no harm if and only if other listeners remain or no
   newer record has taken over the key.
   */
  lemma SecondUnsubscribeExact(s: State, sub: Subscription)
    requires Inv(s) && sub.entry in s.entries && sub !in s.active
    ensures Inv(AfterUnsubscribe(s, sub))
        <==> s.entries[sub.entry].listeners != {} || s.entries[sub.entry].key !in s.connections
  {
    var entry := s.entries[sub.entry];
    var t := AfterUnsubscribe(s, sub);
    assert EntryValid(s, sub.entry, entry);
    assert sub.listener !in entry.listeners;
    assert t.active == s.active;
    assert entry.listeners - {sub.listener} == entry.listeners;
    if entry.listeners != {} {
      assert t == s;
    } else if entry.key !in s.connections {
      assert t.connections == s.connections;
      assert entry.reconnect.Some? ==> t.timers == s.timers;
      assert t == s;
    } else {
      var newer := s.connections[entry.key];
      assert EntryValid(s, newer, s.entries[newer]);
      assert newer != sub.entry && s.entries[newer].listeners != {};
      assert !EntryValid(t, newer, t.entries[newer]);
    }
  }

  /**
   One screen leaves, another comes, and the first one's unsubscribe function is called again: the map forgets
   the second screen's connection, so a third screen would open a second one.
   */
  lemma SecondUnsubscribeHarms()
    ensures var steps := [Subscribe(1, 1, 1, 1), Unsubscribe(Subscription(1, 1)), Subscribe(1, 2, 2, 2)];
      && Runs(Initial, steps)
      && var s := Run(Initial, steps);
      && 1 in s.connections && s.entries[2].listeners == {2} && 1 in s.entries
      && 1 !in AfterUnsubscribe(s, Subscription(1, 1)).connections
      && AfterUnsubscribe(s, Subscription(1, 1)).entries[2].socket == Some(2)
  {
    var first, leave, second := Subscribe(1, 1, 1, 1), Unsubscribe(Subscription(1, 1)), Subscribe(1, 2, 2, 2);
    FirstScreenComes();
    FirstScreenLeaves();
    var c := Next(OneLeft, second);
    assert c.connections == map[1 := 2] && c.entries[2].listeners == {2} && c.entries[2].socket == Some(2);
    assert c.entries[1] == OneLeft.entries[1];
    StepThen(OneLeft, second, []);
    StepThen(OneScreen, leave, [second]);
    StepThen(Initial, first, [leave, second]);
    assert [second] + [] == [second] && [leave] + [second] == [leave, second];
    assert [first] + [leave, second] == [first, leave, second];
  }

  lemma StepThen(s: State, step: Step, rest: seq<Step>)
    requires Enabled(s, step) && Runs(Next(s, step), rest)
    ensures Runs(s, [step] + rest) && Run(s, [step] + rest) == Run(Next(s, step), rest)
  {
    assert ([step] + rest)[1..] == rest;
  }

  const OneScreen := State(map[1 := 1], map[1 := Entry(1, {1}, Some(1), None, true)],
                           map[1 := Socket(1, CONNECTING)], map[], {Subscription(1, 1)})
  const OneLeft := State(map[], map[1 := Entry(1, {}, None, None, false)], map[1 := Socket(1, CLOSING)], map[], {})

  lemma FirstScreenComes()
    ensures Enabled(Initial, Subscribe(1, 1, 1, 1)) && Next(Initial, Subscribe(1, 1, 1, 1)) == OneScreen
  {
    var t := Next(Initial, Subscribe(1, 1, 1, 1));
    assert {} + {1} == {1} && {} + {Subscription(1, 1)} == {Subscription(1, 1)};
    assert t.entries[1] == Entry(1, {1}, Some(1), None, true) && t.sockets[1] == Socket(1, CONNECTING);
  }

  lemma FirstScreenLeaves()
    ensures Enabled(OneScreen, Unsubscribe(Subscription(1, 1)))
    ensures Next(OneScreen, Unsubscribe(Subscription(1, 1))) == OneLeft
  {
    var t := Next(OneScreen, Unsubscribe(Subscription(1, 1)));
    assert t.entries[1] == Entry(1, {}, None, None, false);
    assert t.active == {} && t.connections == map[];
  }

  /** In every state a sequence of events can lead to, nobody holds two live connections for one key. */
  lemma NoCompetingConnections(steps: seq<Step>, v: SocketId, w: SocketId)
    requires Runs(Initial, steps)
    requires var s := Run(Initial, steps);
      && v in s.sockets && w in s.sockets && IsLive(s.sockets[v]) && IsLive(s.sockets[w])
      && HasEntry(s, v) && HasEntry(s, w)
      && s.entries[s.sockets[v].entry].key == s.entries[s.sockets[w].entry].key
    ensures v == w
  {
    InitiallyValid();
    RunKeepsInv(Initial, steps);
    OneLiveSocketPerKey(Run(Initial, steps), v, w);
  }
}
