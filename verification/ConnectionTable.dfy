/**
 The server's table of WebSocket connections. Between two awaits the manager runs undisturbed, so its
 effects are two atomic events: a socket is registered, and a socket is dropped - by its own receive loop
 ending or by a send that failed, either of them possibly long after another socket took its place.
 */
module ConnectionTable {
  import opened Basics

  type SessionId = int
  type UserId = int
  type SocketId = int

  datatype State = State(active: map<SessionId, map<UserId, SocketId>>, authorizers: set<SocketId>)

  const Empty := State(map[], {})

  datatype Event =
    | Connected(socket: SocketId, session: SessionId, user: UserId)
    | Dropped(socket: SocketId, session: SessionId, user: UserId)

  function Lookup(s: State, session: SessionId, user: UserId): Option<SocketId> {
    if session in s.active && user in s.active[session] then Some(s.active[session][user]) else None
  }

  function TableOf(s: State, session: SessionId): map<UserId, SocketId> {
    if session in s.active then s.active[session] else map[]
  }

  function Connect(s: State, socket: SocketId, session: SessionId, user: UserId): State {
    var previous := Lookup(s, session, user);
    State(s.active[session := TableOf(s, session)[user := socket]],
          s.authorizers + {socket} - (if previous.Some? && previous != Some(socket) then {previous.value} else {}))
  }

  function Disconnect(s: State, session: SessionId, user: UserId, socket: SocketId): State {
    if Lookup(s, session, user) != Some(socket) then s
    else
      var table := s.active[session] - {user};
      State(if table == map[] then s.active - {session} else s.active[session := table], s.authorizers - {socket})
  }

  function After(s: State, event: Event): State {
    match event
    case Connected(socket, session, user) => Connect(s, socket, session, user)
    case Dropped(socket, session, user) => Disconnect(s, session, user, socket)
  }

  function AfterAll(s: State, events: seq<Event>): State {
    if events == [] then s else After(AfterAll(s, events[..|events| - 1]), events[|events| - 1])
  }

  lemma {:induction false} AfterBoth(s: State, first: seq<Event>, second: seq<Event>)
    ensures AfterAll(s, first + second) == AfterAll(AfterAll(s, first), second)
    decreases |second|
  {
    if second == [] {
      assert first + second == first;
    } else {
      assert (first + second)[..|first + second| - 1] == first + second[..|second| - 1];
      AfterBoth(s, first, second[..|second| - 1]);
    }
  }

  function Replay(history: seq<Event>): State {
    AfterAll(Empty, history)
  }

  /** Every socket connects once, and is only dropped from where it connected. */
  ghost predicate IsHistory(history: seq<Event>) {
    && (forall i, j | 0 <= i < j < |history| && history[i].Connected? && history[j].Connected? ::
          history[i].socket != history[j].socket)
    && (forall j | 0 <= j < |history| && history[j].Dropped? ::
          exists i | 0 <= i < j :: history[i] == Connected(history[j].socket, history[j].session, history[j].user))
  }

  /**
   What the table should say, read off the history alone: the socket connected for that user and session,
   nobody connected for them since, and it has not been dropped since.
   */
  ghost predicate IsCurrent(history: seq<Event>, socket: SocketId, session: SessionId, user: UserId) {
    exists i | 0 <= i < |history| :: ConnectedLast(history, i, socket, session, user)
  }

  ghost predicate ConnectedLast(history: seq<Event>, i: nat, socket: SocketId, session: SessionId, user: UserId)
    requires i < |history|
  {
    && history[i] == Connected(socket, session, user)
    && forall j | i < j < |history| ::
         && !(history[j].Connected? && history[j].session == session && history[j].user == user)
         && history[j] != Dropped(socket, session, user)
  }

  ghost predicate IsRegistered(s: State, socket: SocketId) {
    exists session, user :: Lookup(s, session, user) == Some(socket)
  }

  lemma LookupAfter(s: State, event: Event, session: SessionId, user: UserId)
    ensures var found := Lookup(s, session, user);
      Lookup(After(s, event), session, user) ==
        if event.session != session || event.user != user then found
        else if event.Connected? then Some(event.socket)
        else if found == Some(event.socket) then None else found
  {
    if event.Dropped? && event.session == session && session in s.active {
      var table := s.active[session] - {event.user};
      assert user in table <==> user in s.active[session] && user != event.user;
      assert table == map[] ==> user !in table;
    }
  }

  /** The table is exactly what the history says. */
  lemma {:induction false} TableIsHistory(history: seq<Event>, socket: SocketId, session: SessionId, user: UserId)
    requires IsHistory(history)
    ensures Lookup(Replay(history), session, user) == Some(socket) <==> IsCurrent(history, socket, session, user)
    decreases |history|
  {
    if history != [] {
      var init, last := history[..|history| - 1], history[|history| - 1];
      PrefixIsHistory(history);
      TableIsHistory(init, socket, session, user);
      LookupAfter(Replay(init), last, session, user);
      if last.session == session && last.user == user {
        if last.Connected? {
          assert last.socket == socket ==> ConnectedLast(history, |history| - 1, socket, session, user);
          if i :| 0 <= i < |history| && ConnectedLast(history, i, socket, session, user) {
            assert i == |history| - 1;
          }
        } else {
          TableIsHistory(init, last.socket, session, user);
          CurrentExtends(history, socket, session, user);
        }
      } else {
        CurrentExtends(history, socket, session, user);
      }
    }
  }

  lemma PrefixIsHistory(history: seq<Event>)
    requires IsHistory(history) && history != []
    ensures IsHistory(history[..|history| - 1])
  {
    var init := history[..|history| - 1];
    forall j | 0 <= j < |init| && init[j].Dropped?
      ensures exists i | 0 <= i < j :: init[i] == Connected(init[j].socket, init[j].session, init[j].user)
    {
      var i :| 0 <= i < j && history[i] == Connected(history[j].socket, history[j].session, history[j].user);
      assert init[i] == history[i];
    }
  }

  lemma CurrentExtends(history: seq<Event>, socket: SocketId, session: SessionId, user: UserId)
    requires history != []
    requires var last := history[|history| - 1]; !(last.Connected? && last.session == session && last.user == user)
    ensures IsCurrent(history, socket, session, user)
        <==> IsCurrent(history[..|history| - 1], socket, session, user)
             && history[|history| - 1] != Dropped(socket, session, user)
  {
    var init, last := history[..|history| - 1], history[|history| - 1];
    if i :| 0 <= i < |history| && ConnectedLast(history, i, socket, session, user) {
      assert i < |init|;
      assert ConnectedLast(init, i, socket, session, user);
    }
    if i :| 0 <= i < |init| && ConnectedLast(init, i, socket, session, user) {
      assert last != Dropped(socket, session, user) ==> ConnectedLast(history, i, socket, session, user);
    }
  }

  /** A socket is registered in at most one place. */
  lemma CurrentPlaceUnique(history: seq<Event>, socket: SocketId, a: SessionId, b: SessionId, u: UserId, v: UserId)
    requires IsHistory(history)
    requires IsCurrent(history, socket, a, u) && IsCurrent(history, socket, b, v)
    ensures a == b && u == v
  {
    var i :| 0 <= i < |history| && ConnectedLast(history, i, socket, a, u);
    var j :| 0 <= j < |history| && ConnectedLast(history, j, socket, b, v);
  }

  /** Exactly the registered sockets have an authorizer. */
  lemma {:induction false} AuthorizersMatch(history: seq<Event>, socket: SocketId)
    requires IsHistory(history)
    ensures socket in Replay(history).authorizers <==> IsRegistered(Replay(history), socket)
    decreases |history|
  {
    if history != [] {
      var init, last := history[..|history| - 1], history[|history| - 1];
      PrefixIsHistory(history);
      AuthorizersMatch(init, socket);
      AuthorizerStep(init, last, socket);
    }
  }

  lemma AuthorizerStep(init: seq<Event>, last: Event, socket: SocketId)
    requires IsHistory(init)
    requires socket in Replay(init).authorizers <==> IsRegistered(Replay(init), socket)
    ensures socket in After(Replay(init), last).authorizers <==> IsRegistered(After(Replay(init), last), socket)
  {
    var before, s := Replay(init), After(Replay(init), last);
    forall session, user
      ensures session != last.session || user != last.user ==> Lookup(s, session, user) == Lookup(before, session, user)
    {
      LookupAfter(before, last, session, user);
    }
    LookupAfter(before, last, last.session, last.user);
    if a, u :| Lookup(before, a, u) == Some(socket) && (a != last.session || u != last.user) {
      // Registered elsewhere, so not in the place the event is about.
      assert Lookup(s, a, u) == Some(socket);
      if Lookup(before, last.session, last.user) == Some(socket) {
        TableIsHistory(init, socket, a, u);
        TableIsHistory(init, socket, last.session, last.user);
        CurrentPlaceUnique(init, socket, a, last.session, u, last.user);
      }
    } else {
      assert IsRegistered(s, socket) <==> Lookup(s, last.session, last.user) == Some(socket);
      assert IsRegistered(before, socket) <==> Lookup(before, last.session, last.user) == Some(socket);
    }
  }

  lemma {:induction false} NoEmptyTables(history: seq<Event>)
    ensures forall session | session in Replay(history).active :: Replay(history).active[session].Keys != {}
    decreases |history|
  {
    if history != [] {
      var before, last := Replay(history[..|history| - 1]), history[|history| - 1];
      NoEmptyTables(history[..|history| - 1]);
      forall session | session in Replay(history).active ensures Replay(history).active[session].Keys != {} {
        if session == last.session && last.Connected? {
          assert last.user in Replay(history).active[session];
        } else if session == last.session {
          assert Replay(history).active[session] != map[] || before.active[session].Keys != {};
        }
      }
    }
  }

  /** Whatever is dropped later, a socket that replaced another stays until it is dropped or replaced itself. */
  lemma ReplacementSurvives(history: seq<Event>, later: seq<Event>, socket: SocketId, session: SessionId, user: UserId)
    requires IsHistory(history + [Connected(socket, session, user)] + later)
    requires forall e | e in later :: !(e.Connected? && e.session == session && e.user == user)
    requires Dropped(socket, session, user) !in later
    ensures Lookup(Replay(history + [Connected(socket, session, user)] + later), session, user) == Some(socket)
  {
    var all := history + [Connected(socket, session, user)] + later;
    assert forall j | |history| < j < |all| :: all[j] in later;
    assert ConnectedLast(all, |history|, socket, session, user);
    TableIsHistory(all, socket, session, user);
  }

  // ─── Delivering to a session ───

  predicate Lists(order: seq<UserId>, table: map<UserId, SocketId>) {
    && Distinct(order)
    && (forall i | 0 <= i < |order| :: order[i] in table)
    && forall user | user in table :: user in order
  }

  function Joined(meanwhile: seq<seq<Event>>): seq<Event> {
    if meanwhile == [] then [] else Joined(meanwhile[..|meanwhile| - 1]) + meanwhile[|meanwhile| - 1]
  }

  /** The drop that ends a send to one socket of the snapshot, if the send failed. */
  function EndOfSend(session: SessionId, snapshot: map<UserId, SocketId>, failed: set<SocketId>, user: UserId)
    : seq<Event>
    requires user in snapshot
  {
    if snapshot[user] in failed then [Dropped(snapshot[user], session, user)] else []
  }

  /** What happens to the table while the sends end in this order: before each end, whatever others do. */
  function Delivery(session: SessionId, snapshot: map<UserId, SocketId>, failed: set<SocketId>, order: seq<UserId>,
                    meanwhile: seq<seq<Event>>): seq<Event>
    requires |meanwhile| == |order| && forall i | 0 <= i < |order| :: order[i] in snapshot
  {
    if order == [] then [] else
      var n := |order| - 1;
      Delivery(session, snapshot, failed, order[..n], meanwhile[..n]) + meanwhile[n]
      + EndOfSend(session, snapshot, failed, order[n])
  }

  lemma DeliveryStep(s: State, session: SessionId, snapshot: map<UserId, SocketId>, failed: set<SocketId>,
                     order: seq<UserId>, meanwhile: seq<seq<Event>>, i: nat)
    requires |meanwhile| == |order| && i < |order| && forall j | 0 <= j < |order| :: order[j] in snapshot
    ensures var before := AfterAll(s, Delivery(session, snapshot, failed, order[..i], meanwhile[..i]));
      AfterAll(s, Delivery(session, snapshot, failed, order[..i + 1], meanwhile[..i + 1]))
      == AfterAll(AfterAll(before, meanwhile[i]), EndOfSend(session, snapshot, failed, order[i]))
  {
    hide AfterAll;
    var before := Delivery(session, snapshot, failed, order[..i], meanwhile[..i]);
    assert order[..i + 1][..i] == order[..i] && meanwhile[..i + 1][..i] == meanwhile[..i];
    AfterBoth(s, before, meanwhile[i]);
    AfterBoth(s, before + meanwhile[i], EndOfSend(session, snapshot, failed, order[i]));
  }

  lemma NoEvent(s: State)
    ensures AfterAll(s, []) == s
  {
  }

  lemma AfterOne(s: State, event: Event)
    ensures AfterAll(s, [event]) == After(s, event)
  {
    assert [event][..0] == [];
  }

  /** The first table is the second one without the sockets that the drops name. */
  ghost predicate IsWithout(a: State, b: State, drops: set<Event>) {
    forall session, user ::
      Lookup(a, session, user) ==
        match Lookup(b, session, user)
        case None => None
        case Some(socket) => if Dropped(socket, session, user) in drops then None else Some(socket)
  }

  lemma {:induction false} WithoutAfter(a: State, b: State, drops: set<Event>, events: seq<Event>)
    requires IsWithout(a, b, drops)
    requires forall e | e in events && e.Connected? :: Dropped(e.socket, e.session, e.user) !in drops
    ensures IsWithout(AfterAll(a, events), AfterAll(b, events), drops)
    decreases |events|
  {
    if events != [] {
      var init, last := events[..|events| - 1], events[|events| - 1];
      WithoutAfter(a, b, drops, init);
      WithoutStep(AfterAll(a, init), AfterAll(b, init), drops, last);
    }
  }

  lemma WithoutStep(a: State, b: State, drops: set<Event>, event: Event)
    requires IsWithout(a, b, drops)
    requires event.Connected? ==> Dropped(event.socket, event.session, event.user) !in drops
    ensures IsWithout(After(a, event), After(b, event), drops)
  {
    hide After, Lookup;
    forall session, user
      ensures Lookup(After(a, event), session, user) ==
        match Lookup(After(b, event), session, user)
        case None => None
        case Some(socket) => if Dropped(socket, session, user) in drops then None else Some(socket)
    {
      LookupAfter(a, event, session, user);
      LookupAfter(b, event, session, user);
    }
  }

  lemma WithoutDropped(a: State, b: State, drops: set<Event>, drop: Event)
    requires IsWithout(a, b, drops) && drop.Dropped?
    ensures IsWithout(After(a, drop), b, drops + {drop})
  {
    hide After, Lookup;
    forall session, user ensures Lookup(After(a, drop), session, user) ==
        var found := Lookup(a, session, user);
        if drop.session == session && drop.user == user && found == Some(drop.socket) then None else found
    {
      LookupAfter(a, drop, session, user);
    }
  }

  ghost function Unreached(session: SessionId, snapshot: map<UserId, SocketId>, failed: set<SocketId>,
                           order: seq<UserId>): set<Event>
    requires forall i | 0 <= i < |order| :: order[i] in snapshot
  {
    set i | 0 <= i < |order| && snapshot[order[i]] in failed :: Dropped(snapshot[order[i]], session, order[i])
  }

  /**
   Whatever connects, replaces or drops sockets while a message is being sent, the delivery takes exactly the
   sockets it failed to reach from the table that would have resulted without it.
   */
  lemma {:induction false} DeliveryTakesOnlyUnreached(
      s: State, session: SessionId, snapshot: map<UserId, SocketId>, failed: set<SocketId>, order: seq<UserId>,
      meanwhile: seq<seq<Event>>)
    requires |meanwhile| == |order| && forall i | 0 <= i < |order| :: order[i] in snapshot
    requires forall i, e | 0 <= i < |meanwhile| && e in meanwhile[i] && e.Connected? :: e.socket !in snapshot.Values
    ensures IsWithout(AfterAll(s, Delivery(session, snapshot, failed, order, meanwhile)),
                      AfterAll(s, Joined(meanwhile)), Unreached(session, snapshot, failed, order))
    decreases |order|
  {
    hide After, Delivery, IsWithout, Unreached, EndOfSend;
    if order == [] {
      NothingUnreached(s, session, snapshot, failed);
    } else {
      var n := |order| - 1;
      var before := AfterAll(s, Delivery(session, snapshot, failed, order[..n], meanwhile[..n]));
      var calm, drops := Joined(meanwhile[..n]), Unreached(session, snapshot, failed, order[..n]);
      DeliveryTakesOnlyUnreached(s, session, snapshot, failed, order[..n], meanwhile[..n]);
      UnreachedAreListed(session, snapshot, failed, order[..n]);
      WithoutAfter(before, AfterAll(s, calm), drops, meanwhile[n]);
      AfterBoth(s, calm, meanwhile[n]);
      DeliveryStep(s, session, snapshot, failed, order, meanwhile, n);
      assert order[..n + 1] == order && meanwhile[..n + 1] == meanwhile;
      hide AfterAll;
      UnreachedGrows(session, snapshot, failed, order);
      SendEnds(AfterAll(before, meanwhile[n]), AfterAll(s, Joined(meanwhile)), drops, session, snapshot, failed,
               order[n]);
    }
  }

  lemma NothingUnreached(s: State, session: SessionId, snapshot: map<UserId, SocketId>, failed: set<SocketId>)
    ensures IsWithout(AfterAll(s, Delivery(session, snapshot, failed, [], [])), AfterAll(s, Joined([])),
                      Unreached(session, snapshot, failed, []))
  {
  }

  lemma UnreachedAreListed(session: SessionId, snapshot: map<UserId, SocketId>, failed: set<SocketId>,
                           order: seq<UserId>)
    requires forall i | 0 <= i < |order| :: order[i] in snapshot
    ensures forall drop | drop in Unreached(session, snapshot, failed, order) :: drop.socket in snapshot.Values
  {
  }

  lemma UnreachedGrows(session: SessionId, snapshot: map<UserId, SocketId>, failed: set<SocketId>, order: seq<UserId>)
    requires order != [] && forall i | 0 <= i < |order| :: order[i] in snapshot
    ensures var last := order[|order| - 1];
      Unreached(session, snapshot, failed, order)
      == Unreached(session, snapshot, failed, order[..|order| - 1])
         + ToSet(EndOfSend(session, snapshot, failed, last))
  {
    var n := |order| - 1;
    assert forall i | 0 <= i < n :: order[..n][i] == order[i];
    assert ToSet([Dropped(snapshot[order[n]], session, order[n])]) == {Dropped(snapshot[order[n]], session, order[n])};
  }

  lemma SendEnds(a: State, b: State, drops: set<Event>, session: SessionId, snapshot: map<UserId, SocketId>,
                 failed: set<SocketId>, user: UserId)
    requires IsWithout(a, b, drops) && user in snapshot
    ensures var end := EndOfSend(session, snapshot, failed, user);
      IsWithout(AfterAll(a, end), b, drops + ToSet(end))
  {
    hide IsWithout, After;
    if snapshot[user] in failed {
      var drop := Dropped(snapshot[user], session, user);
      AfterOne(a, drop);
      WithoutDropped(a, b, drops, drop);
      assert ToSet([drop]) == {drop};
    } else {
      NoEvent(a);
      var none: seq<Event> := [];
      assert drops + ToSet(none) == drops;
    }
  }
}
