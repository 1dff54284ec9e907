/** What every party-session transaction keeps, account deletion included. */
module PartyInvariants {
  import opened Basics
  import opened PartyModel

  ghost predicate SeatsValid(s: State) {
    forall seat | seat in s.seats :: seat.session in s.sessions && seat.user in s.users
  }

  /** A deck exists exactly for started sessions and holds 10 to 20 distinct known restaurants. */
  ghost predicate DecksValid(s: State) {
    && (forall sid :: sid in s.decks <==> sid in s.sessions && s.sessions[sid].status != LOBBY)
    && (forall sid | sid in s.decks :: DeckValid(s, s.decks[sid]))
  }

  ghost predicate DeckValid(s: State, deck: seq<RestaurantId>) {
    && MIN_LOCAL_RESTAURANTS <= |deck| <= MAX_DECK_SIZE
    && Distinct(deck)
    && forall rid | rid in deck :: rid in s.restaurants
  }

  /** Votes are cast by participants on cards of the deck, so a lobby has none. */
  ghost predicate BallotsValid(s: State) {
    forall b | b in s.ballots ::
      b.session in s.decks && b.restaurant in s.decks[b.session] && Seat(b.session, b.user) in s.seats
  }

  /** FINISHED holds exactly when a result row exists, and its restaurant is a card of the deck. */
  ghost predicate ResultsValid(s: State) {
    && (forall sid :: sid in s.results <==> HasStatus(s, sid, FINISHED))
    && (forall sid | sid in s.results ::
          s.results[sid].restaurant.Some? && s.results[sid].restaurant.value in DeckOf(s, sid))
  }

  ghost predicate SessionsValid(s: State) {
    forall sid | sid in s.sessions ::
      var session := s.sessions[sid];
      && (session.host.Some? ==> session.host.value in s.users)
      && (session.host.Some? ==> Seat(sid, session.host.value) in s.seats)
      && (session.status == LOBBY ==> session.host.Some?)
      && (session.status == ACTIVE ==> session.endsAt.Some?)
  }

  ghost predicate OneOpenSession(s: State) {
    forall a, b | a in s.seats && b in s.seats ::
      a.user == b.user && IsOpen(s, a.session) && IsOpen(s, b.session) ==> a == b
  }

  ghost predicate FriendsValid(s: State) {
    forall f | f in s.friends ::
      f.user != f.friend && f.user in s.users && f.friend in s.users && Friendship(f.friend, f.user) in s.friends
  }

  ghost predicate HostIsFriend(s: State) {
    forall seat | seat in s.seats && IsOpen(s, seat.session) ::
      var host := s.sessions[seat.session].host;
      host.Some? && host.value != seat.user ==> Friendship(seat.user, host.value) in s.friends
  }

  /** Unread invites name lobbies, and a recipient has at most one per lobby. */
  ghost predicate InvitesValid(s: State) {
    && (forall n | n in s.invites :: s.invites[n].user in s.users)
    && (forall n | n in s.invites && !s.invites[n].isRead :: HasStatus(s, s.invites[n].session, LOBBY))
    && (forall n, m | n in s.invites && m in s.invites && !s.invites[n].isRead ::
          s.invites[n] == s.invites[m] ==> n == m)
  }

  ghost predicate TablesValid(s: State) {
    SeatsValid(s) && DecksValid(s) && BallotsValid(s) && ResultsValid(s) && SessionsValid(s)
  }

  ghost predicate CompanyValid(s: State) {
    OneOpenSession(s) && FriendsValid(s) && HostIsFriend(s)
  }

  /** Solo votes belong to known users and name known restaurants. */
  ghost predicate SoloValid(s: State) {
    forall v | v in s.solo :: v.user in s.users && v.restaurant in s.restaurants
  }

  ghost predicate Inv(s: State) {
    TablesValid(s) && CompanyValid(s) && InvitesValid(s) && SoloValid(s)
  }

  lemma DealtDeck(s: State, found: seq<RestaurantId>, shuffled: seq<RestaurantId>)
    requires multiset(found) == multiset(shuffled)
    requires Distinct(found) && forall rid | rid in found :: rid in s.restaurants
    requires DealDeck(shuffled) != []
    ensures DeckValid(s, DealDeck(shuffled))
  {
    ShuffleKeepsDistinct(found, shuffled);
    forall rid | rid in shuffled ensures rid in s.restaurants {
      assert rid in multiset(shuffled);
      assert rid in multiset(found);
    }
  }

  lemma ShuffleKeepsDistinct(xs: seq<RestaurantId>, ys: seq<RestaurantId>)
    requires multiset(xs) == multiset(ys) && Distinct(xs)
    ensures Distinct(ys)
  {
    forall i, j | 0 <= i < j < |ys| ensures ys[i] != ys[j] {
      if ys[i] == ys[j] {
        assert ys == ys[..i] + [ys[i]] + ys[i + 1..j] + [ys[j]] + ys[j + 1..];
        assert multiset(ys)[ys[i]] >= 2;
        DistinctOnce(xs, ys[i]);
      }
    }
  }

  lemma {:induction false} DistinctOnce(xs: seq<RestaurantId>, x: RestaurantId)
    requires Distinct(xs)
    ensures multiset(xs)[x] <= 1
  {
    if xs != [] {
      var init, last := xs[..|xs| - 1], xs[|xs| - 1];
      DistinctOnce(init, x);
      assert xs == init + [last];
      if x == last {
        assert x !in init;
        assert x !in multiset(init);
      }
    }
  }

  // ─── Removing sessions, for cancelled lobbies and deleted accounts ───

  lemma DropKeepsTables(s: State, gone: set<SessionId>)
    requires TablesValid(s)
    ensures TablesValid(DropSessions(s, gone))
  {
  }

  lemma DropKeepsCompany(s: State, gone: set<SessionId>)
    requires CompanyValid(s)
    ensures CompanyValid(DropSessions(s, gone))
  {
  }

  lemma CreateKeepsTables(s: State, host: UserId, sid: SessionId, duration: int)
    requires TablesValid(s)
    requires sid !in s.sessions
    ensures TablesValid(CreateSession(s, host, sid, duration).0)
  {
    CreateKeepsDecks(s, host, sid, duration);
    hide DecksValid, BallotsValid;
  }

  lemma CreateKeepsDecks(s: State, host: UserId, sid: SessionId, duration: int)
    requires DecksValid(s) && BallotsValid(s) && sid !in s.sessions
    ensures DecksValid(CreateSession(s, host, sid, duration).0) && BallotsValid(CreateSession(s, host, sid, duration).0)
  {
  }

  lemma CreateKeepsCompany(s: State, host: UserId, sid: SessionId, duration: int)
    requires SeatsValid(s) && SessionsValid(s) && CompanyValid(s)
    requires sid !in s.sessions
    ensures CompanyValid(CreateSession(s, host, sid, duration).0)
  {
  }

  lemma CreateKeepsInvites(s: State, host: UserId, sid: SessionId, duration: int)
    requires InvitesValid(s)
    requires sid !in s.sessions
    ensures InvitesValid(CreateSession(s, host, sid, duration).0)
  {
  }

  lemma JoinKeepsTables(s: State, uid: UserId, sid: SessionId)
    requires TablesValid(s)
    ensures TablesValid(JoinSession(s, uid, sid).0)
  {
  }

  lemma JoinKeepsCompany(s: State, uid: UserId, sid: SessionId)
    requires SeatsValid(s) && SessionsValid(s) && CompanyValid(s)
    ensures CompanyValid(JoinSession(s, uid, sid).0)
  {
  }

  lemma JoinKeepsInvites(s: State, uid: UserId, sid: SessionId)
    requires InvitesValid(s)
    ensures InvitesValid(JoinSession(s, uid, sid).0)
  {
  }

  lemma StartKeepsTables(s: State, sid: SessionId, host: UserId, shuffled: seq<RestaurantId>, now: Instant)
    requires TablesValid(s)
    requires DealDeck(shuffled) == [] || DeckValid(s, DealDeck(shuffled))
    ensures TablesValid(StartSession(s, sid, host, shuffled, now).0)
  {
    StartKeepsDecks(s, sid, host, shuffled, now);
    hide DecksValid, BallotsValid, DealDeck, ExpireInvites;
  }

  lemma StartKeepsDecks(s: State, sid: SessionId, host: UserId, shuffled: seq<RestaurantId>, now: Instant)
    requires TablesValid(s)
    requires DealDeck(shuffled) == [] || DeckValid(s, DealDeck(shuffled))
    ensures DecksValid(StartSession(s, sid, host, shuffled, now).0)
    ensures BallotsValid(StartSession(s, sid, host, shuffled, now).0)
  {
    hide ResultsValid, SessionsValid, DealDeck, ExpireInvites;
  }

  lemma StartKeepsCompany(s: State, sid: SessionId, host: UserId, shuffled: seq<RestaurantId>, now: Instant)
    requires SeatsValid(s) && SessionsValid(s) && CompanyValid(s)
    requires DealDeck(shuffled) == [] || DeckValid(s, DealDeck(shuffled))
    ensures CompanyValid(StartSession(s, sid, host, shuffled, now).0)
  {
  }

  lemma StartKeepsInvites(s: State, sid: SessionId, host: UserId, shuffled: seq<RestaurantId>, now: Instant)
    requires InvitesValid(s)
    requires DealDeck(shuffled) == [] || DeckValid(s, DealDeck(shuffled))
    ensures InvitesValid(StartSession(s, sid, host, shuffled, now).0)
  {
  }

  /** A guest walks out of a lobby, by choice or kicked. */
  lemma GuestGoneKeepsTables(s: State, sid: SessionId, uid: UserId)
    requires TablesValid(s)
    requires HasStatus(s, sid, LOBBY) && s.sessions[sid].host != Some(uid)
    ensures TablesValid(s.(seats := s.seats - {Seat(sid, uid)}))
  {
  }

  lemma GuestGoneKeepsCompany(s: State, sid: SessionId, uid: UserId)
    requires CompanyValid(s)
    ensures CompanyValid(s.(seats := s.seats - {Seat(sid, uid)}))
  {
  }

  lemma InviteChangeKeeps(s: State, invites: map<InviteId, Invite>)
    ensures TablesValid(s) ==> TablesValid(s.(invites := invites))
    ensures CompanyValid(s) ==> CompanyValid(s.(invites := invites))
  {
  }

  lemma KickKeeps(s: State, sid: SessionId, uid: UserId, host: UserId)
    ensures TablesValid(s) ==> TablesValid(KickParticipant(s, sid, uid, host).0)
    ensures CompanyValid(s) ==> CompanyValid(KickParticipant(s, sid, uid, host).0)
    ensures InvitesValid(s) ==> InvitesValid(KickParticipant(s, sid, uid, host).0)
  {
    if KickParticipant(s, sid, uid, host).1.Ok? {
      if TablesValid(s) { GuestGoneKeepsTables(s, sid, uid); }
      if CompanyValid(s) { GuestGoneKeepsCompany(s, sid, uid); }
    }
  }

  lemma CancelKeepsTables(s: State, sid: SessionId)
    requires TablesValid(s)
    ensures TablesValid(DropSessions(s.(invites := ExpireInvites(s.invites, sid)), {sid}))
  {
    InviteChangeKeeps(s, ExpireInvites(s.invites, sid));
    DropKeepsTables(s.(invites := ExpireInvites(s.invites, sid)), {sid});
  }

  lemma CancelKeepsCompany(s: State, sid: SessionId)
    requires CompanyValid(s)
    ensures CompanyValid(DropSessions(s.(invites := ExpireInvites(s.invites, sid)), {sid}))
  {
    InviteChangeKeeps(s, ExpireInvites(s.invites, sid));
    DropKeepsCompany(s.(invites := ExpireInvites(s.invites, sid)), {sid});
  }

  lemma LeaveKeepsTables(s: State, sid: SessionId, uid: UserId)
    requires TablesValid(s)
    ensures TablesValid(LeaveSession(s, sid, uid).0)
  {
    if LeaveSession(s, sid, uid).1.Ok? {
      if s.sessions[sid].host == Some(uid) {
        CancelKeepsTables(s, sid);
      } else {
        GuestGoneKeepsTables(s, sid, uid);
      }
    }
  }

  lemma LeaveKeepsCompany(s: State, sid: SessionId, uid: UserId)
    requires CompanyValid(s)
    ensures CompanyValid(LeaveSession(s, sid, uid).0)
  {
    if LeaveSession(s, sid, uid).1.Ok? {
      if s.sessions[sid].host == Some(uid) {
        CancelKeepsCompany(s, sid);
      } else {
        GuestGoneKeepsCompany(s, sid, uid);
      }
    }
  }

  lemma LeaveKeepsInvites(s: State, sid: SessionId, uid: UserId)
    requires InvitesValid(s)
    ensures InvitesValid(LeaveSession(s, sid, uid).0)
  {
    CancelKeepsInvites(s, sid);
    hide DropSessions, ExpireInvites;
    if LeaveSession(s, sid, uid).1.Ok? && s.sessions[sid].host != Some(uid) {
      assert LeaveSession(s, sid, uid).0 == s.(seats := s.seats - {Seat(sid, uid)});
    }
  }

  lemma CancelKeepsInvites(s: State, sid: SessionId)
    requires InvitesValid(s)
    ensures InvitesValid(DropSessions(s.(invites := ExpireInvites(s.invites, sid)), {sid}))
  {
  }

  lemma InviteKeepsTables(s: State, sid: SessionId, friend: UserId, inviter: UserId, nid: InviteId)
    requires TablesValid(s)
    requires nid !in s.invites
    ensures TablesValid(InviteFriend(s, sid, friend, inviter, nid).0)
  {
  }

  lemma InviteKeepsCompany(s: State, sid: SessionId, friend: UserId, inviter: UserId, nid: InviteId)
    requires SeatsValid(s) && SessionsValid(s) && CompanyValid(s)
    requires nid !in s.invites
    ensures CompanyValid(InviteFriend(s, sid, friend, inviter, nid).0)
  {
  }

  lemma InviteKeepsInvites(s: State, sid: SessionId, friend: UserId, inviter: UserId, nid: InviteId)
    requires InvitesValid(s)
    requires nid !in s.invites
    ensures InvitesValid(InviteFriend(s, sid, friend, inviter, nid).0)
  {
  }

  lemma ReadKeepsTables(s: State, nid: InviteId, uid: UserId)
    requires TablesValid(s)
    ensures TablesValid(MarkAsRead(s, nid, uid).0)
  {
  }

  lemma ReadKeepsCompany(s: State, nid: InviteId, uid: UserId)
    requires SeatsValid(s) && SessionsValid(s) && CompanyValid(s)
    ensures CompanyValid(MarkAsRead(s, nid, uid).0)
  {
  }

  lemma ReadKeepsInvites(s: State, nid: InviteId, uid: UserId)
    requires InvitesValid(s)
    ensures InvitesValid(MarkAsRead(s, nid, uid).0)
  {
  }

  lemma UnfriendKeepsTables(s: State, uid: UserId, friend: UserId)
    requires TablesValid(s)
    ensures TablesValid(Unfriend(s, uid, friend).0)
  {
    FriendChangeKeepsTables(s, Unfriend(s, uid, friend).0.friends);
    hide TablesValid, InSameOpenSession;
  }

  lemma FriendChangeKeepsTables(s: State, friends: set<Friendship>)
    ensures TablesValid(s) ==> TablesValid(s.(friends := friends))
  {
  }

  lemma UnfriendKeepsCompany(s: State, uid: UserId, friend: UserId)
    requires SeatsValid(s) && SessionsValid(s) && CompanyValid(s)
    ensures CompanyValid(Unfriend(s, uid, friend).0)
  {
    if Unfriend(s, uid, friend).1.Ok? {
      forall seat | seat in s.seats && IsOpen(s, seat.session) && s.sessions[seat.session].host.Some?
        ensures var host := s.sessions[seat.session].host.value;
          !(seat.user == uid && host == friend) && !(seat.user == friend && host == uid)
      {
        assert Seat(seat.session, s.sessions[seat.session].host.value) in s.seats;
        assert seat == Seat(seat.session, seat.user);
      }
      hide InSameOpenSession, SeatsValid, SessionsValid, OneOpenSession;
      UnfriendKeepsEnoughFriends(s, uid, friend);
    }
  }

  lemma UnfriendKeepsEnoughFriends(s: State, uid: UserId, friend: UserId)
    requires CompanyValid(s)
    requires forall seat | seat in s.seats && IsOpen(s, seat.session) && s.sessions[seat.session].host.Some? ::
               var host := s.sessions[seat.session].host.value;
               !(seat.user == uid && host == friend) && !(seat.user == friend && host == uid)
    ensures CompanyValid(s.(friends := s.friends - {Friendship(uid, friend), Friendship(friend, uid)}))
  {
  }

  lemma UnfriendKeepsInvites(s: State, uid: UserId, friend: UserId)
    requires InvitesValid(s)
    ensures InvitesValid(Unfriend(s, uid, friend).0)
  {
  }

  lemma ReportKeepsTables(s: State, sid: SessionId, uid: UserId)
    requires TablesValid(s)
    ensures TablesValid(ReportDeckFinished(s, sid, uid).0)
  {
  }

  lemma ReportKeepsCompany(s: State, sid: SessionId, uid: UserId)
    requires SeatsValid(s) && SessionsValid(s) && CompanyValid(s)
    ensures CompanyValid(ReportDeckFinished(s, sid, uid).0)
  {
  }

  lemma ReportKeepsInvites(s: State, sid: SessionId, uid: UserId)
    requires InvitesValid(s)
    ensures InvitesValid(ReportDeckFinished(s, sid, uid).0)
  {
  }

  lemma CleanupKeepsTables(s: State, now: Instant)
    requires TablesValid(s)
    ensures TablesValid(CleanupRestaurants(s, now))
  {
  }

  lemma CleanupKeepsCompany(s: State, now: Instant)
    requires SeatsValid(s) && SessionsValid(s) && CompanyValid(s)
    ensures CompanyValid(CleanupRestaurants(s, now))
  {
  }

  lemma CleanupKeepsInvites(s: State, now: Instant)
    requires InvitesValid(s)
    ensures InvitesValid(CleanupRestaurants(s, now))
  {
  }

  lemma EraseKeepsTables(s: State, uid: UserId, friends: set<Friendship>, invites: map<InviteId, Invite>)
    requires TablesValid(s) && OwnedLobbies(s, uid) == {}
    ensures TablesValid(EraseUser(s.(friends := friends, invites := invites), uid))
  {
    assert forall sid | HasStatus(s, sid, LOBBY) && s.sessions[sid].host == Some(uid) :: sid in OwnedLobbies(s, uid);
    EraseKeepsDecks(s, uid, friends, invites);
    hide DecksValid, BallotsValid, ResultsValid;
  }

  lemma EraseKeepsDecks(s: State, uid: UserId, friends: set<Friendship>, invites: map<InviteId, Invite>)
    requires TablesValid(s)
    ensures var t := EraseUser(s.(friends := friends, invites := invites), uid);
      DecksValid(t) && BallotsValid(t) && ResultsValid(t)
  {
    hide SessionsValid;
  }

  lemma EraseKeepsCompany(s: State, uid: UserId, friends: set<Friendship>, invites: map<InviteId, Invite>)
    requires CompanyValid(s)
    requires friends == set f | f in s.friends && f.user != uid && f.friend != uid
    ensures CompanyValid(EraseUser(s.(friends := friends, invites := invites), uid))
  {
  }

  lemma DeleteAccountKeepsTables(s: State, uid: UserId)
    requires TablesValid(s)
    ensures TablesValid(DeleteAccount(s, uid))
  {
    var lobbies := OwnedLobbies(s, uid);
    DropKeepsTables(s, lobbies);
    assert OwnedLobbies(DropSessions(s, lobbies), uid) == {};
    hide SeatsValid, DecksValid, BallotsValid, ResultsValid, SessionsValid;
    EraseKeepsTables(DropSessions(s, lobbies), uid,
                     (set f | f in s.friends && f.user != uid && f.friend != uid),
                     ExpireLobbyInvites(s.invites, lobbies));
  }

  lemma DeleteAccountKeepsCompany(s: State, uid: UserId)
    requires CompanyValid(s)
    ensures CompanyValid(DeleteAccount(s, uid))
  {
    var lobbies := OwnedLobbies(s, uid);
    DropKeepsCompany(s, lobbies);
    hide OneOpenSession, FriendsValid, HostIsFriend;
    EraseKeepsCompany(DropSessions(s, lobbies), uid,
                      (set f | f in s.friends && f.user != uid && f.friend != uid),
                      ExpireLobbyInvites(s.invites, lobbies));
  }

  lemma DeleteAccountKeepsInvites(s: State, uid: UserId)
    requires InvitesValid(s)
    ensures InvitesValid(DeleteAccount(s, uid))
  {
  }

  // ─── Votes and results ───

  lemma VoteKeepsTables(s: State, sid: SessionId, uid: UserId, rid: RestaurantId, liked: bool)
    requires TablesValid(s)
    requires sid in s.decks && rid in s.decks[sid] && Seat(sid, uid) in s.seats
    ensures TablesValid(CastVote(s, sid, uid, rid, liked))
  {
  }

  lemma VoteKeepsOthers(s: State, sid: SessionId, uid: UserId, rid: RestaurantId, liked: bool)
    requires CompanyValid(s) && InvitesValid(s)
    ensures CompanyValid(CastVote(s, sid, uid, rid, liked)) && InvitesValid(CastVote(s, sid, uid, rid, liked))
  {
  }

  lemma FinishKeepsTables(s: State, sid: SessionId, result: MatchResult)
    requires TablesValid(s) && HasStatus(s, sid, ACTIVE)
    requires result.restaurant.Some? && result.restaurant.value in DeckOf(s, sid)
    ensures TablesValid(Finish(s, sid, result))
  {
  }

  lemma FinishKeepsOthers(s: State, sid: SessionId, result: MatchResult)
    requires CompanyValid(s) && InvitesValid(s) && HasStatus(s, sid, ACTIVE)
    ensures CompanyValid(Finish(s, sid, result)) && InvitesValid(Finish(s, sid, result))
  {
  }
}
