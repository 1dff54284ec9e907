/** What an accepted call means for the people in the tables, and exactly when it is accepted. */
module PartyEffects {
  import opened Basics
  import opened PartyModel
  import opened PartyInvariants
  import opened PartyVotes
  import opened PartySettlement
  import opened PartyRuns
  import opened PartyOutcomes

  predicate AreFriends(s: State, a: UserId, b: UserId) {
    Friendship(a, b) in s.friends && Friendship(b, a) in s.friends
  }

  /** The user sits nowhere but, at most, in sessions that are over. */
  predicate IsFree(s: State, uid: UserId) {
    forall seat | seat in s.seats && seat.user == uid :: HasStatus(s, seat.session, FINISHED)
  }

  /** Nobody but the given users came or went, in this session only. */
  ghost predicate RosterChanges(s: State, t: State, sid: SessionId, came: set<UserId>, left: set<UserId>) {
    forall other, uid :: Seat(other, uid) in t.seats
      <==> if other == sid then uid in came || (Seat(sid, uid) in s.seats && uid !in left)
            else Seat(other, uid) in s.seats
  }

  lemma FreeIsNotOpen(s: State, uid: UserId)
    requires SeatsValid(s)
    ensures IsFree(s, uid) <==> !InOpenSession(s, uid)
  {
    if !IsFree(s, uid) {
      var seat :| seat in s.seats && seat.user == uid && !HasStatus(s, seat.session, FINISHED);
      assert IsOpen(s, seat.session);
    }
  }

  /** A known user who is free gets a lobby of their own, and sits in it alone. */
  lemma CreatedExactly(s: State, host: UserId, sid: SessionId, duration: int)
    requires Inv(s) && sid !in s.sessions
    ensures CreateSession(s, host, sid, duration).1.Ok? <==> host in s.users && IsFree(s, host)
    ensures var (t, reply) := CreateSession(s, host, sid, duration);
      reply.Ok? ==>
        && t.sessions == s.sessions[sid := Session(Some(host), LOBBY, duration, None)]
        && RosterChanges(s, t, sid, {host}, {}) && Roster(t, sid) == {host} && !IsFree(t, host)
        && t.seats[Seat(sid, host)] == IN_LOBBY
    ensures host in s.users && !IsFree(s, host) ==>
              CreateSession(s, host, sid, duration) == (s, Err(ALREADY_IN_SESSION))
  {
    var t := CreateSession(s, host, sid, duration).0;
    SeatRowsCountPeople(t, sid);
    FreeIsNotOpen(s, host);
    assert CreateSession(s, host, sid, duration).1.Ok? ==> Seat(sid, host) in t.seats;
  }

  /** Who may join: somebody already seated, or a free user when the lobby is still open. Only their seat is new. */
  lemma JoinedExactly(s: State, uid: UserId, sid: SessionId)
    requires Inv(s)
    ensures JoinSession(s, uid, sid).1.Ok?
       <==> uid in s.users && (Seat(sid, uid) in s.seats || (HasStatus(s, sid, LOBBY) && IsFree(s, uid)))
    ensures JoinSession(s, uid, sid).1.Ok? ==>
              && RosterChanges(s, JoinSession(s, uid, sid).0, sid, {uid}, {})
              && JoinSession(s, uid, sid).0.sessions == s.sessions && JoinSession(s, uid, sid).1 == Ok(sid)
    ensures var (t, reply) := JoinSession(s, uid, sid);
      reply.Ok? ==> if Seat(sid, uid) in s.seats then t == s else t.seats[Seat(sid, uid)] == IN_LOBBY
    ensures uid in s.users && Seat(sid, uid) !in s.seats && Started(s, sid) ==>
              JoinSession(s, uid, sid) == (s, Err(ALREADY_STARTED))
    ensures uid in s.users && Seat(sid, uid) !in s.seats && HasStatus(s, sid, LOBBY) && !IsFree(s, uid) ==>
              JoinSession(s, uid, sid) == (s, Err(ALREADY_IN_SESSION))
  {
    FreeIsNotOpen(s, uid);
    hide DecksValid, BallotsValid, ResultsValid, CompanyValid, InvitesValid, InOpenSession, IsFree, AddFriend;
  }

  /** After an accepted invitation the friend is in the lobby already or holds exactly one unread invite to it. */
  lemma InvitedExactly(s: State, sid: SessionId, friend: UserId, inviter: UserId, nid: InviteId)
    requires Inv(s) && nid !in s.invites
    ensures InviteFriend(s, sid, friend, inviter, nid).1.Ok?
       <==> HasStatus(s, sid, LOBBY) && Seat(sid, inviter) in s.seats && AreFriends(s, inviter, friend)
    ensures var (t, reply) := InviteFriend(s, sid, friend, inviter, nid);
      reply.Ok? ==>
        && (Seat(sid, friend) in s.seats || exists n :: IsInvitedBy(t, n, friend, sid))
        && (forall n, m | IsInvitedBy(t, n, friend, sid) && IsInvitedBy(t, m, friend, sid) :: n == m)
        && (forall n | n in s.invites :: n in t.invites && t.invites[n] == s.invites[n])
        && (forall n | n in t.invites && n !in s.invites :: n == nid && IsInvitedBy(t, n, friend, sid))
  {
    InviteKeepsInvites(s, sid, friend, inviter, nid);
    var (t, reply) := InviteFriend(s, sid, friend, inviter, nid);
    if reply.Ok? && Seat(sid, friend) !in s.seats {
      if HasUnreadInvite(s, friend, sid) {
        var n :| n in s.invites && s.invites[n] == Invite(friend, sid, false);
        assert IsInvitedBy(t, n, friend, sid);
      } else {
        assert IsInvitedBy(t, nid, friend, sid);
      }
    }
  }

  predicate IsInvitedBy(s: State, n: InviteId, friend: UserId, sid: SessionId) {
    n in s.invites && s.invites[n] == Invite(friend, sid, false)
  }

  /** Friends may part unless they sit in one open session; afterwards neither is the other's friend. */
  lemma UnfriendedExactly(s: State, uid: UserId, friend: UserId)
    requires Inv(s)
    ensures Unfriend(s, uid, friend).1.Ok?
       <==> AreFriends(s, uid, friend)
            && !exists sid :: IsOpen(s, sid) && Seat(sid, uid) in s.seats && Seat(sid, friend) in s.seats
    ensures Unfriend(s, uid, friend).1.Ok? ==>
              forall a, b :: AreFriends(Unfriend(s, uid, friend).0, a, b)
                <==> AreFriends(s, a, b) && {a, b} != {uid, friend}
  {
    if InSameOpenSession(s, uid, friend) {
      var seat :| seat in s.seats && seat.user == uid && IsOpen(s, seat.session)
                  && Seat(seat.session, friend) in s.seats;
      assert seat == Seat(seat.session, uid);
    }
    if sid :| IsOpen(s, sid) && Seat(sid, uid) in s.seats && Seat(sid, friend) in s.seats {
      assert Seat(sid, uid).user == uid;
    }
    if Unfriend(s, uid, friend).1.Ok? {
      forall a, b
        ensures AreFriends(Unfriend(s, uid, friend).0, a, b) <==> AreFriends(s, a, b) && {a, b} != {uid, friend}
      {
        PairsEqual(a, b, uid, friend);
      }
    }
  }

  lemma PairsEqual(a: int, b: int, c: int, d: int)
    requires c != d
    ensures {a, b} == {c, d} <==> (a == c && b == d) || (a == d && b == c)
  {
    if {a, b} == {c, d} {
      assert a in {c, d} && b in {c, d} && c in {a, b} && d in {a, b};
    }
  }

  /** A report marks the participant as waiting, and says yes exactly when every card was judged by everybody. */
  lemma ReportedExactly(s: State, sid: SessionId, uid: UserId)
    requires Inv(s)
    ensures var (t, reply) := ReportDeckFinished(s, sid, uid);
      && (reply.Ok? <==> Seat(sid, uid) in s.seats)
      && (reply == Ok(true) <==> Seat(sid, uid) in s.seats && HasStatus(s, sid, ACTIVE) && EveryCardJudged(s, sid))
      && RosterChanges(s, t, sid, {}, {})
      && (reply.Ok? && HasStatus(s, sid, ACTIVE) ==> t.seats[Seat(sid, uid)] == WAITING)
  {
    if Seat(sid, uid) in s.seats && HasStatus(s, sid, ACTIVE) {
      var t := ReportDeckFinished(s, sid, uid).0;
      ReportKeepsTables(s, sid, uid);
      AllFinishedExact(t, sid);
      SeatRowsCountPeople(s, sid);
      SeatRowsCountPeople(t, sid);
    }
  }

  /** Only the host removes a participant, only from a lobby and never themselves; that one seat goes. */
  lemma KickedExactly(s: State, sid: SessionId, uid: UserId, host: UserId)
    ensures KickParticipant(s, sid, uid, host).1.Ok?
       <==> HasStatus(s, sid, LOBBY) && s.sessions[sid].host == Some(host) && uid != host && Seat(sid, uid) in s.seats
    ensures KickParticipant(s, sid, uid, host).1.Ok? ==>
              RosterChanges(s, KickParticipant(s, sid, uid, host).0, sid, {}, {uid})
    ensures KickParticipant(s, sid, uid, host).1.Err? ==> KickParticipant(s, sid, uid, host).0 == s
  {
  }

  /**
   Only the host starts, only a lobby, and only with ten restaurants or more. Everybody who sits in it swipes
   from then on, until the chosen time is over, and nobody's invitation to it is open any longer.
   */
  lemma StartedExactly(s: State, sid: SessionId, host: UserId, shuffled: seq<RestaurantId>, now: Instant)
    requires Inv(s)
    ensures StartSession(s, sid, host, shuffled, now).1.Ok?
       <==> HasStatus(s, sid, LOBBY) && s.sessions[sid].host == Some(host) && |shuffled| >= MIN_LOCAL_RESTAURANTS
    ensures var (t, reply) := StartSession(s, sid, host, shuffled, now);
      if reply.Ok? then
        && HasStatus(t, sid, ACTIVE) && t.sessions[sid].host == Some(host)
        && t.sessions[sid].endsAt == Some(now + s.sessions[sid].durationSeconds)
        && reply.value == DeckOf(t, sid) <= shuffled && RosterChanges(s, t, sid, {}, {})
        && (forall uid | Seat(sid, uid) in t.seats :: t.seats[Seat(sid, uid)] == SWIPING)
        && (forall n | n in t.invites && t.invites[n].session == sid :: t.invites[n].isRead)
      else t == s
  {
    hide CompanyValid, InvitesValid, SoloValid, SeatsValid, BallotsValid, SessionsValid, ResultsValid;
    assert HasStatus(s, sid, LOBBY) ==> sid !in s.decks;
  }

  /** Anyone seated may leave a lobby; with the host go the lobby, its seats and the open invites to it. */
  lemma LeftExactly(s: State, sid: SessionId, uid: UserId)
    ensures LeaveSession(s, sid, uid).1.Ok? <==> HasStatus(s, sid, LOBBY) && Seat(sid, uid) in s.seats
    ensures var (t, reply) := LeaveSession(s, sid, uid);
      if reply.Err? then t == s
      else if s.sessions[sid].host == Some(uid) then
        && t.sessions == s.sessions - {sid} && RosterChanges(s, t, sid, {}, Roster(s, sid))
        && (forall n | n in t.invites && t.invites[n].session == sid :: t.invites[n].isRead)
      else t.sessions == s.sessions && t.invites == s.invites && RosterChanges(s, t, sid, {}, {uid})
  {
    hide RosterChanges, ExpireInvites, DropSessions;
    CancelledExactly(s, sid);
    SeatGone(s, sid, uid);
  }

  lemma CancelledExactly(s: State, sid: SessionId)
    ensures var t := DropSessions(s.(invites := ExpireInvites(s.invites, sid)), {sid});
      && t.sessions == s.sessions - {sid} && RosterChanges(s, t, sid, {}, Roster(s, sid))
      && (forall n | n in t.invites && t.invites[n].session == sid :: t.invites[n].isRead)
  {
    SeatRowsCountPeople(s, sid);
  }

  lemma SeatGone(s: State, sid: SessionId, uid: UserId)
    ensures RosterChanges(s, s.(seats := s.seats - {Seat(sid, uid)}), sid, {}, {uid})
  {
  }

  /** Recipients, and nobody else, turn their invites read. */
  lemma MarkedExactly(s: State, nid: InviteId, uid: UserId)
    ensures MarkAsRead(s, nid, uid).1.Ok? <==> nid in s.invites && s.invites[nid].user == uid
    ensures var (t, reply) := MarkAsRead(s, nid, uid);
      && t.invites.Keys == s.invites.Keys
      && forall n | n in s.invites ::
           t.invites[n] == if reply.Ok? && n == nid then Invite(uid, s.invites[n].session, true) else s.invites[n]
  {
  }

  /** An accepted swipe is on record with the direction in which that participant first swiped that card. */
  lemma SwipeSaved(s: State, sid: SessionId, uid: UserId, rid: RestaurantId, liked: bool, now: Instant)
    requires Inv(s)
    ensures var (t, reply) := RecordSwipe(s, sid, uid, rid, liked, now);
      && (reply.Ok? ==> Ballot(sid, uid, rid) in t.ballots)
      && (Ballot(sid, uid, rid) in t.ballots && Ballot(sid, uid, rid) !in s.ballots ==>
            t.ballots[Ballot(sid, uid, rid)] == liked)
      && (forall b | b in s.ballots :: b in t.ballots && t.ballots[b] == s.ballots[b])
      && (forall b | b in t.ballots && b !in s.ballots :: b == Ballot(sid, uid, rid))
      && t.seats == s.seats && t.decks == s.decks
  {
    SwipeCases(s, sid, uid, rid, liked, now);
    hide Inv, RecordSwipe, LikedByAll;
  }

  /** A solo swipe replaces the user's vote on that restaurant, so the last direction counts, and no other vote. */
  lemma SoloSwipeSaved(s: State, uid: UserId, rid: RestaurantId, liked: bool)
    requires uid in s.users && rid in s.restaurants
    ensures var (t, reply) := SwipeSolo(s, uid, rid, liked);
      && reply.Ok? && SoloVote(uid, rid) in t.solo && t.solo[SoloVote(uid, rid)] == liked
      && forall v | v != SoloVote(uid, rid) ::
           (v in t.solo <==> v in s.solo) && (v in s.solo ==> t.solo[v] == s.solo[v])
  {
  }

  /** The job removes exactly the expired rows that no deck and no vote, solo votes included, refers to. */
  lemma CleanedExactly(s: State, now: Instant, rid: RestaurantId)
    requires Inv(s) && rid in s.restaurants
    ensures rid !in CleanupRestaurants(s, now).restaurants
       <==> && !s.restaurants[rid].isPermanent && s.restaurants[rid].expiresAt.Some?
            && s.restaurants[rid].expiresAt.value <= now
            && (forall sid | sid in s.decks :: rid !in s.decks[sid])
            && (forall sid, uid :: Ballot(sid, uid, rid) !in s.ballots)
            && (forall uid :: SoloVote(uid, rid) !in s.solo)
    ensures var kept := CleanupRestaurants(s, now).restaurants;
      kept.Keys <= s.restaurants.Keys && forall other | other in kept :: kept[other] == s.restaurants[other]
  {
    if b :| b in s.ballots && b.restaurant == rid {
      assert b == Ballot(b.session, b.user, rid);
    }
    if sid, uid :| Ballot(sid, uid, rid) in s.ballots {
      assert Ballot(sid, uid, rid).restaurant == rid;
    }
    if v :| v in s.solo && v.restaurant == rid {
      assert v == SoloVote(v.user, rid);
    }
    if uid :| SoloVote(uid, rid) in s.solo {
      assert SoloVote(uid, rid).restaurant == rid;
    }
  }

  /** A solo like is accepted for every known restaurant, but saved only if the user had not skipped it before. */
  lemma SoloLikeSaved(s: State, uid: UserId, rid: RestaurantId)
    requires uid in s.users && rid in s.restaurants
    ensures var (t, reply), v := LikeSolo(s, uid, rid), SoloVote(uid, rid);
      && reply.Ok? && v in t.solo
      && (t.solo[v] <==> !(v in s.solo && !s.solo[v]))
      && LikeSolo(t, uid, rid).0 == t
      && (forall liked :: SwipeSolo(t, uid, rid, liked).0 == SwipeSolo(s, uid, rid, liked).0)
      && forall w | w != v :: (w in t.solo <==> w in s.solo) && (w in s.solo ==> t.solo[w] == s.solo[w])
  {
    forall liked ensures SwipeSolo(LikeSolo(s, uid, rid).0, uid, rid, liked).0 == SwipeSolo(s, uid, rid, liked).0 {
      assert s.solo[SoloVote(uid, rid) := true][SoloVote(uid, rid) := liked] == s.solo[SoloVote(uid, rid) := liked];
    }
  }

  // ─── One call after another ───

  /** A host who creates a lobby and leaves it again leaves no trace. */
  lemma CancelUndoesCreate(s: State, host: UserId, sid: SessionId, duration: int)
    requires Inv(s) && sid !in s.sessions && CreateSession(s, host, sid, duration).1.Ok?
    ensures LeaveSession(CreateSession(s, host, sid, duration).0, sid, host) == (s, Ok(()))
  {
    hide InOpenSession, DropSessions, ExpireInvites, TablesValid, CompanyValid, InvitesValid, SoloValid;
    NothingToExpire(s, sid);
    DropUndoesNew(s, sid, Session(Some(host), LOBBY, duration, None), host);
  }

  lemma NothingToExpire(s: State, sid: SessionId)
    requires InvitesValid(s) && sid !in s.sessions
    ensures ExpireInvites(s.invites, sid) == s.invites
  {
    assert forall n | n in s.invites && s.invites[n].session == sid :: s.invites[n].isRead;
    assert forall n | n in s.invites :: ExpireInvites(s.invites, sid)[n] == s.invites[n];
    assert ExpireInvites(s.invites, sid) == s.invites;
  }

  lemma DropUndoesNew(s: State, sid: SessionId, row: Session, host: UserId)
    requires TablesValid(s) && sid !in s.sessions
    ensures var t := s.(sessions := s.sessions[sid := row], seats := s.seats[Seat(sid, host) := IN_LOBBY]);
      DropSessions(t, {sid}) == s
  {
    hide SessionsValid;
    var t := s.(sessions := s.sessions[sid := row], seats := s.seats[Seat(sid, host) := IN_LOBBY]);
    assert DropSessions(t, {sid}).sessions == s.sessions && DropSessions(t, {sid}).seats == s.seats;
    assert DropSessions(t, {sid}).decks == s.decks && DropSessions(t, {sid}).ballots == s.ballots;
    assert DropSessions(t, {sid}).results == s.results;
  }

  /** Of a guest who joins a lobby and leaves it, or is removed by the host, only the friendship with the host stays. */
  lemma LeaveUndoesJoin(s: State, uid: UserId, sid: SessionId)
    requires Inv(s) && Seat(sid, uid) !in s.seats && JoinSession(s, uid, sid).1.Ok?
    ensures s.sessions[sid].host.Some? && s.sessions[sid].host.value != uid
    ensures var t, host := JoinSession(s, uid, sid).0, s.sessions[sid].host.value;
      && AreFriends(t, uid, host) && t.friends == s.friends + {Friendship(uid, host), Friendship(host, uid)}
      && LeaveSession(t, sid, uid) == (s.(friends := t.friends), Ok(()))
      && KickParticipant(t, sid, uid, host) == (s.(friends := t.friends), Ok(()))
  {
    hide DecksValid, BallotsValid, ResultsValid, InvitesValid, SoloValid, InOpenSession, OneOpenSession, HostIsFriend;
    var t := JoinSession(s, uid, sid).0;
    assert t.seats - {Seat(sid, uid)} == s.seats;
  }

  /** Guest and host cannot part while they are in the lobby together. */
  lemma JoinedCannotUnfriend(s: State, uid: UserId, sid: SessionId)
    requires Inv(s) && Seat(sid, uid) !in s.seats && JoinSession(s, uid, sid).1.Ok?
    ensures s.sessions[sid].host.Some?
    ensures var t, host := JoinSession(s, uid, sid).0, s.sessions[sid].host.value;
      Unfriend(t, uid, host) == (t, Err(FORBIDDEN)) && Unfriend(t, host, uid) == (t, Err(FORBIDDEN))
  {
    var t, host := JoinSession(s, uid, sid).0, s.sessions[sid].host.value;
    assert Seat(sid, uid) in t.seats && Seat(sid, host) in t.seats && IsOpen(t, sid);
    assert Seat(sid, uid).user == uid && Seat(sid, host).user == host;
  }

  /** Whoever left a lobby, or was removed from it, may at once open a lobby of their own or join any other. */
  lemma LeaverMayReturn(s: State, sid: SessionId, uid: UserId, host: UserId, other: SessionId, spare: SessionId)
    requires Inv(s) && HasStatus(s, other, LOBBY) && other != sid && spare !in s.sessions
    ensures LeaveSession(s, sid, uid).1.Ok? ==> MayMove(LeaveSession(s, sid, uid).0, uid, other, spare)
    ensures KickParticipant(s, sid, uid, host).1.Ok? ==>
              MayMove(KickParticipant(s, sid, uid, host).0, uid, other, spare)
  {
    hide LeaveSession, KickParticipant, MayMove, Inv;
    LeaverIsFree(s, sid, uid, other);
    KickedIsFree(s, sid, uid, host, other);
    if LeaveSession(s, sid, uid).1.Ok? {
      FreeMayMove(LeaveSession(s, sid, uid).0, uid, other, spare);
    }
    if KickParticipant(s, sid, uid, host).1.Ok? {
      FreeMayMove(KickParticipant(s, sid, uid, host).0, uid, other, spare);
    }
  }

  /** Free, known, and the other lobby is as it was. */
  ghost predicate IsLoose(t: State, uid: UserId, other: SessionId) {
    TablesValid(t) && IsFree(t, uid) && uid in t.users && HasStatus(t, other, LOBBY)
  }

  lemma LeaverIsFree(s: State, sid: SessionId, uid: UserId, other: SessionId)
    requires Inv(s) && HasStatus(s, other, LOBBY) && other != sid
    ensures LeaveSession(s, sid, uid).1.Ok? ==> IsLoose(LeaveSession(s, sid, uid).0, uid, other)
  {
    hide DecksValid, BallotsValid, ResultsValid, CompanyValid, InvitesValid, SoloValid, IsFree;
    LeaveKeepsTables(s, sid, uid);
    if LeaveSession(s, sid, uid).1.Ok? {
      hide SeatsValid, SessionsValid, TablesValid;
      if s.sessions[sid].host == Some(uid) {
        CancelledIsFree(s, sid, uid, other);
      } else {
        RemovedIsFree(s, sid, uid);
      }
    }
  }

  lemma CancelledIsFree(s: State, sid: SessionId, uid: UserId, other: SessionId)
    requires Inv(s) && HasStatus(s, sid, LOBBY) && Seat(sid, uid) in s.seats
    requires HasStatus(s, other, LOBBY) && other != sid
    ensures var t := DropSessions(s.(invites := ExpireInvites(s.invites, sid)), {sid});
      IsFree(t, uid) && uid in t.users && HasStatus(t, other, LOBBY)
  {
    hide DecksValid, BallotsValid, ResultsValid, CompanyValid, InvitesValid, SoloValid, IsFree, ExpireInvites;
    assert Seat(sid, uid).user == uid;
    GoneIsFree(s, DropSessions(s.(invites := ExpireInvites(s.invites, sid)), {sid}), sid, uid);
  }

  lemma RemovedIsFree(s: State, sid: SessionId, uid: UserId)
    requires Inv(s) && HasStatus(s, sid, LOBBY) && Seat(sid, uid) in s.seats
    ensures IsFree(s.(seats := s.seats - {Seat(sid, uid)}), uid) && uid in s.users
  {
    hide DecksValid, BallotsValid, ResultsValid, CompanyValid, InvitesValid, SoloValid, IsFree;
    assert Seat(sid, uid).user == uid;
    GoneIsFree(s, s.(seats := s.seats - {Seat(sid, uid)}), sid, uid);
  }

  lemma KickedIsFree(s: State, sid: SessionId, uid: UserId, host: UserId, other: SessionId)
    requires Inv(s) && HasStatus(s, other, LOBBY) && other != sid
    ensures KickParticipant(s, sid, uid, host).1.Ok? ==> IsLoose(KickParticipant(s, sid, uid, host).0, uid, other)
  {
    hide DecksValid, BallotsValid, ResultsValid, CompanyValid, InvitesValid, SoloValid, IsFree;
    KickKeeps(s, sid, uid, host);
    if KickParticipant(s, sid, uid, host).1.Ok? {
      RemovedIsFree(s, sid, uid);
    }
  }

  predicate MayMove(s: State, uid: UserId, other: SessionId, spare: SessionId) {
    JoinSession(s, uid, other).1.Ok? && CreateSession(s, uid, spare, 0).1.Ok?
  }

  /** One open session per user: a lobby that is left was the only one. */
  lemma GoneIsFree(s: State, t: State, sid: SessionId, uid: UserId)
    requires Inv(s) && HasStatus(s, sid, LOBBY) && Seat(sid, uid) in s.seats
    requires forall seat | seat in t.seats :: seat in s.seats && seat != Seat(sid, uid)
    requires forall seat | seat in t.seats ::
      seat.session in t.sessions && t.sessions[seat.session] == s.sessions[seat.session]
    ensures IsFree(t, uid)
  {
    hide DecksValid, BallotsValid, ResultsValid, FriendsValid, HostIsFriend, InvitesValid, SoloValid;
    assert Seat(sid, uid).user == uid && IsOpen(s, sid);
  }

  lemma FreeMayMove(t: State, uid: UserId, other: SessionId, spare: SessionId)
    requires IsLoose(t, uid, other)
    ensures MayMove(t, uid, other, spare)
  {
    FreeIsNotOpen(t, uid);
    hide InOpenSession, DecksValid, BallotsValid, ResultsValid;
  }

  /** In a lobby just started each participant may swipe each dealt card until the time is over, and nobody after it. */
  lemma StartedIsPlayable(s: State, sid: SessionId, host: UserId, shuffled: seq<RestaurantId>, now: Instant,
                          uid: UserId, card: RestaurantId, liked: bool, later: Instant)
    requires Inv(s) && HasStatus(s, sid, LOBBY) && s.sessions[sid].host == Some(host)
    requires |shuffled| >= MIN_LOCAL_RESTAURANTS
    ensures StartSession(s, sid, host, shuffled, now).1.Ok?
    ensures RecordSwipe(StartSession(s, sid, host, shuffled, now).0, sid, uid, card, liked, later).1.Ok?
       <==> && Seat(sid, uid) in s.seats && later < now + s.sessions[sid].durationSeconds
            && card in shuffled[..if |shuffled| <= MAX_DECK_SIZE then |shuffled| else MAX_DECK_SIZE]
  {
    StartedDeals(s, sid, host, shuffled, now);
    hide StartSession, RecordSwipe, Inv;
    UndecidedTakesSwipes(StartSession(s, sid, host, shuffled, now).0, sid, uid, card, liked, later);
  }

  lemma StartedDeals(s: State, sid: SessionId, host: UserId, shuffled: seq<RestaurantId>, now: Instant)
    requires Inv(s) && HasStatus(s, sid, LOBBY) && s.sessions[sid].host == Some(host)
    requires |shuffled| >= MIN_LOCAL_RESTAURANTS
    ensures var (t, reply) := StartSession(s, sid, host, shuffled, now);
      && reply.Ok? && HasStatus(t, sid, ACTIVE) && sid !in t.results
      && t.sessions[sid].endsAt == Some(now + s.sessions[sid].durationSeconds)
      && DeckOf(t, sid) == shuffled[..if |shuffled| <= MAX_DECK_SIZE then |shuffled| else MAX_DECK_SIZE]
      && forall uid :: Seat(sid, uid) in t.seats <==> Seat(sid, uid) in s.seats
  {
    hide CompanyValid, InvitesValid, SoloValid, SeatsValid, BallotsValid, SessionsValid, ExpireInvites;
    assert sid !in s.decks && sid !in s.results;
    assert shuffled[..|shuffled|] == shuffled;
  }

  lemma UndecidedTakesSwipes(t: State, sid: SessionId, uid: UserId, card: RestaurantId, liked: bool, later: Instant)
    requires HasStatus(t, sid, ACTIVE) && sid !in t.results && t.sessions[sid].endsAt.Some?
    ensures RecordSwipe(t, sid, uid, card, liked, later).1.Ok?
       <==> Seat(sid, uid) in t.seats && later < t.sessions[sid].endsAt.value && card in DeckOf(t, sid)
  {
    hide IsUnanimous;
  }

  // ─── Over whole runs ───

  /** A session that was ever started takes no lobby call any more, whatever else happens. */
  lemma StartedIsClosed(c: Config, steps: seq<Step>, sid: SessionId, uid: UserId, other: UserId, n: InviteId,
                        shuffled: seq<RestaurantId>, now: Instant)
    requires Good(c) && Runs(c, steps) && Started(c.db, sid)
    ensures var late := Run(c, steps).db;
      && JoinSession(late, uid, sid).0 == late
      && KickParticipant(late, sid, uid, other).1.Err? && LeaveSession(late, sid, uid).1.Err?
      && InviteFriend(late, sid, other, uid, n).1.Err? && StartSession(late, sid, uid, shuffled, now).1.Err?
  {
    RosterNeverGrows(c, steps, sid);
    hide Run, Runs, Good, InOpenSession, AddFriend, DealDeck, HasUnreadInvite;
  }

  /** No row names the user, whether as owner, guest, voter, friend or recipient. */
  ghost predicate IsErased(s: State, uid: UserId) {
    && uid !in s.users
    && (forall seat | seat in s.seats :: seat.user != uid)
    && (forall b | b in s.ballots :: b.user != uid)
    && (forall v | v in s.solo :: v.user != uid)
    && (forall f | f in s.friends :: f.user != uid && f.friend != uid)
    && (forall n | n in s.invites :: s.invites[n].user != uid)
    && (forall sid | sid in s.sessions :: s.sessions[sid].host != Some(uid))
  }

  /** In an orderly database nothing at all depends on a user who is not there. */
  lemma UnknownIsErased(s: State, uid: UserId)
    requires Inv(s) && uid !in s.users
    ensures IsErased(s, uid)
  {
    hide DecksValid, ResultsValid, OneOpenSession, HostIsFriend;
    forall b | b in s.ballots ensures b.user != uid {
      assert Seat(b.session, b.user) in s.seats;
    }
  }

  /** A deleted account leaves no row behind, and no later step writes one unless the identifier is reused. */
  lemma {:induction false} ErasedForever(c: Config, steps: seq<Step>, uid: UserId)
    requires Good(c) && Runs(c, steps) && uid !in c.db.users
    requires forall i | 0 <= i < |steps| :: steps[i] != SignUp(uid)
    ensures IsErased(Run(c, steps).db, uid)
    decreases |steps|
  {
    if steps == [] {
      UnknownIsErased(c.db, uid);
    } else {
      StepKeepsGood(c, steps[0]);
      UnknownStays(c.db, steps[0], uid);
      ErasedForever(Next(c, steps[0]), steps[1..], uid);
    }
  }

  lemma DeletionErases(s: State, uid: UserId)
    requires Inv(s)
    ensures Inv(DeleteAccount(s, uid)) && IsErased(DeleteAccount(s, uid), uid)
  {
    hide TablesValid, CompanyValid, InvitesValid, SoloValid;
    DeleteAccountKeepsTables(s, uid);
    DeleteAccountKeepsCompany(s, uid);
    DeleteAccountKeepsInvites(s, uid);
    EraseKeepsSolo(s, uid);
    UnknownIsErased(DeleteAccount(s, uid), uid);
  }
}
