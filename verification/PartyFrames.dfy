/** What a step of the party protocol leaves alone, and exactly what the deletion of an account takes away. */
module PartyFrames {
  import opened Basics
  import opened PartyModel
  import opened PartyInvariants
  import opened PartyVotes
  import opened PartySettlement
  import opened PartyRuns

  // ─── Deleting an account ───

  /** A lobby of which the user is the host. */
  predicate IsLobbyOf(s: State, sid: SessionId, uid: UserId) {
    HasStatus(s, sid, LOBBY) && s.sessions[sid].host == Some(uid)
  }

  /** Exactly the leaver's own lobbies go; of every other session only the leaver's name as host goes. */
  lemma DeletedSessions(s: State, uid: UserId, sid: SessionId)
    ensures var t := DeleteAccount(s, uid);
      && (sid in t.sessions <==> sid in s.sessions && !IsLobbyOf(s, sid, uid))
      && (sid in t.sessions ==>
            && t.sessions[sid].host == (if s.sessions[sid].host == Some(uid) then None else s.sessions[sid].host)
            && t.sessions[sid] == s.sessions[sid].(host := t.sessions[sid].host))
      && (sid in t.decks <==> sid in s.decks && !IsLobbyOf(s, sid, uid))
      && (sid in t.decks ==> t.decks[sid] == s.decks[sid])
      && (sid in t.results <==> sid in s.results && !IsLobbyOf(s, sid, uid))
      && (sid in t.results ==> t.results[sid] == s.results[sid])
  {
    hide ExpireLobbyInvites;
  }

  /** Seats and votes of all other users stay, apart from those in the leaver's own lobbies. */
  lemma DeletedSeatsAndVotes(s: State, uid: UserId)
    ensures var t := DeleteAccount(s, uid);
      && (forall seat :: seat in t.seats
            <==> seat in s.seats && seat.user != uid && !IsLobbyOf(s, seat.session, uid))
      && (forall seat | seat in t.seats :: t.seats[seat] == s.seats[seat])
      && (forall b :: b in t.ballots
            <==> b in s.ballots && b.user != uid && !IsLobbyOf(s, b.session, uid))
      && (forall b | b in t.ballots :: t.ballots[b] == s.ballots[b])
  {
    hide ExpireLobbyInvites;
  }

  /** So do their accounts, solo votes and friendships; of their invites those to such a lobby turn read. */
  lemma DeletedRows(s: State, uid: UserId)
    ensures var t := DeleteAccount(s, uid);
      && t.users == s.users - {uid} && t.restaurants == s.restaurants
      && (forall v :: v in t.solo <==> v in s.solo && v.user != uid)
      && (forall v | v in t.solo :: t.solo[v] == s.solo[v])
      && (forall f :: f in t.friends <==> f in s.friends && f.user != uid && f.friend != uid)
      && (forall n :: n in t.invites <==> n in s.invites && s.invites[n].user != uid)
      && (forall n | n in t.invites :: t.invites[n] ==
            if IsLobbyOf(s, s.invites[n].session, uid) then s.invites[n].(isRead := true) else s.invites[n])
  {
  }

  // ─── Every other step ───

  /** The session a step is about, if any. */
  function SubjectOf(step: Step): Option<SessionId> {
    match step
    case Create(_, session, _) => Some(session)
    case Join(_, session) => Some(session)
    case Start(session, _, _, _, _) => Some(session)
    case Kick(session, _, _) => Some(session)
    case Leave(session, _) => Some(session)
    case SendInvite(session, _, _, _) => Some(session)
    case Swipe(session, _, _, _, _) => Some(session)
    case DeckFinished(session, _) => Some(session)
    case Resolve(session, _) => Some(session)
    case _ => None
  }

  ghost predicate SameRow(s: State, t: State, sid: SessionId) {
    && (sid in s.sessions <==> sid in t.sessions) && (sid in s.sessions ==> t.sessions[sid] == s.sessions[sid])
    && (sid in s.decks <==> sid in t.decks) && (sid in s.decks ==> t.decks[sid] == s.decks[sid])
    && (sid in s.results <==> sid in t.results) && (sid in s.results ==> t.results[sid] == s.results[sid])
  }

  ghost predicate SameSeats(s: State, t: State, sid: SessionId) {
    && (forall uid :: Seat(sid, uid) in s.seats <==> Seat(sid, uid) in t.seats)
    && (forall uid | Seat(sid, uid) in s.seats :: t.seats[Seat(sid, uid)] == s.seats[Seat(sid, uid)])
  }

  ghost predicate SameVotes(s: State, t: State, sid: SessionId) {
    && (forall uid, rid :: Ballot(sid, uid, rid) in s.ballots <==> Ballot(sid, uid, rid) in t.ballots)
    && (forall uid, rid | Ballot(sid, uid, rid) in s.ballots ::
          t.ballots[Ballot(sid, uid, rid)] == s.ballots[Ballot(sid, uid, rid)])
  }

  /** Row, deck, result, seats with their progress and votes of the session are the same. */
  ghost predicate SameSession(s: State, t: State, sid: SessionId) {
    SameRow(s, t, sid) && SameSeats(s, t, sid) && SameVotes(s, t, sid)
  }

  /** The invites to the session are the same. */
  ghost predicate SameInvites(s: State, t: State, sid: SessionId) {
    && (forall n | n in s.invites && s.invites[n].session == sid :: n in t.invites && t.invites[n] == s.invites[n])
    && (forall n | n in t.invites && t.invites[n].session == sid :: n in s.invites && t.invites[n] == s.invites[n])
  }

  /** A step about one session, or about none, leaves every other session as it is. */
  lemma OtherSessionsUntouched(c: Config, step: Step, other: SessionId)
    requires Good(c) && Enabled(c, step) && !step.DeleteUser? && SubjectOf(step) != Some(other)
    ensures SameSession(c.db, After(c.db, step), other)
  {
    hide CompanyValid, InvitesValid, SoloValid, SeatsValid, BallotsValid, DecksValid, ResultsValid, SessionsValid;
    hide CleanupRestaurants, RecordSwipe, SameSession, StartSession, LeaveSession, ResolveSession, CreateSession;
    hide JoinSession, KickParticipant, InviteFriend, ReportDeckFinished;
    match step {
      case Swipe(session, user, card, liked, now) =>
        SwipeElsewhere(c.db, session, user, card, liked, now, other);
      case Resolve(session, pick) => ResolveElsewhere(c.db, session, pick, other);
      case Start(session, host, _, shuffled, now) => StartElsewhere(c.db, session, host, shuffled, now, other);
      case Leave(session, user) => LeaveElsewhere(c.db, session, user, other);
      case Cleanup(now) =>
        CleanupKeepsResults(c.db, now);
        CleanupElsewhere(c.db, now, other);
      case Create(host, session, duration) => CreateElsewhere(c.db, host, session, duration, other);
      case Join(user, session) => JoinElsewhere(c.db, user, session, other);
      case Kick(session, user, host) => KickElsewhere(c.db, session, user, host, other);
      case SendInvite(session, friend, inviter, invite) =>
        InviteElsewhere(c.db, session, friend, inviter, invite, other);
      case DeckFinished(session, user) => ReportElsewhere(c.db, session, user, other);
      case _ => SameRowsSameSession(c.db, After(c.db, step), other);
    }
  }

  lemma SameRowsSameSession(s: State, t: State, sid: SessionId)
    requires SessionRows(t) == SessionRows(s)
    ensures SameSession(s, t, sid)
  {
  }

  lemma CleanupElsewhere(s: State, now: Instant, other: SessionId)
    requires CleanupRestaurants(s, now).results == s.results
    ensures SameSession(s, CleanupRestaurants(s, now), other)
  {
    hide Expendable, WithoutRestaurants;
  }

  lemma SessionChain(s: State, t: State, u: State, sid: SessionId)
    requires SameSession(s, t, sid) && SameSession(t, u, sid)
    ensures SameSession(s, u, sid)
  {
  }

  lemma SeatSetElsewhere(s: State, seat: Seat, progress: Progress, other: SessionId)
    requires seat.session != other
    ensures SameSession(s, s.(seats := s.seats[seat := progress]), other)
  {
  }

  lemma SeatGoneElsewhere(s: State, seat: Seat, other: SessionId)
    requires seat.session != other
    ensures SameSession(s, s.(seats := s.seats - {seat}), other)
  {
  }

  lemma RowSetElsewhere(s: State, session: SessionId, row: Session, other: SessionId)
    requires session != other
    ensures SameSession(s, s.(sessions := s.sessions[session := row]), other)
  {
  }

  lemma CreateElsewhere(s: State, host: UserId, session: SessionId, duration: int, other: SessionId)
    requires session != other
    ensures SameSession(s, CreateSession(s, host, session, duration).0, other)
  {
    hide SameSession, InOpenSession;
    var row := Session(Some(host), LOBBY, duration, None);
    var listed := s.(sessions := s.sessions[session := row]);
    SameRowsSameSession(s, s, other);
    RowSetElsewhere(s, session, row, other);
    SeatSetElsewhere(listed, Seat(session, host), IN_LOBBY, other);
    SessionChain(s, listed, listed.(seats := s.seats[Seat(session, host) := IN_LOBBY]), other);
  }

  lemma JoinElsewhere(s: State, user: UserId, session: SessionId, other: SessionId)
    requires session != other
    ensures SameSession(s, JoinSession(s, user, session).0, other)
  {
    hide SameSession, InOpenSession, AddFriend;
    var t := JoinSession(s, user, session).0;
    var seated := s.(seats := s.seats[Seat(session, user) := IN_LOBBY]);
    SameRowsSameSession(s, s, other);
    SeatSetElsewhere(s, Seat(session, user), IN_LOBBY, other);
    if t != s {
      SameRowsSameSession(seated, t, other);
      SessionChain(s, seated, t, other);
    }
  }

  lemma KickElsewhere(s: State, session: SessionId, user: UserId, host: UserId, other: SessionId)
    requires session != other
    ensures SameSession(s, KickParticipant(s, session, user, host).0, other)
  {
    hide SameSession;
    SameRowsSameSession(s, s, other);
    SeatGoneElsewhere(s, Seat(session, user), other);
  }

  lemma InviteElsewhere(s: State, session: SessionId, friend: UserId, inviter: UserId, invite: InviteId,
                        other: SessionId)
    ensures SameSession(s, InviteFriend(s, session, friend, inviter, invite).0, other)
  {
    hide SameSession, HasUnreadInvite;
    SameRowsSameSession(s, InviteFriend(s, session, friend, inviter, invite).0, other);
  }

  lemma ReportElsewhere(s: State, session: SessionId, user: UserId, other: SessionId)
    requires session != other
    ensures SameSession(s, ReportDeckFinished(s, session, user).0, other)
  {
    hide SameSession, AllParticipantsFinished;
    SameRowsSameSession(s, s, other);
    SeatSetElsewhere(s, Seat(session, user), WAITING, other);
  }

  lemma StartElsewhere(s: State, session: SessionId, host: UserId, shuffled: seq<RestaurantId>, now: Instant,
                       other: SessionId)
    requires session != other
    ensures SameSession(s, StartSession(s, session, host, shuffled, now).0, other)
  {
    hide SameSession, DealDeck, ExpireInvites;
    var t := StartSession(s, session, host, shuffled, now).0;
    SameRowsSameSession(s, s, other);
    if t != s {
      var swiping := s.(seats := t.seats);
      SwipingElsewhere(s, session, other);
      var dealt := swiping.(decks := t.decks);
      DealtElsewhere(swiping, session, t.decks[session], other);
      var listed := dealt.(sessions := t.sessions);
      RowSetElsewhere(dealt, session, t.sessions[session], other);
      SameRowsSameSession(listed, t, other);
      SessionChain(s, swiping, dealt, other);
      SessionChain(s, dealt, listed, other);
      SessionChain(s, listed, t, other);
    }
  }

  lemma SwipingElsewhere(s: State, session: SessionId, other: SessionId)
    requires session != other
    ensures SameSession(s, s.(seats :=
              map seat | seat in s.seats :: if seat.session == session then SWIPING else s.seats[seat]), other)
  {
  }

  lemma DealtElsewhere(s: State, session: SessionId, deck: seq<RestaurantId>, other: SessionId)
    requires session != other
    ensures SameSession(s, s.(decks := s.decks[session := deck]), other)
  {
  }

  lemma LeaveElsewhere(s: State, session: SessionId, user: UserId, other: SessionId)
    requires session != other
    ensures SameSession(s, LeaveSession(s, session, user).0, other)
  {
    hide SameSession, DropSessions, ExpireInvites;
    var expired := s.(invites := ExpireInvites(s.invites, session));
    SameRowsSameSession(s, s, other);
    SameRowsSameSession(s, expired, other);
    DropElsewhere(expired, session, other);
    SessionChain(s, expired, DropSessions(expired, {session}), other);
    SeatGoneElsewhere(s, Seat(session, user), other);
  }

  lemma DropElsewhere(s: State, session: SessionId, other: SessionId)
    requires session != other
    ensures SameSession(s, DropSessions(s, {session}), other)
  {
  }

  lemma SwipeElsewhere(s: State, session: SessionId, user: UserId, card: RestaurantId, liked: bool, now: Instant,
                       other: SessionId)
    requires TablesValid(s) && session != other
    ensures SameSession(s, RecordSwipe(s, session, user, card, liked, now).0, other)
  {
    hide SameSession, RecordSwipe, LikedByAll, TablesValid, CastVote, Finish;
    SwipeCases(s, session, user, card, liked, now);
    var voted := CastVote(s, session, user, card, liked);
    var result := MatchResult(Some(card), UNANIMOUS, NameOf(s, card));
    SameRowsSameSession(s, s, other);
    VoteElsewhere(s, session, user, card, liked, other);
    if HasStatus(s, session, ACTIVE) {
      VoteKeepsRow(s, session, user, card, liked);
      FinishElsewhere(voted, session, result, other);
      SessionChain(s, voted, Finish(voted, session, result), other);
    }
  }

  lemma VoteElsewhere(s: State, session: SessionId, user: UserId, card: RestaurantId, liked: bool, other: SessionId)
    requires session != other
    ensures SameSession(s, CastVote(s, session, user, card, liked), other)
  {
  }

  lemma VoteKeepsRow(s: State, session: SessionId, user: UserId, card: RestaurantId, liked: bool)
    ensures CastVote(s, session, user, card, liked).sessions == s.sessions
  {
  }

  lemma ResolveElsewhere(s: State, session: SessionId, pick: nat, other: SessionId)
    requires session != other
    ensures SameSession(s, ResolveSession(s, session, pick).0, other)
  {
    hide SameSession, SameRow, SameVotes, SameSeats, Decide, GetResolution, Finish;
    SameRowsSameSession(s, s, other);
    if session in s.sessions {
      FinishElsewhere(s, session, Decide(s, session, pick).result, other);
    }
  }

  lemma FinishElsewhere(s: State, session: SessionId, result: MatchResult, other: SessionId)
    requires session in s.sessions && session != other
    ensures SameSession(s, Finish(s, session, result), other)
  {
  }

  /** Nor does it touch the invites to another session; only reading them, and deletions, do that. */
  lemma OtherInvitesUntouched(c: Config, step: Step, other: SessionId)
    requires Good(c) && Enabled(c, step) && !step.DeleteUser? && !step.MarkRead? && SubjectOf(step) != Some(other)
    ensures SameInvites(c.db, After(c.db, step), other)
  {
    hide Good, CleanupRestaurants, RecordSwipe, ResolveSession, StartSession, LeaveSession, InviteFriend, SameInvites;
    hide CreateSession, JoinSession, KickParticipant, Unfriend, ReportDeckFinished, LikeSolo, SwipeSolo;
    KeptInvites(c.db, c.db, other);
    match step {
      case Swipe(session, user, card, liked, now) => SwipeOutside(c.db, session, user, card, liked, now);
      case Resolve(session, pick) => ResolveOutside(c.db, session, pick);
      case Cleanup(now) => CleanupInvites(c.db, now);
      case Start(session, host, _, shuffled, now) => StartInvites(c.db, session, host, shuffled, now, other);
      case Leave(session, user) => LeaveInvites(c.db, session, user, other);
      case SendInvite(session, friend, inviter, invite) =>
        SentInvites(c.db, session, friend, inviter, invite, other);
      case _ => CallKeepsInvites(c.db, step);
    }
    if After(c.db, step).invites == c.db.invites {
      KeptInvites(c.db, After(c.db, step), other);
    }
  }

  lemma KeptInvites(s: State, t: State, sid: SessionId)
    requires t.invites == s.invites
    ensures SameInvites(s, t, sid)
  {
  }

  lemma CallKeepsInvites(s: State, step: Step)
    requires SubjectOf(step).None? || step.Create? || step.Join? || step.Kick? || step.DeckFinished?
    requires !step.MarkRead? && !step.DeleteUser? && !step.Cleanup?
    ensures After(s, step).invites == s.invites
  {
    hide InOpenSession, AddFriend, AllParticipantsFinished, InSameOpenSession;
  }

  lemma StartInvites(s: State, session: SessionId, host: UserId, shuffled: seq<RestaurantId>, now: Instant,
                     other: SessionId)
    requires session != other
    ensures SameInvites(s, StartSession(s, session, host, shuffled, now).0, other)
  {
    hide DealDeck;
  }

  lemma LeaveInvites(s: State, session: SessionId, user: UserId, other: SessionId)
    requires session != other
    ensures SameInvites(s, LeaveSession(s, session, user).0, other)
  {
  }

  lemma SentInvites(s: State, session: SessionId, friend: UserId, inviter: UserId, invite: InviteId,
                    other: SessionId)
    requires session != other && invite !in s.invites
    ensures SameInvites(s, InviteFriend(s, session, friend, inviter, invite).0, other)
  {
    hide HasUnreadInvite;
  }

  lemma CleanupInvites(s: State, now: Instant)
    ensures CleanupRestaurants(s, now).invites == s.invites
  {
  }

  /** Friendships begin by joining and end by unfriending; accounts, restaurants and solo votes have their own calls. */
  lemma OtherTablesUntouched(c: Config, step: Step)
    requires Good(c) && Enabled(c, step) && !step.DeleteUser?
    ensures var t := After(c.db, step);
      && (!step.SignUp? ==> t.users == c.db.users)
      && (!step.PutRestaurant? && !step.Cleanup? ==> t.restaurants == c.db.restaurants)
      && (!step.SoloLike? && !step.SoloSwipe? ==> t.solo == c.db.solo)
      && (!step.Join? && !step.EndFriendship? ==> t.friends == c.db.friends)
  {
    hide Good, CleanupRestaurants, RecordSwipe, ResolveSession, StartSession, LeaveSession, InviteFriend;
    hide CreateSession, JoinSession, KickParticipant, Unfriend, ReportDeckFinished, MarkAsRead, LikeSolo, SwipeSolo;
    match step {
      case Swipe(session, user, card, liked, now) => SwipeOutside(c.db, session, user, card, liked, now);
      case Resolve(session, pick) => ResolveOutside(c.db, session, pick);
      case Create(host, session, duration) => CreateKeepsBase(c.db, host, session, duration);
      case Join(user, session) => JoinKeepsBase(c.db, user, session);
      case Start(session, host, _, shuffled, now) => StartKeepsBase(c.db, session, host, shuffled, now);
      case Kick(session, user, host) => KickKeepsBase(c.db, session, user, host);
      case Leave(session, user) => LeaveKeepsBase(c.db, session, user);
      case SendInvite(session, friend, inviter, invite) =>
        InviteKeepsBase(c.db, session, friend, inviter, invite);
      case MarkRead(invite, user) => ReadKeepsBase(c.db, invite, user);
      case EndFriendship(user, friend) => UnfriendKeepsBase(c.db, user, friend);
      case DeckFinished(session, user) => ReportKeepsBase(c.db, session, user);
      case Cleanup(now) => CleanupOutside(c.db, now);
      case SoloLike(user, card) => SoloOutside(c.db, user, card, true);
      case SoloSwipe(user, card, liked) => SoloOutside(c.db, user, card, liked);
      case _ =>
    }
    if !step.Swipe? && !step.Resolve? && !step.Join? && !step.EndFriendship? {
      CallKeepsFriends(c.db, step);
    }
  }

  lemma CallKeepsFriends(s: State, step: Step)
    requires !step.DeleteUser? && !step.Swipe? && !step.Resolve? && !step.Join? && !step.EndFriendship?
    ensures After(s, step).friends == s.friends
  {
    hide InOpenSession, HasUnreadInvite, AllParticipantsFinished, DealDeck, ExpireInvites, Expendable;
    hide WithoutRestaurants;
  }

  lemma CleanupOutside(s: State, now: Instant)
    ensures CleanupRestaurants(s, now).users == s.users && CleanupRestaurants(s, now).solo == s.solo
  {
  }

  lemma SoloOutside(s: State, user: UserId, card: RestaurantId, liked: bool)
    ensures LikeSolo(s, user, card).0 == s.(solo := LikeSolo(s, user, card).0.solo)
    ensures SwipeSolo(s, user, card, liked).0 == s.(solo := SwipeSolo(s, user, card, liked).0.solo)
  {
  }

  lemma SwipeOutside(s: State, session: SessionId, user: UserId, card: RestaurantId, liked: bool, now: Instant)
    ensures var t := RecordSwipe(s, session, user, card, liked, now).0;
      Base(t) == Base(s) && t.friends == s.friends && t.invites == s.invites
  {
    hide GetResolution, IsUnanimous, DeckOf;
  }

  lemma ResolveOutside(s: State, session: SessionId, pick: nat)
    ensures var t := ResolveSession(s, session, pick).0;
      Base(t) == Base(s) && t.friends == s.friends && t.invites == s.invites
  {
    hide GetResolution, Decide;
  }
}
