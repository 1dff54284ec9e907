/**
 The tables behind party sessions, and what each locked service transaction does to them.

 A table is a map keyed by its unique constraint. Every function below returns the state after the
 transaction together with its reply; an exception leaves the state alone, because the request
 dependency rolls back.
 */
module PartyModel {
  import opened Basics

  type UserId = int
  type SessionId = int
  /** The order of the integers stands for the order of `str(uuid)`. */
  type RestaurantId = int
  type InviteId = int
  type Instant = int

  const MIN_LOCAL_RESTAURANTS := 10
  const MAX_DECK_SIZE := 20

  datatype Status = LOBBY | ACTIVE | FINISHED
  datatype Progress = IN_LOBBY | SWIPING | WAITING
  datatype ResolutionType = UNANIMOUS | MAJORITY | SPIN_WHEEL_TIE | SPIN_WHEEL_NO_MATCH

  datatype Session = Session(
    host: Option<UserId>, status: Status, durationSeconds: int, endsAt: Option<Instant>)
  datatype Restaurant = Restaurant(name: string, isPermanent: bool, expiresAt: Option<Instant>)

  /** Key of a participant row (uq_session_participant). */
  datatype Seat = Seat(session: SessionId, user: UserId)
  /** Key of a party vote row (uq_vote_once). */
  datatype Ballot = Ballot(session: SessionId, user: UserId, restaurant: RestaurantId)
  /** Key of a vote row without a session (uq_votes_solo_user_restaurant). */
  datatype SoloVote = SoloVote(user: UserId, restaurant: RestaurantId)
  /** Key of a friendship row (uq_friendship_pair). */
  datatype Friendship = Friendship(user: UserId, friend: UserId)

  datatype MatchResult = MatchResult(restaurant: Option<RestaurantId>, kind: ResolutionType, name: string)
  datatype Invite = Invite(user: UserId, session: SessionId, isRead: bool)

  /** A result together with the cards that went on the wheel. */
  datatype Resolution = Resolution(result: MatchResult, wheel: seq<RestaurantId>)

  datatype Error = NOT_FOUND | FORBIDDEN | ALREADY_STARTED | ALREADY_IN_SESSION | INTERNAL

  datatype State = State(
    users: set<UserId>,
    restaurants: map<RestaurantId, Restaurant>,
    sessions: map<SessionId, Session>,
    seats: map<Seat, Progress>,
    decks: map<SessionId, seq<RestaurantId>>,
    ballots: map<Ballot, bool>,
    solo: map<SoloVote, bool>,
    results: map<SessionId, MatchResult>,
    friends: set<Friendship>,
    invites: map<InviteId, Invite>)

  const Empty := State({}, map[], map[], map[], map[], map[], map[], map[], {}, map[])

  // ─── Reads ───

  predicate HasStatus(s: State, sid: SessionId, status: Status) {
    sid in s.sessions && s.sessions[sid].status == status
  }

  predicate IsOpen(s: State, sid: SessionId) {
    sid in s.sessions && s.sessions[sid].status != FINISHED
  }

  /** The participant rows of a session. */
  function SeatRows(s: State, sid: SessionId): set<Seat> {
    set seat | seat in s.seats && seat.session == sid
  }

  function Roster(s: State, sid: SessionId): set<UserId> {
    set seat | seat in SeatRows(s, sid) :: seat.user
  }

  /** The like rows of one card. */
  function LikeRows(s: State, sid: SessionId, rid: RestaurantId): set<Ballot> {
    set b | b in s.ballots && b.session == sid && b.restaurant == rid && s.ballots[b]
  }

  /** The vote rows of one participant. */
  function VoteRows(s: State, sid: SessionId, uid: UserId): set<Ballot> {
    set b | b in s.ballots && b.session == sid && b.user == uid
  }

  predicate Likes(s: State, sid: SessionId, uid: UserId, rid: RestaurantId) {
    var b := Ballot(sid, uid, rid);
    b in s.ballots && s.ballots[b]
  }

  function LikedCards(s: State, sid: SessionId): set<RestaurantId> {
    set b | b in s.ballots && b.session == sid && s.ballots[b] :: b.restaurant
  }

  /** `GROUP BY restaurant_id` over the like rows: cards nobody liked are absent. */
  function LikeCounts(s: State, sid: SessionId): map<RestaurantId, int> {
    map rid | rid in LikedCards(s, sid) :: |LikeRows(s, sid, rid)|
  }

  /** The cards whose count is the highest. */
  function Leaders(counts: map<RestaurantId, int>): set<RestaurantId> {
    set rid | rid in counts && forall other | other in counts :: counts[other] <= counts[rid]
  }

  function DeckOf(s: State, sid: SessionId): seq<RestaurantId> {
    if sid in s.decks then s.decks[sid] else []
  }

  /** The bare count comparison of `_is_unanimous`. */
  predicate IsUnanimous(s: State, sid: SessionId, rid: RestaurantId) {
    |SeatRows(s, sid)| != 0 && |LikeRows(s, sid, rid)| >= |SeatRows(s, sid)|
  }

  predicate AllParticipantsFinished(s: State, sid: SessionId) {
    |DeckOf(s, sid)| == 0 ||
    forall uid | uid in Roster(s, sid) :: |VoteRows(s, sid, uid)| >= |DeckOf(s, sid)|
  }

  /** The restaurants whose vote or deck rows forbid deletion. */
  predicate IsReferenced(s: State, rid: RestaurantId) {
    || (exists sid | sid in s.decks :: rid in s.decks[sid])
    || (exists b | b in s.ballots :: b.restaurant == rid)
    || (exists v | v in s.solo :: v.restaurant == rid)
  }

  // ─── Resolution (match_service) ───

  function Choice(xs: seq<RestaurantId>, pick: nat): RestaurantId
    requires xs != []
  {
    xs[pick % |xs|]
  }

  function NameOf(s: State, rid: RestaurantId): string {
    if rid in s.restaurants then s.restaurants[rid].name else "Unknown restaurant"
  }

  /** What `resolve_session` decides from the votes and the deck; `pick` is the random draw. */
  function Decide(s: State, sid: SessionId, pick: nat): Resolution {
    var counts := LikeCounts(s, sid);
    if counts.Keys == {} then
      var deck := DeckOf(s, sid);
      if deck == [] then
        Resolution(MatchResult(None, SPIN_WHEEL_NO_MATCH, "No restaurant available"), [])
      else
        var winner := Choice(deck, pick);
        Resolution(MatchResult(Some(winner), SPIN_WHEEL_NO_MATCH, NameOf(s, winner)), deck)
    else
      var leaders := Sorted(Leaders(counts));
      if |leaders| == 1 then
        Resolution(MatchResult(Some(leaders[0]), MAJORITY, NameOf(s, leaders[0])), [])
      else if leaders == [] then
        assert false by { LeadersExist(counts); }
        Resolution(MatchResult(None, SPIN_WHEEL_TIE, ""), [])
      else
        var winner := Choice(leaders, pick);
        Resolution(MatchResult(Some(winner), SPIN_WHEEL_TIE, NameOf(s, winner)), leaders)
  }

  lemma LeadersExist(counts: map<RestaurantId, int>)
    requires counts.Keys != {}
    ensures Leaders(counts) != {}
  {
    var values := set rid | rid in counts :: counts[rid];
    HasElement(counts.Keys);
    var some :| some in counts.Keys;
    assert counts[some] in values;
    var highest := MaxOf(values);
    var top :| top in counts && counts[top] == highest;
    forall other | other in counts ensures counts[other] <= counts[top] {
      assert counts[other] in values;
    }
    assert top in Leaders(counts);
  }

  function Finish(s: State, sid: SessionId, result: MatchResult): State
    requires sid in s.sessions
  {
    s.(results := s.results[sid := result],
       sessions := s.sessions[sid := s.sessions[sid].(status := FINISHED)])
  }

  /** Insert the result row and close the session; the unique session_id may refuse it. */
  function Persist(s: State, sid: SessionId, result: MatchResult): Option<State> {
    if sid !in s.sessions || sid in s.results then None else Some(Finish(s, sid, result))
  }

  /** Read a saved outcome back, rebuilding its wheel from the votes or the deck. */
  function GetResolution(s: State, sid: SessionId): Reply<Resolution, Error> {
    if sid !in s.results then Err(INTERNAL) else
      var result := s.results[sid];
      match result.kind
      case SPIN_WHEEL_NO_MATCH => Ok(Resolution(result, DeckOf(s, sid)))
      case SPIN_WHEEL_TIE => Ok(Resolution(result, Sorted(Leaders(LikeCounts(s, sid)))))
      case _ => Ok(Resolution(result, []))
  }

  function ResolveSession(s: State, sid: SessionId, pick: nat): (State, Reply<Resolution, Error>) {
    if sid !in s.sessions then (s, Err(INTERNAL))
    else if s.sessions[sid].status == FINISHED then (s, GetResolution(s, sid))
    else
      var resolution := Decide(s, sid, pick);
      match Persist(s, sid, resolution.result)
      case None => (s, Err(INTERNAL))
      case Some(after) => (after, Ok(resolution))
  }

  function ResolveUnanimous(s: State, sid: SessionId, rid: RestaurantId): (State, Reply<Resolution, Error>) {
    if sid !in s.sessions then (s, Err(INTERNAL))
    else if s.sessions[sid].status == FINISHED then (s, GetResolution(s, sid))
    else
      var result := MatchResult(Some(rid), UNANIMOUS, NameOf(s, rid));
      match Persist(s, sid, result)
      case None => (s, if sid in s.results then Ok(Resolution(s.results[sid], [])) else Err(INTERNAL))
      case Some(after) => (after, Ok(Resolution(result, [])))
  }

  // ─── Swiping (vote_service) ───

  function CastVote(s: State, sid: SessionId, uid: UserId, rid: RestaurantId, liked: bool): State {
    s.(ballots := s.ballots[Ballot(sid, uid, rid) := liked])
  }

  /** `None`: recorded or repeated. `Some`: this swipe completed a unanimous match. */
  function RecordSwipe(s: State, sid: SessionId, uid: UserId, rid: RestaurantId, liked: bool, now: Instant)
    : (State, Reply<Option<Resolution>, Error>)
  {
    if sid !in s.sessions then (s, Err(NOT_FOUND))
    else if s.sessions[sid].status != ACTIVE then (s, Err(FORBIDDEN))
    else if s.sessions[sid].endsAt.Some? && s.sessions[sid].endsAt.value <= now then (s, Err(FORBIDDEN))
    else if Seat(sid, uid) !in s.seats then (s, Err(FORBIDDEN))
    else if rid !in DeckOf(s, sid) then (s, Err(FORBIDDEN))
    else if Ballot(sid, uid, rid) in s.ballots then (s, Ok(None))
    else
      var voted := CastVote(s, sid, uid, rid, liked);
      if !liked || !IsUnanimous(voted, sid, rid) then (voted, Ok(None))
      else
        var (after, reply) := ResolveUnanimous(voted, sid, rid);
        match reply
        case Ok(resolution) => (after, Ok(Some(resolution)))
        case Err(e) => (s, Err(e))
  }

  /** A repeated like, even over an earlier skip, leaves the row that is there. */
  function LikeSolo(s: State, uid: UserId, rid: RestaurantId): (State, Reply<(), Error>) {
    if uid !in s.users then (s, Err(FORBIDDEN))
    else if rid !in s.restaurants then (s, Err(NOT_FOUND))
    else if SoloVote(uid, rid) in s.solo then (s, Ok(()))
    else (s.(solo := s.solo[SoloVote(uid, rid) := true]), Ok(()))
  }

  /** A repeated swipe replaces the row that is there. */
  function SwipeSolo(s: State, uid: UserId, rid: RestaurantId, liked: bool): (State, Reply<(), Error>) {
    if uid !in s.users then (s, Err(FORBIDDEN))
    else if rid !in s.restaurants then (s, Err(NOT_FOUND))
    else (s.(solo := s.solo[SoloVote(uid, rid) := liked]), Ok(()))
  }

  // ─── Lobby life (session_service, friend_service, notification_service) ───

  predicate InOpenSession(s: State, uid: UserId) {
    exists seat | seat in s.seats :: seat.user == uid && IsOpen(s, seat.session)
  }

  function CreateSession(s: State, host: UserId, sid: SessionId, duration: int): (State, Reply<SessionId, Error>) {
    if host !in s.users then (s, Err(FORBIDDEN))
    else if InOpenSession(s, host) then (s, Err(ALREADY_IN_SESSION))
    else
      (s.(sessions := s.sessions[sid := Session(Some(host), LOBBY, duration, None)],
          seats := s.seats[Seat(sid, host) := IN_LOBBY]),
       Ok(sid))
  }

  function AddFriend(friends: set<Friendship>, uid: UserId, friend: UserId): set<Friendship> {
    if uid == friend || Friendship(uid, friend) in friends then friends
    else friends + {Friendship(uid, friend), Friendship(friend, uid)}
  }

  function JoinSession(s: State, uid: UserId, sid: SessionId): (State, Reply<SessionId, Error>) {
    if uid !in s.users then (s, Err(FORBIDDEN))
    else if sid !in s.sessions then (s, Err(NOT_FOUND))
    else if Seat(sid, uid) in s.seats then (s, Ok(sid))
    else if s.sessions[sid].status != LOBBY then (s, Err(ALREADY_STARTED))
    else if s.sessions[sid].host.None? then (s, Err(NOT_FOUND))
    else if InOpenSession(s, uid) then (s, Err(ALREADY_IN_SESSION))
    else
      (s.(seats := s.seats[Seat(sid, uid) := IN_LOBBY],
          friends := AddFriend(s.friends, uid, s.sessions[sid].host.value)),
       Ok(sid))
  }

  /** Mark every unread invite to the session as read. */
  function ExpireInvites(invites: map<InviteId, Invite>, sid: SessionId): map<InviteId, Invite> {
    map n | n in invites :: if invites[n].session == sid then invites[n].(isRead := true) else invites[n]
  }

  /** The dealt deck: nothing below the minimum, otherwise a prefix of the shuffled search result. */
  function DealDeck(shuffled: seq<RestaurantId>): seq<RestaurantId> {
    if |shuffled| < MIN_LOCAL_RESTAURANTS then []
    else if |shuffled| <= MAX_DECK_SIZE then shuffled
    else shuffled[..MAX_DECK_SIZE]
  }

  function StartSession(s: State, sid: SessionId, host: UserId, shuffled: seq<RestaurantId>, now: Instant)
    : (State, Reply<seq<RestaurantId>, Error>)
  {
    if sid !in s.sessions then (s, Err(NOT_FOUND))
    else if s.sessions[sid].host != Some(host) then (s, Err(FORBIDDEN))
    else if s.sessions[sid].status != LOBBY then (s, Err(ALREADY_STARTED))
    else if DealDeck(shuffled) == [] then (s, Err(NOT_FOUND))
    else if sid in s.decks then (s, Err(INTERNAL)) // uq_session_deck_position
    else
      var session := s.sessions[sid];
      (s.(decks := s.decks[sid := DealDeck(shuffled)],
          sessions := s.sessions[sid := session.(status := ACTIVE, endsAt := Some(now + session.durationSeconds))],
          seats := map seat | seat in s.seats :: if seat.session == sid then SWIPING else s.seats[seat],
          invites := ExpireInvites(s.invites, sid)),
       Ok(DealDeck(shuffled)))
  }

  function KickParticipant(s: State, sid: SessionId, uid: UserId, host: UserId): (State, Reply<(), Error>) {
    if sid !in s.sessions then (s, Err(NOT_FOUND))
    else if s.sessions[sid].host != Some(host) then (s, Err(FORBIDDEN))
    else if s.sessions[sid].status != LOBBY then (s, Err(FORBIDDEN))
    else if uid == host then (s, Err(FORBIDDEN))
    else if Seat(sid, uid) !in s.seats then (s, Err(NOT_FOUND))
    else (s.(seats := s.seats - {Seat(sid, uid)}), Ok(()))
  }

  /** Delete session rows and, through the foreign keys, everything hanging off them. */
  function DropSessions(s: State, gone: set<SessionId>): State {
    s.(sessions := s.sessions - gone,
       seats := map seat | seat in s.seats && seat.session !in gone :: s.seats[seat],
       decks := s.decks - gone,
       ballots := map b | b in s.ballots && b.session !in gone :: s.ballots[b],
       results := s.results - gone)
  }

  function LeaveSession(s: State, sid: SessionId, uid: UserId): (State, Reply<(), Error>) {
    if sid !in s.sessions then (s, Err(NOT_FOUND))
    else if Seat(sid, uid) !in s.seats then (s, Err(FORBIDDEN))
    else if s.sessions[sid].status != LOBBY then (s, Err(FORBIDDEN))
    else if s.sessions[sid].host == Some(uid) then
      (DropSessions(s.(invites := ExpireInvites(s.invites, sid)), {sid}), Ok(()))
    else (s.(seats := s.seats - {Seat(sid, uid)}), Ok(()))
  }

  predicate HasUnreadInvite(s: State, uid: UserId, sid: SessionId) {
    exists n | n in s.invites :: s.invites[n] == Invite(uid, sid, false)
  }

  function InviteFriend(s: State, sid: SessionId, friend: UserId, inviter: UserId, nid: InviteId)
    : (State, Reply<(), Error>)
  {
    if sid !in s.sessions then (s, Err(NOT_FOUND))
    else if Seat(sid, inviter) !in s.seats then (s, Err(FORBIDDEN))
    else if s.sessions[sid].status != LOBBY then (s, Err(FORBIDDEN))
    else if friend == inviter then (s, Err(FORBIDDEN))
    else if Friendship(inviter, friend) !in s.friends then (s, Err(FORBIDDEN))
    else if Seat(sid, friend) in s.seats then (s, Ok(()))
    else if friend !in s.users then (s, Err(NOT_FOUND))
    else if HasUnreadInvite(s, friend, sid) then (s, Ok(()))
    else (s.(invites := s.invites[nid := Invite(friend, sid, false)]), Ok(()))
  }

  function MarkAsRead(s: State, nid: InviteId, uid: UserId): (State, Reply<(), Error>) {
    if nid !in s.invites || s.invites[nid].user != uid then (s, Err(NOT_FOUND))
    else (s.(invites := s.invites[nid := s.invites[nid].(isRead := true)]), Ok(()))
  }

  predicate InSameOpenSession(s: State, uid: UserId, other: UserId) {
    exists seat | seat in s.seats ::
      seat.user == uid && IsOpen(s, seat.session) && Seat(seat.session, other) in s.seats
  }

  function Unfriend(s: State, uid: UserId, friend: UserId): (State, Reply<(), Error>) {
    if InSameOpenSession(s, uid, friend) then (s, Err(FORBIDDEN))
    else if Friendship(uid, friend) !in s.friends && Friendship(friend, uid) !in s.friends then (s, Err(NOT_FOUND))
    else (s.(friends := s.friends - {Friendship(uid, friend), Friendship(friend, uid)}), Ok(()))
  }

  // ─── Ending a session ───

  /** The unlocked half of `mark_participant_finished`; `Ok(true)` goes on to resolve. */
  function ReportDeckFinished(s: State, sid: SessionId, uid: UserId): (State, Reply<bool, Error>) {
    if sid !in s.sessions then (s, Err(NOT_FOUND))
    else if Seat(sid, uid) !in s.seats then (s, Err(FORBIDDEN))
    else if s.sessions[sid].status != ACTIVE then (s, Ok(false))
    else
      var after := s.(seats := s.seats[Seat(sid, uid) := WAITING]);
      (after, Ok(AllParticipantsFinished(after, sid)))
  }

  predicate IsOverdue(s: State, sid: SessionId, now: Instant) {
    HasStatus(s, sid, ACTIVE) && s.sessions[sid].endsAt.Some? && s.sessions[sid].endsAt.value <= now
  }

  /** The read half of `get_result`, after any late settlement. */
  function ReadResult(s: State, sid: SessionId, uid: UserId): Reply<Resolution, Error> {
    if sid !in s.sessions then Err(NOT_FOUND)
    else if Seat(sid, uid) !in s.seats then Err(FORBIDDEN)
    else if sid !in s.results then Err(NOT_FOUND)
    else GetResolution(s, sid)
  }

  // ─── Deletions outside the session locks ───

  /** Expired cache rows that no deck and no vote refers to. */
  function Expendable(s: State, now: Instant): set<RestaurantId> {
    set rid | rid in s.restaurants
      && !s.restaurants[rid].isPermanent
      && s.restaurants[rid].expiresAt.Some? && s.restaurants[rid].expiresAt.value <= now
      && !IsReferenced(s, rid)
  }

  /** The foreign key's `ON DELETE SET NULL`. */
  function WithoutRestaurants(results: map<SessionId, MatchResult>, gone: set<RestaurantId>)
    : map<SessionId, MatchResult>
  {
    map sid | sid in results ::
      if results[sid].restaurant.Some? && results[sid].restaurant.value in gone
      then results[sid].(restaurant := None) else results[sid]
  }

  /** Nightly removal of expendable rows; results that named one fall back to a NULL restaurant. */
  function CleanupRestaurants(s: State, now: Instant): State {
    var gone := Expendable(s, now);
    s.(restaurants := s.restaurants - gone, results := WithoutRestaurants(s.results, gone))
  }

  function OwnedLobbies(s: State, uid: UserId): set<SessionId> {
    set sid | sid in s.sessions && s.sessions[sid].host == Some(uid) && s.sessions[sid].status == LOBBY
  }

  function ExpireLobbyInvites(invites: map<InviteId, Invite>, lobbies: set<SessionId>): map<InviteId, Invite> {
    map n | n in invites :: if invites[n].session in lobbies then invites[n].(isRead := true) else invites[n]
  }

  /** Deleting the user row cascades to its participations, votes and inbox and clears host references. */
  function EraseUser(s: State, uid: UserId): State {
    s.(users := s.users - {uid},
       sessions := map sid | sid in s.sessions ::
         if s.sessions[sid].host == Some(uid) then s.sessions[sid].(host := None) else s.sessions[sid],
       seats := map seat | seat in s.seats && seat.user != uid :: s.seats[seat],
       ballots := map b | b in s.ballots && b.user != uid :: s.ballots[b],
       solo := map v | v in s.solo && v.user != uid :: s.solo[v],
       invites := map n | n in s.invites && s.invites[n].user != uid :: s.invites[n])
  }

  function DeleteAccount(s: State, uid: UserId): State {
    var lobbies := OwnedLobbies(s, uid);
    var unfriended := s.(
      friends := (set f | f in s.friends && f.user != uid && f.friend != uid),
      invites := ExpireLobbyInvites(s.invites, lobbies));
    EraseUser(DropSessions(unfriended, lobbies), uid)
  }
}
