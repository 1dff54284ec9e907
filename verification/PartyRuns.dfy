/**
 Whole runs of the party protocol: any interleaving of requests, timer ticks and jobs.

 A step is one locked transaction. `mark_participant_finished`, `get_result` and the timer worker first
 make an unlocked check and only later take the session lock, so their check leaves a ticket that a
 later `Resolve` step uses; any number of such callers may be under way at once.
 */
module PartyRuns {
  import opened Basics
  import opened PartyModel
  import opened PartyInvariants
  import opened PartyVotes
  import opened PartySettlement

  datatype Config = Config(db: State, tickets: set<SessionId>)

  datatype Step =
    | SignUp(user: UserId)
    | PutRestaurant(restaurant: RestaurantId, row: Restaurant)
    | Create(host: UserId, session: SessionId, duration: int)
    | Join(user: UserId, session: SessionId)
    | Start(session: SessionId, host: UserId, found: seq<RestaurantId>, shuffled: seq<RestaurantId>, now: Instant)
    | Kick(session: SessionId, user: UserId, host: UserId)
    | Leave(session: SessionId, user: UserId)
    | SendInvite(session: SessionId, friend: UserId, inviter: UserId, invite: InviteId)
    | MarkRead(invite: InviteId, user: UserId)
    | EndFriendship(user: UserId, friend: UserId)
    | Swipe(session: SessionId, user: UserId, card: RestaurantId, liked: bool, now: Instant)
    | SoloLike(user: UserId, card: RestaurantId)
    | SoloSwipe(user: UserId, card: RestaurantId, liked: bool)
    | DeckFinished(session: SessionId, user: UserId)
    | LateCheck(session: SessionId, user: UserId, now: Instant)
    | TimerTick(now: Instant)
    | Resolve(session: SessionId, pick: nat)
    | Read(session: SessionId, user: UserId)
    | Cleanup(now: Instant)
    | DeleteUser(user: UserId)

  /** Fresh identifiers, a search result of distinct known restaurants, and tickets before locks. */
  predicate Enabled(c: Config, step: Step) {
    match step
    case SignUp(user) => user !in c.db.users
    case Create(_, session, _) => session !in c.db.sessions
    case Start(_, _, found, shuffled, _) =>
      multiset(found) == multiset(shuffled) && Distinct(found) &&
      forall rid | rid in found :: rid in c.db.restaurants
    case SendInvite(_, _, _, invite) => invite !in c.db.invites
    case Resolve(session, _) => session in c.tickets
    case _ => true
  }

  function After(s: State, step: Step): State {
    match step
    case SignUp(user) => s.(users := s.users + {user})
    case PutRestaurant(rid, row) => s.(restaurants := s.restaurants[rid := row])
    case Create(host, session, duration) => CreateSession(s, host, session, duration).0
    case Join(user, session) => JoinSession(s, user, session).0
    case Start(session, host, _, shuffled, now) => StartSession(s, session, host, shuffled, now).0
    case Kick(session, user, host) => KickParticipant(s, session, user, host).0
    case Leave(session, user) => LeaveSession(s, session, user).0
    case SendInvite(session, friend, inviter, invite) => InviteFriend(s, session, friend, inviter, invite).0
    case MarkRead(invite, user) => MarkAsRead(s, invite, user).0
    case EndFriendship(user, friend) => Unfriend(s, user, friend).0
    case Swipe(session, user, card, liked, now) => RecordSwipe(s, session, user, card, liked, now).0
    case SoloLike(user, card) => LikeSolo(s, user, card).0
    case SoloSwipe(user, card, liked) => SwipeSolo(s, user, card, liked).0
    case DeckFinished(session, user) => ReportDeckFinished(s, session, user).0
    case LateCheck(_, _, _) => s
    case TimerTick(_) => s
    case Resolve(session, pick) => ResolveSession(s, session, pick).0
    case Read(_, _) => s
    case Cleanup(now) => CleanupRestaurants(s, now)
    case DeleteUser(user) => DeleteAccount(s, user)
  }

  function NewTickets(s: State, step: Step): set<SessionId> {
    match step
    case DeckFinished(session, user) =>
      if ReportDeckFinished(s, session, user).1 == Ok(true) then {session} else {}
    case LateCheck(session, user, now) =>
      if Seat(session, user) in s.seats && IsOverdue(s, session, now) then {session} else {}
    case TimerTick(now) => set sid | sid in s.sessions && IsOverdue(s, sid, now)
    case _ => {}
  }

  function Next(c: Config, step: Step): Config {
    Config(After(c.db, step), c.tickets + NewTickets(c.db, step))
  }

  /** The outcome a step tells its caller or broadcasts, if any. */
  function Announced(c: Config, step: Step): Option<Resolution> {
    match step
    case Swipe(session, user, card, liked, now) =>
      (match RecordSwipe(c.db, session, user, card, liked, now).1
       case Ok(matched) => matched
       case Err(_) => None)
    case Resolve(session, pick) => Outcome(ResolveSession(c.db, session, pick).1)
    case Read(session, user) => Outcome(ReadResult(c.db, session, user))
    case _ => None
  }

  function Outcome(reply: Reply<Resolution, Error>): Option<Resolution> {
    match reply case Ok(resolution) => Some(resolution) case Err(_) => None
  }

  predicate Runs(c: Config, steps: seq<Step>)
    decreases |steps|
  {
    steps == [] || (Enabled(c, steps[0]) && Runs(Next(c, steps[0]), steps[1..]))
  }

  function Run(c: Config, steps: seq<Step>): Config
    decreases |steps|
  {
    if steps == [] then c else Run(Next(c, steps[0]), steps[1..])
  }

  const Initial := Config(Empty, {})

  /** The step does not delete the account of somebody playing in the session. */
  predicate SparesPlayers(s: State, step: Step, sid: SessionId) {
    step.DeleteUser? && sid in s.sessions && s.sessions[sid].status != LOBBY ==> Seat(sid, step.user) !in s.seats
  }

  /** No step of the run does; deletions of anybody else, and in lobbies, are fine. */
  predicate KeepsPlayers(c: Config, steps: seq<Step>, sid: SessionId)
    decreases |steps|
  {
    steps == [] || (SparesPlayers(c.db, steps[0], sid) && KeepsPlayers(Next(c, steps[0]), steps[1..], sid))
  }

  lemma StepThen(c: Config, step: Step, rest: seq<Step>)
    ensures Runs(c, [step] + rest) <==> Enabled(c, step) && Runs(Next(c, step), rest)
    ensures Run(c, [step] + rest) == Run(Next(c, step), rest)
  {
    assert ([step] + rest)[1..] == rest;
  }

  lemma OneStep(c: Config, step: Step)
    ensures Runs(c, [step]) <==> Enabled(c, step)
    ensures Run(c, [step]) == Next(c, step)
  {
    StepThen(c, step, []);
    assert [step] + [] == [step];
  }

  // ─── Every run, account deletion included ───

  ghost predicate Good(c: Config) {
    Inv(c.db) && forall sid | sid in c.tickets :: Started(c.db, sid)
  }

  lemma StepKeepsInv(s: State, step: Step, tickets: set<SessionId>)
    requires Inv(s) && Enabled(Config(s, tickets), step)
    requires forall sid | sid in tickets :: Started(s, sid)
    ensures Inv(After(s, step))
  {
    hide CreateSession, JoinSession, KickParticipant, StartSession, LeaveSession, ReportDeckFinished, InviteFriend;
    hide CleanupRestaurants, RecordSwipe, ResolveSession, DeleteAccount, MarkAsRead, Unfriend, DealDeck, LikeSolo;
    hide SwipeSolo, SeatsValid, DecksValid, BallotsValid, ResultsValid, SessionsValid, CompanyValid, InvitesValid;
    hide SoloValid;
    StepKeepsSolo(s, step);
    match step {
      case SignUp(user) => SignUpKeeps(s, user);
      case PutRestaurant(rid, row) => PutRestaurantKeeps(s, rid, row);
      case Create(host, session, duration) =>
        CreateKeepsTables(s, host, session, duration);
        CreateKeepsCompany(s, host, session, duration);
        CreateKeepsInvites(s, host, session, duration);
      case Join(user, session) =>
        JoinKeepsTables(s, user, session);
        JoinKeepsCompany(s, user, session);
        JoinKeepsInvites(s, user, session);
      case Start(session, host, found, shuffled, now) =>
        if DealDeck(shuffled) != [] { DealtDeck(s, found, shuffled); }
        StartKeepsTables(s, session, host, shuffled, now);
        StartKeepsCompany(s, session, host, shuffled, now);
        StartKeepsInvites(s, session, host, shuffled, now);
      case Kick(session, user, host) => KickKeeps(s, session, user, host);
      case Leave(session, user) =>
        LeaveKeepsTables(s, session, user);
        LeaveKeepsCompany(s, session, user);
        LeaveKeepsInvites(s, session, user);
      case SendInvite(session, friend, inviter, invite) =>
        InviteKeepsTables(s, session, friend, inviter, invite);
        InviteKeepsCompany(s, session, friend, inviter, invite);
        InviteKeepsInvites(s, session, friend, inviter, invite);
      case MarkRead(invite, user) =>
        ReadKeepsTables(s, invite, user);
        ReadKeepsCompany(s, invite, user);
        ReadKeepsInvites(s, invite, user);
      case EndFriendship(user, friend) =>
        UnfriendKeepsTables(s, user, friend);
        UnfriendKeepsCompany(s, user, friend);
        UnfriendKeepsInvites(s, user, friend);
      case Swipe(session, user, card, liked, now) => SwipeKeeps(s, session, user, card, liked, now);
      case SoloLike(user, card) => SoloVoteKeeps(s, step);
      case SoloSwipe(user, card, liked) => SoloVoteKeeps(s, step);
      case DeckFinished(session, user) =>
        ReportKeepsTables(s, session, user);
        ReportKeepsCompany(s, session, user);
        ReportKeepsInvites(s, session, user);
      case Resolve(session, pick) => ResolveKeeps(s, session, pick);
      case Cleanup(now) =>
        CleanupKeepsTables(s, now);
        CleanupKeepsCompany(s, now);
        CleanupKeepsInvites(s, now);
      case DeleteUser(user) =>
        DeleteAccountKeepsTables(s, user);
        DeleteAccountKeepsCompany(s, user);
        DeleteAccountKeepsInvites(s, user);
      case _ =>
    }
  }

  lemma SignUpKeeps(s: State, user: UserId)
    ensures SoloValid(s) ==> SoloValid(s.(users := s.users + {user}))
    ensures TablesValid(s) ==> TablesValid(s.(users := s.users + {user}))
    ensures CompanyValid(s) ==> CompanyValid(s.(users := s.users + {user}))
    ensures InvitesValid(s) ==> InvitesValid(s.(users := s.users + {user}))
  {
  }

  lemma SoloVoteKeeps(s: State, step: Step)
    requires Inv(s) && (step.SoloLike? || step.SoloSwipe?)
    ensures TablesValid(After(s, step)) && CompanyValid(After(s, step)) && InvitesValid(After(s, step))
  {
    hide TablesValid, CompanyValid, InvitesValid, SoloValid;
    SoloVoteKeepsTables(s, After(s, step).solo);
  }

  lemma SoloVoteKeepsTables(s: State, solo: map<SoloVote, bool>)
    ensures TablesValid(s) ==> TablesValid(s.(solo := solo))
    ensures CompanyValid(s) ==> CompanyValid(s.(solo := solo))
    ensures InvitesValid(s) ==> InvitesValid(s.(solo := solo))
  {
  }

  /** The tables that calls about sessions only read. */
  function Base(s: State): (set<UserId>, map<RestaurantId, Restaurant>, map<SoloVote, bool>) {
    (s.users, s.restaurants, s.solo)
  }

  // Calls about sessions touch neither users nor restaurants nor solo votes.

  lemma CreateKeepsBase(s: State, host: UserId, session: SessionId, duration: int)
    ensures Base(CreateSession(s, host, session, duration).0) == Base(s)
  {
  }

  lemma JoinKeepsBase(s: State, user: UserId, session: SessionId)
    ensures Base(JoinSession(s, user, session).0) == Base(s)
  {
  }

  lemma StartKeepsBase(s: State, session: SessionId, host: UserId, shuffled: seq<RestaurantId>, now: Instant)
    ensures Base(StartSession(s, session, host, shuffled, now).0) == Base(s)
  {
  }

  lemma KickKeepsBase(s: State, session: SessionId, user: UserId, host: UserId)
    ensures Base(KickParticipant(s, session, user, host).0) == Base(s)
  {
  }

  lemma LeaveKeepsBase(s: State, session: SessionId, user: UserId)
    ensures Base(LeaveSession(s, session, user).0) == Base(s)
  {
  }

  lemma InviteKeepsBase(s: State, session: SessionId, friend: UserId, inviter: UserId, invite: InviteId)
    ensures Base(InviteFriend(s, session, friend, inviter, invite).0) == Base(s)
  {
  }

  lemma ReadKeepsBase(s: State, invite: InviteId, user: UserId)
    ensures Base(MarkAsRead(s, invite, user).0) == Base(s)
  {
  }

  lemma UnfriendKeepsBase(s: State, user: UserId, friend: UserId)
    ensures Base(Unfriend(s, user, friend).0) == Base(s)
  {
  }

  lemma ReportKeepsBase(s: State, session: SessionId, user: UserId)
    ensures Base(ReportDeckFinished(s, session, user).0) == Base(s)
  {
  }

  lemma ResolveKeepsBase(s: State, session: SessionId, pick: nat)
    ensures Base(ResolveSession(s, session, pick).0) == Base(s)
  {
    hide Decide, GetResolution;
  }

  lemma SameBaseKeepsSolo(s: State, t: State)
    requires SoloValid(s)
    ensures Base(t) == Base(s) ==> SoloValid(t)
  {
  }

  lemma SoloVotesKeepSolo(s: State, uid: UserId, rid: RestaurantId, liked: bool)
    requires SoloValid(s)
    ensures SoloValid(LikeSolo(s, uid, rid).0) && SoloValid(SwipeSolo(s, uid, rid, liked).0)
  {
  }

  /** No user or restaurant that a solo vote names is lost. */
  lemma StepKeepsSolo(s: State, step: Step)
    requires SoloValid(s) && TablesValid(s)
    ensures SoloValid(After(s, step))
  {
    hide TablesValid, CleanupRestaurants, DeleteAccount, RecordSwipe, CreateSession, JoinSession, StartSession;
    hide LeaveSession, KickParticipant, InviteFriend, MarkAsRead, Unfriend, ReportDeckFinished, ResolveSession;
    hide LikeSolo, SwipeSolo, Base;
    SameBaseKeepsSolo(s, After(s, step));
    match step {
      case Create(host, session, duration) => CreateKeepsBase(s, host, session, duration);
      case Join(user, session) => JoinKeepsBase(s, user, session);
      case Start(session, host, _, shuffled, now) => StartKeepsBase(s, session, host, shuffled, now);
      case Kick(session, user, host) => KickKeepsBase(s, session, user, host);
      case Leave(session, user) => LeaveKeepsBase(s, session, user);
      case SendInvite(session, friend, inviter, invite) => InviteKeepsBase(s, session, friend, inviter, invite);
      case MarkRead(invite, user) => ReadKeepsBase(s, invite, user);
      case EndFriendship(user, friend) => UnfriendKeepsBase(s, user, friend);
      case DeckFinished(session, user) => ReportKeepsBase(s, session, user);
      case Resolve(session, pick) => ResolveKeepsBase(s, session, pick);
      case SignUp(user) => SignUpKeeps(s, user);
      case PutRestaurant(rid, row) => RestaurantKeepsSolo(s, rid, row);
      case Swipe(session, user, card, liked, now) => SwipeKeepsSolo(s, session, user, card, liked, now);
      case SoloLike(user, card) => SoloVotesKeepSolo(s, user, card, true);
      case SoloSwipe(user, card, liked) => SoloVotesKeepSolo(s, user, card, liked);
      case Cleanup(now) => CleanupKeepsSolo(s, now);
      case DeleteUser(user) => EraseKeepsSolo(s, user);
      case _ =>
    }
  }

  /** Only signing up adds a user. */
  lemma UnknownStays(s: State, step: Step, uid: UserId)
    requires uid !in s.users && step != SignUp(uid)
    ensures uid !in After(s, step).users
  {
    hide CreateSession, JoinSession, StartSession, LeaveSession, KickParticipant, InviteFriend, MarkAsRead, Unfriend;
    hide ReportDeckFinished, ResolveSession;
    match step {
      case Create(host, session, duration) => CreateKeepsBase(s, host, session, duration);
      case Join(user, session) => JoinKeepsBase(s, user, session);
      case Start(session, host, _, shuffled, now) => StartKeepsBase(s, session, host, shuffled, now);
      case Kick(session, user, host) => KickKeepsBase(s, session, user, host);
      case Leave(session, user) => LeaveKeepsBase(s, session, user);
      case SendInvite(session, friend, inviter, invite) => InviteKeepsBase(s, session, friend, inviter, invite);
      case MarkRead(invite, user) => ReadKeepsBase(s, invite, user);
      case EndFriendship(user, friend) => UnfriendKeepsBase(s, user, friend);
      case DeckFinished(session, user) => ReportKeepsBase(s, session, user);
      case Resolve(session, pick) => ResolveKeepsBase(s, session, pick);
      case Swipe(session, user, card, liked, now) => SwipeKeepsUsers(s, session, user, card, liked, now);
      case _ =>
    }
  }

  lemma SwipeKeepsUsers(s: State, sid: SessionId, uid: UserId, rid: RestaurantId, liked: bool, now: Instant)
    ensures RecordSwipe(s, sid, uid, rid, liked, now).0.users == s.users
  {
    hide IsUnanimous, GetResolution;
  }

  lemma RestaurantKeepsSolo(s: State, rid: RestaurantId, row: Restaurant)
    requires SoloValid(s)
    ensures SoloValid(s.(restaurants := s.restaurants[rid := row]))
  {
  }

  lemma SwipeKeepsSolo(s: State, sid: SessionId, uid: UserId, rid: RestaurantId, liked: bool, now: Instant)
    requires SoloValid(s) && TablesValid(s)
    ensures SoloValid(RecordSwipe(s, sid, uid, rid, liked, now).0)
  {
    SwipeCases(s, sid, uid, rid, liked, now);
    hide RecordSwipe, TablesValid;
  }

  lemma CleanupKeepsSolo(s: State, now: Instant)
    requires SoloValid(s)
    ensures SoloValid(CleanupRestaurants(s, now))
  {
  }

  lemma EraseKeepsSolo(s: State, uid: UserId)
    requires SoloValid(s)
    ensures SoloValid(DeleteAccount(s, uid))
  {
  }

  lemma PutRestaurantKeeps(s: State, rid: RestaurantId, row: Restaurant)
    requires Inv(s)
    ensures Inv(s.(restaurants := s.restaurants[rid := row]))
  {
  }

  // ─── Frames ───

  /** A transaction leaves a session's row, game and result alone. */
  ghost predicate Undisturbed(s: State, t: State, sid: SessionId) {
    && sid in s.sessions && sid in t.sessions && t.sessions[sid] == s.sessions[sid]
    && SameGame(s, t, sid)
    && (sid in s.results <==> sid in t.results)
    && (sid in s.results ==> t.results[sid] == s.results[sid])
  }

  ghost predicate JustStarted(t: State, sid: SessionId) {
    && HasStatus(t, sid, ACTIVE) && t.sessions[sid].host.Some?
    && forall uid, rid :: Ballot(sid, uid, rid) !in t.ballots
  }

  /** Started sessions stay as they were, and a session that starts has no votes yet. */
  ghost predicate QuietOn(s: State, t: State, sid: SessionId) {
    && (Started(s, sid) ==> Undisturbed(s, t, sid))
    && (Started(t, sid) && !Started(s, sid) ==> JustStarted(t, sid))
  }

  predicate IsQuiet(s: State, step: Step, sid: SessionId) {
    !step.Swipe? && !step.Resolve? && SparesPlayers(s, step, sid)
  }

  lemma QuietStep(s: State, step: Step, sid: SessionId)
    requires TablesValid(s) && IsQuiet(s, step, sid)
    requires step.Create? ==> step.session !in s.sessions
    ensures QuietOn(s, After(s, step), sid)
  {
    hide QuietOn, SeatsValid, DecksValid, BallotsValid, ResultsValid, SessionsValid;
    hide CreateSession, JoinSession, KickParticipant, StartSession, LeaveSession, ReportDeckFinished;
    hide CleanupRestaurants, RecordSwipe, ResolveSession, DeleteAccount, InviteFriend, MarkAsRead, Unfriend;
    hide LikeSolo, SwipeSolo, SparesPlayers;
    match step {
      case Create(host, session, duration) => QuietCreate(s, host, session, duration, sid);
      case Join(user, session) => QuietJoin(s, user, session, sid);
      case Kick(session, user, host) => QuietKick(s, session, user, host, sid);
      case Start(session, host, found, shuffled, now) => QuietStart(s, session, host, shuffled, now, sid);
      case Leave(session, user) => QuietLeave(s, session, user, sid);
      case DeckFinished(session, user) => QuietReport(s, session, user, sid);
      case Cleanup(now) => QuietCleanup(s, now, sid);
      case SendInvite(session, friend, inviter, invite) => QuietInvite(s, session, friend, inviter, invite, sid);
      case DeleteUser(user) => QuietDeletion(s, user, sid);
      case MarkRead(invite, user) => QuietRead(s, invite, user, sid);
      case EndFriendship(user, friend) => QuietUnfriend(s, user, friend, sid);
      case SignUp(user) => QuietElsewhere(s, s.(users := s.users + {user}), sid);
      case PutRestaurant(rid, row) => QuietElsewhere(s, s.(restaurants := s.restaurants[rid := row]), sid);
      case SoloLike(user, card) => QuietSolo(s, user, card, true, sid);
      case SoloSwipe(user, card, liked) => QuietSolo(s, user, card, liked, sid);
      case _ => QuietElsewhere(s, s, sid);
    }
  }

  lemma QuietRead(s: State, invite: InviteId, user: UserId, sid: SessionId)
    ensures QuietOn(s, MarkAsRead(s, invite, user).0, sid)
  {
    hide QuietOn;
    QuietElsewhere(s, MarkAsRead(s, invite, user).0, sid);
  }

  lemma QuietUnfriend(s: State, user: UserId, friend: UserId, sid: SessionId)
    ensures QuietOn(s, Unfriend(s, user, friend).0, sid)
  {
    hide QuietOn, InSameOpenSession;
    QuietElsewhere(s, Unfriend(s, user, friend).0, sid);
  }

  lemma QuietSolo(s: State, user: UserId, card: RestaurantId, liked: bool, sid: SessionId)
    ensures QuietOn(s, LikeSolo(s, user, card).0, sid) && QuietOn(s, SwipeSolo(s, user, card, liked).0, sid)
  {
    hide QuietOn;
    QuietElsewhere(s, LikeSolo(s, user, card).0, sid);
    QuietElsewhere(s, SwipeSolo(s, user, card, liked).0, sid);
  }

  lemma QuietInvite(s: State, session: SessionId, friend: UserId, inviter: UserId, invite: InviteId, sid: SessionId)
    ensures QuietOn(s, InviteFriend(s, session, friend, inviter, invite).0, sid)
  {
    QuietElsewhere(s, InviteFriend(s, session, friend, inviter, invite).0, sid);
  }

  /** The tables that make up sessions and their games. */
  function SessionRows(s: State):
    (map<SessionId, Session>, map<Seat, Progress>, map<SessionId, seq<RestaurantId>>, map<Ballot, bool>,
     map<SessionId, MatchResult>)
  {
    (s.sessions, s.seats, s.decks, s.ballots, s.results)
  }

  lemma QuietElsewhere(s: State, t: State, sid: SessionId)
    requires SessionRows(t) == SessionRows(s)
    ensures QuietOn(s, t, sid)
  {
  }

  lemma QuietCreate(s: State, host: UserId, session: SessionId, duration: int, sid: SessionId)
    requires session !in s.sessions
    ensures QuietOn(s, CreateSession(s, host, session, duration).0, sid)
  {
  }

  lemma QuietJoin(s: State, user: UserId, session: SessionId, sid: SessionId)
    ensures QuietOn(s, JoinSession(s, user, session).0, sid)
  {
    hide AddFriend, InOpenSession, QuietOn;
    var after := JoinSession(s, user, session).0;
    if after.seats == s.seats {
      QuietElsewhere(s, after, sid);
    } else {
      QuietSeat(s, after, Seat(session, user), sid);
    }
  }

  lemma QuietSeat(s: State, t: State, seat: Seat, sid: SessionId)
    requires t.sessions == s.sessions && t.decks == s.decks && t.ballots == s.ballots && t.results == s.results
    requires HasStatus(s, seat.session, LOBBY) && t.seats == s.seats[seat := IN_LOBBY]
    ensures QuietOn(s, t, sid)
  {
  }

  lemma QuietKick(s: State, session: SessionId, user: UserId, host: UserId, sid: SessionId)
    ensures QuietOn(s, KickParticipant(s, session, user, host).0, sid)
  {
    hide QuietOn;
    var after := KickParticipant(s, session, user, host).0;
    if after.seats == s.seats {
      QuietElsewhere(s, after, sid);
    } else {
      QuietSeatGone(s, after, Seat(session, user), sid);
    }
  }

  lemma QuietSeatGone(s: State, t: State, seat: Seat, sid: SessionId)
    requires t.sessions == s.sessions && t.decks == s.decks && t.ballots == s.ballots && t.results == s.results
    requires HasStatus(s, seat.session, LOBBY) && t.seats == s.seats - {seat}
    ensures QuietOn(s, t, sid)
  {
  }

  lemma QuietStart(s: State, session: SessionId, host: UserId, shuffled: seq<RestaurantId>, now: Instant,
                   sid: SessionId)
    requires TablesValid(s)
    ensures QuietOn(s, StartSession(s, session, host, shuffled, now).0, sid)
  {
    hide SeatsValid, ResultsValid, SessionsValid;
  }

  lemma QuietLeave(s: State, session: SessionId, user: UserId, sid: SessionId)
    ensures QuietOn(s, LeaveSession(s, session, user).0, sid)
  {
    if LeaveSession(s, session, user).1.Ok? && s.sessions[session].host == Some(user) && sid != session {
      QuietDrop(s.(invites := ExpireInvites(s.invites, session)), {session}, sid);
    }
  }

  lemma QuietDrop(s: State, gone: set<SessionId>, sid: SessionId)
    requires sid !in gone
    ensures QuietOn(s, DropSessions(s, gone), sid)
  {
  }

  lemma QuietReport(s: State, session: SessionId, user: UserId, sid: SessionId)
    ensures QuietOn(s, ReportDeckFinished(s, session, user).0, sid)
  {
  }

  /** Deleting somebody who does not play in a session leaves its game alone. */
  lemma QuietDeletion(s: State, user: UserId, sid: SessionId)
    requires TablesValid(s) && SparesPlayers(s, DeleteUser(user), sid)
    ensures QuietOn(s, DeleteAccount(s, user), sid)
  {
    if Started(s, sid) {
      DeletionSparesGame(s, user, sid);
      hide DeleteAccount, TablesValid, Undisturbed;
    }
  }

  lemma DeletionSparesGame(s: State, user: UserId, sid: SessionId)
    requires TablesValid(s) && Started(s, sid) && Seat(sid, user) !in s.seats
    ensures Undisturbed(s, DeleteAccount(s, user), sid)
  {
    DeletionSparesVotes(s, user, sid);
    assert s.sessions[sid].host != Some(user);
    hide SeatsValid, DecksValid, BallotsValid, ResultsValid, SameGame;
  }

  lemma DeletionSparesVotes(s: State, user: UserId, sid: SessionId)
    requires BallotsValid(s) && Started(s, sid) && Seat(sid, user) !in s.seats
    ensures SameGame(s, DeleteAccount(s, user), sid)
  {
    assert forall b | b in s.ballots && b.session == sid :: b.user != user;
  }

  lemma QuietCleanup(s: State, now: Instant, sid: SessionId)
    requires TablesValid(s)
    ensures QuietOn(s, CleanupRestaurants(s, now), sid)
  {
    CleanupKeepsResults(s, now);
    QuietElsewhere(s, CleanupRestaurants(s, now), sid);
  }

  /** The nightly cleanup never removes a restaurant that a deck, a vote or a result names. */
  lemma CleanupKeepsResults(s: State, now: Instant)
    requires TablesValid(s)
    ensures CleanupRestaurants(s, now).results == s.results
    ensures forall rid | rid in s.restaurants && IsReferenced(s, rid) ::
      rid in CleanupRestaurants(s, now).restaurants
  {
    forall sid | sid in s.results ensures IsReferenced(s, s.results[sid].restaurant.value) {
      assert sid in s.decks;
    }
  }
}
