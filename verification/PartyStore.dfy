/**
 The services as they run: methods that change the tables row by row, each proved to do to the whole
 database exactly what its transaction in PartyModel does.
 */
module PartyStore {
  import opened Basics
  import opened PartyModel
  import opened PartyInvariants
  import opened PartyVotes
  import opened PartySettlement
  import opened PartyRuns

  /** One request after another, as `mark_participant_finished` runs without interference. */
  function MarkFinished(s: State, sid: SessionId, uid: UserId, pick: nat): (State, Reply<Option<Resolution>, Error>) {
    match ReportDeckFinished(s, sid, uid)
    case (after, Err(e)) => (s, Err(e))
    case (after, Ok(false)) => (after, Ok(None))
    case (after, Ok(true)) =>
      match ResolveSession(after, sid, pick)
      case (settled, Ok(resolution)) => (settled, Ok(Some(resolution)))
      case (_, Err(e)) => (s, Err(e))
  }

  function ReadLate(s: State, sid: SessionId, uid: UserId, now: Instant, pick: nat): (State, Reply<Resolution, Error>) {
    if sid !in s.sessions then (s, Err(NOT_FOUND))
    else if Seat(sid, uid) !in s.seats then (s, Err(FORBIDDEN))
    else if IsOverdue(s, sid, now) then
      match ResolveSession(s, sid, pick)
      case (settled, Ok(_)) => (settled, ReadResult(settled, sid, uid))
      case (_, Err(e)) => (s, Err(e))
    else (s, ReadResult(s, sid, uid))
  }

  function Overdue(s: State, now: Instant): set<SessionId> {
    set sid | sid in s.sessions && IsOverdue(s, sid, now)
  }

  /** The worker's loop: one locked resolution per listed session. */
  function ResolveAll(s: State, listed: seq<SessionId>, draw: SessionId -> nat): State {
    if listed == [] then s
    else
      var before := ResolveAll(s, listed[..|listed| - 1], draw);
      ResolveSession(before, listed[|listed| - 1], draw(listed[|listed| - 1])).0
  }

  class Database {
    var users: set<UserId>
    var restaurants: map<RestaurantId, Restaurant>
    var sessions: map<SessionId, Session>
    var seats: map<Seat, Progress>
    var decks: map<SessionId, seq<RestaurantId>>
    var ballots: map<Ballot, bool>
    var solo: map<SoloVote, bool>
    var results: map<SessionId, MatchResult>
    var friends: set<Friendship>
    var invites: map<InviteId, Invite>

    ghost function Value(): State
      reads this
    {
      State(users, restaurants, sessions, seats, decks, ballots, solo, results, friends, invites)
    }

    constructor ()
      ensures Value() == Empty
    {
      users, friends := {}, {};
      restaurants, sessions, seats, decks := map[], map[], map[], map[];
      ballots, solo, results, invites := map[], map[], map[], map[];
    }

    // ─── match_service ───

    method CountLikes(sid: SessionId) returns (counts: map<RestaurantId, int>)
      ensures counts == LikeCounts(Value(), sid)
    {
      counts := map[];
      var pending := set b | b in ballots && b.session == sid && ballots[b];
      ghost var all := pending;
      while pending != {}
        invariant pending <= all
        invariant counts.Keys == set b | b in all - pending :: b.restaurant
        invariant forall rid | rid in counts :: counts[rid] == |set b | b in all - pending && b.restaurant == rid|
        decreases pending
      {
        var b :| b in pending;
        ghost var done := all - pending;
        var rid := b.restaurant;
        assert (set v | v in done + {b} && v.restaurant == rid) == (set v | v in done && v.restaurant == rid) + {b};
        assert rid !in counts ==> (set v | v in done && v.restaurant == rid) == {};
        forall other | other in counts && other != rid
          ensures (set v | v in done + {b} && v.restaurant == other) == (set v | v in done && v.restaurant == other)
        {
        }
        counts := counts[rid := if rid in counts then counts[rid] + 1 else 1];
        pending := pending - {b};
        assert all - pending == done + {b};
      }
      assert all - pending == all;
      forall rid | rid in counts
        ensures (set b | b in all && b.restaurant == rid) == LikeRows(Value(), sid, rid)
      {
      }
    }

    method Persist(sid: SessionId, result: MatchResult) returns (inserted: bool)
      modifies this
      ensures inserted <==> PartyModel.Persist(old(Value()), sid, result).Some?
      ensures Value() == if inserted then PartyModel.Persist(old(Value()), sid, result).value else old(Value())
    {
      if sid !in sessions || sid in results {
        return false;
      }
      results := results[sid := result];
      sessions := sessions[sid := sessions[sid].(status := FINISHED)];
      return true;
    }

    method ReadBack(sid: SessionId) returns (reply: Reply<Resolution, Error>)
      ensures reply == GetResolution(Value(), sid)
    {
      if sid !in results {
        return Err(INTERNAL);
      }
      var result := results[sid];
      var candidates: seq<RestaurantId> := [];
      if result.kind == SPIN_WHEEL_NO_MATCH {
        candidates := if sid in decks then decks[sid] else [];
      } else if result.kind == SPIN_WHEEL_TIE {
        var counts := CountLikes(sid);
        candidates := Sorted(Leaders(counts));
      }
      return Ok(Resolution(result, candidates));
    }

    method NameOf(rid: RestaurantId) returns (name: string)
      ensures name == PartyModel.NameOf(Value(), rid)
    {
      name := if rid in restaurants then restaurants[rid].name else "Unknown restaurant";
    }

    method ResolveSession(sid: SessionId, pick: nat) returns (reply: Reply<Resolution, Error>)
      modifies this
      ensures (Value(), reply) == PartyModel.ResolveSession(old(Value()), sid, pick)
    {
      if sid !in sessions {
        return Err(INTERNAL);
      }
      if sessions[sid].status == FINISHED {
        reply := ReadBack(sid);
        return;
      }
      var counts := CountLikes(sid);
      var result: MatchResult;
      var wheel: seq<RestaurantId> := [];
      if counts.Keys == {} {
        var deck := if sid in decks then decks[sid] else [];
        if deck == [] {
          result := MatchResult(None, SPIN_WHEEL_NO_MATCH, "No restaurant available");
        } else {
          var winner := deck[pick % |deck|];
          var name := NameOf(winner);
          result, wheel := MatchResult(Some(winner), SPIN_WHEEL_NO_MATCH, name), deck;
        }
      } else {
        LeadersExist(counts);
        var leaders := Sorted(Leaders(counts));
        if |leaders| == 1 {
          var name := NameOf(leaders[0]);
          result := MatchResult(Some(leaders[0]), MAJORITY, name);
        } else {
          var winner := leaders[pick % |leaders|];
          var name := NameOf(winner);
          result, wheel := MatchResult(Some(winner), SPIN_WHEEL_TIE, name), leaders;
        }
      }
      assert Resolution(result, wheel) == Decide(Value(), sid, pick);
      var inserted := Persist(sid, result);
      reply := if inserted then Ok(Resolution(result, wheel)) else Err(INTERNAL);
    }

    method ResolveUnanimous(sid: SessionId, rid: RestaurantId) returns (reply: Reply<Resolution, Error>)
      modifies this
      ensures (Value(), reply) == PartyModel.ResolveUnanimous(old(Value()), sid, rid)
    {
      if sid !in sessions {
        return Err(INTERNAL);
      }
      if sessions[sid].status == FINISHED {
        reply := ReadBack(sid);
        return;
      }
      var name := NameOf(rid);
      var result := MatchResult(Some(rid), UNANIMOUS, name);
      var inserted := Persist(sid, result);
      if inserted {
        return Ok(Resolution(result, []));
      }
      // The savepoint lost the race: read the winner's row instead.
      return if sid in results then Ok(Resolution(results[sid], [])) else Err(INTERNAL);
    }

    // ─── vote_service ───

    method RecordSwipe(sid: SessionId, uid: UserId, rid: RestaurantId, liked: bool, now: Instant)
      returns (reply: Reply<Option<Resolution>, Error>)
      modifies this
      ensures (Value(), reply) == PartyModel.RecordSwipe(old(Value()), sid, uid, rid, liked, now)
    {
      if sid !in sessions {
        return Err(NOT_FOUND);
      }
      var session := sessions[sid];
      if session.status != ACTIVE || (session.endsAt.Some? && session.endsAt.value <= now) {
        return Err(FORBIDDEN);
      }
      if Seat(sid, uid) !in seats || sid !in decks || rid !in decks[sid] {
        return Err(FORBIDDEN);
      }
      if Ballot(sid, uid, rid) in ballots {
        return Ok(None);
      }
      ghost var before := Value();
      ballots := ballots[Ballot(sid, uid, rid) := liked];
      assert Value() == CastVote(before, sid, uid, rid, liked);
      if !liked {
        return Ok(None);
      }
      var matched := IsUnanimous(sid, rid);
      if !matched {
        return Ok(None);
      }
      var resolution := ResolveUnanimous(sid, rid);
      reply := Ok(Some(resolution.value));
    }

    method IsUnanimous(sid: SessionId, rid: RestaurantId) returns (matched: bool)
      ensures matched <==> PartyModel.IsUnanimous(Value(), sid, rid)
    {
      var participants := |set seat | seat in seats && seat.session == sid|;
      if participants == 0 {
        return false;
      }
      var likes := |set b | b in ballots && b.session == sid && b.restaurant == rid && ballots[b]|;
      return likes >= participants;
    }

    // ─── session_service: the lobby ───

    method SoloLike(uid: UserId, rid: RestaurantId) returns (reply: Reply<(), Error>)
      modifies this
      ensures (Value(), reply) == LikeSolo(old(Value()), uid, rid)
    {
      if uid !in users {
        return Err(FORBIDDEN);
      }
      if rid !in restaurants {
        return Err(NOT_FOUND);
      }
      if SoloVote(uid, rid) !in solo {
        solo := solo[SoloVote(uid, rid) := true];
      }
      return Ok(());
    }

    method RecordSoloSwipe(uid: UserId, rid: RestaurantId, liked: bool) returns (reply: Reply<(), Error>)
      modifies this
      ensures (Value(), reply) == SwipeSolo(old(Value()), uid, rid, liked)
    {
      if uid !in users {
        return Err(FORBIDDEN);
      }
      if rid !in restaurants {
        return Err(NOT_FOUND);
      }
      solo := solo[SoloVote(uid, rid) := liked];
      return Ok(());
    }

    method HasOpenSession(uid: UserId) returns (found: bool)
      ensures found <==> InOpenSession(Value(), uid)
    {
      found := exists seat | seat in seats :: seat.user == uid && IsOpenRow(seat.session);
    }

    predicate IsOpenRow(sid: SessionId)
      reads this
    {
      sid in sessions && sessions[sid].status != FINISHED
    }

    method CreateSession(host: UserId, sid: SessionId, duration: int) returns (reply: Reply<SessionId, Error>)
      modifies this
      ensures (Value(), reply) == PartyModel.CreateSession(old(Value()), host, sid, duration)
    {
      if host !in users {
        return Err(FORBIDDEN);
      }
      var busy := HasOpenSession(host);
      if busy {
        return Err(ALREADY_IN_SESSION);
      }
      sessions := sessions[sid := Session(Some(host), LOBBY, duration, None)];
      seats := seats[Seat(sid, host) := IN_LOBBY];
      reply := Ok(sid);
    }

    method AddFriend(uid: UserId, friend: UserId)
      modifies this`friends
      ensures friends == PartyModel.AddFriend(old(friends), uid, friend)
    {
      if uid == friend || Friendship(uid, friend) in friends {
        return;
      }
      friends := friends + {Friendship(uid, friend)};
      friends := friends + {Friendship(friend, uid)};
    }

    method JoinSession(uid: UserId, sid: SessionId) returns (reply: Reply<SessionId, Error>)
      modifies this
      ensures (Value(), reply) == PartyModel.JoinSession(old(Value()), uid, sid)
    {
      if uid !in users {
        return Err(FORBIDDEN);
      }
      if sid !in sessions {
        return Err(NOT_FOUND);
      }
      if Seat(sid, uid) in seats {
        return Ok(sid);
      }
      if sessions[sid].status != LOBBY {
        return Err(ALREADY_STARTED);
      }
      var host := sessions[sid].host;
      if host.None? {
        return Err(NOT_FOUND);
      }
      var busy := HasOpenSession(uid);
      if busy {
        return Err(ALREADY_IN_SESSION);
      }
      seats := seats[Seat(sid, uid) := IN_LOBBY];
      AddFriend(uid, host.value);
      reply := Ok(sid);
    }

    method CreateSessionDeck(sid: SessionId, shuffled: seq<RestaurantId>)
        returns (reply: Reply<seq<RestaurantId>, Error>)
      modifies this`decks
      ensures reply == if DealDeck(shuffled) != [] && sid in old(decks) then Err(INTERNAL) else Ok(DealDeck(shuffled))
      ensures decks == if reply.Err? || reply.value == [] then old(decks) else old(decks)[sid := reply.value]
    {
      if |shuffled| < MIN_LOCAL_RESTAURANTS {
        return Ok([]);
      }
      var deck := if |shuffled| <= MAX_DECK_SIZE then shuffled else shuffled[..MAX_DECK_SIZE];
      if sid in decks {
        return Err(INTERNAL);
      }
      decks := decks[sid := []];
      var position := 0;
      while position < |deck|
        invariant 0 <= position <= |deck|
        invariant decks == old(decks)[sid := deck[..position]]
      {
        assert deck[..position] + [deck[position]] == deck[..position + 1];
        decks := decks[sid := decks[sid] + [deck[position]]];
        position := position + 1;
      }
      assert deck[..position] == deck;
      reply := Ok(deck);
    }

    method ExpireSessionInvites(sid: SessionId)
      modifies this`invites
      ensures invites == ExpireInvites(old(invites), sid)
    {
      ghost var before, target := invites, ExpireInvites(invites, sid);
      var pending := set n | n in invites && invites[n].session == sid && !invites[n].isRead;
      while pending != {}
        invariant forall n | n in pending :: n in before && before[n].session == sid
        invariant invites.Keys == before.Keys == target.Keys
        invariant forall n | n in invites :: invites[n] == if n in pending then before[n] else target[n]
        decreases pending
      {
        HasElement(pending);
        var n :| n in pending;
        invites := invites[n := invites[n].(isRead := true)];
        pending := pending - {n};
      }
      assert forall n | n in invites :: invites[n] == target[n];
    }

    method StartSession(sid: SessionId, host: UserId, shuffled: seq<RestaurantId>, now: Instant)
      returns (reply: Reply<seq<RestaurantId>, Error>)
      modifies this
      ensures (Value(), reply) == PartyModel.StartSession(old(Value()), sid, host, shuffled, now)
    {
      if sid !in sessions {
        return Err(NOT_FOUND);
      }
      if sessions[sid].host != Some(host) {
        return Err(FORBIDDEN);
      }
      if sessions[sid].status != LOBBY {
        return Err(ALREADY_STARTED);
      }
      var dealt := CreateSessionDeck(sid, shuffled);
      if dealt.Err? {
        return Err(INTERNAL);
      }
      if dealt.value == [] {
        return Err(NOT_FOUND);
      }
      sessions :=
        sessions[sid := sessions[sid].(status := ACTIVE, endsAt := Some(now + sessions[sid].durationSeconds))];
      SetEveryoneSwiping(sid);
      ExpireSessionInvites(sid);
      reply := dealt;
    }

    method SetEveryoneSwiping(sid: SessionId)
      modifies this`seats
      ensures seats == map seat | seat in old(seats) :: if seat.session == sid then SWIPING else old(seats)[seat]
    {
      var pending := set seat | seat in seats && seat.session == sid;
      while pending != {}
        invariant forall seat | seat in pending :: seat in old(seats) && seat.session == sid
        invariant seats.Keys == old(seats).Keys
        invariant forall seat | seat in seats ::
          seats[seat] == if seat.session == sid && seat !in pending then SWIPING else old(seats)[seat]
        decreases pending
      {
        var seat :| seat in pending;
        seats := seats[seat := SWIPING];
        pending := pending - {seat};
      }
    }

    method KickParticipant(sid: SessionId, uid: UserId, host: UserId) returns (reply: Reply<(), Error>)
      modifies this
      ensures (Value(), reply) == PartyModel.KickParticipant(old(Value()), sid, uid, host)
    {
      if sid !in sessions {
        return Err(NOT_FOUND);
      }
      if sessions[sid].host != Some(host) || sessions[sid].status != LOBBY || uid == host {
        return Err(FORBIDDEN);
      }
      if Seat(sid, uid) !in seats {
        return Err(NOT_FOUND);
      }
      seats := seats - {Seat(sid, uid)};
      reply := Ok(());
    }

    /** `DELETE` on session rows, with the foreign-key cascades. */
    method DeleteSessions(gone: set<SessionId>)
      modifies this
      ensures Value() == DropSessions(old(Value()), gone)
    {
      sessions := sessions - gone;
      seats := map seat | seat in seats && seat.session !in gone :: seats[seat];
      decks := decks - gone;
      ballots := map b | b in ballots && b.session !in gone :: ballots[b];
      results := results - gone;
    }

    method LeaveSession(sid: SessionId, uid: UserId) returns (reply: Reply<(), Error>)
      modifies this
      ensures (Value(), reply) == PartyModel.LeaveSession(old(Value()), sid, uid)
    {
      if sid !in sessions {
        return Err(NOT_FOUND);
      }
      if Seat(sid, uid) !in seats || sessions[sid].status != LOBBY {
        return Err(FORBIDDEN);
      }
      if sessions[sid].host == Some(uid) {
        RemoveParticipants(sid);
        ExpireSessionInvites(sid);
        DeleteSessions({sid});
        assert seats == DropSessions(old(Value()), {sid}).seats;
      } else {
        seats := seats - {Seat(sid, uid)};
      }
      reply := Ok(());
    }

    method RemoveParticipants(sid: SessionId)
      modifies this`seats
      ensures seats == map seat | seat in old(seats) && seat.session != sid :: old(seats)[seat]
    {
      var pending := set seat | seat in seats && seat.session == sid;
      while pending != {}
        invariant forall seat | seat in pending :: seat in old(seats) && seat.session == sid
        invariant forall seat :: seat in seats <==> seat in old(seats) && (seat.session == sid ==> seat in pending)
        invariant forall seat | seat in seats :: seats[seat] == old(seats)[seat]
        decreases pending
      {
        var seat :| seat in pending;
        seats := seats - {seat};
        pending := pending - {seat};
      }
    }

    method InviteFriend(sid: SessionId, friend: UserId, inviter: UserId, nid: InviteId)
        returns (reply: Reply<(), Error>)
      modifies this
      ensures (Value(), reply) == PartyModel.InviteFriend(old(Value()), sid, friend, inviter, nid)
    {
      if sid !in sessions {
        return Err(NOT_FOUND);
      }
      if Seat(sid, inviter) !in seats || sessions[sid].status != LOBBY || friend == inviter {
        return Err(FORBIDDEN);
      }
      if Friendship(inviter, friend) !in friends {
        return Err(FORBIDDEN);
      }
      if Seat(sid, friend) in seats {
        return Ok(());
      }
      if friend !in users {
        return Err(NOT_FOUND);
      }
      var repeated := exists n | n in invites :: invites[n] == Invite(friend, sid, false);
      if !repeated {
        invites := invites[nid := Invite(friend, sid, false)];
      }
      reply := Ok(());
    }

    method MarkAsRead(nid: InviteId, uid: UserId) returns (reply: Reply<(), Error>)
      modifies this
      ensures (Value(), reply) == PartyModel.MarkAsRead(old(Value()), nid, uid)
    {
      if nid !in invites || invites[nid].user != uid {
        return Err(NOT_FOUND);
      }
      invites := invites[nid := invites[nid].(isRead := true)];
      reply := Ok(());
    }

    method Unfriend(uid: UserId, friend: UserId) returns (reply: Reply<(), Error>)
      modifies this
      ensures (Value(), reply) == PartyModel.Unfriend(old(Value()), uid, friend)
    {
      var mine := set seat | seat in seats && seat.user == uid && IsOpenRow(seat.session) :: seat.session;
      assert InSameOpenSession(Value(), uid, friend) <==> exists sid | sid in mine :: Seat(sid, friend) in seats;
      if exists sid | sid in mine :: Seat(sid, friend) in seats {
        return Err(FORBIDDEN);
      }
      var rows := set f | f in friends && (f == Friendship(uid, friend) || f == Friendship(friend, uid));
      if rows == {} {
        assert Friendship(uid, friend) !in rows && Friendship(friend, uid) !in rows;
        return Err(NOT_FOUND);
      }
      friends := friends - rows;
      assert friends == old(friends) - {Friendship(uid, friend), Friendship(friend, uid)};
      reply := Ok(());
    }

    // ─── Ending a session ───

    method AllParticipantsFinished(sid: SessionId) returns (finished: bool)
      ensures finished <==> PartyModel.AllParticipantsFinished(Value(), sid)
    {
      var deckSize := if sid in decks then |decks[sid]| else 0;
      if deckSize == 0 {
        return true;
      }
      var roster := set seat | seat in seats && seat.session == sid :: seat.user;
      assert roster == Roster(Value(), sid);
      finished := forall uid | uid in roster :: |VotesBy(sid, uid)| >= deckSize;
    }

    function VotesBy(sid: SessionId, uid: UserId): (rows: set<Ballot>)
      reads this
      ensures rows == VoteRows(Value(), sid, uid)
    {
      set b | b in ballots && b.session == sid && b.user == uid
    }

    method MarkParticipantFinished(sid: SessionId, uid: UserId, pick: nat)
      returns (reply: Reply<Option<Resolution>, Error>)
      modifies this
      ensures (Value(), reply) == MarkFinished(old(Value()), sid, uid, pick)
    {
      if sid !in sessions {
        return Err(NOT_FOUND);
      }
      if Seat(sid, uid) !in seats {
        return Err(FORBIDDEN);
      }
      if sessions[sid].status != ACTIVE {
        return Ok(None);
      }
      var progress := seats;
      seats := seats[Seat(sid, uid) := WAITING];
      var finished := AllParticipantsFinished(sid);
      if !finished {
        return Ok(None);
      }
      var resolution := ResolveSession(sid, pick);
      if resolution.Err? {
        seats := progress; // rolled back with the request
        return Err(resolution.error);
      }
      reply := Ok(Some(resolution.value));
    }

    method GetResult(sid: SessionId, uid: UserId, now: Instant, pick: nat) returns (reply: Reply<Resolution, Error>)
      modifies this
      ensures (Value(), reply) == ReadLate(old(Value()), sid, uid, now, pick)
    {
      if sid !in sessions {
        return Err(NOT_FOUND);
      }
      if Seat(sid, uid) !in seats {
        return Err(FORBIDDEN);
      }
      var session := sessions[sid];
      if session.status == ACTIVE && session.endsAt.Some? && session.endsAt.value <= now {
        var resolution := ResolveSession(sid, pick);
        if resolution.Err? {
          return Err(resolution.error);
        }
      }
      if sid !in results {
        return Err(NOT_FOUND);
      }
      reply := ReadBack(sid);
    }

    /** `expired` is what the query returned, in whatever order. */
    method ResolveExpiredSessions(now: Instant, expired: seq<SessionId>, draw: SessionId -> nat)
      requires Distinct(expired) && ToSet(expired) == Overdue(Value(), now)
      modifies this
      ensures Value() == ResolveAll(old(Value()), expired, draw)
    {
      var i := 0;
      while i < |expired|
        invariant 0 <= i <= |expired|
        invariant Value() == ResolveAll(old(Value()), expired[..i], draw)
      {
        var _ := ResolveSession(expired[i], draw(expired[i]));
        assert expired[..i + 1][..i] == expired[..i];
        i := i + 1;
      }
      assert expired[..i] == expired;
    }

    // ─── Deletions ───

    /** The `WHERE` clause of the nightly job. */
    method FindExpendable(now: Instant) returns (gone: set<RestaurantId>)
      ensures gone == Expendable(Value(), now) <= restaurants.Keys
    {
      gone := set rid | rid in restaurants
        && !restaurants[rid].isPermanent
        && restaurants[rid].expiresAt.Some? && restaurants[rid].expiresAt.value <= now
        && !(exists sid | sid in decks :: rid in decks[sid])
        && !(exists b | b in ballots :: b.restaurant == rid)
        && !(exists v | v in solo :: v.restaurant == rid);
      assert gone == Expendable(Value(), now);
    }

    method CleanupRestaurantCache(now: Instant) returns (deleted: nat)
      modifies this
      ensures Value() == CleanupRestaurants(old(Value()), now)
      ensures deleted == |old(restaurants).Keys - restaurants.Keys|
    {
      var gone := FindExpendable(now);
      hide Expendable, WithoutRestaurants;
      restaurants := restaurants - gone;
      results := WithoutRestaurants(results, gone);
      deleted := |gone|;
      assert old(restaurants).Keys - restaurants.Keys == gone;
    }

    method DeleteAccount(uid: UserId)
      modifies this
      ensures Value() == PartyModel.DeleteAccount(old(Value()), uid)
    {
      friends := set f | f in friends && f.user != uid && f.friend != uid;
      LeaveOpenSessions(uid);
      DeleteUserRow(uid);
    }

    /** Cancel owned lobbies and leave every other open session. */
    method LeaveOpenSessions(uid: UserId)
      modifies this
      ensures EraseUser(Value(), uid) == EraseUser(
        DropSessions(
          old(Value()).(invites := PartyModel.ExpireLobbyInvites(old(invites), OwnedLobbies(old(Value()), uid))),
          OwnedLobbies(old(Value()), uid)),
        uid)
    {
      var lobbies := set sid | sid in sessions && sessions[sid].host == Some(uid) && sessions[sid].status == LOBBY;
      assert lobbies == OwnedLobbies(Value(), uid);
      ExpireLobbyInvites(lobbies);
      DeleteSessions(lobbies);
      ghost var cancelled := Value();
      seats := map seat | seat in seats && !(seat.user == uid && IsOpenRow(seat.session)) :: seats[seat];
      assert EraseUser(Value(), uid).seats == EraseUser(cancelled, uid).seats;
    }

    method DeleteUserRow(uid: UserId)
      modifies this
      ensures Value() == EraseUser(old(Value()), uid)
    {
      users := users - {uid};
      sessions := map sid | sid in sessions ::
        if sessions[sid].host == Some(uid) then sessions[sid].(host := None) else sessions[sid];
      seats := map seat | seat in seats && seat.user != uid :: seats[seat];
      ballots := map b | b in ballots && b.user != uid :: ballots[b];
      solo := map v | v in solo && v.user != uid :: solo[v];
      invites := map n | n in invites && invites[n].user != uid :: invites[n];
    }

    method ExpireLobbyInvites(lobbies: set<SessionId>)
      modifies this`invites
      ensures invites == PartyModel.ExpireLobbyInvites(old(invites), lobbies)
    {
      var pending := lobbies;
      while pending != {}
        invariant pending <= lobbies
        invariant invites == PartyModel.ExpireLobbyInvites(old(invites), lobbies - pending)
        decreases pending
      {
        HasElement(pending);
        var sid :| sid in pending;
        ExpireSessionInvites(sid);
        pending := pending - {sid};
      }
    }
  }

  /** A request that met no interference is a run of the protocol: a check step, then a locked step. */
  lemma MarkFinishedIsRun(c: Config, sid: SessionId, uid: UserId, pick: nat)
    requires Good(c) && MarkFinished(c.db, sid, uid, pick).1.Ok?
    ensures var steps := if MarkFinished(c.db, sid, uid, pick).1 == Ok(None) then [DeckFinished(sid, uid)]
                         else [DeckFinished(sid, uid), Resolve(sid, pick)];
      Runs(c, steps) && Run(c, steps).db == MarkFinished(c.db, sid, uid, pick).0
  {
    var check, resolve := DeckFinished(sid, uid), Resolve(sid, pick);
    OneStep(c, check);
    OneStep(Next(c, check), resolve);
    StepThen(c, check, [resolve]);
    assert [check] + [resolve] == [check, resolve];
    hide Run, Runs, ReportDeckFinished, ResolveSession, Good;
  }

  /** The worker leaves no listed session open. */
  lemma {:induction false} ResolveAllSettles(s: State, listed: seq<SessionId>, draw: SessionId -> nat)
    requires Inv(s) && forall sid | sid in listed :: Started(s, sid)
    ensures Inv(ResolveAll(s, listed, draw))
    ensures forall sid | Started(s, sid) :: Started(ResolveAll(s, listed, draw), sid)
    ensures forall sid | sid in listed || HasStatus(s, sid, FINISHED) ::
              HasStatus(ResolveAll(s, listed, draw), sid, FINISHED)
  {
    if listed != [] {
      var init, last := listed[..|listed| - 1], listed[|listed| - 1];
      ResolveAllSettles(s, init, draw);
      var before := ResolveAll(s, init, draw);
      assert forall sid | sid in listed :: sid in init || sid == last;
      ResolveKeeps(before, last, draw(last));
      ResolveSettles(before, last, draw(last));
    }
  }
}
