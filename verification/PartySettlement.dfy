/**
 The four ways a session ends. Each settles it with an outcome that agrees with the votes, and the
 reply given at that moment is the one every later read gives.
 */
module PartySettlement {
  import opened Basics
  import opened PartyModel
  import opened PartyInvariants
  import opened PartyVotes

  ghost predicate Started(s: State, sid: SessionId) {
    sid in s.sessions && s.sessions[sid].status != LOBBY
  }

  /** A started session keeps its host, is undecided while ACTIVE and rightly decided once FINISHED. */
  ghost predicate GameValid(s: State, sid: SessionId)
    requires Started(s, sid)
  {
    && s.sessions[sid].host.Some?
    && (s.sessions[sid].status == ACTIVE ==> forall rid | rid in DeckOf(s, sid) :: !LikedByAll(s, sid, rid))
    && (s.sessions[sid].status == FINISHED ==> sid in s.results && AgreesWithVotes(s, sid, s.results[sid]))
  }

  // ─── Locked resolution ───

  /** Under the lock a started session always settles; no unique-key conflict can occur. */
  lemma ResolveSettles(s: State, sid: SessionId, pick: nat)
    requires TablesValid(s) && Started(s, sid)
    ensures var (after, reply) := ResolveSession(s, sid, pick);
      && reply.Ok?
      && HasStatus(after, sid, FINISHED) && sid in after.results
      && after.results[sid] == reply.value.result
      && GetResolution(after, sid) == reply
      && (HasStatus(s, sid, FINISHED) ==> after == s)
      && (HasStatus(s, sid, ACTIVE) ==> after == Finish(s, sid, Decide(s, sid, pick).result))
  {
    if HasStatus(s, sid, ACTIVE) {
      DecideAgrees(s, sid, pick);
      var resolution := Decide(s, sid, pick);
      var after := Finish(s, sid, resolution.result);
      FinishKeepsTables(s, sid, resolution.result);
      SameRows(s, after, sid);
      ReadBackFits(after, sid);
      WheelUnique(after, sid, GetResolution(after, sid).value, resolution);
    }
  }

  lemma ResolveKeeps(s: State, sid: SessionId, pick: nat)
    requires Inv(s) && Started(s, sid)
    ensures Inv(ResolveSession(s, sid, pick).0)
  {
    ResolveSettles(s, sid, pick);
    if HasStatus(s, sid, ACTIVE) {
      DecideAgrees(s, sid, pick);
      FinishKeepsTables(s, sid, Decide(s, sid, pick).result);
      FinishKeepsOthers(s, sid, Decide(s, sid, pick).result);
    }
  }

  // ─── A swipe ───

  /** Every effect of a swipe: nothing, one new vote, or one new vote and the end of the session. */
  lemma SwipeCases(s: State, sid: SessionId, uid: UserId, rid: RestaurantId, liked: bool, now: Instant)
    requires TablesValid(s)
    ensures var (after, reply) := RecordSwipe(s, sid, uid, rid, liked, now);
      var voted := CastVote(s, sid, uid, rid, liked);
      var result := MatchResult(Some(rid), UNANIMOUS, NameOf(s, rid));
      if HasStatus(s, sid, ACTIVE) && !IsOverdue(s, sid, now) && Seat(sid, uid) in s.seats && rid in DeckOf(s, sid) then
        if Ballot(sid, uid, rid) in s.ballots then after == s && reply == Ok(None)
        else if LikedByAll(voted, sid, rid) && liked then
          after == Finish(voted, sid, result) && reply == Ok(Some(Resolution(result, [])))
        else after == voted && reply == Ok(None)
      else after == s && reply.Err?
  {
    if HasStatus(s, sid, ACTIVE) && Seat(sid, uid) in s.seats && rid in DeckOf(s, sid) {
      VoteKeepsTables(s, sid, uid, rid, liked);
      UnanimousExact(CastVote(s, sid, uid, rid, liked), sid, rid);
    }
  }

  lemma SwipeKeeps(s: State, sid: SessionId, uid: UserId, rid: RestaurantId, liked: bool, now: Instant)
    requires Inv(s)
    ensures Inv(RecordSwipe(s, sid, uid, rid, liked, now).0)
  {
    SwipeCases(s, sid, uid, rid, liked, now);
    var (after, reply) := RecordSwipe(s, sid, uid, rid, liked, now);
    if after != s {
      var voted := CastVote(s, sid, uid, rid, liked);
      VoteKeepsTables(s, sid, uid, rid, liked);
      VoteKeepsOthers(s, sid, uid, rid, liked);
      if after != voted {
        var result := MatchResult(Some(rid), UNANIMOUS, NameOf(s, rid));
        FinishKeepsTables(voted, sid, result);
        FinishKeepsOthers(voted, sid, result);
      }
    }
  }

  // ─── Frames: what a transaction does not touch ───

  /** Same participants, votes and deck. */
  ghost predicate SameGame(s: State, t: State, sid: SessionId) {
    && (forall uid :: Seat(sid, uid) in s.seats <==> Seat(sid, uid) in t.seats)
    && (forall uid, rid :: Ballot(sid, uid, rid) in s.ballots <==> Ballot(sid, uid, rid) in t.ballots)
    && (forall uid, rid | Ballot(sid, uid, rid) in s.ballots ::
          s.ballots[Ballot(sid, uid, rid)] == t.ballots[Ballot(sid, uid, rid)])
    && DeckOf(s, sid) == DeckOf(t, sid)
  }

  lemma SameRows(s: State, t: State, sid: SessionId)
    requires SameGame(s, t, sid)
    ensures Roster(s, sid) == Roster(t, sid)
    ensures LikeCounts(s, sid) == LikeCounts(t, sid)
    ensures forall uid, rid :: Likes(s, sid, uid, rid) <==> Likes(t, sid, uid, rid)
    ensures forall rid :: Tally(s, sid, rid) == Tally(t, sid, rid)
    ensures forall rid :: LikedByAll(s, sid, rid) <==> LikedByAll(t, sid, rid)
    ensures forall result :: AgreesWithVotes(s, sid, result) <==> AgreesWithVotes(t, sid, result)
    ensures forall resolution :: WheelFits(s, sid, resolution) <==> WheelFits(t, sid, resolution)
  {
    SameSeatsAndLikes(s, t, sid);
    assert forall rid :: IsTop(s, sid, rid) <==> IsTop(t, sid, rid);
  }

  lemma SameSeatsAndLikes(s: State, t: State, sid: SessionId)
    requires SameGame(s, t, sid)
    ensures Roster(s, sid) == Roster(t, sid)
    ensures LikeCounts(s, sid) == LikeCounts(t, sid)
    ensures forall uid, rid :: Likes(s, sid, uid, rid) <==> Likes(t, sid, uid, rid)
    ensures forall rid :: Tally(s, sid, rid) == Tally(t, sid, rid)
  {
    forall seat ensures seat in SeatRows(s, sid) <==> seat in SeatRows(t, sid) {
      assert seat == Seat(seat.session, seat.user);
    }
    assert SeatRows(s, sid) == SeatRows(t, sid);
    forall rid
      ensures LikeRows(s, sid, rid) == LikeRows(t, sid, rid)
      ensures Tally(s, sid, rid) == Tally(t, sid, rid)
    {
      forall b ensures b in LikeRows(s, sid, rid) <==> b in LikeRows(t, sid, rid) {
        assert b == Ballot(b.session, b.user, b.restaurant);
      }
      assert LikeRows(s, sid, rid) == LikeRows(t, sid, rid);
      assert Likers(s, sid, rid) == Likers(t, sid, rid);
    }
    forall rid ensures rid in LikedCards(s, sid) <==> rid in LikedCards(t, sid) {
      LikedCardsHaveRows(s, sid, rid);
      LikedCardsHaveRows(t, sid, rid);
    }
  }

  lemma LikedCardsHaveRows(s: State, sid: SessionId, rid: RestaurantId)
    ensures rid in LikedCards(s, sid) <==> LikeRows(s, sid, rid) != {}
  {
    if rid in LikedCards(s, sid) {
      var b :| b in s.ballots && b.session == sid && s.ballots[b] && b.restaurant == rid;
      assert b in LikeRows(s, sid, rid);
    }
    forall b | b in LikeRows(s, sid, rid) ensures rid in LikedCards(s, sid) {
    }
  }
}
