/**
 What deleting an account does to the games it took part in. The votes go with the account, so three of
 the promises made to the other participants can break; these lemmas say exactly when.
 */
module PartyDeletion {
  import opened Basics
  import opened PartyModel
  import opened PartyInvariants
  import opened PartyVotes
  import opened PartySettlement
  import opened PartyOutcomes

  lemma LikesAfterDeletion(s: State, sid: SessionId, gone: UserId, rid: RestaurantId)
    requires Started(s, sid)
    ensures var after := DeleteAccount(s, gone);
      && (forall uid :: Likes(after, sid, uid, rid) <==> Likes(s, sid, uid, rid) && uid != gone)
      && Tally(after, sid, rid) == Tally(s, sid, rid) - (if Likes(s, sid, gone, rid) then 1 else 0)
  {
    var after := DeleteAccount(s, gone);
    LikeRowsCountPeople(s, sid, rid);
    LikeRowsCountPeople(after, sid, rid);
    assert forall uid :: Likes(after, sid, uid, rid) <==> Likes(s, sid, uid, rid) && uid != gone;
    assert Likers(after, sid, rid) == Likers(s, sid, rid) - {gone};
  }

  /** The leaver liked none of the cards on the wheel. */
  ghost predicate LikedNoTop(s: State, sid: SessionId, gone: UserId) {
    forall rid | IsTop(s, sid, rid) :: !Likes(s, sid, gone, rid)
  }

  /**
   The leaver liked every card on the wheel, somebody else liked those cards as well, and every card the
   leaver skipped is at least two likes behind.
   */
  ghost predicate LikedAllTopsClearly(s: State, sid: SessionId, gone: UserId) {
    forall rid | IsTop(s, sid, rid) ::
      && Likes(s, sid, gone, rid)
      && Tally(s, sid, rid) >= 2
      && forall other | other in DeckOf(s, sid) && !Likes(s, sid, gone, other) ::
           Tally(s, sid, other) + 2 <= Tally(s, sid, rid)
  }

  ghost predicate OneLess(s: State, t: State, sid: SessionId, gone: UserId) {
    && DeckOf(t, sid) == DeckOf(s, sid)
    && (forall rid :: Tally(t, sid, rid) == Tally(s, sid, rid) - (if Likes(s, sid, gone, rid) then 1 else 0))
    && (forall rid :: Likes(s, sid, gone, rid) ==> Tally(s, sid, rid) > 0)
  }

  lemma DeletionTakesOneLike(s: State, sid: SessionId, gone: UserId)
    requires Started(s, sid)
    ensures OneLess(s, DeleteAccount(s, gone), sid, gone)
  {
    DeletionKeepsSession(s, gone, sid);
    forall rid
      ensures Tally(DeleteAccount(s, gone), sid, rid)
           == Tally(s, sid, rid) - (if Likes(s, sid, gone, rid) then 1 else 0)
      ensures Likes(s, sid, gone, rid) ==> Tally(s, sid, rid) > 0
    {
      LikesAfterDeletion(s, sid, gone, rid);
    }
  }

  lemma TopsAfterDeletion(s: State, sid: SessionId, gone: UserId)
    requires Started(s, sid)
    ensures (forall rid :: IsTop(DeleteAccount(s, gone), sid, rid) <==> IsTop(s, sid, rid))
        <==> LikedNoTop(s, sid, gone) || LikedAllTopsClearly(s, sid, gone)
  {
    DeletionTakesOneLike(s, sid, gone);
    TopsCompared(s, DeleteAccount(s, gone), sid, gone);
  }

  lemma TopsCompared(s: State, t: State, sid: SessionId, gone: UserId)
    requires OneLess(s, t, sid, gone)
    ensures (forall rid :: IsTop(t, sid, rid) <==> IsTop(s, sid, rid))
        <==> LikedNoTop(s, sid, gone) || LikedAllTopsClearly(s, sid, gone)
  {
    if LikedNoTop(s, sid, gone) {
      NoTopLiked(s, t, sid, gone);
    } else if LikedAllTopsClearly(s, sid, gone) {
      AllTopsLiked(s, t, sid, gone);
    } else {
      SomeTopMoves(s, t, sid, gone);
    }
  }

  lemma NoTopLiked(s: State, t: State, sid: SessionId, gone: UserId)
    requires OneLess(s, t, sid, gone) && LikedNoTop(s, sid, gone)
    ensures forall rid :: IsTop(t, sid, rid) <==> IsTop(s, sid, rid)
  {
    forall rid ensures IsTop(t, sid, rid) <==> IsTop(s, sid, rid) {
      if rid in DeckOf(s, sid) && Tally(s, sid, rid) > 0 {
        var top := TopAbove(s, sid, rid);
        assert Tally(t, sid, top) == Tally(s, sid, top);
      }
    }
  }

  /** Some card of the deck is top as soon as one is liked at all. */
  lemma TopAbove(s: State, sid: SessionId, rid: RestaurantId) returns (top: RestaurantId)
    requires rid in DeckOf(s, sid) && Tally(s, sid, rid) > 0
    ensures IsTop(s, sid, top)
  {
    var deck := DeckOf(s, sid);
    top := rid;
    var i := 0;
    while i < |deck|
      invariant 0 <= i <= |deck|
      invariant top in deck && Tally(s, sid, top) > 0
      invariant forall j | 0 <= j < i :: Tally(s, sid, deck[j]) <= Tally(s, sid, top)
    {
      if Tally(s, sid, deck[i]) > Tally(s, sid, top) {
        top := deck[i];
      }
      i := i + 1;
    }
  }

  lemma AllTopsLiked(s: State, t: State, sid: SessionId, gone: UserId)
    requires OneLess(s, t, sid, gone) && LikedAllTopsClearly(s, sid, gone)
    ensures forall rid :: IsTop(t, sid, rid) <==> IsTop(s, sid, rid)
  {
    forall rid ensures IsTop(t, sid, rid) <==> IsTop(s, sid, rid) {
      if IsTop(s, sid, rid) {
        forall other | other in DeckOf(t, sid) ensures Tally(t, sid, other) <= Tally(t, sid, rid) {
        }
      } else if rid in DeckOf(s, sid) && Tally(s, sid, rid) > 0 {
        var top := TopAbove(s, sid, rid);
        assert Tally(t, sid, top) == Tally(s, sid, top) - 1;
      }
    }
  }

  lemma SomeTopMoves(s: State, t: State, sid: SessionId, gone: UserId)
    requires OneLess(s, t, sid, gone)
    requires !LikedNoTop(s, sid, gone) && !LikedAllTopsClearly(s, sid, gone)
    ensures exists rid :: IsTop(t, sid, rid) != IsTop(s, sid, rid)
  {
    var liked :| IsTop(s, sid, liked) && Likes(s, sid, gone, liked);
    if rid :| IsTop(s, sid, rid) && !Likes(s, sid, gone, rid) {
      assert Tally(t, sid, liked) < Tally(t, sid, rid);
      assert !IsTop(t, sid, liked);
    } else if Tally(s, sid, liked) < 2 {
      assert !IsTop(t, sid, liked);
    } else {
      var rid, other :| IsTop(s, sid, rid) && other in DeckOf(s, sid) && !Likes(s, sid, gone, other)
        && Tally(s, sid, other) + 2 > Tally(s, sid, rid);
      assert !IsTop(s, sid, other);
      assert Tally(t, sid, other) >= Tally(t, sid, liked);
      if IsTop(t, sid, liked) {
        assert IsTop(t, sid, other);
      }
    }
  }

  /** Two wheels of a tie are the same exactly when the same cards are on top. */
  lemma SameTopsSameWheel(s: State, t: State, sid: SessionId, a: Resolution, b: Resolution)
    requires a.result == b.result && a.result.kind == SPIN_WHEEL_TIE
    requires WheelFits(s, sid, a) && WheelFits(t, sid, b)
    ensures a == b <==> forall rid :: IsTop(t, sid, rid) <==> IsTop(s, sid, rid)
  {
    if forall rid :: IsTop(t, sid, rid) <==> IsTop(s, sid, rid) {
      assert ToSet(a.wheel) == ToSet(b.wheel) by {
        assert forall rid :: rid in a.wheel <==> rid in b.wheel;
      }
      IncreasingUnique(a.wheel, b.wheel);
    } else {
      var rid :| IsTop(t, sid, rid) != IsTop(s, sid, rid);
      assert (rid in a.wheel) != (rid in b.wheel);
    }
  }

  /**
   After an account is deleted a settled session still reads back the same wheel if and only if the wheel
   is not a tie's, or the leaver liked none of its cards, or liked all of them clearly.
   */
  lemma WheelSurvivesDeletion(s: State, sid: SessionId, gone: UserId)
    requires TablesValid(s) && sid in s.results
    ensures GetResolution(DeleteAccount(s, gone), sid) == GetResolution(s, sid)
        <==> s.results[sid].kind != SPIN_WHEEL_TIE || LikedNoTop(s, sid, gone) || LikedAllTopsClearly(s, sid, gone)
  {
    assert Started(s, sid);
    DeleteAccountKeepsTables(s, gone);
    DeletionKeepsSession(s, gone, sid);
    hide SeatsValid, DecksValid, BallotsValid, ResultsValid, SessionsValid, DeleteAccount;
    hide LikedNoTop, LikedAllTopsClearly;
    var after := DeleteAccount(s, gone);
    if s.results[sid].kind == SPIN_WHEEL_TIE {
      hide IsTop, WheelFits, GetResolution;
      TopsAfterDeletion(s, sid, gone);
      ReadBackFits(s, sid);
      ReadBackFits(after, sid);
      SameTopsSameWheel(s, after, sid, GetResolution(s, sid).value, GetResolution(after, sid).value);
    }
  }

  /** Participants who have not liked a card. */
  function Holdouts(s: State, sid: SessionId, rid: RestaurantId): set<UserId> {
    set uid | uid in Roster(s, sid) && !Likes(s, sid, uid, rid)
  }

  /**
   Deleting an account leaves an undecided session undecided if and only if the leaver was not the only
   participant holding out on some card that all the others like.
   */
  lemma UndecidedAfterDeletion(s: State, sid: SessionId, gone: UserId)
    requires HasStatus(s, sid, ACTIVE)
    requires forall rid | rid in DeckOf(s, sid) :: !LikedByAll(s, sid, rid)
    ensures (forall rid | rid in DeckOf(s, sid) :: !LikedByAll(DeleteAccount(s, gone), sid, rid))
        <==> (forall rid | rid in DeckOf(s, sid) :: Holdouts(s, sid, rid) == {gone} ==> Roster(s, sid) == {gone})
  {
    var after := DeleteAccount(s, gone);
    DeletionKeepsSession(s, gone, sid);
    forall rid | rid in DeckOf(s, sid)
      ensures LikedByAll(after, sid, rid) <==> Holdouts(s, sid, rid) == {gone} && Roster(s, sid) != {gone}
    {
      LikesAfterDeletion(s, sid, gone, rid);
      assert forall uid | uid in Roster(s, sid) && !Likes(s, sid, uid, rid) :: uid in Holdouts(s, sid, rid);
      if LikedByAll(after, sid, rid) {
        assert Holdouts(s, sid, rid) <= {gone};
        assert Holdouts(s, sid, rid) != {} by { assert !LikedByAll(s, sid, rid) && Roster(s, sid) != {}; }
      } else if Holdouts(s, sid, rid) == {gone} {
        assert gone in Holdouts(s, sid, rid);
        assert forall uid | uid in Roster(after, sid) :: Likes(after, sid, uid, rid);
        assert Roster(after, sid) == {};
      }
    }
  }

  /**
   What the leaver's likes must be like for the saved result to stay true of the remaining votes. A unanimous
   result needs somebody left; a majority must stay ahead; a tied winner must stay on top and in company.
   */
  ghost predicate ResultOutlives(s: State, sid: SessionId, gone: UserId, result: MatchResult)
    requires result.restaurant.Some?
  {
    var winner := result.restaurant.value;
    match result.kind
    case UNANIMOUS => Roster(s, sid) != {gone}
    case MAJORITY =>
      Likes(s, sid, gone, winner) ==>
        && Tally(s, sid, winner) >= 2
        && forall rid | rid in DeckOf(s, sid) && rid != winner && !Likes(s, sid, gone, rid) ::
             Tally(s, sid, rid) + 2 <= Tally(s, sid, winner)
    case SPIN_WHEEL_TIE =>
      if Likes(s, sid, gone, winner) then
        Tally(s, sid, winner) >= 2 && forall rid | IsTop(s, sid, rid) :: Likes(s, sid, gone, rid)
      else exists rid :: rid != winner && IsTop(s, sid, rid) && !Likes(s, sid, gone, rid)
    case SPIN_WHEEL_NO_MATCH => true
  }

  /** A result that agreed with the votes agrees with them after a deletion if and only if it outlives the leaver. */
  lemma ResultAfterDeletion(s: State, sid: SessionId, gone: UserId)
    requires TablesValid(s) && sid in s.results && AgreesWithVotes(s, sid, s.results[sid])
    ensures sid in DeleteAccount(s, gone).results && DeleteAccount(s, gone).results[sid] == s.results[sid]
    ensures AgreesWithVotes(DeleteAccount(s, gone), sid, s.results[sid])
        <==> ResultOutlives(s, sid, gone, s.results[sid])
  {
    assert Started(s, sid);
    var t, result := DeleteAccount(s, gone), s.results[sid];
    DeletionKeepsSession(s, gone, sid);
    DeletionTakesOneLike(s, sid, gone);
    hide TablesValid, DeleteAccount;
    match result.kind {
      case UNANIMOUS =>
        LikesAfterDeletion(s, sid, gone, result.restaurant.value);
      case MAJORITY => MajorityAfter(s, t, sid, gone, result);
      case SPIN_WHEEL_TIE => TieAfter(s, t, sid, gone, result);
      case SPIN_WHEEL_NO_MATCH =>
    }
  }

  lemma MajorityAfter(s: State, t: State, sid: SessionId, gone: UserId, result: MatchResult)
    requires OneLess(s, t, sid, gone) && result.kind == MAJORITY && AgreesWithVotes(s, sid, result)
    ensures AgreesWithVotes(t, sid, result) <==> ResultOutlives(s, sid, gone, result)
  {
    hide Tally, Likes;
  }

  lemma TieAfter(s: State, t: State, sid: SessionId, gone: UserId, result: MatchResult)
    requires OneLess(s, t, sid, gone) && result.kind == SPIN_WHEEL_TIE && AgreesWithVotes(s, sid, result)
    ensures AgreesWithVotes(t, sid, result) <==> ResultOutlives(s, sid, gone, result)
  {
    hide Tally, Likes, DeckOf;
    var winner := result.restaurant.value;
    var other :| other in DeckOf(s, sid) && other != winner && IsTop(s, sid, other);
    if ResultOutlives(s, sid, gone, result) {
      if Likes(s, sid, gone, winner) {
        assert IsTop(t, sid, winner) && IsTop(t, sid, other);
      } else {
        var rid :| rid != winner && IsTop(s, sid, rid) && !Likes(s, sid, gone, rid);
        assert IsTop(t, sid, winner) && IsTop(t, sid, rid);
      }
    }
    if AgreesWithVotes(t, sid, result) {
      if Likes(s, sid, gone, winner) {
        forall rid | IsTop(s, sid, rid) ensures Likes(s, sid, gone, rid) {
          assert Tally(t, sid, rid) <= Tally(t, sid, winner);
        }
      } else {
        var rid :| rid in DeckOf(t, sid) && rid != winner && IsTop(t, sid, rid);
        assert Tally(t, sid, winner) <= Tally(t, sid, rid);
        assert IsTop(s, sid, rid) && !Likes(s, sid, gone, rid);
      }
    }
  }

  // ─── The promises do break ───

  /** Cards 1 to 10. */
  function TenCards(): (deck: seq<RestaurantId>)
    ensures |deck| == 10 && forall i | 0 <= i < 10 :: deck[i] == i + 1
  {
    seq(10, i => i + 1)
  }

  /** Session 7 with participants 1 and 2: participant 1 likes card 1, participant 2 likes card 2. */
  function TwoTastes(status: Status, results: map<SessionId, MatchResult>): State {
    State({1, 2}, map rid | rid in TenCards() :: Restaurant("r", true, None),
          map[7 := Session(Some(1), status, 60, Some(60))], map[Seat(7, 1) := SWIPING, Seat(7, 2) := SWIPING],
          map[7 := TenCards()], map[Ballot(7, 1, 1) := true, Ballot(7, 2, 2) := true], map[], results,
          {Friendship(1, 2), Friendship(2, 1)}, map[])
  }

  lemma TastesTallied(s: State)
    requires exists status, results :: s == TwoTastes(status, results)
    ensures Tally(s, 7, 1) == 1 && Tally(s, 7, 2) == 1
    ensures forall rid | rid != 1 && rid != 2 :: Tally(s, 7, rid) == 0
    ensures forall uid, rid :: Likes(s, 7, uid, rid) <==> (uid == 1 && rid == 1) || (uid == 2 && rid == 2)
    ensures Roster(s, 7) == {1, 2} && DeckOf(s, 7) == TenCards()
  {
    assert Likers(s, 7, 1) == {1} && Likers(s, 7, 2) == {2};
    forall rid | rid != 1 && rid != 2 ensures Tally(s, 7, rid) == 0 {
      assert Likers(s, 7, rid) == {};
    }
    assert SeatRows(s, 7) == {Seat(7, 1), Seat(7, 2)};
    assert Seat(7, 1) in SeatRows(s, 7) && Seat(7, 2) in SeatRows(s, 7);
  }

  const TIE := MatchResult(Some(1), SPIN_WHEEL_TIE, "r")

  lemma TablesTogether(s: State)
    requires SeatsValid(s) && DecksValid(s) && BallotsValid(s) && ResultsValid(s) && SessionsValid(s)
    ensures TablesValid(s)
  {
  }

  lemma TastesHaveRows(status: Status, results: map<SessionId, MatchResult>)
    requires status != LOBBY
    ensures SeatsValid(TwoTastes(status, results)) && SessionsValid(TwoTastes(status, results))
    ensures BallotsValid(TwoTastes(status, results))
  {
    assert TenCards()[0] == 1 && TenCards()[1] == 2;
  }

  lemma TastesHaveDeck(status: Status, results: map<SessionId, MatchResult>)
    requires status != LOBBY
    ensures DecksValid(TwoTastes(status, results))
  {
  }

  lemma TastesHaveResults(status: Status, results: map<SessionId, MatchResult>)
    requires (status == FINISHED && results == map[7 := TIE]) || (status == ACTIVE && results == map[])
    ensures ResultsValid(TwoTastes(status, results))
  {
    assert TenCards()[0] == 1;
  }

  lemma TastesAreValid(status: Status, results: map<SessionId, MatchResult>)
    requires (status == FINISHED && results == map[7 := TIE]) || (status == ACTIVE && results == map[])
    ensures TablesValid(TwoTastes(status, results))
  {
    hide *;
    TastesHaveRows(status, results);
    TastesHaveDeck(status, results);
    TastesHaveResults(status, results);
    TablesTogether(TwoTastes(status, results));
  }

  /** A tie of two cards, one of them liked by the leaver alone: the wheel read back afterwards is another one. */
  lemma WheelLostByDeletion()
    ensures TablesValid(TwoTastes(FINISHED, map[7 := TIE]))
    ensures GetResolution(DeleteAccount(TwoTastes(FINISHED, map[7 := TIE]), 2), 7)
         != GetResolution(TwoTastes(FINISHED, map[7 := TIE]), 7)
  {
    var s := TwoTastes(FINISHED, map[7 := TIE]);
    TastesAreValid(FINISHED, map[7 := TIE]);
    TastesTallied(s);
    assert TenCards()[0] == 1 && TenCards()[1] == 2;
    assert 7 in s.results && s.results[7].kind == SPIN_WHEEL_TIE;
    hide GetResolution, DeleteAccount, TwoTastes, TablesValid;
    TastesTie(s);
    WheelSurvivesDeletion(s, 7, 2);
  }

  lemma TastesTie(s: State)
    requires Tally(s, 7, 1) == 1 && Tally(s, 7, 2) == 1 && DeckOf(s, 7) == TenCards()
    requires forall rid | rid != 1 && rid != 2 :: Tally(s, 7, rid) == 0
    requires forall uid, rid :: Likes(s, 7, uid, rid) <==> (uid == 1 && rid == 1) || (uid == 2 && rid == 2)
    ensures !LikedNoTop(s, 7, 2) && !LikedAllTopsClearly(s, 7, 2)
  {
    hide Tally, Likes, DeckOf;
    assert TenCards()[0] == 1 && TenCards()[1] == 2;
    assert IsTop(s, 7, 1) && IsTop(s, 7, 2);
  }

  /** The last participant who held out on card 1 leaves: an ACTIVE session with a card that everybody likes. */
  lemma MatchMissedByDeletion()
    ensures TablesValid(TwoTastes(ACTIVE, map[])) && !LikedByAll(TwoTastes(ACTIVE, map[]), 7, 1)
    ensures HasStatus(DeleteAccount(TwoTastes(ACTIVE, map[]), 2), 7, ACTIVE)
    ensures LikedByAll(DeleteAccount(TwoTastes(ACTIVE, map[]), 2), 7, 1)
  {
    var s := TwoTastes(ACTIVE, map[]);
    TastesAreValid(ACTIVE, map[]);
    TastesTallied(s);
    hide *;
    HoldoutLeaves(s);
  }

  lemma HoldoutLeaves(s: State)
    requires HasStatus(s, 7, ACTIVE) && Roster(s, 7) == {1, 2}
    requires forall uid, rid :: Likes(s, 7, uid, rid) <==> (uid == 1 && rid == 1) || (uid == 2 && rid == 2)
    ensures !LikedByAll(s, 7, 1)
    ensures HasStatus(DeleteAccount(s, 2), 7, ACTIVE) && LikedByAll(DeleteAccount(s, 2), 7, 1)
  {
    hide DeleteAccount, Roster, Likes;
    DeletionKeepsSession(s, 2, 7);
    LikesAfterDeletion(s, 7, 2, 1);
  }

  /** The same tie: after the deletion of participant 2 only the winner is liked by anybody, so it is a tie no more. */
  lemma ResultOutdated()
    ensures var s := TwoTastes(FINISHED, map[7 := TIE]);
      && TablesValid(s) && AgreesWithVotes(s, 7, TIE) && !AgreesWithVotes(DeleteAccount(s, 2), 7, TIE)
  {
    var s := TwoTastes(FINISHED, map[7 := TIE]);
    TastesAreValid(FINISHED, map[7 := TIE]);
    TastesTallied(s);
    assert s.results[7] == TIE && 7 in s.results;
    hide DeleteAccount, TwoTastes, TablesValid;
    TieOutlived(s);
    ResultAfterDeletion(s, 7, 2);
  }

  lemma TieOutlived(s: State)
    requires Tally(s, 7, 1) == 1 && Tally(s, 7, 2) == 1 && DeckOf(s, 7) == TenCards()
    requires forall rid | rid != 1 && rid != 2 :: Tally(s, 7, rid) == 0
    requires forall uid, rid :: Likes(s, 7, uid, rid) <==> (uid == 1 && rid == 1) || (uid == 2 && rid == 2)
    ensures AgreesWithVotes(s, 7, TIE) && !ResultOutlives(s, 7, 2, TIE)
  {
    hide Tally, Likes, DeckOf;
    assert TenCards()[0] == 1 && TenCards()[1] == 2;
    assert IsTop(s, 7, 1) && IsTop(s, 7, 2);
  }
}
