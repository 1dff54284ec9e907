/** What the counting queries mean in terms of people: unanimity, finished decks and the outcome. */
module PartyVotes {
  import opened Basics
  import opened PartyModel
  import opened PartyInvariants

  function Likers(s: State, sid: SessionId, rid: RestaurantId): set<UserId> {
    set b | b in LikeRows(s, sid, rid) :: b.user
  }

  /** The number of people who like a card. */
  function Tally(s: State, sid: SessionId, rid: RestaurantId): nat {
    |Likers(s, sid, rid)|
  }

  /** Counting like rows counts people: uq_vote_once lets nobody like a card twice. */
  lemma LikeRowsCountPeople(s: State, sid: SessionId, rid: RestaurantId)
    ensures |LikeRows(s, sid, rid)| == Tally(s, sid, rid)
    ensures forall uid :: uid in Likers(s, sid, rid) <==> Likes(s, sid, uid, rid)
  {
    var column := (b: Ballot) => b.user;
    CardinalityOfImage(LikeRows(s, sid, rid), column);
    assert Image(LikeRows(s, sid, rid), column) == Likers(s, sid, rid);
    forall uid | Likes(s, sid, uid, rid) ensures uid in Likers(s, sid, rid) {
      assert Ballot(sid, uid, rid) in LikeRows(s, sid, rid);
    }
    forall uid | uid in Likers(s, sid, rid) ensures Likes(s, sid, uid, rid) {
      var b :| b in LikeRows(s, sid, rid) && b.user == uid;
      assert b == Ballot(sid, uid, rid);
    }
  }

  lemma SeatRowsCountPeople(s: State, sid: SessionId)
    ensures |SeatRows(s, sid)| == |Roster(s, sid)|
    ensures forall uid :: uid in Roster(s, sid) <==> Seat(sid, uid) in s.seats
  {
    var column := (seat: Seat) => seat.user;
    CardinalityOfImage(SeatRows(s, sid), column);
    assert Image(SeatRows(s, sid), column) == Roster(s, sid);
    forall uid | Seat(sid, uid) in s.seats ensures uid in Roster(s, sid) {
      assert Seat(sid, uid) in SeatRows(s, sid);
    }
    forall uid | uid in Roster(s, sid) ensures Seat(sid, uid) in s.seats {
      var seat :| seat in SeatRows(s, sid) && seat.user == uid;
      assert seat == Seat(sid, uid);
    }
  }

  ghost predicate LikedByAll(s: State, sid: SessionId, rid: RestaurantId) {
    Roster(s, sid) != {} && forall uid | uid in Roster(s, sid) :: Likes(s, sid, uid, rid)
  }

  /** The bare count comparison is exact: it says yes just when every participant liked the card. */
  lemma UnanimousExact(s: State, sid: SessionId, rid: RestaurantId)
    requires BallotsValid(s)
    ensures IsUnanimous(s, sid, rid) <==> LikedByAll(s, sid, rid)
  {
    LikeRowsCountPeople(s, sid, rid);
    SeatRowsCountPeople(s, sid);
    assert Likers(s, sid, rid) <= Roster(s, sid);
    SubsetOfSameSize(Likers(s, sid, rid), Roster(s, sid));
    if LikedByAll(s, sid, rid) {
      assert Roster(s, sid) <= Likers(s, sid, rid);
    }
  }

  function Judged(s: State, sid: SessionId, uid: UserId): set<RestaurantId> {
    set b | b in VoteRows(s, sid, uid) :: b.restaurant
  }

  lemma VoteRowsCountCards(s: State, sid: SessionId, uid: UserId)
    ensures |VoteRows(s, sid, uid)| == |Judged(s, sid, uid)|
    ensures forall rid :: rid in Judged(s, sid, uid) <==> Ballot(sid, uid, rid) in s.ballots
  {
    var column := (b: Ballot) => b.restaurant;
    CardinalityOfImage(VoteRows(s, sid, uid), column);
    assert Image(VoteRows(s, sid, uid), column) == Judged(s, sid, uid);
    forall rid | Ballot(sid, uid, rid) in s.ballots ensures rid in Judged(s, sid, uid) {
      assert Ballot(sid, uid, rid) in VoteRows(s, sid, uid);
    }
    forall rid | rid in Judged(s, sid, uid) ensures Ballot(sid, uid, rid) in s.ballots {
      var b :| b in VoteRows(s, sid, uid) && b.restaurant == rid;
      assert b == Ballot(sid, uid, rid);
    }
  }

  ghost predicate EveryCardJudged(s: State, sid: SessionId) {
    forall uid, rid | uid in Roster(s, sid) && rid in DeckOf(s, sid) :: Ballot(sid, uid, rid) in s.ballots
  }

  lemma DeckJudged(s: State, sid: SessionId, uid: UserId)
    requires TablesValid(s) && sid in s.decks
    ensures |VoteRows(s, sid, uid)| >= |s.decks[sid]|
        <==> forall rid | rid in s.decks[sid] :: Ballot(sid, uid, rid) in s.ballots
  {
    VoteRowsCountCards(s, sid, uid);
    DistinctCardinality(s.decks[sid]);
    var cards := ToSet(s.decks[sid]);
    forall rid | rid in Judged(s, sid, uid) ensures rid in cards {
      assert Ballot(sid, uid, rid) in s.ballots;
    }
    SubsetOfSameSize(Judged(s, sid, uid), cards);
    if forall rid | rid in s.decks[sid] :: Ballot(sid, uid, rid) in s.ballots {
      forall rid | rid in cards ensures rid in Judged(s, sid, uid) {
        assert Ballot(sid, uid, rid) in s.ballots;
      }
    } else {
      var rid :| rid in s.decks[sid] && Ballot(sid, uid, rid) !in s.ballots;
      assert rid in cards && rid !in Judged(s, sid, uid);
    }
  }

  /** Comparing counts is exact here too: yes just when everybody voted on every card of the deck. */
  lemma AllFinishedExact(s: State, sid: SessionId)
    requires TablesValid(s) && sid in s.decks
    ensures AllParticipantsFinished(s, sid) <==> EveryCardJudged(s, sid)
  {
    forall uid | uid in Roster(s, sid)
      ensures |VoteRows(s, sid, uid)| >= |s.decks[sid]|
          <==> forall rid | rid in s.decks[sid] :: Ballot(sid, uid, rid) in s.ballots
    {
      DeckJudged(s, sid, uid);
    }
  }

  /** Once that happened no further swipe can add a vote to the session. */
  lemma FinishedDeckTakesNoVote(s: State, sid: SessionId, uid: UserId, rid: RestaurantId, liked: bool, now: Instant)
    requires TablesValid(s) && sid in s.decks && AllParticipantsFinished(s, sid)
    ensures RecordSwipe(s, sid, uid, rid, liked, now).0 == s
  {
    AllFinishedExact(s, sid);
    SeatRowsCountPeople(s, sid);
  }

  // ─── The outcome ───

  /** What each kind of result claims about the votes, without mentioning how it is computed. */
  ghost predicate AgreesWithVotes(s: State, sid: SessionId, result: MatchResult) {
    && result.restaurant.Some?
    && var winner := result.restaurant.value;
    && winner in DeckOf(s, sid)
    && match result.kind
       case UNANIMOUS => LikedByAll(s, sid, winner)
       case MAJORITY =>
         Tally(s, sid, winner) > 0 &&
         forall rid | rid in DeckOf(s, sid) && rid != winner :: Tally(s, sid, rid) < Tally(s, sid, winner)
       case SPIN_WHEEL_TIE =>
         IsTop(s, sid, winner) && exists rid | rid in DeckOf(s, sid) :: rid != winner && IsTop(s, sid, rid)
       case SPIN_WHEEL_NO_MATCH =>
         forall rid | rid in DeckOf(s, sid) :: Tally(s, sid, rid) == 0
  }

  /** Liked by somebody, and no card of the deck is liked by more people. */
  ghost predicate IsTop(s: State, sid: SessionId, rid: RestaurantId) {
    && rid in DeckOf(s, sid) && Tally(s, sid, rid) > 0
    && forall other | other in DeckOf(s, sid) :: Tally(s, sid, other) <= Tally(s, sid, rid)
  }

  /** The cards shown on the wheel for a result: nothing, every top card in order, or the whole deck. */
  ghost predicate WheelFits(s: State, sid: SessionId, resolution: Resolution) {
    match resolution.result.kind
    case SPIN_WHEEL_NO_MATCH => resolution.wheel == DeckOf(s, sid)
    case SPIN_WHEEL_TIE =>
      Increasing(resolution.wheel) && forall rid :: rid in resolution.wheel <==> IsTop(s, sid, rid)
    case _ => resolution.wheel == []
  }

  lemma CountsAreTallies(s: State, sid: SessionId)
    requires BallotsValid(s)
    ensures forall rid :: rid in LikeCounts(s, sid) <==> rid in DeckOf(s, sid) && Tally(s, sid, rid) > 0
    ensures forall rid | rid in LikeCounts(s, sid) :: LikeCounts(s, sid)[rid] == Tally(s, sid, rid)
  {
    forall rid
      ensures rid in LikeCounts(s, sid) <==> rid in DeckOf(s, sid) && Tally(s, sid, rid) > 0
      ensures rid in LikeCounts(s, sid) ==> LikeCounts(s, sid)[rid] == Tally(s, sid, rid)
    {
      LikeRowsCountPeople(s, sid, rid);
      forall b | b in LikeRows(s, sid, rid) ensures rid in LikedCards(s, sid) {
      }
      if rid in LikedCards(s, sid) {
        var b :| b in s.ballots && b.session == sid && s.ballots[b] && b.restaurant == rid;
        assert b in LikeRows(s, sid, rid);
      }
    }
  }

  lemma LeadersAreTop(s: State, sid: SessionId)
    requires BallotsValid(s)
    ensures forall rid :: rid in Leaders(LikeCounts(s, sid)) <==> IsTop(s, sid, rid)
  {
    CountsAreTallies(s, sid);
    var counts := LikeCounts(s, sid);
    forall rid
      ensures rid in Leaders(counts) <==> IsTop(s, sid, rid)
    {
      if rid in Leaders(counts) {
        forall other | other in DeckOf(s, sid) ensures Tally(s, sid, other) <= Tally(s, sid, rid) {
          assert other in counts || Tally(s, sid, other) == 0;
        }
      }
    }
  }

  /** The decision agrees with the votes, and its wheel holds exactly the cards it was drawn from. */
  lemma DecideAgrees(s: State, sid: SessionId, pick: nat)
    requires TablesValid(s) && sid in s.decks
    ensures AgreesWithVotes(s, sid, Decide(s, sid, pick).result)
    ensures WheelFits(s, sid, Decide(s, sid, pick))
    ensures Decide(s, sid, pick).result.kind != UNANIMOUS
  {
    CountsAreTallies(s, sid);
    LeadersAreTop(s, sid);
    assert DeckOf(s, sid) != [];
    hide TablesValid, BallotsValid, LikeCounts, Leaders, Tally, DeckOf, AgreesWithVotes, WheelFits, IsTop;
    var counts := LikeCounts(s, sid);
    if counts.Keys == {} {
      assert forall rid :: rid !in counts;
      NoMatchAgrees(s, sid, Decide(s, sid, pick));
    } else {
      LeadersExist(counts);
      var leaders := Sorted(Leaders(counts));
      assert leaders[0] in leaders;
      if |leaders| == 1 {
        MajorityAgrees(s, sid, leaders[0], Decide(s, sid, pick));
      } else {
        TieAgrees(s, sid, leaders, Decide(s, sid, pick));
      }
    }
  }

  lemma NoMatchAgrees(s: State, sid: SessionId, decided: Resolution)
    requires decided.result.kind == SPIN_WHEEL_NO_MATCH && decided.wheel == DeckOf(s, sid)
    requires decided.result.restaurant.Some? && decided.result.restaurant.value in DeckOf(s, sid)
    requires forall rid | rid in DeckOf(s, sid) :: Tally(s, sid, rid) == 0
    ensures AgreesWithVotes(s, sid, decided.result) && WheelFits(s, sid, decided)
  {
    hide Tally, DeckOf;
  }

  lemma MajorityAgrees(s: State, sid: SessionId, winner: RestaurantId, decided: Resolution)
    requires decided.result.kind == MAJORITY && decided.wheel == [] && decided.result.restaurant == Some(winner)
    requires IsTop(s, sid, winner) && forall rid | IsTop(s, sid, rid) :: rid == winner
    ensures AgreesWithVotes(s, sid, decided.result) && WheelFits(s, sid, decided)
  {
    hide Tally, DeckOf;
    forall rid | rid in DeckOf(s, sid) && rid != winner ensures Tally(s, sid, rid) < Tally(s, sid, winner) {
      assert !IsTop(s, sid, rid);
    }
  }

  lemma TieAgrees(s: State, sid: SessionId, leaders: seq<RestaurantId>, decided: Resolution)
    requires Increasing(leaders) && |leaders| >= 2 && forall rid :: rid in leaders <==> IsTop(s, sid, rid)
    requires decided.result.kind == SPIN_WHEEL_TIE && decided.wheel == leaders
    requires decided.result.restaurant.Some? && decided.result.restaurant.value in leaders
    ensures AgreesWithVotes(s, sid, decided.result) && WheelFits(s, sid, decided)
  {
    hide Tally, DeckOf;
    var winner := decided.result.restaurant.value;
    var other := if winner == leaders[0] then leaders[1] else leaders[0];
    assert other in leaders && other != winner && IsTop(s, sid, other);
  }

  /** Reading a saved outcome back rebuilds the very wheel that was announced. */
  lemma ReadBackFits(s: State, sid: SessionId)
    requires TablesValid(s) && sid in s.results
    ensures GetResolution(s, sid).Ok?
    ensures GetResolution(s, sid).value.result == s.results[sid]
    ensures WheelFits(s, sid, GetResolution(s, sid).value)
  {
    LeadersAreTop(s, sid);
  }

  lemma WheelUnique(s: State, sid: SessionId, a: Resolution, b: Resolution)
    requires a.result == b.result && WheelFits(s, sid, a) && WheelFits(s, sid, b)
    ensures a == b
  {
    if a.result.kind == SPIN_WHEEL_TIE {
      assert ToSet(a.wheel) == ToSet(b.wheel) by {
        assert forall rid :: rid in a.wheel <==> rid in b.wheel;
      }
      IncreasingUnique(a.wheel, b.wheel);
    }
  }
}
