/** When the callers of a party session are given an outcome, which one, and under what name. */
module PartyAnswers {
  import opened Basics
  import opened PartyModel
  import opened PartyInvariants
  import opened PartyVotes
  import opened PartySettlement
  import opened PartyRuns
  import opened PartyOutcomes
  import opened PartyEffects
  import opened PartyStore

  // ─── Reading ───

  /** The resolution is the saved result with the wheel that the votes give it. */
  ghost predicate IsSavedOutcome(s: State, sid: SessionId, resolution: Resolution) {
    sid in s.results && resolution.result == s.results[sid] && WheelFits(s, sid, resolution)
  }

  /** A read is answered exactly for a participant of a finished session, with the saved outcome. */
  lemma ReadExactly(s: State, sid: SessionId, uid: UserId)
    requires TablesValid(s)
    ensures ReadResult(s, sid, uid).Ok? <==> Seat(sid, uid) in s.seats && HasStatus(s, sid, FINISHED)
    ensures ReadResult(s, sid, uid).Ok? ==> IsSavedOutcome(s, sid, ReadResult(s, sid, uid).value)
    ensures ReadResult(s, sid, uid) == Err(FORBIDDEN) <==> sid in s.sessions && Seat(sid, uid) !in s.seats
  {
    assert sid in s.results <==> HasStatus(s, sid, FINISHED);
    if sid in s.results {
      ReadBackFits(s, sid);
    }
  }

  /** The time of a session still in play is over. */
  predicate TimeIsUp(s: State, sid: SessionId, now: Instant) {
    HasStatus(s, sid, ACTIVE) && s.sessions[sid].endsAt.Some? && s.sessions[sid].endsAt.value <= now
  }

  /**
   A participant who reads after the time is up settles the session and is told the outcome it was settled
   with; any other read changes nothing.
   */
  lemma LateReadExactly(s: State, sid: SessionId, uid: UserId, now: Instant, pick: nat)
    requires TablesValid(s)
    ensures var (t, reply) := ReadLate(s, sid, uid, now, pick);
      && (reply.Ok? <==> Seat(sid, uid) in s.seats && (HasStatus(s, sid, FINISHED) || TimeIsUp(s, sid, now)))
      && (reply.Ok? ==> IsSavedOutcome(t, sid, reply.value) && HasStatus(t, sid, FINISHED))
      && if Seat(sid, uid) in s.seats && TimeIsUp(s, sid, now) then
           && t.results == s.results[sid := reply.value.result] && AgreesWithVotes(s, sid, reply.value.result)
           && t.seats == s.seats && t.decks == s.decks && t.ballots == s.ballots
         else t == s
  {
    ReadExactly(s, sid, uid);
    if Seat(sid, uid) in s.seats && TimeIsUp(s, sid, now) {
      ResolveSettles(s, sid, pick);
      DecideAgrees(s, sid, pick);
      SettledIsValid(s, sid, pick);
      hide TablesValid, Decide, WheelFits, AgreesWithVotes;
      ReadExactly(ResolveSession(s, sid, pick).0, sid, uid);
    } else {
      hide ResolveSession;
    }
  }

  lemma SettledIsValid(s: State, sid: SessionId, pick: nat)
    requires TablesValid(s) && HasStatus(s, sid, ACTIVE)
    ensures TablesValid(ResolveSession(s, sid, pick).0)
  {
    ResolveSettles(s, sid, pick);
    DecideAgrees(s, sid, pick);
    FinishKeepsTables(s, sid, Decide(s, sid, pick).result);
  }

  /** In a settled session nobody who keeps their account loses their seat. */
  lemma {:induction false} SeatStays(c: Config, steps: seq<Step>, sid: SessionId, uid: UserId)
    requires Good(c) && Runs(c, steps) && KeepsPlayers(c, steps, sid)
    requires sid in c.db.results && Seat(sid, uid) in c.db.seats
    ensures Seat(sid, uid) in Run(c, steps).db.seats
    decreases |steps|
  {
    hide Inv, Enabled, NewTickets, SparesPlayers;
    if steps != [] {
      SettledStays(c, steps[0], sid);
      StepKeepsGood(c, steps[0]);
      hide After;
      SeatStays(Next(c, steps[0]), steps[1..], sid, uid);
    }
  }

  /**
   Once an outcome was announced, by whichever caller, every participant can read it at every later time and
   is told the very same, as long as nobody playing in the session deletes their account.
   */
  lemma AnnouncedIsReadable(c: Config, step: Step, between: seq<Step>, uid: UserId)
    requires Sound(c, SessionOf(step)) && Enabled(c, step) && Announced(c, step).Some?
    requires Runs(Next(c, step), between) && KeepsPlayers(Next(c, step), between, SessionOf(step))
    requires Seat(SessionOf(step), uid) in Next(c, step).db.seats
    ensures ReadResult(Run(Next(c, step), between).db, SessionOf(step), uid) == Ok(Announced(c, step).value)
  {
    var sid, next := SessionOf(step), Next(c, step);
    AnnouncedIsSaved(c, step);
    StepKeepsGood(c, step);
    hide After, Announced, Enabled, SessionOf, AgreesWithVotes, WheelFits, GetResolution, GameValid;
    hide TablesValid, CompanyValid, InvitesValid, SoloValid;
    SettledForever(next, between, sid);
    SeatStays(next, between, sid, uid);
    GoodRun(next, between);
    ReadsTheResolution(Run(next, between).db, sid, uid);
  }

  lemma ReadsTheResolution(s: State, sid: SessionId, uid: UserId)
    requires TablesValid(s) && sid in s.results && Seat(sid, uid) in s.seats
    ensures ReadResult(s, sid, uid) == GetResolution(s, sid)
  {
  }

  // ─── Announcing ───

  /** Who is told an outcome: every resolution, the swipe that ends a session, and each read of a participant. */
  lemma AnnouncedExactly(c: Config, step: Step)
    requires Good(c) && Enabled(c, step)
    ensures Announced(c, step).Some?
       <==> || step.Resolve?
            || (step.Swipe? && HasStatus(c.db, step.session, ACTIVE)
                && HasStatus(After(c.db, step), step.session, FINISHED))
            || (step.Read? && Seat(step.session, step.user) in c.db.seats
                && HasStatus(c.db, step.session, FINISHED))
  {
    hide CompanyValid, InvitesValid, SoloValid, LikedByAll;
    match step {
      case Swipe(session, user, card, liked, now) =>
        SwipeCases(c.db, session, user, card, liked, now);
        hide RecordSwipe, TablesValid;
      case Resolve(session, pick) =>
        ResolveSettles(c.db, session, pick);
        hide ResolveSession, TablesValid;
      case Read(session, user) =>
        ReadExactly(c.db, session, user);
        hide ReadResult, TablesValid;
      case _ =>
    }
  }

  /** The step that settles a session saves the winner's name as it is at that moment. */
  lemma SettledUnderItsName(c: Config, step: Step)
    requires Good(c) && Enabled(c, step) && HasStatus(c.db, SessionOf(step), ACTIVE) && Announced(c, step).Some?
    ensures var result := Announced(c, step).value.result;
      && result.restaurant.Some? && result.restaurant.value in c.db.restaurants
      && result.name == c.db.restaurants[result.restaurant.value].name
  {
    hide CompanyValid, InvitesValid, SoloValid, LikedByAll, AgreesWithVotes;
    match step {
      case Swipe(session, user, card, liked, now) =>
        SwipeCases(c.db, session, user, card, liked, now);
        DeckIsKnown(c.db, session);
        hide RecordSwipe, TablesValid;
      case Resolve(session, pick) =>
        ResolveSettles(c.db, session, pick);
        DecideNames(c.db, session, pick);
        hide Decide, TablesValid;
      case Read(session, user) =>
        ReadExactly(c.db, session, user);
    }
  }

  lemma DeckIsKnown(s: State, sid: SessionId)
    requires TablesValid(s)
    ensures forall rid | rid in DeckOf(s, sid) :: rid in s.restaurants
  {
  }

  lemma DecideNames(s: State, sid: SessionId, pick: nat)
    requires TablesValid(s) && sid in s.decks
    ensures var result := Decide(s, sid, pick).result;
      && result.restaurant.Some? && result.restaurant.value in s.restaurants
      && result.name == s.restaurants[result.restaurant.value].name
  {
    DecideAgrees(s, sid, pick);
    DeckIsKnown(s, sid);
    if LikeCounts(s, sid).Keys != {} {
      LeadersExist(LikeCounts(s, sid));
    }
    hide TablesValid, LikeCounts, Leaders, Tally;
  }

  // ─── Fair draws ───

  /** Every card that may win does win for some draw: each tied card, or without likes each card of the deck. */
  lemma EveryTopCanWin(s: State, sid: SessionId, rid: RestaurantId)
    requires TablesValid(s) && sid in s.decks && rid in DeckOf(s, sid)
    requires IsTop(s, sid, rid) || forall other | other in DeckOf(s, sid) :: Tally(s, sid, other) == 0
    ensures exists pick: nat :: Decide(s, sid, pick).result.restaurant == Some(rid)
  {
    DrawnExactly(s, sid, rid);
    hide *;
    var pick := PickOf(Drawn(s, sid), rid);
    DecideDraws(s, sid, pick);
  }

  lemma PickOf(cards: seq<RestaurantId>, card: RestaurantId) returns (pick: nat)
    requires card in cards
    ensures Choice(cards, pick) == card
  {
    pick :| pick < |cards| && cards[pick] == card;
  }

  /** The cards a decision draws from. */
  function Drawn(s: State, sid: SessionId): seq<RestaurantId> {
    if LikeCounts(s, sid).Keys == {} then DeckOf(s, sid) else Sorted(Leaders(LikeCounts(s, sid)))
  }

  lemma DrawnExactly(s: State, sid: SessionId, rid: RestaurantId)
    requires TablesValid(s) && sid in s.decks && rid in DeckOf(s, sid)
    ensures rid in Drawn(s, sid)
       <==> IsTop(s, sid, rid) || forall other | other in DeckOf(s, sid) :: Tally(s, sid, other) == 0
  {
    CountsAreTallies(s, sid);
    LeadersAreTop(s, sid);
    hide TablesValid, LikeCounts, Tally, Leaders, IsTop;
    var counts := LikeCounts(s, sid);
    if counts.Keys == {} {
      assert forall other :: other !in counts;
    } else {
      HasElement(counts.Keys);
      var some :| some in counts.Keys;
      assert some in counts;
    }
  }

  lemma DecideDraws(s: State, sid: SessionId, pick: nat)
    requires Drawn(s, sid) != []
    ensures Decide(s, sid, pick).result.restaurant == Some(Choice(Drawn(s, sid), pick))
  {
    hide LikeCounts, Leaders, DeckOf;
  }

  // ─── Reporting a finished deck ───

  /**
   A report is answered with an outcome exactly when it was the last thing missing: the session is in play and
   everybody has judged every card. That outcome is the saved one; otherwise the session goes on as it was.
   */
  lemma FinishedExactly(s: State, sid: SessionId, uid: UserId, pick: nat)
    requires Inv(s)
    ensures var (t, reply) := MarkFinished(s, sid, uid, pick);
      && (reply.Ok? <==> Seat(sid, uid) in s.seats)
      && ((reply.Ok? && reply.value.Some?) <==>
            Seat(sid, uid) in s.seats && HasStatus(s, sid, ACTIVE) && EveryCardJudged(s, sid))
      && (reply.Ok? && reply.value.Some? ==>
            IsSavedOutcome(t, sid, reply.value.value) && AgreesWithVotes(t, sid, reply.value.value.result))
      && (!(reply.Ok? && reply.value.Some?) ==> t.sessions == s.sessions && t.results == s.results)
      && t.ballots == s.ballots && t.decks == s.decks
  {
    ReportedExactly(s, sid, uid);
    var (after, reply) := ReportDeckFinished(s, sid, uid);
    if reply == Ok(true) {
      ReportKeepsTables(s, sid, uid);
      hide Inv, EveryCardJudged, AgreesWithVotes, TablesValid, IsSavedOutcome;
      SettlesNow(after, sid, pick);
    } else {
      hide ResolveSession, Inv, EveryCardJudged, AllParticipantsFinished, IsSavedOutcome, AgreesWithVotes;
    }
  }

  /** What a resolution of a session in play answers. */
  lemma SettlesNow(s: State, sid: SessionId, pick: nat)
    requires TablesValid(s) && HasStatus(s, sid, ACTIVE)
    ensures var (t, reply) := ResolveSession(s, sid, pick);
      && reply.Ok? && IsSavedOutcome(t, sid, reply.value) && AgreesWithVotes(t, sid, reply.value.result)
      && t.ballots == s.ballots && t.decks == s.decks
  {
    ResolveSettles(s, sid, pick);
    DecideAgrees(s, sid, pick);
    SettledIsValid(s, sid, pick);
    hide TablesValid, AgreesWithVotes, Decide, WheelFits;
    var t := ResolveSession(s, sid, pick).0;
    ReadBackFits(t, sid);
    SameRows(s, t, sid);
  }

  /** Such a report leads to the settlement under the lock, whatever happens before the lock is taken. */
  lemma FinishedDeckSettles(c: Config, sid: SessionId, uid: UserId, between: seq<Step>, pick: nat)
    requires Good(c) && HasStatus(c.db, sid, ACTIVE) && Seat(sid, uid) in c.db.seats && EveryCardJudged(c.db, sid)
    requires Runs(Next(c, DeckFinished(sid, uid)), between)
    ensures var late := Run(Next(c, DeckFinished(sid, uid)), between);
      Enabled(late, Resolve(sid, pick)) && HasStatus(Next(late, Resolve(sid, pick)).db, sid, FINISHED)
  {
    ReportedExactly(c.db, sid, uid);
    TicketSettles(c, DeckFinished(sid, uid), between, sid, pick);
  }

  /** So does a participant's read after the time is up. */
  lemma LateCheckSettles(c: Config, sid: SessionId, uid: UserId, now: Instant, between: seq<Step>, pick: nat)
    requires Good(c) && TimeIsUp(c.db, sid, now) && Seat(sid, uid) in c.db.seats
    requires Runs(Next(c, LateCheck(sid, uid, now)), between)
    ensures var late := Run(Next(c, LateCheck(sid, uid, now)), between);
      Enabled(late, Resolve(sid, pick)) && HasStatus(Next(late, Resolve(sid, pick)).db, sid, FINISHED)
  {
    TicketSettles(c, LateCheck(sid, uid, now), between, sid, pick);
  }

  lemma TicketSettles(c: Config, step: Step, between: seq<Step>, sid: SessionId, pick: nat)
    requires Good(c) && Enabled(c, step) && sid in NewTickets(c.db, step)
    requires Runs(Next(c, step), between)
    ensures var late := Run(Next(c, step), between);
      Enabled(late, Resolve(sid, pick)) && HasStatus(Next(late, Resolve(sid, pick)).db, sid, FINISHED)
  {
    var next := Next(c, step);
    StepKeepsGood(c, step);
    TicketsStay(next, between, sid);
    GoodRun(next, between);
    ResolveSettles(Run(next, between).db, sid, pick);
  }
}
