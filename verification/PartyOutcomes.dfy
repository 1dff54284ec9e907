/** The promises of the party protocol over every run. */
module PartyOutcomes {
  import opened Basics
  import opened PartyModel
  import opened PartyInvariants
  import opened PartyVotes
  import opened PartySettlement
  import opened PartyRuns

  /** The tables are in order, and the session, once started, is rightly undecided or rightly decided. */
  ghost predicate Sound(c: Config, sid: SessionId) {
    Good(c) && (Started(c.db, sid) ==> GameValid(c.db, sid))
  }

  lemma {:induction false} SplitRun(c: Config, steps: seq<Step>, k: nat)
    requires k <= |steps| && Runs(c, steps)
    ensures Runs(c, steps[..k]) && Runs(Run(c, steps[..k]), steps[k..])
    ensures Run(c, steps) == Run(Run(c, steps[..k]), steps[k..])
    decreases |steps|
  {
    hide After, Enabled, NewTickets, SparesPlayers;
    if k == 0 {
      assert steps[..0] == [] && steps[0..] == steps;
    } else {
      SplitRun(Next(c, steps[0]), steps[1..], k - 1);
      assert steps[..k][1..] == steps[1..][..k - 1];
      assert steps[1..][k - 1..] == steps[k..];
    }
  }

  lemma {:induction false} SplitKeeps(c: Config, steps: seq<Step>, k: nat, sid: SessionId)
    requires k <= |steps| && KeepsPlayers(c, steps, sid)
    ensures KeepsPlayers(c, steps[..k], sid) && KeepsPlayers(Run(c, steps[..k]), steps[k..], sid)
    decreases |steps|
  {
    hide After, Enabled, NewTickets, SparesPlayers;
    if k == 0 {
      assert steps[..0] == [] && steps[0..] == steps;
    } else {
      SplitKeeps(Next(c, steps[0]), steps[1..], k - 1, sid);
      assert steps[..k][1..] == steps[1..][..k - 1];
      assert steps[1..][k - 1..] == steps[k..];
    }
  }

  // ─── Tickets and the settlement they lead to ───

  lemma StartedStays(s: State, step: Step, sid: SessionId)
    requires TablesValid(s) && Started(s, sid)
    requires step.Create? ==> step.session !in s.sessions
    ensures Started(After(s, step), sid)
  {
    hide StartSession, JoinSession, LeaveSession, KickParticipant, CreateSession, InviteFriend, ReportDeckFinished;
    hide CleanupRestaurants, DeleteAccount, Unfriend, MarkAsRead, RecordSwipe, ResolveSession, TablesValid;
    match step {
      case Swipe(session, user, card, liked, now) => SwipeKeepsStarted(s, session, user, card, liked, now, sid);
      case Resolve(session, pick) => ResolveEffect(s, session, pick);
      case DeleteUser(user) => DeletionKeepsSession(s, user, sid);
      case _ => QuietStep(s, step, sid);
    }
  }

  lemma SwipeKeepsStarted(s: State, session: SessionId, user: UserId, card: RestaurantId, liked: bool, now: Instant,
                          sid: SessionId)
    requires TablesValid(s) && Started(s, sid)
    ensures Started(RecordSwipe(s, session, user, card, liked, now).0, sid)
  {
    SwipeCases(s, session, user, card, liked, now);
    hide RecordSwipe, TablesValid, LikedByAll, IsOverdue;
  }

  lemma ResolveEffect(s: State, session: SessionId, pick: nat)
    ensures var after := ResolveSession(s, session, pick).0;
      && after.seats == s.seats && after.decks == s.decks && after.ballots == s.ballots
      && after.sessions.Keys == s.sessions.Keys
      && forall sid | sid in s.sessions ::
           after.sessions[sid] == s.sessions[sid] || HasStatus(after, sid, FINISHED)
  {
  }

  /** Deleting an account leaves started sessions standing, only without that participant. */
  lemma DeletionKeepsSession(s: State, user: UserId, sid: SessionId)
    requires Started(s, sid)
    ensures var after := DeleteAccount(s, user);
      && sid in after.sessions && after.sessions[sid].status == s.sessions[sid].status
      && DeckOf(after, sid) == DeckOf(s, sid)
      && (sid in s.results <==> sid in after.results)
      && (sid in s.results ==> after.results[sid] == s.results[sid])
      && Roster(after, sid) == Roster(s, sid) - {user}
      && forall uid, rid ::
           Ballot(sid, uid, rid) in after.ballots <==> Ballot(sid, uid, rid) in s.ballots && uid != user
  {
    var after := DeleteAccount(s, user);
    forall uid ensures uid in Roster(after, sid) <==> uid in Roster(s, sid) - {user} {
      SeatRowsCountPeople(s, sid);
      SeatRowsCountPeople(after, sid);
    }
  }

  lemma NewTicketsStarted(s: State, step: Step, sid: SessionId)
    requires sid in NewTickets(s, step)
    ensures Started(s, sid)
  {
  }

  lemma StepKeepsGood(c: Config, step: Step)
    requires Good(c) && Enabled(c, step)
    ensures Good(Next(c, step))
  {
    StepKeepsInv(c.db, step, c.tickets);
    forall sid | sid in Next(c, step).tickets ensures Started(After(c.db, step), sid) {
      if sid !in c.tickets { NewTicketsStarted(c.db, step, sid); }
      StartedStays(c.db, step, sid);
    }
  }

  /** Every run, account deletions included, keeps the table and friendship invariants. */
  lemma {:induction false} GoodRun(c: Config, steps: seq<Step>)
    requires Good(c) && Runs(c, steps)
    ensures Good(Run(c, steps))
    decreases |steps|
  {
    if steps != [] {
      StepKeepsGood(c, steps[0]);
      GoodRun(Next(c, steps[0]), steps[1..]);
    }
  }

  // ─── Games whose players keep their accounts ───

  lemma QuietKeepsGame(s: State, t: State, sid: SessionId)
    requires QuietOn(s, t, sid) && Started(t, sid)
    requires Started(s, sid) ==> GameValid(s, sid)
    ensures GameValid(t, sid)
  {
    if Started(s, sid) {
      SameRows(s, t, sid);
    }
  }

  lemma SwipeKeepsGame(s: State, session: SessionId, user: UserId, card: RestaurantId, liked: bool, now: Instant,
    sid: SessionId)
    requires TablesValid(s) && (Started(s, sid) ==> GameValid(s, sid))
    requires Started(RecordSwipe(s, session, user, card, liked, now).0, sid)
    ensures GameValid(RecordSwipe(s, session, user, card, liked, now).0, sid)
  {
    SwipeCases(s, session, user, card, liked, now);
    var after := RecordSwipe(s, session, user, card, liked, now).0;
    var voted := CastVote(s, session, user, card, liked);
    if after == s {
    } else if sid != session {
      SameRows(s, after, sid);
    } else if after == voted {
      VoteLeavesUndecided(s, session, user, card, liked);
    } else {
      SameRows(voted, after, sid);
    }
  }

  lemma VoteLeavesUndecided(s: State, sid: SessionId, user: UserId, card: RestaurantId, liked: bool)
    requires Seat(sid, user) in s.seats && Ballot(sid, user, card) !in s.ballots
    requires forall rid | rid in DeckOf(s, sid) :: !LikedByAll(s, sid, rid)
    requires !(LikedByAll(CastVote(s, sid, user, card, liked), sid, card) && liked)
    ensures forall rid | rid in DeckOf(s, sid) :: !LikedByAll(CastVote(s, sid, user, card, liked), sid, rid)
  {
    var voted := CastVote(s, sid, user, card, liked);
    assert SeatRows(voted, sid) == SeatRows(s, sid);
    assert Roster(voted, sid) == Roster(s, sid);
    assert user in Roster(s, sid) by { assert Seat(sid, user) in SeatRows(s, sid); }
    forall rid | rid in DeckOf(s, sid) ensures !LikedByAll(voted, sid, rid) {
      if rid == card {
        assert !liked ==> !Likes(voted, sid, user, card);
      } else {
        assert forall uid :: Likes(voted, sid, uid, rid) <==> Likes(s, sid, uid, rid);
      }
    }
  }

  lemma ResolveKeepsGame(s: State, session: SessionId, pick: nat, sid: SessionId)
    requires TablesValid(s) && Started(s, session) && (Started(s, sid) ==> GameValid(s, sid))
    requires Started(ResolveSession(s, session, pick).0, sid)
    ensures GameValid(ResolveSession(s, session, pick).0, sid)
  {
    ResolveSettles(s, session, pick);
    if HasStatus(s, session, ACTIVE) {
      DecideAgrees(s, session, pick);
      hide TablesValid, ResolveSession, Decide, GetResolution, AgreesWithVotes, GameValid;
      FinishKeepsGame(s, session, Decide(s, session, pick).result, sid);
    } else {
      hide ResolveSession, GameValid, TablesValid;
    }
  }

  lemma FinishKeepsGame(s: State, session: SessionId, result: MatchResult, sid: SessionId)
    requires HasStatus(s, session, ACTIVE) && AgreesWithVotes(s, session, result)
    requires Started(s, sid) && GameValid(s, sid)
    ensures GameValid(Finish(s, session, result), sid)
  {
    hide AgreesWithVotes, LikedByAll;
    SameRows(s, Finish(s, session, result), sid);
  }

  lemma StepKeepsGame(c: Config, step: Step, sid: SessionId)
    requires Sound(c, sid) && Enabled(c, step) && SparesPlayers(c.db, step, sid)
    requires Started(After(c.db, step), sid)
    ensures GameValid(After(c.db, step), sid)
  {
    hide RecordSwipe, ResolveSession, GameValid, TablesValid, CompanyValid, InvitesValid, SoloValid, SparesPlayers;
    match step {
      case Swipe(session, user, card, liked, now) =>
        SwipeKeepsGame(c.db, session, user, card, liked, now, sid);
      case Resolve(session, pick) =>
        ResolveKeepsGame(c.db, session, pick, sid);
      case _ =>
        QuietStep(c.db, step, sid);
        QuietKeepsGame(c.db, After(c.db, step), sid);
    }
  }

  lemma StepKeepsSound(c: Config, step: Step, sid: SessionId)
    requires Sound(c, sid) && Enabled(c, step) && SparesPlayers(c.db, step, sid)
    ensures Sound(Next(c, step), sid)
  {
    hide After, GameValid, Enabled, SparesPlayers;
    StepKeepsGood(c, step);
    if Started(After(c.db, step), sid) {
      StepKeepsGame(c, step, sid);
    }
  }

  /**
   Main safety result: in every state of a run that deletes no account playing in the session, the session
   has no card liked by everybody while it is ACTIVE, and a result that agrees with its votes once FINISHED.
   */
  lemma {:induction false} SoundRun(c: Config, steps: seq<Step>, sid: SessionId)
    requires Sound(c, sid) && Runs(c, steps) && KeepsPlayers(c, steps, sid)
    ensures Sound(Run(c, steps), sid)
    decreases |steps|
  {
    if steps != [] {
      StepKeepsSound(c, steps[0], sid);
      SoundRun(Next(c, steps[0]), steps[1..], sid);
    }
  }

  // ─── One answer for everybody ───

  lemma VoteElsewhere(s: State, session: SessionId, user: UserId, card: RestaurantId, liked: bool, sid: SessionId)
    requires sid != session && sid in s.sessions
    ensures Undisturbed(s, CastVote(s, session, user, card, liked), sid)
  {
  }

  lemma FinishElsewhere(s: State, session: SessionId, result: MatchResult, sid: SessionId)
    requires sid != session && sid in s.sessions && session in s.sessions
    ensures Undisturbed(s, Finish(s, session, result), sid)
  {
  }

  lemma Unchanged(s: State, sid: SessionId)
    requires sid in s.sessions
    ensures Undisturbed(s, s, sid)
  {
  }

  lemma UndisturbedChain(s: State, t: State, u: State, sid: SessionId)
    requires Undisturbed(s, t, sid) && Undisturbed(t, u, sid)
    ensures Undisturbed(s, u, sid)
  {
  }

  lemma SwipeLeavesSettled(s: State, session: SessionId, user: UserId, card: RestaurantId, liked: bool, now: Instant,
    sid: SessionId)
    requires TablesValid(s) && HasStatus(s, sid, FINISHED)
    ensures Undisturbed(s, RecordSwipe(s, session, user, card, liked, now).0, sid)
  {
    hide Undisturbed, RecordSwipe;
    SwipeCases(s, session, user, card, liked, now);
    var voted := CastVote(s, session, user, card, liked);
    Unchanged(s, sid);
    if sid != session && session in s.sessions {
      var result := MatchResult(Some(card), UNANIMOUS, NameOf(s, card));
      VoteElsewhere(s, session, user, card, liked, sid);
      FinishElsewhere(voted, session, result, sid);
      UndisturbedChain(s, voted, Finish(voted, session, result), sid);
    }
  }

  lemma ResolveLeavesSettled(s: State, session: SessionId, pick: nat, sid: SessionId)
    requires TablesValid(s) && Started(s, session) && HasStatus(s, sid, FINISHED)
    ensures Undisturbed(s, ResolveSession(s, session, pick).0, sid)
  {
    hide Undisturbed, ResolveSession, Decide, GetResolution;
    ResolveSettles(s, session, pick);
    Unchanged(s, sid);
    if sid != session {
      FinishElsewhere(s, session, Decide(s, session, pick).result, sid);
    }
  }

  /** A step that spares its players leaves a settled session exactly as it is. */
  lemma SettledStays(c: Config, step: Step, sid: SessionId)
    requires Good(c) && Enabled(c, step) && SparesPlayers(c.db, step, sid)
    requires sid in c.db.results
    ensures Undisturbed(c.db, After(c.db, step), sid)
  {
    assert HasStatus(c.db, sid, FINISHED) by { assert ResultsValid(c.db); }
    hide StartSession, JoinSession, LeaveSession, KickParticipant, CreateSession, InviteFriend, ReportDeckFinished;
    hide CleanupRestaurants, Unfriend, MarkAsRead, RecordSwipe, ResolveSession, DeleteAccount, Undisturbed;
    hide SparesPlayers;
    hide SeatsValid, DecksValid, BallotsValid, ResultsValid, SessionsValid, CompanyValid, InvitesValid;
    match step {
      case Swipe(session, user, card, liked, now) => SwipeLeavesSettled(c.db, session, user, card, liked, now, sid);
      case Resolve(session, pick) => ResolveLeavesSettled(c.db, session, pick, sid);
      case _ => QuietStep(c.db, step, sid);
    }
  }

  lemma ReadStable(s: State, t: State, sid: SessionId)
    requires Undisturbed(s, t, sid)
    ensures GetResolution(s, sid) == GetResolution(t, sid)
  {
    SameRows(s, t, sid);
  }

  /** Whatever the interleaving, a saved outcome reads back the same ever after: winner, wheel and order. */
  lemma {:induction false} SettledForever(c: Config, steps: seq<Step>, sid: SessionId)
    requires Good(c) && Runs(c, steps) && KeepsPlayers(c, steps, sid)
    requires sid in c.db.results
    ensures sid in Run(c, steps).db.results
    ensures GetResolution(Run(c, steps).db, sid) == GetResolution(c.db, sid)
    decreases |steps|
  {
    if steps != [] {
      SettledStays(c, steps[0], sid);
      ReadStable(c.db, After(c.db, steps[0]), sid);
      StepKeepsGood(c, steps[0]);
      SettledForever(Next(c, steps[0]), steps[1..], sid);
    }
  }

  function SessionOf(step: Step): SessionId {
    match step
    case Swipe(session, _, _, _, _) => session
    case Resolve(session, _) => session
    case Read(session, _) => session
    case _ => 0
  }

  /** Whatever a step announces is the saved outcome, it agrees with the votes and shows the right wheel. */
  lemma AnnouncedIsSaved(c: Config, step: Step)
    requires Sound(c, SessionOf(step)) && Enabled(c, step) && Announced(c, step).Some?
    ensures var after := After(c.db, step);
      var told := Announced(c, step).value;
      && HasStatus(after, SessionOf(step), FINISHED)
      && SessionOf(step) in after.results
      && GetResolution(after, SessionOf(step)) == Ok(told)
      && AgreesWithVotes(after, SessionOf(step), told.result)
      && WheelFits(after, SessionOf(step), told)
  {
    var after, sid := After(c.db, step), SessionOf(step);
    assert SparesPlayers(c.db, step, sid);
    StepKeepsSound(c, step, sid);
    match step {
      case Swipe(session, user, card, liked, now) =>
        SwipeCases(c.db, session, user, card, liked, now);
      case Resolve(session, pick) => ResolveSettles(c.db, session, pick);
      case Read(_, _) =>
    }
    assert sid in after.results && Started(after, sid);
    ReadBackFits(after, sid);
  }

  /** Two announcements for one session with any steps between them tell the same. */
  lemma SameAnswerLater(c: Config, step: Step, between: seq<Step>, later: Step)
    requires Sound(c, SessionOf(step)) && Enabled(c, step) && Announced(c, step).Some?
    requires Runs(Next(c, step), between) && KeepsPlayers(Next(c, step), between, SessionOf(step))
    requires var d := Run(Next(c, step), between); Enabled(d, later) && Announced(d, later).Some?
    requires SessionOf(later) == SessionOf(step)
    ensures Announced(c, step) == Announced(Run(Next(c, step), between), later)
  {
    AnnouncersDeleteNobody(c, step);
    AnnouncersDeleteNobody(Run(Next(c, step), between), later);
    hide After, Announced, Enabled, Inv, GameValid, NewTickets, GetResolution, SparesPlayers;
    hide AgreesWithVotes, WheelFits, Undisturbed, SessionOf;
    var sid, d := SessionOf(step), Run(Next(c, step), between);
    AnnouncedIsSaved(c, step);
    StepKeepsSound(c, step, sid);
    SettledForever(Next(c, step), between, sid);
    SoundRun(Next(c, step), between, sid);
    AnnouncedIsSaved(d, later);
    SettledStays(d, later, sid);
    ReadStable(d.db, After(d.db, later), sid);
  }

  lemma AnnouncersDeleteNobody(c: Config, step: Step)
    requires Announced(c, step).Some?
    ensures forall sid :: SparesPlayers(c.db, step, sid)
  {
  }

  /**
   Main result: in a run that deletes no account playing in a session, every outcome announced for it, by
   whichever of the racing callers and however late, is one and the same: result, wheel and wheel order.
   */
  lemma OneAnswer(c: Config, steps: seq<Step>, i: nat, j: nat, sid: SessionId)
    requires Sound(c, sid) && Runs(c, steps) && KeepsPlayers(c, steps, sid)
    requires i < j < |steps| && SessionOf(steps[i]) == SessionOf(steps[j]) == sid
    requires Announced(Run(c, steps[..i]), steps[i]).Some?
    requires Announced(Run(c, steps[..j]), steps[j]).Some?
    ensures Announced(Run(c, steps[..i]), steps[i]) == Announced(Run(c, steps[..j]), steps[j])
  {
    hide After, Announced, Enabled, NewTickets, SessionOf, SparesPlayers, Sound, Runs, Run, KeepsPlayers;
    var between := CutBetween(c, steps, i, j, sid);
    SoundRun(c, steps[..i], sid);
    SameAnswerLater(Run(c, steps[..i]), steps[i], between, steps[j]);
  }

  /** A run cut into what comes before step i, step i, what comes between, and step j. */
  lemma CutBetween(c: Config, steps: seq<Step>, i: nat, j: nat, sid: SessionId) returns (between: seq<Step>)
    requires Runs(c, steps) && KeepsPlayers(c, steps, sid) && i < j < |steps|
    ensures Runs(c, steps[..i]) && KeepsPlayers(c, steps[..i], sid) && Enabled(Run(c, steps[..i]), steps[i])
    ensures var next := Next(Run(c, steps[..i]), steps[i]);
      && Runs(next, between) && KeepsPlayers(next, between, sid)
      && Run(next, between) == Run(c, steps[..j]) && Enabled(Run(next, between), steps[j])
  {
    hide After, Enabled, NewTickets, SparesPlayers;
    var head := steps[..j];
    SplitRun(c, steps, j);
    SplitKeeps(c, steps, j, sid);
    assert steps[j..][0] == steps[j];
    SplitRun(c, head, i);
    SplitKeeps(c, head, i, sid);
    assert head[..i] == steps[..i] && head[i..][0] == steps[i];
    between := head[i..][1..];
  }

  // ─── Finished decks, overdue timers, fixed rosters ───

  /** No step adds a vote to a session whose participants have all finished the deck. */
  lemma FullDeckStays(c: Config, step: Step, sid: SessionId)
    requires Good(c) && Enabled(c, step) && SparesPlayers(c.db, step, sid)
    requires Started(c.db, sid) && AllParticipantsFinished(c.db, sid)
    ensures SameGame(c.db, After(c.db, step), sid)
  {
    hide StartSession, JoinSession, LeaveSession, KickParticipant, CreateSession, InviteFriend, ReportDeckFinished;
    hide CleanupRestaurants, Unfriend, MarkAsRead, RecordSwipe, ResolveSession, DeleteAccount;
    hide AllParticipantsFinished, SparesPlayers;
    match step {
      case Swipe(session, user, card, liked, now) => FullDeckTakesNoSwipe(c.db, sid, session, user, card, liked, now);
      case Resolve(session, pick) => ResolveEffect(c.db, session, pick);
      case _ => QuietStep(c.db, step, sid);
    }
  }

  lemma FullDeckTakesNoSwipe(s: State, sid: SessionId, session: SessionId, user: UserId, card: RestaurantId,
                             liked: bool, now: Instant)
    requires Inv(s) && Started(s, sid) && AllParticipantsFinished(s, sid)
    ensures SameGame(s, RecordSwipe(s, session, user, card, liked, now).0, sid)
  {
    hide RecordSwipe, AllParticipantsFinished, LikedByAll, TablesValid, CompanyValid, InvitesValid;
    if session == sid {
      assert sid in s.decks by { StartedHasDeck(s, sid); }
      FinishedDeckTakesNoVote(s, sid, user, card, liked, now);
    } else {
      SwipeCases(s, session, user, card, liked, now);
    }
  }

  lemma StartedHasDeck(s: State, sid: SessionId)
    requires TablesValid(s) && Started(s, sid)
    ensures sid in s.decks
  {
  }

  lemma {:induction false} FullDeckFrozen(c: Config, steps: seq<Step>, sid: SessionId)
    requires Good(c) && Runs(c, steps) && KeepsPlayers(c, steps, sid)
    requires Started(c.db, sid) && AllParticipantsFinished(c.db, sid)
    ensures SameGame(c.db, Run(c, steps).db, sid)
    decreases |steps|
  {
    if steps != [] {
      var next := Next(c, steps[0]);
      FullDeckStays(c, steps[0], sid);
      StepKeepsGood(c, steps[0]);
      StartedStays(c.db, steps[0], sid);
      AllFinishedExact(c.db, sid);
      SameRows(c.db, next.db, sid);
      AllFinishedExact(next.db, sid);
      FullDeckFrozen(next, steps[1..], sid);
    }
  }

  /**
   The unlocked "everybody has finished" check is safe: whenever the lock is taken later, the tally and
   therefore the decision are those of the moment of the check.
   */
  lemma CheckThenLockDecidesTheSame(c: Config, steps: seq<Step>, sid: SessionId, pick: nat)
    requires Good(c) && Runs(c, steps) && KeepsPlayers(c, steps, sid)
    requires Started(c.db, sid) && AllParticipantsFinished(c.db, sid)
    ensures EveryCardJudged(c.db, sid)
    ensures LikeCounts(Run(c, steps).db, sid) == LikeCounts(c.db, sid)
    ensures var early, late := Decide(c.db, sid, pick), Decide(Run(c, steps).db, sid, pick);
      && early.wheel == late.wheel && early.result.kind == late.result.kind
      && early.result.restaurant == late.result.restaurant
  {
    assert sid in c.db.decks;
    hide SeatsValid, DecksValid, BallotsValid, ResultsValid, SessionsValid, CompanyValid, InvitesValid;
    AllFinishedExact(c.db, sid);
    FullDeckFrozen(c, steps, sid);
    SameRows(c.db, Run(c, steps).db, sid);
  }

  /** An overdue session gets a ticket at the next tick, and a session with a ticket settles when it is used. */
  lemma OverdueSettles(c: Config, now: Instant, between: seq<Step>, sid: SessionId, pick: nat)
    requires Good(c) && IsOverdue(c.db, sid, now)
    requires Runs(Next(c, TimerTick(now)), between)
    ensures var late := Run(Next(c, TimerTick(now)), between);
      && Enabled(late, Resolve(sid, pick))
      && HasStatus(Next(late, Resolve(sid, pick)).db, sid, FINISHED)
      && sid in Next(late, Resolve(sid, pick)).db.results
  {
    var ticked := Next(c, TimerTick(now));
    assert sid in ticked.tickets;
    StepKeepsGood(c, TimerTick(now));
    TicketsStay(ticked, between, sid);
    GoodRun(ticked, between);
    ResolveSettles(Run(ticked, between).db, sid, pick);
  }

  lemma {:induction false} TicketsStay(c: Config, steps: seq<Step>, sid: SessionId)
    requires sid in c.tickets
    ensures sid in Run(c, steps).tickets
    decreases |steps|
  {
    if steps != [] {
      TicketsStay(Next(c, steps[0]), steps[1..], sid);
    }
  }

  /** One step, account deletion included: participants only leave, deck and result row stand. */
  lemma StartedShrinks(c: Config, step: Step, sid: SessionId)
    requires Good(c) && Enabled(c, step) && Started(c.db, sid)
    ensures var after := After(c.db, step);
      && Roster(after, sid) <= Roster(c.db, sid)
      && DeckOf(after, sid) == DeckOf(c.db, sid)
      && (sid in c.db.results ==> sid in after.results && after.results[sid] == c.db.results[sid])
      && (HasStatus(c.db, sid, FINISHED) ==> HasStatus(after, sid, FINISHED))
  {
    hide StartSession, JoinSession, LeaveSession, KickParticipant, CreateSession, InviteFriend, ReportDeckFinished;
    hide CleanupRestaurants, Unfriend, MarkAsRead, RecordSwipe, ResolveSession, DeleteAccount, LikeSolo, SwipeSolo;
    hide QuietOn, SeatsValid, DecksValid, BallotsValid, ResultsValid, SessionsValid, CompanyValid, InvitesValid;
    hide SoloValid;
    var after := After(c.db, step);
    match step {
      case DeleteUser(user) => DeletionKeepsSession(c.db, user, sid);
      case Swipe(session, user, card, liked, now) => SwipeShrinks(c.db, session, user, card, liked, now, sid);
      case Resolve(session, pick) => ResolveShrinks(c.db, session, pick, sid);
      case _ =>
        QuietStep(c.db, step, sid);
        QuietShrinks(c.db, after, sid);
    }
  }

  lemma QuietShrinks(s: State, t: State, sid: SessionId)
    requires QuietOn(s, t, sid) && Started(s, sid)
    ensures Roster(t, sid) == Roster(s, sid) && DeckOf(t, sid) == DeckOf(s, sid)
    ensures (sid in s.results ==> sid in t.results && t.results[sid] == s.results[sid])
    ensures (HasStatus(s, sid, FINISHED) ==> HasStatus(t, sid, FINISHED))
  {
    SameSeatsAndLikes(s, t, sid);
  }

  lemma SwipeShrinks(s: State, session: SessionId, user: UserId, card: RestaurantId, liked: bool, now: Instant,
    sid: SessionId)
    requires TablesValid(s) && Started(s, sid)
    ensures var after := RecordSwipe(s, session, user, card, liked, now).0;
      && Roster(after, sid) == Roster(s, sid)
      && DeckOf(after, sid) == DeckOf(s, sid)
      && (sid in s.results ==> sid in after.results && after.results[sid] == s.results[sid])
      && (HasStatus(s, sid, FINISHED) ==> HasStatus(after, sid, FINISHED))
  {
    SwipeCases(s, session, user, card, liked, now);
    assert SeatRows(RecordSwipe(s, session, user, card, liked, now).0, sid) == SeatRows(s, sid);
  }

  lemma ResolveShrinks(s: State, session: SessionId, pick: nat, sid: SessionId)
    requires TablesValid(s) && Started(s, session) && Started(s, sid)
    ensures var after := ResolveSession(s, session, pick).0;
      && Roster(after, sid) == Roster(s, sid)
      && DeckOf(after, sid) == DeckOf(s, sid)
      && (sid in s.results ==> sid in after.results && after.results[sid] == s.results[sid])
      && (HasStatus(s, sid, FINISHED) ==> HasStatus(after, sid, FINISHED))
  {
    ResolveSettles(s, session, pick);
    assert SeatRows(ResolveSession(s, session, pick).0, sid) == SeatRows(s, sid);
  }

  /** Over any run the roster of a started session never grows and its result row never changes. */
  lemma {:induction false} RosterNeverGrows(c: Config, steps: seq<Step>, sid: SessionId)
    requires Good(c) && Runs(c, steps) && Started(c.db, sid)
    ensures var late := Run(c, steps).db;
      && Started(late, sid)
      && Roster(late, sid) <= Roster(c.db, sid)
      && DeckOf(late, sid) == DeckOf(c.db, sid)
      && (sid in c.db.results ==> sid in late.results && late.results[sid] == c.db.results[sid])
    decreases |steps|
  {
    if steps != [] {
      StepKeepsGood(c, steps[0]);
      StartedStays(c.db, steps[0], sid);
      StartedShrinks(c, steps[0], sid);
      RosterNeverGrows(Next(c, steps[0]), steps[1..], sid);
    }
  }

  // ─── From the empty database ───

  lemma InitiallySound(sid: SessionId)
    ensures Sound(Initial, sid)
  {
  }

  /** What every reachable state looks like, account deletions included. */
  lemma EveryReachableState(steps: seq<Step>)
    requires Runs(Initial, steps)
    ensures var s := Run(Initial, steps).db;
      && (forall a, b | a in s.seats && b in s.seats && a.user == b.user ::
            IsOpen(s, a.session) && IsOpen(s, b.session) ==> a.session == b.session)
      && (forall sid | HasStatus(s, sid, LOBBY) ::
            && s.sessions[sid].host.Some? && Seat(sid, s.sessions[sid].host.value) in s.seats
            && sid !in s.decks && sid !in s.results && forall uid, rid :: Ballot(sid, uid, rid) !in s.ballots)
      && (forall sid :: sid in s.results <==> HasStatus(s, sid, FINISHED))
      && (forall a, b :: Friendship(a, b) in s.friends ==> a != b && Friendship(b, a) in s.friends)
      && (forall seat, host | seat in s.seats && IsOpen(s, seat.session) ::
            s.sessions[seat.session].host == Some(host) && host != seat.user ==>
              Friendship(seat.user, host) in s.friends)
      && (forall n | n in s.invites && !s.invites[n].isRead :: HasStatus(s, s.invites[n].session, LOBBY))
      && (forall n, m | n in s.invites && m in s.invites && !s.invites[n].isRead && s.invites[n] == s.invites[m] ::
            n == m)
      && (forall b | b in s.ballots :: b.restaurant in DeckOf(s, b.session) && Seat(b.session, b.user) in s.seats)
      && (forall sid, rid | sid in s.decks && rid in s.decks[sid] :: rid in s.restaurants)
      && (forall v | v in s.solo :: v.user in s.users && v.restaurant in s.restaurants)
  {
    InitiallySound(0);
    GoodRun(Initial, steps);
  }

  /** What holds besides for a session none of whose players had their account deleted. */
  lemma EveryReachableGame(steps: seq<Step>, sid: SessionId)
    requires Runs(Initial, steps) && KeepsPlayers(Initial, steps, sid)
    ensures var s := Run(Initial, steps).db;
      && (HasStatus(s, sid, ACTIVE) ==> forall rid | rid in DeckOf(s, sid) :: !LikedByAll(s, sid, rid))
      && (sid in s.results ==> AgreesWithVotes(s, sid, s.results[sid]))
  {
    InitiallySound(sid);
    SoundRun(Initial, steps, sid);
    var s := Run(Initial, steps).db;
    if sid in s.results {
      assert HasStatus(s, sid, FINISHED);
    }
    assert HasStatus(s, sid, ACTIVE) || HasStatus(s, sid, FINISHED) ==> Started(s, sid);
  }
}
