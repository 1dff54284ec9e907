# Choosing a restaurant together: a verified model

Friends open a lobby, swipe through a deck of restaurants, and the server settles on one. This project models
the parts of that system where many parties act on shared state, or where one representation is translated into
another, and proves what they promise. `dafny verify dfyconfig.toml` checks everything.

## The five cores

**Party sessions** (`PartyModel` to `PartyStore`). The database tables are maps keyed by their unique
constraints, and each locked service transaction is a function from tables to tables and a reply; an exception
leaves the tables alone. `PartyRuns` lets any number of callers interleave those transactions. The callers that
first look without a lock (a deck-finished report, a late read, the timer worker) leave a ticket that a later
locked resolution uses, so everything may happen in between. `PartyVotes` says what the counting queries mean in
terms of people, `PartyEffects` who may do what and what one call undoes of another, `PartyOutcomes` holds the
results over whole runs, session by session and as long as none of its players is deleted, `PartyDeletion` the
exact conditions under which such a deletion breaks three of them, and `PartyStore` the handlers as methods that
change rows, loops included, each proved to do what its transaction specifies. `PartyAnswers` says who is told
which outcome, `PartyFrames` what each step leaves alone and exactly what a deletion takes away.

**Logins and tokens** (`RefreshFamilies`, `AuthRequests`). One row per login with the hash of its current refresh
token. The rotation rule is that of section 4.14.2 of RFC 9700, the claims are those of section 4.1 of RFC 7519.
`AuthRequests` keeps committed and working rows apart, because a replay is answered by an exception and only an
explicit commit saves its revocation from the rollback.

**Client credentials and the shared socket** (`CredentialQueue`, `AuthStore`, `SharedSocket`, `SessionSocket`).
Steps are the stretches of code between two awaits, or one event callback. A revision counter and a queue of
secure-store writes; a map of reference-counted connections with their closures, timers and late events.

**Opening hours** (`OpeningHours`, `WeeklyPeriods`, `Text`, `OsmHours`, `OsmMeaning`, `OsmRoundTrip`). A period
means a half-open interval of the cyclic week. The evaluator, the generator of the administration form and the
translator of OSM strings are measured against that meaning.

**Administration and live delivery** (`RestaurantAdmin`, `RestaurantHistory`, `PhotoStorage`, `AdminStore`,
`PhotoRequests`, `ConnectionTable`, `ConnectionManager`, `MessageWindow`). Optimistic versions with an audit log,
a photo pointer over an object store with a failure or crash possible between any two steps, the table of
WebSocket connections as a history of events that goes on while messages are being sent, and the sliding window
of the receive loop.

## Where a promise fails

The code is modelled as it is. Where a promise does not hold, the first lemma named gives the exact condition
and the ones after it what it costs, on concrete cases where one was needed:

- Deleting an account removes its votes. A tie may then read back another wheel (`WheelSurvivesDeletion`,
  `WheelLostByDeletion`), a saved result may no longer agree with the votes (`ResultAfterDeletion`,
  `ResultOutdated`), and a session may stay open although everybody left likes one card
  (`UndecidedAfterDeletion`, `MatchMissedByDeletion`).
- A solo like over an earlier solo skip is answered with success and not saved (`SoloLikeSaved`).
- A spent refresh token shown while its account is inactive revokes nothing (`ReplayKillsExactly`).
- The queue of credential writes is there so that a slow refresh cannot overwrite the next account's login. After a
  logout it cannot (`LogoutEndsRefreshes`); after a login over another one it can until that login has reached
  memory (`LoginEndsRefreshesExactly`, `OldRefreshReplacesLogin`).
- The start-up reading of stored credentials is not queued (`LateHydrateExact`, `LateHydrateUndoesLogout`).
- A screen that listens to a connection the server refused stays unserved until another one subscribes
  (`ListenersAreServed`).
- An unsubscribe function called twice can drop a newer connection from the map (`SecondUnsubscribeExact`,
  `SecondUnsubscribeHarms`).
- A period that opens and closes on one day and opens later than it closes is reported closed from midnight to
  closing on that day (`PeriodExact`, `HoursLeftOut`).
- OSM rules are translated to one period per day even when they close on the next day, and the hour 24 is folded
  to 00 (`RuleExact`). Overnight rules such as `18:00-02:00` (`OvernightOpenTooLong`, `OvernightMisread`) and rules
  that close at 24:00 (`ClosingAtMidnight`, `MidnightMisread`) open the place on days they do not name. The comment
  in `backend/scripts/seed_restaurants.py:290-304` promises unknown hours for what it cannot translate; the code
  translates `Mo 18:00-02:00` to a window of almost the whole week.
- A commit that was applied but reported as failed makes the upload handler delete a photo in use
  (`DanglingExactlyWhenLost`, `MisreportedCommitLosesThePhoto`, `PhotoLost`).
- Until the first administrative change a row stays at version one, so the version check protects exactly the rows
  that were edited before (`VersionProtectsExactly`, `ImportUnderVersionOne`).

## Model

| member | source | states |
|---|---|---|
| `PartyVotes.LikeRowsCountPeople` | backend/app/models/vote.py:27 | because a participant votes on a card at most once, the number of like rows of a card is the number of people who like it |
| `PartyVotes.UnanimousExact` | backend/app/services/vote_service.py:283-305 | the bare comparison of two counts says yes exactly when there is a participant and every participant likes the card |
| `PartyVotes.AllFinishedExact` | backend/app/services/session_service.py:383-408 | counting vote rows against the deck says yes exactly when every participant voted on every card of the deck |
| `PartyVotes.FinishedDeckTakesNoVote` | backend/app/services/vote_service.py:44-58 | once all participants finished the deck, no swipe changes anything any more |
| `PartyVotes.CountsAreTallies` | backend/app/services/match_service.py:184-191 | the grouped like counts hold exactly the liked cards of the deck, each with the number of people who like it |
| `PartyVotes.LeadersAreTop` | backend/app/services/match_service.py:63-90 | the leaders are exactly the liked cards that no card of the deck exceeds |
| `PartyVotes.DecideAgrees` | backend/app/services/match_service.py:63-90 | whatever is drawn, the decision agrees with the votes: majority is the one strict maximum, a tie draws among at least two maxima, no-match means no likes and draws from the deck; the wheel holds exactly the cards drawn from |
| `PartyVotes.ReadBackFits` | backend/app/services/match_service.py:132-150 | reading a saved outcome back gives the saved result with the wheel that belongs to it |
| `PartyVotes.WheelUnique` | backend/app/services/match_service.py:132-150 | result and votes determine the wheel, order included |
| `PartySettlement.ResolveSettles` | backend/app/services/match_service.py:63-90 | resolving a started session leaves it FINISHED with one result row: the saved one if there was one, else the decision; nothing else changes |
| `PartySettlement.SwipeCases` | backend/app/services/vote_service.py:37-99 | every case of a swipe: refused without effect, repeated without effect, recorded, or recorded and settled as unanimous exactly when it was the last missing like |
| `PartySettlement.SwipeKeeps` | backend/app/services/vote_service.py:37-99 | a swipe keeps every invariant of the tables |
| `PartySettlement.ResolveKeeps` | backend/app/services/match_service.py:63-130 | so does resolving a started session |
| `PartyInvariants.DealtDeck` | backend/app/services/restaurant_service.py:152-191 | a deck dealt from a shuffled search result of distinct known restaurants has 10 to 20 distinct known cards |
| `PartyInvariants.CreateKeepsTables` | backend/app/services/session_service.py:46-78 | creating a lobby keeps decks, votes, results and seats consistent |
| `PartyInvariants.CreateKeepsCompany` | backend/app/services/session_service.py:46-78 | and keeps one open session per user, symmetric friendship and guests being friends of the host |
| `PartyInvariants.JoinKeepsCompany` | backend/app/services/session_service.py:80-142 | joining keeps one open session per user and makes guest and host friends |
| `PartyInvariants.StartKeepsTables` | backend/app/services/session_service.py:167-228 | starting deals the deck and keeps the tables consistent |
| `PartyInvariants.StartKeepsInvites` | backend/app/services/session_service.py:167-228 | and leaves no unread invite to a session that is no longer a lobby |
| `PartyInvariants.KickKeeps` | backend/app/services/session_service.py:230-254 | kicking keeps tables, company and invites |
| `PartyInvariants.LeaveKeepsTables` | backend/app/services/session_service.py:256-286 | leaving keeps the tables consistent, whether a guest leaves or the host cancels the lobby |
| `PartyInvariants.LeaveKeepsInvites` | backend/app/services/session_service.py:256-286 | and expires the invites of a cancelled lobby |
| `PartyInvariants.InviteKeepsInvites` | backend/app/services/notification_service.py:70-95 | inviting keeps at most one unread invite per recipient and lobby |
| `PartyInvariants.UnfriendKeepsCompany` | backend/app/services/friend_service.py:67-93 | unfriending keeps friendship symmetric and every guest of an open session a friend of its host |
| `PartyInvariants.CleanupKeepsTables` | backend/app/tasks/cleanup.py:43-60 | the nightly removal of cached restaurants keeps the tables consistent |
| `PartyInvariants.DeleteAccountKeepsTables` | backend/app/services/user_service.py:25-52 | deleting an account cancels its lobbies and keeps the tables consistent |
| `PartyInvariants.DeleteAccountKeepsCompany` | backend/app/services/user_service.py:67-96 | and keeps one open session per user and the friendship rules |
| `PartyInvariants.DeleteAccountKeepsInvites` | backend/app/services/user_service.py:79-88 | and leaves no unread invite to a cancelled lobby |
| `PartyRuns.StepKeepsInv` | backend/app/services/session_service.py:46-408 | every step of the protocol, whoever takes it, keeps the whole invariant |
| `PartyRuns.StepKeepsSolo` | backend/app/services/vote_service.py:143-214 | every step keeps solo votes pointing at known users and restaurants |
| `PartyRuns.QuietStep` | backend/app/services/session_service.py:46-336 | a step that is neither a swipe, nor a resolution, nor the deletion of one of its players leaves a started session exactly as it is, and a session it starts has no votes |
| `PartyRuns.CleanupKeepsResults` | backend/app/tasks/cleanup.py:46-56 | the cleanup removes no restaurant that a deck or vote refers to, so no result loses its restaurant |
| `PartyOutcomes.GoodRun` | backend/app/services/session_service.py:46-458 | over every interleaving, account deletions included, the invariant holds and every caller on its way to the lock heads for a started session |
| `PartyOutcomes.SoundRun` | backend/app/services/vote_service.py:37-99 | over every interleaving, as long as no participant of the session deletes their account once it was started: an ACTIVE session has no card liked by everybody and a FINISHED one a result that agrees with its votes |
| `PartyOutcomes.AnnouncedIsSaved` | backend/app/services/match_service.py:63-150 | whatever a swipe, a resolution or a read announces is the saved outcome, agrees with the votes and shows the right wheel |
| `PartyOutcomes.SettledForever` | backend/app/services/match_service.py:132-150 | a saved outcome reads back the same in every later state - winner, wheel and order - as long as no participant of the session deletes their account |
| `PartyOutcomes.OneAnswer` | backend/app/services/session_service.py:316-381 | all outcomes announced for one session, by whichever racing callers and however late, are one and the same, as long as no participant of the session deletes their account |
| `PartyOutcomes.FullDeckFrozen` | backend/app/services/session_service.py:383-406 | after the unlocked check said everybody finished, votes, roster and deck of the session never change again, as long as no participant of the session deletes their account |
| `PartyOutcomes.CheckThenLockDecidesTheSame` | backend/app/services/session_service.py:316-336 | so the decision under the later lock is the one the unlocked check would have led to, whatever accounts outside the session are deleted meanwhile |
| `PartyOutcomes.OverdueSettles` | backend/app/tasks/cleanup.py:73-111 | a session the timer found overdue is FINISHED with a result once its resolution gets the lock, whatever happens in between |
| `PartyOutcomes.StartedShrinks` | backend/app/services/user_service.py:25-52 | one step, account deletion included, never adds a participant to a started session nor changes its deck or result row |
| `PartyOutcomes.RosterNeverGrows` | backend/app/services/session_service.py:80-142 | over every run the roster of a started session never grows and its result row never changes |
| `PartyOutcomes.EveryReachableState` | backend/app/services/session_service.py:46-142 | from the empty database on: one open session per user, each lobby has a seated host and no deck, votes or result, FINISHED means a result row, friendship symmetric and irreflexive, guests are friends of the host, unread invites name lobbies and are unique, votes lie in the deck and belong to participants, solo votes name known users and restaurants |
| `PartyOutcomes.EveryReachableGame` | backend/app/services/vote_service.py:283-305 | from the empty database on, for each session from which no participant was deleted after its start: no card liked by all while ACTIVE, and a result that agrees with the votes |
| `PartyOutcomes.DeletionKeepsSession` | backend/app/services/user_service.py:25-52 | deleting an account leaves started sessions, decks and result rows standing and takes away just that participant and their votes |
| `PartyAnswers.ReadExactly` | backend/app/services/session_service.py:348-381 | a read is answered exactly for a participant of a FINISHED session, with the saved result and its wheel; a stranger is told so |
| `PartyAnswers.LateReadExactly` | backend/app/services/session_service.py:348-381 | a participant who reads after the time is up settles the session and is told the outcome saved for it, which agrees with the votes; any other read changes nothing |
| `PartyAnswers.AnnouncedIsReadable` | backend/app/services/session_service.py:348-381 | once an outcome was announced, every participant can read it at every later time and is told the very same, as long as no participant of the session deletes their account |
| `PartyAnswers.AnnouncedExactly` | backend/app/services/session_service.py:338-346 | who is told an outcome: every resolution under the lock, the swipe that ends a session, and each read by a participant of a finished one |
| `PartyAnswers.SettledUnderItsName` | backend/app/services/match_service.py:206-225 | the step that settles a session saves the winner's name as it is at that moment |
| `PartyAnswers.EveryTopCanWin` | backend/app/services/match_service.py:63-90 | each tied card, and without any likes each card of the deck, wins for some draw |
| `PartyAnswers.FinishedExactly` | backend/app/services/session_service.py:316-336 | a report is answered with an outcome exactly when everybody has judged every card of a session in play; that outcome is the saved one and agrees with the votes, and otherwise no session ends |
| `PartyAnswers.FinishedDeckSettles` | backend/app/services/session_service.py:316-336 | such a report leads to a FINISHED session under the lock, whatever happens before the lock is taken |
| `PartyAnswers.LateCheckSettles` | backend/app/services/session_service.py:354-360 | so does a participant's read after the time is up |
| `PartyFrames.DeletedSessions` | backend/app/services/user_service.py:67-96 | a deletion removes exactly the lobbies hosted by the leaver; every other session keeps row, deck and result, with only the leaver's name as host cleared |
| `PartyFrames.DeletedSeatsAndVotes` | backend/app/services/user_service.py:25-52 | seats and votes of all other users stay, apart from those in the leaver's own lobbies |
| `PartyFrames.DeletedRows` | backend/app/services/user_service.py:25-52 | so do their accounts, solo votes and friendships; of their invites exactly those to such a lobby turn read |
| `PartyFrames.OtherSessionsUntouched` | backend/app/services/session_service.py:46-336 | every step about one session, deletions aside, leaves row, seats, deck, votes and result of every other session as they are |
| `PartyFrames.OtherInvitesUntouched` | backend/app/services/notification_service.py:57-68 | and the invites to every other session |
| `PartyFrames.OtherTablesUntouched` | backend/app/services/friend_service.py:37-93 | friendships change only by joining and unfriending, solo votes only by solo swiping, accounts and restaurants only by their own calls |
| `PartyEffects.CreatedExactly` | backend/app/services/session_service.py:46-78 | a lobby is created exactly for a known user in no open session; they host it and sit in it alone, no other seat changes, and a user in an open session is told so |
| `PartyEffects.JoinedExactly` | backend/app/services/session_service.py:80-142 | joining succeeds exactly for those already seated and, while the lobby is open, for users in no open session; only their seat is new; a started session and a user in another open one are refused as such |
| `PartyEffects.InvitedExactly` | backend/app/services/session_service.py:288-314 | an invitation is accepted exactly from a participant of a lobby to a friend; the friend is then in the lobby or holds exactly one unread invite, and no other invite is new or changed |
| `PartyEffects.UnfriendedExactly` | backend/app/services/friend_service.py:67-93 | friends part exactly when they share no open session, and no other friendship changes |
| `PartyEffects.ReportedExactly` | backend/app/services/session_service.py:316-336 | a report marks the participant as waiting and says yes exactly when everybody judged every card |
| `PartyEffects.KickedExactly` | backend/app/services/session_service.py:230-254 | only the host removes a participant, only from a lobby and never themselves, and that one seat goes |
| `PartyEffects.StartedExactly` | backend/app/services/session_service.py:167-228 | only the host starts, only a lobby, only with ten local restaurants or more; those seated then swipe the dealt cards until the chosen duration is over, and the invites to it are read |
| `PartyEffects.LeftExactly` | backend/app/services/session_service.py:256-286 | anyone seated may leave a lobby; a guest gives up their seat, with the host go the lobby, its seats and the open invites to it |
| `PartyEffects.MarkedExactly` | backend/app/services/notification_service.py:40-55 | recipients, and nobody else, turn their own invite read, and no other one |
| `PartyEffects.SwipeSaved` | backend/app/services/vote_service.py:37-99 | an accepted swipe is on record with the direction of the first swipe of that participant on that card, and no other vote changes |
| `PartyEffects.CleanedExactly` | backend/app/tasks/cleanup.py:46-56 | exactly the expired, impermanent rows that no deck, no session vote and no solo vote refers to are removed |
| `PartyEffects.SoloLikeSaved` | backend/app/services/vote_service.py:143-187 | a solo like is accepted for every known restaurant and leaves a vote behind, but that vote is a like only if the user had not skipped the restaurant before; repeating it changes nothing, and a later solo swipe overrides it |
| `PartyEffects.SoloSwipeSaved` | backend/app/services/vote_service.py:189-214 | a solo swipe replaces the user's own vote on that restaurant and no other |
| `PartyEffects.CancelUndoesCreate` | backend/app/services/session_service.py:256-286 | a host who creates a lobby and leaves it again leaves the tables exactly as they were |
| `PartyEffects.LeaveUndoesJoin` | backend/app/services/session_service.py:80-142 | of a guest who joins and then leaves, or is removed by the host, exactly the two friendship rows with the host stay |
| `PartyEffects.JoinedCannotUnfriend` | backend/app/services/friend_service.py:67-93 | a guest who joined and the host can no longer part, in either direction |
| `PartyEffects.LeaverMayReturn` | backend/app/services/session_service.py:230-286 | whoever left a lobby, or was removed from it, may at once create a lobby or join any other one |
| `PartyEffects.StartedIsPlayable` | backend/app/services/session_service.py:167-228 | after a start with a local deck a swipe is accepted exactly from a participant, on one of the first twenty dealt cards, before the chosen duration is over |
| `PartyEffects.StartedIsClosed` | backend/app/services/session_service.py:80-314 | a session once started refuses every kick, leave, invitation and start, and takes in nobody, in every later state of every run |
| `PartyEffects.ErasedForever` | backend/app/services/user_service.py:25-52 | a deleted account is named by no row of any modelled table, now or in any later state, unless the identifier is signed up again |
| `PartyEffects.DeletionErases` | backend/app/services/user_service.py:25-52 | the deletion itself brings that about |
| `PartyDeletion.LikesAfterDeletion` | backend/app/services/user_service.py:48-52 | after a deletion each card has exactly the leaver's like less |
| `PartyDeletion.TopsAfterDeletion` | backend/app/services/match_service.py:132-150 | the top cards stay the same if and only if the leaver liked none of them, or liked all of them with company and a lead of two over the cards they skipped |
| `PartyDeletion.WheelSurvivesDeletion` | backend/app/services/match_service.py:132-150 | a settled session reads back the same wheel after a deletion if and only if it was no tie or the top cards stay the same |
| `PartyDeletion.WheelLostByDeletion` | backend/app/services/match_service.py:132-150 | a concrete tie whose wheel is another one after a deletion |
| `PartyDeletion.ResultAfterDeletion` | backend/app/services/user_service.py:25-52 | a saved result that agreed with the votes still does after a deletion if and only if: unanimous and somebody is left; a majority the leaver did not like, or still ahead; a tied winner still on top with company; no-match always |
| `PartyDeletion.ResultOutdated` | backend/app/services/user_service.py:25-52 | a concrete saved result that no longer agrees with the votes after a deletion |
| `PartyDeletion.UndecidedAfterDeletion` | backend/app/services/user_service.py:25-52 | a deletion leaves no card liked by all in an undecided session if and only if the leaver was not the only one holding out on a card |
| `PartyDeletion.MatchMissedByDeletion` | backend/app/services/user_service.py:25-52 | a concrete session left ACTIVE although everybody who remains likes one card |
| `PartyStore.Database.CountLikes` | backend/app/services/match_service.py:184-191 | the counting loop gives the grouped like counts |
| `PartyStore.Database.Persist` | backend/app/services/match_service.py:206-225 | inserts the result row and closes the session, or reports that a result row exists |
| `PartyStore.Database.ResolveSession` | backend/app/services/match_service.py:63-90 | does to the tables what the resolution transaction specifies, for every draw |
| `PartyStore.Database.ResolveUnanimous` | backend/app/services/match_service.py:92-120 | the same for the unanimous resolution |
| `PartyStore.Database.ReadBack` | backend/app/services/match_service.py:132-150 | returns the saved outcome with its wheel and changes nothing |
| `PartyStore.Database.RecordSwipe` | backend/app/services/vote_service.py:37-99 | the swipe handler does what its transaction specifies, errors rolled back |
| `PartyStore.Database.IsUnanimous` | backend/app/services/vote_service.py:283-305 | answers the count comparison without changing anything |
| `PartyStore.Database.CreateSession` | backend/app/services/session_service.py:46-78 | the create handler does what its transaction specifies |
| `PartyStore.Database.AddFriend` | backend/app/services/friend_service.py:37-55 | inserts both directions of a friendship that is new and not with oneself |
| `PartyStore.Database.JoinSession` | backend/app/services/session_service.py:80-142 | the join handler does what its transaction specifies |
| `PartyStore.Database.CreateSessionDeck` | backend/app/services/restaurant_service.py:152-191 | deals the first twenty shuffled restaurants, or nothing below ten |
| `PartyStore.Database.StartSession` | backend/app/services/session_service.py:167-228 | the start handler does what its transaction specifies |
| `PartyStore.Database.SetEveryoneSwiping` | backend/app/services/session_service.py:194-195 | sets every participant row of the session and no other |
| `PartyStore.Database.ExpireSessionInvites` | backend/app/services/notification_service.py:57-68 | the loop marks every invite to the session as read and no other notification |
| `PartyStore.Database.KickParticipant` | backend/app/services/session_service.py:230-254 | the kick handler does what its transaction specifies |
| `PartyStore.Database.LeaveSession` | backend/app/services/session_service.py:256-286 | the leave handler does what its transaction specifies |
| `PartyStore.Database.InviteFriend` | backend/app/services/session_service.py:288-314 | the invite handler does what its transaction specifies |
| `PartyStore.Database.MarkAsRead` | backend/app/services/notification_service.py:40-55 | marks the caller's own notification as read |
| `PartyStore.Database.Unfriend` | backend/app/services/friend_service.py:67-93 | removes both directions unless the two sit in one open session |
| `PartyStore.Database.AllParticipantsFinished` | backend/app/services/session_service.py:383-408 | the loop over the participants answers the count comparison |
| `PartyStore.Database.MarkParticipantFinished` | backend/app/services/session_service.py:316-336 | the report and, if everybody finished, the resolution, as specified one after the other |
| `PartyStore.Database.GetResult` | backend/app/services/session_service.py:348-381 | reading past the deadline resolves first; otherwise nothing changes |
| `PartyStore.Database.ResolveExpiredSessions` | backend/app/tasks/cleanup.py:73-111 | the worker's loop resolves every overdue session once, in whatever order the query lists them |
| `PartyStore.Database.CleanupRestaurantCache` | backend/app/tasks/cleanup.py:43-60 | removes exactly the expendable rows and returns how many |
| `PartyStore.Database.SoloLike` | backend/app/services/vote_service.py:143-187 | the insert that does nothing on conflict, as its transaction specifies |
| `PartyStore.Database.RecordSoloSwipe` | backend/app/services/vote_service.py:189-214 | the insert that overwrites on conflict, as its transaction specifies |
| `PartyStore.Database.DeleteAccount` | backend/app/services/user_service.py:25-52 | friendships, lobbies, seats, votes and user go in sequence, as the transaction specifies |
| `PartyStore.MarkFinishedIsRun` | backend/app/services/session_service.py:316-336 | the handler without interference is a run of its unlocked check and its locked resolution |
| `PartyStore.ResolveAllSettles` | backend/app/tasks/cleanup.py:73-111 | after the worker's loop no listed session is open |
| `RefreshFamilies.StepKeepsInv` | backend/app/services/auth_service.py:65-209 | every call keeps: the stored token is the last refresh token issued for its login, none of its tokens outlives the others' claims, versions only rise |
| `RefreshFamilies.RunKeepsInv` | backend/app/services/auth_service.py:65-209 | and so does every run of calls |
| `RefreshFamilies.OneRedeemable` | backend/app/services/auth_service.py:80-141 | at most one token of a login is redeemable, and it is the last one issued |
| `RefreshFamilies.ReplayRevokes` | backend/app/services/auth_service.py:117-138 | presenting a superseded token of a live login fails and revokes the login in committed state |
| `RefreshFamilies.LoginOpens` | backend/app/services/auth_service.py:91-103 | a sign-in succeeds exactly for active accounts and opens a new login of that very user, writing no other row; its access token opens the account for half an hour, its refresh token for seven days, neither longer and neither in the other's place |
| `RefreshFamilies.RefreshOpens` | backend/app/services/auth_service.py:105-141 | a redemption succeeds exactly for the redeemable token; the new pair belongs to the same user and login, no other row is written, and it opens the account until the login's own end at most |
| `RefreshFamilies.WrongTokenChangesNothing` | backend/app/services/auth_service.py:105-209 | tokens that are forged, expired or of another kind are refused by every call and change nothing |
| `RefreshFamilies.ResetTokenWorks` | backend/app/services/auth_service.py:162-209 | whatever is called meanwhile, a reset token works for a quarter of an hour if and only if the password was not reset and the account not erased since; once it has worked it never works again; it neither activates nor deactivates the account |
| `RefreshFamilies.RedeemedIsSpent` | backend/app/services/auth_service.py:105-141 | a redeemed token is spent and replaced by a fresh one |
| `RefreshFamilies.SpentForever` | backend/app/services/auth_service.py:105-141 | a spent token stays spent in every later state |
| `RefreshFamilies.SpentRefused` | backend/app/services/auth_service.py:117-138 | presenting a spent token fails and leaves its login with nothing that opens anything |
| `RefreshFamilies.RacingRedemptions` | backend/app/services/auth_service.py:105-141 | of two redemptions of one token, whatever happens in between, the second fails and closes the login at that hour, and for good when the account is current and the login has not run out |
| `RefreshFamilies.ReplayKillsExactly` | backend/app/services/auth_service.py:105-141 | presenting a spent token revokes a live login if and only if the token still reaches it: a replay shown while the account is inactive, or after the login ran out, revokes nothing |
| `RefreshFamilies.LogoutIsFinal` | backend/app/services/auth_service.py:143-160 | after a logout no token of that login is ever accepted again |
| `RefreshFamilies.ReplayIsFinal` | backend/app/services/auth_service.py:117-138 | nor after a replay |
| `RefreshFamilies.DeadForever` | backend/app/services/auth_session_service.py:11-28 | a revoked or removed login refuses refresh and access tokens in every later state |
| `RefreshFamilies.ResetIsFinal` | backend/app/services/auth_service.py:184-209 | after a password reset no token issued to the account before it is ever accepted, the reset token included |
| `RefreshFamilies.OtherLoginsUntouched` | backend/app/services/auth_service.py:117-160 | replay, rotation and logout leave the acceptance of every other login's tokens exactly as it was |
| `RefreshFamilies.ExpiryFixed` | backend/app/services/auth_service.py:80-103 | no call moves a login's expiry |
| `RefreshFamilies.LoginEndsOnTime` | backend/app/services/auth_service.py:91-103 | however often it is rotated, a login opens nothing once its lifetime from the sign-in is over |
| `RefreshFamilies.OtherUsersUntouched` | backend/app/services/auth_service.py:65-209 | whatever is called with one user's tokens, every other user's account and the acceptance of their tokens stay as they were |
| `RefreshFamilies.InactiveStaysOut` | backend/app/core/dependencies.py:30-62 | nothing issued to a deactivated or erased account is accepted, over every run, until somebody activates it |
| `RefreshFamilies.ActiveExactly` | backend/app/core/dependencies.py:30-62 | deactivating closes the account and activating it again brings back exactly what was there |
| `RefreshFamilies.ErasedExactly` | backend/app/services/user_service.py:25-52 | erasing an account removes its logins and nobody else's |
| `AuthRequests.AuthDatabase.HandleRefresh` | backend/app/services/auth_service.py:105-141 | the handler's working rows, and that only the replay branch commits before it raises |
| `AuthRequests.AuthDatabase.RefreshRequest` | backend/app/core/dependencies.py:19-27 | with commit on success and rollback on the exception the committed rows are those specified, revocation on replay included |
| `AuthRequests.AuthDatabase.LogoutRequest` | backend/app/services/auth_service.py:143-160 | the logout request commits the specified revocation |
| `AuthRequests.AuthDatabase.ResetRequest` | backend/app/services/auth_service.py:184-209 | the reset request commits the new password and version, or nothing |
| `AuthRequests.AuthDatabase.StartLogin` | backend/app/services/auth_service.py:91-103 | a login issues a pair for a new family with the fixed expiry |
| `AuthRequests.AuthDatabase.Rollback` | backend/app/core/dependencies.py:19-27 | a rollback restores exactly the committed rows |
| `CredentialQueue.StepKeepsInv` | frontend/src/stores/authStore.ts:13-110 | every step between two awaits keeps: what the queue will leave in the secure store is what it will leave in memory |
| `CredentialQueue.DrainedAgree` | frontend/src/stores/authStore.ts:13-110 | over every interleaving of logins, refreshes, logouts and completions, a drained queue means secure store and memory hold the same tokens |
| `CredentialQueue.LogoutIsFinal` | frontend/src/stores/authStore.ts:89-110 | after a logout memory never again holds tokens from a call begun before it, nor does the store once the queue drained |
| `CredentialQueue.LoginIsFinal` | frontend/src/stores/authStore.ts:47-87 | a login cuts off every earlier call that has not reached memory |
| `CredentialQueue.TokensArrive` | frontend/src/stores/authStore.ts:47-87 | from rest, a login, or a refresh based on the refresh token in memory, arrives in store and memory; a refresh based on any other token changes neither |
| `CredentialQueue.CallCountsExactly` | frontend/src/stores/authStore.ts:47-66 | in every state a refresh counts exactly while the refresh token it was based on is the one in memory; a call that does not count changes nothing |
| `CredentialQueue.LatestCallWins` | frontend/src/stores/authStore.ts:13-110 | whatever was queued before, once the queue drained store and memory hold the tokens of the latest call that counts, or nothing after a logout |
| `CredentialQueue.LogoutEndsRefreshes` | frontend/src/stores/authStore.ts:89-110 | over every run after a logout, a refresh based on a token from before it is dropped without effect, whoever logs in meanwhile |
| `CredentialQueue.LoginEndsRefreshesExactly` | frontend/src/stores/authStore.ts:47-87 | over every run after a login over another one, a refresh based on the earlier token still counts if and only if no logout happened and no save queued since reached memory |
| `CredentialQueue.OldRefreshReplacesLogin` | frontend/src/stores/authStore.ts:17-23 | a concrete run: a refresh of the earlier account, answered while the next login is being saved, replaces that login in store and memory |
| `CredentialQueue.LateHydrateExact` | frontend/src/stores/authStore.ts:112-135 | the start-up reading may arrive at any moment of any run from the start: store and memory come to agree if and only if there was nothing to read, or nobody logged in or out since the start, or the write of a later login is still on its way |
| `CredentialQueue.LateHydrateUndoesLogout` | frontend/src/stores/authStore.ts:112-135 | from the start, for whatever was stored: a logout that completes before the reading arrives leaves the store empty and the old tokens back in memory |
| `CredentialQueue.HydratedAtOnce` | frontend/src/stores/authStore.ts:112-135 | a reading that arrives before anything else happened leaves the client at rest with store and memory equal |
| `AuthStore.Store.SetTokens` | frontend/src/stores/authStore.ts:47-87 | up to its first await the call bumps the revision or drops out as stale, and queues its write |
| `AuthStore.Store.Logout` | frontend/src/stores/authStore.ts:89-110 | memory is cleared and the revision bumped at once, the clearing write queued |
| `AuthStore.Store.Hydrate` | frontend/src/stores/authStore.ts:112-135 | whatever was read goes to memory, without the queue and without a look at the revision |
| `SharedSocket.StepKeepsInv` | frontend/src/services/sessionSocket.ts:23-91 | every event keeps: an entry is in the map exactly while it has listeners, and never has both a socket and a pending reconnect |
| `SharedSocket.RunKeepsInv` | frontend/src/services/sessionSocket.ts:23-91 | and so does every sequence of events |
| `SharedSocket.SubscribersAreServed` | frontend/src/services/sessionSocket.ts:28-80 | whoever subscribes, even to a record the server refused before, joins the key's listeners, and the record is connected or about to reconnect |
| `SharedSocket.OneLiveSocketPerKey` | frontend/src/services/sessionSocket.ts:28-43 | two live sockets for one url and token are the same socket |
| `SharedSocket.NoCompetingConnections` | frontend/src/services/sessionSocket.ts:28-43 | the same for every state reachable from the start |
| `SharedSocket.SocketNeverReplaced` | frontend/src/services/sessionSocket.ts:37-43 | a step never swaps an entry's socket for another: it goes only when it closed itself or nobody listens |
| `SharedSocket.HeardExactly` | frontend/src/services/sessionSocket.ts:44-67 | exactly the current socket's events reach the listeners, and all of them |
| `SharedSocket.ListenersAreServed` | frontend/src/services/sessionSocket.ts:60-67 | over every run from the start, a record with listeners is neither connected nor about to reconnect if and only if the server refused it and nobody subscribed to it since |
| `SharedSocket.ActiveExactly` | frontend/src/services/sessionSocket.ts:23-91 | listeners come by subscribing and go by their own unsubscribing, and in no other way |
| `SharedSocket.OtherRecordsUntouched` | frontend/src/services/sessionSocket.ts:28-91 | an event of one connection leaves every other connection and its socket alone |
| `SharedSocket.LeavingExactly` | frontend/src/services/sessionSocket.ts:81-91 | others who listen keep the connection as it is; when the last one leaves, key and socket are given up |
| `SharedSocket.TimeoutReconnects` | frontend/src/services/sessionSocket.ts:37-43 | when its time comes, a waiting connection gets a new connecting socket |
| `SharedSocket.ConnectedExactly` | frontend/src/services/sessionSocket.ts:44-63 | a socket that opens makes its connection connected, one that closes makes it unconnected |
| `SharedSocket.SecondUnsubscribeExact` | frontend/src/services/sessionSocket.ts:81-91 | calling an unsubscribe function twice is harmless if and only if other listeners remain or no newer entry has the key |
| `SharedSocket.SecondUnsubscribeHarms` | frontend/src/services/sessionSocket.ts:81-91 | a concrete sequence in which the second call drops a newer connection from the map while it stays open |
| `SessionSocket.Connections.Subscribe` | frontend/src/services/sessionSocket.ts:23-80 | subscribing does what the event specifies and reports whether the current socket is open |
| `SessionSocket.Connections.Connect` | frontend/src/services/sessionSocket.ts:37-43 | connecting opens a socket only for an entry with listeners |
| `SessionSocket.Connections.Unsubscribe` | frontend/src/services/sessionSocket.ts:81-91 | unsubscribing does what the event specifies |
| `SessionSocket.Connections.OnClose` | frontend/src/services/sessionSocket.ts:60-67 | a close event does what is specified and tells exactly the listeners of the current socket |
| `SessionSocket.Connections.OnMessage` | frontend/src/services/sessionSocket.ts:48-59 | a message reaches exactly the listeners of the current socket |
| `ConnectionTable.TableIsHistory` | backend/app/websocket/connection_manager.py:38-68 | the table says of every user and session exactly what the history says: the socket connected last and not dropped since |
| `ConnectionTable.AuthorizersMatch` | backend/app/websocket/connection_manager.py:38-68 | exactly the registered sockets have an authorizer |
| `ConnectionTable.NoEmptyTables` | backend/app/websocket/connection_manager.py:58-68 | no session maps to an empty table |
| `ConnectionTable.CurrentPlaceUnique` | backend/app/websocket/connection_manager.py:38-56 | a socket is registered in at most one place |
| `ConnectionTable.ReplacementSurvives` | backend/app/websocket/connection_manager.py:90-118 | whatever is dropped later, a replacement stays until it is dropped or replaced itself |
| `ConnectionTable.DeliveryTakesOnlyUnreached` | backend/app/websocket/connection_manager.py:90-104 | whatever connects, replaces or drops sockets while a message is being sent, the delivery takes from the resulting table exactly the sockets it failed to reach |
| `ConnectionManager.Manager.Connect` | backend/app/websocket/connection_manager.py:38-56 | registers the socket with its authorizer and hands back the one it replaced |
| `ConnectionManager.Manager.Disconnect` | backend/app/websocket/connection_manager.py:58-68 | removes the socket only if it is the registered one, and the empty table with it |
| `ConnectionManager.Manager.Happen` | backend/app/websocket/connection_manager.py:38-68 | any sequence of connects and disconnects does to the table what its events say |
| `ConnectionManager.Manager.DeliverLocal` | backend/app/websocket/connection_manager.py:90-104 | the sends to the snapshot end in any order with any events between them; the table is what those events and the drops of the failed sends make of it |
| `MessageWindow.Receive` | backend/app/websocket/router.py:97-142 | the loop ends at the first message that is too long or one too many, and the deque is always the receive times of the last 60 seconds |
| `MessageWindow.DropExpired` | backend/app/websocket/router.py:112-113 | the inner loop drops exactly the leading times older than the window |
| `MessageWindow.WindowIsRecent` | backend/app/websocket/router.py:100-117 | for a monotone clock the deque is the subsequence of all past times no older than 60 seconds |
| `MessageWindow.CrowdedMeansSomeWindow` | backend/app/websocket/router.py:100-117 | the count closes the connection exactly when some 60 seconds, wherever they begin, hold more than 60 messages |
| `OpeningHours.FindDayBetween` | backend/app/utils/places.py:131-138 | the wrapping loop ends for every end value and finds the day exactly when it comes before the end going forward from the start |
| `OpeningHours.DistanceShrinks` | backend/app/utils/places.py:131-138 | for a weekday as end the distance ahead shrinks with every turn |
| `OpeningHours.CyclicDays` | backend/app/utils/places.py:131-138 | that is strict cyclic betweenness in terms of the order of weekdays |
| `OpeningHours.PeriodExact` | backend/app/utils/places.py:95-128 | a period covers a moment exactly as its cyclic week interval does, except the hours from midnight to closing of a period that opens and closes on one day and opens later than it closes |
| `OpeningHours.IncompletePeriods` | backend/app/utils/places.py:97-114 | without a readable opening a period is never open; with one but no readable closing it never closes |
| `OpeningHours.HoursLeftOut` | backend/app/utils/places.py:116-128 | a concrete such period and moment |
| `OpeningHours.ExchangedEndsPartition` | backend/app/utils/places.py:95-128 | a period with different days and the same with its ends exchanged share out the week |
| `OpeningHours.OpenExactlyInUnion` | backend/app/utils/places.py:62-128 | for regular periods, open means inside one of the cyclic intervals |
| `OpeningHours.IsOpenAt` | backend/app/utils/places.py:62-92 | the loop, with the shift from Monday-first weekdays; missing or empty hours count as open |
| `WeeklyPeriods.ValidTimeIsReadable` | backend/app/admin_ui/admin-tools.js:28 | the form accepts exactly the times the evaluator can read |
| `WeeklyPeriods.TextOrderIsTimeOrder` | backend/app/admin_ui/admin-tools.js:34-40 | comparing two valid times as text compares them as times |
| `WeeklyPeriods.AcceptedExactly` | backend/app/admin_ui/admin-tools.js:29-41 | accepted are exactly real days, readable times and a window of more than nothing and at most 24 hours |
| `WeeklyPeriods.OnePeriodPerDay` | backend/app/admin_ui/admin-tools.js:42-47 | one regular period for each distinct day, in weekday order |
| `WeeklyPeriods.WindowsAreShort` | backend/app/admin_ui/admin-tools.js:39-41 | each window lasts from opening to closing: more than nothing and at most 24 hours |
| `WeeklyPeriods.PeriodsAreDisjoint` | backend/app/admin_ui/admin-tools.js:39-47 | no moment of the week lies in two of the periods |
| `WeeklyPeriods.OpenExactlyWhenChosen` | backend/app/admin_ui/admin-tools.js:27-48 | evaluated, the periods are open exactly when the day is chosen and the time in its window, or the day before is chosen, closes on the next day and has not closed |
| `Text.SplitJoin` | backend/scripts/seed_restaurants.py:318 | splitting undoes joining of pieces without the separator |
| `Text.JoinSplit` | backend/scripts/seed_restaurants.py:318 | joining undoes splitting: nothing is lost |
| `Text.StripSurrounded` | backend/scripts/seed_restaurants.py:308 | stripping takes away any white space around and nothing else |
| `OsmHours.ExpandDaySpec` | backend/scripts/seed_restaurants.py:367-390 | the loop over the chunks gives the sorted distinct days, or nothing for an unknown chunk or no day |
| `OsmHours.ParseOsmRule` | backend/scripts/seed_restaurants.py:332-364 | one rule becomes one period per day, or nothing when it is malformed |
| `OsmHours.ParseOsmOpeningHours` | backend/scripts/seed_restaurants.py:290-329 | the loop over the rules, blank ones skipped, with the texts that mean always open |
| `OsmMeaning.RangeIsCyclic` | backend/scripts/seed_restaurants.py:393-403 | the two slices of the Monday-first order hold exactly the days of the cyclic span |
| `OsmMeaning.DaysExactly` | backend/scripts/seed_restaurants.py:367-390 | the expanded days are exactly the named ones, each once and in order |
| `OsmMeaning.HhmmReadsBack` | backend/scripts/seed_restaurants.py:351-352 | a formatted time is read back by the evaluator |
| `OsmMeaning.RuleExact` | backend/scripts/seed_restaurants.py:332-364 | a rule and its periods agree at every moment of the week if and only if, with the hour 24 folded to 00, closing is not before opening and either both hours are below 24 or the opening at 24 makes no difference (empty window, or every day named); a rule means from opening on each named day until the closing time that follows, on a later day if need be |
| `OsmMeaning.ClosingAtMidnight` | backend/scripts/seed_restaurants.py:351-352 | a rule that closes at 24:00 is evaluated as open at every moment of the days it does not name |
| `OsmMeaning.OvernightOpenTooLong` | backend/scripts/seed_restaurants.py:351-364 | between closing and opening an overnight rule says closed on every day, and its periods say open on exactly the days other than the only named one |
| `OsmMeaning.OpenWhenSomeRuleSaysSo` | backend/app/utils/places.py:62-128 | for plain rules, open means that some rule says so |
| `OsmMeaning.UnknownExactly` | backend/scripts/seed_restaurants.py:310-329 | the hours are unknown exactly when nothing is written, every piece is blank or one piece is malformed |
| `OsmMeaning.OneMalformedPiece` | backend/scripts/seed_restaurants.py:322-326 | one malformed rule makes the whole text unknown, so the place counts as open |
| `OsmMeaning.TextMeansItsRules` | backend/scripts/seed_restaurants.py:290-329 | for any text with plain rules, translating and evaluating gives the union of what the rules say |
| `OsmMeaning.AlwaysOpenTexts` | backend/scripts/seed_restaurants.py:308-314 | "24/7", "24/7 open" and "Mo-Su 00:00-24:00", with any white space around them, are open at every moment of the week |
| `OsmRoundTrip.RulesReadBack` | backend/scripts/seed_restaurants.py:318-329 | any list of rules written in the notation reads back as the same list |
| `OsmRoundTrip.TimesExactly` | backend/scripts/seed_restaurants.py:287-350 | a text is read as times exactly when it is an opening and a closing in range with a hyphen between, each with a one-digit or two-digit hour |
| `OsmRoundTrip.WrittenRulesMeanThemselves` | backend/scripts/seed_restaurants.py:290-403 | any list of plain rules written out, translated and evaluated is open exactly when one of them says so |
| `OsmRoundTrip.MidnightMisread` | backend/scripts/seed_restaurants.py:351-352 | a concrete text that says nothing about Tuesday and is open on Tuesday at noon |
| `OsmRoundTrip.OvernightMisread` | backend/scripts/seed_restaurants.py:351-364 | a concrete text that ends on Tuesday at two and is open on Wednesday at noon |
| `RestaurantAdmin.StepKeepsInv` | backend/app/api/routes/admin.py:291-295 | every write, import and cleanup keeps: version is one plus the number of audits, audited rows are permanent |
| `RestaurantHistory.RecordIsHistory` | backend/app/api/routes/admin.py:291-295 | an audit entry tells the truth: replaying it gives the new columns, rewinding it the old ones |
| `RestaurantHistory.ChangeIsHistory` | backend/app/api/routes/admin.py:298-413 | every successful changing write adds one such entry, on the version the caller named |
| `RestaurantHistory.CuratedStaysUnlessChanged` | backend/scripts/seed_restaurants.py:992-995 | importers, cleanup and refused or empty writes leave an audited row exactly as it is |
| `RestaurantHistory.CuratedRunIsHistory` | backend/app/api/routes/admin.py:242-413 | over every run an audited row's log only grows, and replaying or rewinding the added entries leads from one state to the other |
| `RestaurantHistory.LogExplainsTheRow` | backend/app/api/routes/admin.py:291-322 | from the first change on, the columns are the log replayed on the snapshot before it and the version is one plus the entries |
| `RestaurantHistory.NoSecondWriteOnAVersion` | backend/app/api/routes/admin.py:249-250 | after a changing write on a version every later write on that version is refused without effect |
| `RestaurantHistory.WriteNeedsItsVersion` | backend/app/api/routes/admin.py:242-251 | a write is refused exactly when the row's version is another one |
| `RestaurantHistory.WriteNeedsItsRow` | backend/app/api/routes/admin.py:242-251 | a write to a restaurant that does not exist is refused as such, and only that one |
| `RestaurantHistory.SameVersionSameRow` | backend/app/api/routes/admin.py:242-251 | on an audited row the same version means the same row: nothing unseen is overwritten |
| `RestaurantHistory.VersionProtectsExactly` | backend/app/api/routes/admin.py:242-251 | no step changes a row without changing its version if and only if the row has had an administrative change |
| `RestaurantHistory.ImportUnderVersionOne` | backend/scripts/seed_restaurants.py:994-1017 | before the first change every import that changes a column goes unseen: an edit prepared against the row before it is still accepted |
| `RestaurantHistory.EditExact` | backend/app/api/routes/admin.py:298-322 | an accepted edit leaves each submitted value, the old visibility if none was sent, the photo untouched, and moves the version exactly when a column changed |
| `RestaurantHistory.EditAudited` | backend/app/api/routes/admin.py:298-322 | an accepted edit is logged exactly when a column changed, as an edit, with old and new value of exactly the columns that changed |
| `RestaurantHistory.PhotoExact` | backend/app/api/routes/admin.py:366-413 | a photo write on the right version sets the four photo columns as given and no other, makes the row permanent and logs the write as what it was |
| `RestaurantHistory.ImportExact` | backend/scripts/seed_restaurants.py:997-1017 | the importer updates a row nobody edited, makes it permanent, and never replaces a photo by nothing; a photo comes with its attribution and a source |
| `RestaurantHistory.ImportInserts` | backend/scripts/seed_restaurants.py:955-991 | a row new from the importer has its values, is visible, not reviewed, permanent and never edited |
| `RestaurantHistory.UpsertExact` | backend/app/services/osm_fallback_service.py:173-191 | a row found on the map service is new or refreshed with its expiry, unless a permanent row is there, edited or not, which stays as it is |
| `RestaurantHistory.OtherRowsUntouched` | backend/app/api/routes/admin.py:242-413 | no write or import touches any row but the one it names |
| `RestaurantHistory.CleanupExact` | backend/app/tasks/cleanup.py:43-60 | the nightly job removes exactly the temporary, expired rows that nothing refers to |
| `PhotoStorage.StepKeepsInv` | backend/app/api/routes/admin.py:325-413 | every step, failure and crash keeps: a committed key names a stored object unless its uploader deleted it after a commit it took for failed |
| `PhotoStorage.CommittedPhotosExist` | backend/app/api/routes/admin.py:333-413 | at every point of every run each committed key names a stored object, as long as no commit is applied and reported as failed |
| `PhotoStorage.DanglingExactlyWhenLost` | backend/app/api/routes/admin.py:388-391 | in general a committed key lacks its object exactly when its own uploader deleted it |
| `PhotoStorage.MisreportedCommitLosesThePhoto` | backend/app/api/routes/admin.py:388-391 | from every reachable upload: after a failed commit and its clean-up the row points at nothing exactly when the commit had been applied |
| `PhotoStorage.PhotoLost` | backend/app/api/routes/admin.py:388-391 | a concrete run that loses a photo |
| `PhotoStorage.SmoothRunsLeaveExactlyThePhotos` | backend/app/api/routes/admin.py:333-413 | when nothing failed and all requests ended, the store holds the committed photos and nothing else |
| `PhotoRequests.UploadIsARun` | backend/app/api/routes/admin.py:333-393 | the upload handler leaves rows and store as its steps do, whichever of them fail |
| `PhotoRequests.RemoveIsARun` | backend/app/api/routes/admin.py:396-413 | so does the removal handler |
| `PhotoRequests.UploadAnswers` | backend/app/api/routes/admin.py:333-393 | an upload succeeds exactly on the current version when neither store nor commit failed; then the row names the stored new photo, and no other row and no unrelated object changed |
| `PhotoRequests.RemoveAnswers` | backend/app/api/routes/admin.py:396-413 | a removal likewise, and it leaves the row without a photo |
| `PhotoRequests.PhotoColumnsNameTheKey` | backend/app/api/routes/admin.py:366-386 | the columns of an upload name its key, in the key column and at the end of the address |
| `AdminStore.AdminDatabase.SetColumns` | backend/app/api/routes/admin.py:308-314 | the loop over the fields collects exactly the differences and sets exactly those columns |
| `AdminStore.AdminDatabase.Edit` | backend/app/api/routes/admin.py:298-322 | the edit handler does what its transaction specifies |
| `AdminStore.AdminDatabase.UploadPhoto` | backend/app/api/routes/admin.py:333-393 | rows, objects and reply of the upload handler for every outcome of store and database |
| `AdminStore.AdminDatabase.RemovePhoto` | backend/app/api/routes/admin.py:396-413 | the same for the removal handler |
| `AdminStore.AdminDatabase.Record` | backend/app/api/routes/admin.py:291-295 | columns, version and audit entry change together |
| `AdminStore.AdminDatabase.CsvUpdate` | backend/scripts/seed_restaurants.py:992-1017 | the importer's update branch does what is specified |
| `AdminStore.AdminDatabase.OsmUpsert` | backend/app/services/osm_fallback_service.py:173-191 | the conditional upsert touches only rows that are not permanent |

## Left out

- Concurrency inside a transaction: each service call that holds a row lock, and each of `unfriend`, `invite_friend`, `delete_account` and the unlocked checks, is one atomic step. Interleavings of the single statements of calls without a lock are not modelled.
- Database, cache, task queue and web framework mechanics: unique constraints are map keys, rollback is the unchanged state; deadlocks, timeouts and lost connections appear only in the photo steps.
- The WAITING mark of a deck-finished report is visible at once, while the handler commits it together with a resolution that follows; no decision depends on the mark.
- Invite codes: a session is joined by its identifier, so codes and their collisions are not part of the model.
- Google live decks and the restaurant search: the search gives an arbitrary list of distinct known restaurants.
- Solo decks, likes overviews, progress views, lobby responses and broadcasts: they only read. Solo votes are modelled.
- Renaming restaurants after a result was saved, push notifications and other notification types.
- Random choice and shuffling: an arbitrary number drawn by the caller, an arbitrary permutation.
- Password hashes, token signatures and hashes: a valid token is a member of the set of issued ones, a stored hash is the token itself, and a new password hash differs from earlier ones.
- Access tokens from before logins had identifiers: `is_login_active` accepts them as long as their version is current, and so does `AccessAccepted`.
- Failing secure-store writes in the client, and listeners that subscribe or unsubscribe from inside a callback.
- Heartbeat messages of the shared socket: only whether the heartbeat timer runs is kept.
- Cancellation while a socket is being accepted, and authorization of a socket during a send: a refused or failed send is a drop event.
- Unicode digits in times: only the ASCII digits are read as digits; white space is Python's full set.
- `places.py` price symbols and `build_weekly_periods`, crop rectangles, categories, quotas and rate limits: easy members only.
- Columns that neither the administration nor the audit log covers (types, rating, links, source names), and the values inside a column: columns are compared as a whole.
- Administrator sessions, origin checks and image preparation: they come before the modelled transactions.
- Replacing duplicate rows in the seeding script: a replaced row moves, so there is no separation to prove.
- `OpeningHours.OpenAt`: periods are records with optional fields; other JSON shapes, such as a time that is no string, are not modelled.
- `AdminStore.AdminDatabase.UploadPhoto`: the handler runs in one piece; the interleavings of its steps with other requests are those of `PhotoStorage`.
- The hour 24 and equal times in OSM rules: a stated `24:mm` is `mm` minutes into the next day, and a rule whose closing equals its opening is read as an empty window.
- `AuthStore.Store.Hydrate`: the secure store is read at the start and the reading used whenever it arrives; an unreadable entry, which the code answers by clearing the store, is not modelled.
- `PartyStore.Database.CreateSessionDeck`: only the local search; the Google live deck that is tried when the search finds nothing is not modelled, so an empty search is refused here.
- `PartyStore.Database.StartSession`: the same.
- `PartyEffects.StartedExactly`: the same, for local search results only.
- `PartyEffects.StartedIsPlayable`: the same, so it speaks of ten local restaurants or more.
- `PartyStore.Database.ResolveExpiredSessions`: the loop runs undisturbed; what comes between its iterations is in `PartyRuns`, where each of them is a step.
- `PartyEffects.ErasedForever`: the modelled tables only, and identifiers that are not signed up again.
- `PartyOutcomes.SoundRun`: and the results built on it, for sessions none of whose players is deleted after the start; `PartyDeletion` says exactly what such a deletion can break.
- `CredentialQueue.LogoutEndsRefreshes`: servers issue each refresh token once, so no later call brings an earlier one in again; the same in `LoginEndsRefreshesExactly`.
- `PartyAnswers.AnnouncedIsReadable`: for sessions none of whose players is deleted, as in `SoundRun`.
