/**
 Refresh-token families: login, rotation, replay detection, logout and password reset.

 A family is the server-side row of one login. The hash of a token is modelled as the token itself, and
 `issued` is the set of tokens that carry a valid signature, so a forged token is one outside it.
 */
module RefreshFamilies {
  import opened Basics

  type UserId = int
  type FamilyId = int
  type Instant = int

  const REFRESH_TOKEN_LIFETIME: nat := 7 * 24 * 3600
  const ACCESS_TOKEN_LIFETIME: nat := 30 * 60
  const RESET_TOKEN_LIFETIME: nat := 15 * 60

  datatype TokenType = REFRESH | ACCESS | PASSWORD_RESET

  /** The claims of a signed token; `passwordVersion` only matters to reset tokens. */
  datatype Token = Token(
    jti: int, kind: TokenType, sub: UserId, ver: int, sid: Option<FamilyId>, exp: Instant, passwordVersion: int)

  datatype Account = Account(isActive: bool, tokenVersion: int, password: int)
  datatype Family = Family(user: UserId, refreshHash: Token, revoked: bool, expiresAt: Instant)

  datatype State = State(
    accounts: map<UserId, Account>,
    families: map<FamilyId, Family>,
    issued: set<Token>,
    nextJti: int,
    nextFamily: int,
    clock: Instant)

  datatype Pair = Pair(access: Token, refresh: Token)
  datatype Error = UNAUTHORIZED | BAD_REQUEST

  /** `decode_token`: signature and expiry; anything else in the claims is the caller's business. */
  predicate Decodes(s: State, t: Token, now: Instant) {
    t in s.issued && now < t.exp
  }

  // ─── Acceptance tests ───

  predicate IsLive(s: State, sid: FamilyId, uid: UserId, now: Instant) {
    sid in s.families && s.families[sid].user == uid && !s.families[sid].revoked && now < s.families[sid].expiresAt
  }

  predicate HasAccount(s: State, t: Token) {
    t.sub in s.accounts && s.accounts[t.sub].isActive && s.accounts[t.sub].tokenVersion == t.ver
  }

  /** `get_current_user` with `is_login_active`. */
  predicate AccessAccepted(s: State, t: Token, now: Instant) {
    Decodes(s, t, now) && t.kind == ACCESS && HasAccount(s, t) && (t.sid.Some? ==> IsLive(s, t.sid.value, t.sub, now))
  }

  /** The token still names a family that would listen to it, current or superseded. */
  predicate ReachesFamily(s: State, t: Token, now: Instant) {
    Decodes(s, t, now) && t.kind == REFRESH && t.sid.Some? && HasAccount(s, t) && IsLive(s, t.sid.value, t.sub, now)
  }

  predicate Redeemable(s: State, t: Token, now: Instant) {
    ReachesFamily(s, t, now) && s.families[t.sid.value].refreshHash == t
  }

  // ─── The service calls, on committed state ───

  function RefreshToken(s: State, uid: UserId, ver: int, sid: FamilyId, now: Instant): Token {
    Token(s.nextJti, REFRESH, uid, ver, Some(sid), now + REFRESH_TOKEN_LIFETIME, 0)
  }

  function AccessToken(s: State, uid: UserId, ver: int, sid: FamilyId, now: Instant): Token {
    Token(s.nextJti + 1, ACCESS, uid, ver, Some(sid), now + ACCESS_TOKEN_LIFETIME, 0)
  }

  /** `_issue_tokens`: a fresh pair, of which the refresh token becomes the family's only current one. */
  function IssueTokens(s: State, uid: UserId, ver: int, sid: FamilyId, expiresAt: Instant, now: Instant)
    : (State, Pair)
  {
    var pair := Pair(AccessToken(s, uid, ver, sid, now), RefreshToken(s, uid, ver, sid, now));
    (s.(families := s.families[sid := Family(uid, pair.refresh, false, expiresAt)],
        issued := s.issued + {pair.access, pair.refresh},
        nextJti := s.nextJti + 2),
     pair)
  }

  /** Login and signup both end in `_start_session`; the password check is the caller's. */
  function Login(s: State, uid: UserId, now: Instant): (State, Reply<Pair, Error>) {
    if uid !in s.accounts || !s.accounts[uid].isActive then (s, Err(UNAUTHORIZED))
    else
      var (after, pair) :=
        IssueTokens(s, uid, s.accounts[uid].tokenVersion, s.nextFamily, now + REFRESH_TOKEN_LIFETIME, now);
      (after.(nextFamily := s.nextFamily + 1), Ok(pair))
  }

  function Revoke(s: State, sid: FamilyId): State {
    if sid in s.families then s.(families := s.families[sid := s.families[sid].(revoked := true)]) else s
  }

  function Refresh(s: State, t: Token, now: Instant): (State, Reply<Pair, Error>) {
    if !ReachesFamily(s, t, now) then (s, Err(UNAUTHORIZED))
    else if s.families[t.sid.value].refreshHash != t then (Revoke(s, t.sid.value), Err(UNAUTHORIZED))
    else
      var (after, pair) := IssueTokens(s, t.sub, t.ver, t.sid.value, s.families[t.sid.value].expiresAt, now);
      (after, Ok(pair))
  }

  /** Logout asks neither for a current token nor for a live account. */
  function Logout(s: State, t: Token, now: Instant): State {
    if Decodes(s, t, now) && t.kind == REFRESH && t.sid.Some?
      && t.sid.value in s.families && s.families[t.sid.value].user == t.sub
    then Revoke(s, t.sid.value) else s
  }

  function ResetToken(s: State, uid: UserId, now: Instant): Token
    requires uid in s.accounts
  {
    Token(s.nextJti, PASSWORD_RESET, uid, s.accounts[uid].tokenVersion, None, now + RESET_TOKEN_LIFETIME,
          s.accounts[uid].password)
  }

  function ForgotPassword(s: State, uid: UserId, now: Instant): State {
    if uid !in s.accounts then s else
      var t := ResetToken(s, uid, now);
      s.(issued := s.issued + {t}, nextJti := s.nextJti + 1)
  }

  /** Stored hashes are salted, so the new one (`password`) differs from every earlier one. */
  function ResetPassword(s: State, t: Token, password: int, now: Instant): (State, Reply<(), Error>) {
    if !Decodes(s, t, now) || t.kind != PASSWORD_RESET then (s, Err(BAD_REQUEST))
    else if t.sub !in s.accounts then (s, Err(BAD_REQUEST))
    else if t.passwordVersion != s.accounts[t.sub].password then (s, Err(BAD_REQUEST))
    else if t.ver != s.accounts[t.sub].tokenVersion then (s, Err(BAD_REQUEST))
    else
      var account := s.accounts[t.sub];
      (s.(accounts := s.accounts[t.sub := account.(password := password, tokenVersion := account.tokenVersion + 1)]),
       Ok(()))
  }

  function DeleteAccount(s: State, uid: UserId): State {
    s.(accounts := s.accounts - {uid},
       families := map sid | sid in s.families && s.families[sid].user != uid :: s.families[sid])
  }

  // ─── Runs ───

  datatype Step =
    | SignUp(user: UserId, account: Account)
    | SignIn(user: UserId, now: Instant)
    | Redeem(token: Token, now: Instant)
    | SignOut(token: Token, now: Instant)
    | Forgot(user: UserId, now: Instant)
    | Reset(token: Token, password: int, now: Instant)
    | SetActive(user: UserId, active: bool)
    | Erase(user: UserId)

  function TimeOf(s: State, step: Step): Instant {
    match step
    case SignIn(_, now) => now
    case Redeem(_, now) => now
    case SignOut(_, now) => now
    case Forgot(_, now) => now
    case Reset(_, _, now) => now
    case _ => s.clock
  }

  /** Time does not run backwards and account ids are never reused. */
  predicate Enabled(s: State, step: Step) {
    && s.clock <= TimeOf(s, step)
    && (step.SignUp? ==> step.user !in s.accounts && forall t | t in s.issued :: t.sub != step.user)
  }

  function Next(s: State, step: Step): State {
    Effect(s, step).(clock := TimeOf(s, step))
  }

  function Effect(s: State, step: Step): State {
    match step
    case SignUp(user, account) => s.(accounts := s.accounts[user := account])
    case SignIn(user, now) => Login(s, user, now).0
    case Redeem(token, now) => Refresh(s, token, now).0
    case SignOut(token, now) => Logout(s, token, now)
    case Forgot(user, now) => ForgotPassword(s, user, now)
    case Reset(token, password, now) => ResetPassword(s, token, password, now).0
    case SetActive(user, active) =>
      if user in s.accounts then s.(accounts := s.accounts[user := s.accounts[user].(isActive := active)]) else s
    case Erase(user) => DeleteAccount(s, user)
  }

  predicate Runs(s: State, steps: seq<Step>)
    decreases |steps|
  {
    steps == [] || (Enabled(s, steps[0]) && Runs(Next(s, steps[0]), steps[1..]))
  }

  function Run(s: State, steps: seq<Step>): State
    decreases |steps|
  {
    if steps == [] then s else Run(Next(s, steps[0]), steps[1..])
  }

  const Initial := State(map[], map[], {}, 0, 0, 0)

  // ─── Invariant ───

  ghost predicate TokensValid(s: State) {
    && (forall t | t in s.issued :: t.jti < s.nextJti)
    && (forall t | t in s.issued && t.sid.Some? :: t.sid.value < s.nextFamily)
    && (forall t | t in s.issued && t.sub in s.accounts :: t.ver <= s.accounts[t.sub].tokenVersion)
  }

  /** The current token of a family is its last issued refresh token, and no token outlives its family's end. */
  ghost predicate FamiliesValid(s: State) {
    forall sid | sid in s.families :: FamilyValid(s, sid, s.families[sid])
  }

  ghost predicate FamilyValid(s: State, sid: FamilyId, family: Family) {
    && sid < s.nextFamily
    && family.user in s.accounts
    && family.expiresAt <= s.clock + REFRESH_TOKEN_LIFETIME
    && family.refreshHash in s.issued
    && family.refreshHash.kind == REFRESH && family.refreshHash.sid == Some(sid)
    && forall t | t in s.issued && t.sid == Some(sid) ::
         && t.sub == family.user && t.ver == family.refreshHash.ver
         && (t.kind == REFRESH ==> family.expiresAt <= t.exp)
         && (t.kind == REFRESH && t != family.refreshHash ==> t.jti < family.refreshHash.jti)
  }

  ghost predicate Inv(s: State) {
    TokensValid(s) && FamiliesValid(s)
  }

  lemma TimePasses(s: State, now: Instant)
    requires Inv(s) && s.clock <= now
    ensures Inv(s.(clock := now))
  {
  }

  /** Rotation adds two tokens and makes the refresh token the current one of its family. */
  lemma IssueKeeps(s: State, uid: UserId, ver: int, sid: FamilyId, expiresAt: Instant, now: Instant)
    requires Inv(s) && uid in s.accounts && ver <= s.accounts[uid].tokenVersion
    requires s.clock == now && expiresAt <= now + REFRESH_TOKEN_LIFETIME
    requires sid == s.nextFamily || (sid in s.families && s.families[sid].user == uid
      && s.families[sid].refreshHash.ver == ver && s.families[sid].expiresAt == expiresAt)
    ensures var after := IssueTokens(s, uid, ver, sid, expiresAt, now).0;
      Inv(if sid == s.nextFamily then after.(nextFamily := s.nextFamily + 1) else after)
  {
    var issued := IssueTokens(s, uid, ver, sid, expiresAt, now);
    var after := if sid == s.nextFamily then issued.0.(nextFamily := s.nextFamily + 1) else issued.0;
    assert TokensValid(after);
    forall other | other in after.families ensures FamilyValid(after, other, after.families[other]) {
      if other != sid {
        assert FamilyValid(s, other, s.families[other]);
      } else if sid in s.families {
        assert FamilyValid(s, sid, s.families[sid]);
      }
    }
  }

  lemma LoginKeeps(s: State, uid: UserId, now: Instant)
    requires Inv(s) && s.clock == now
    ensures Inv(Login(s, uid, now).0)
  {
    if uid in s.accounts {
      IssueKeeps(s, uid, s.accounts[uid].tokenVersion, s.nextFamily, now + REFRESH_TOKEN_LIFETIME, now);
    }
  }

  lemma RevokeKeeps(s: State, sid: FamilyId)
    requires Inv(s)
    ensures Inv(Revoke(s, sid))
  {
  }

  lemma RefreshKeeps(s: State, t: Token, now: Instant)
    requires Inv(s) && s.clock == now
    ensures Inv(Refresh(s, t, now).0)
  {
    if ReachesFamily(s, t, now) {
      var sid := t.sid.value;
      assert FamilyValid(s, sid, s.families[sid]);
      if Redeemable(s, t, now) {
        hide TokensValid, FamiliesValid, FamilyValid, IssueTokens;
        IssueKeeps(s, t.sub, t.ver, sid, s.families[sid].expiresAt, now);
      } else {
        RevokeKeeps(s, sid);
      }
    }
  }

  lemma EffectKeeps(s: State, step: Step)
    requires Inv(s) && Enabled(s, step) && s.clock == TimeOf(s, step)
    requires !step.SignIn? && !step.Redeem? && !step.SignOut?
    ensures Inv(Effect(s, step))
  {
  }

  lemma StepKeepsInv(s: State, step: Step)
    requires Inv(s) && Enabled(s, step)
    ensures Inv(Next(s, step))
  {
    hide TokensValid, FamiliesValid, Login, Refresh, ForgotPassword, ResetPassword, DeleteAccount, Revoke;
    var now := TimeOf(s, step);
    var t := s.(clock := now);
    TimePasses(s, now);
    ClockIrrelevant(s, step, now);
    match step {
      case SignIn(user, _) => LoginKeeps(t, user, now);
      case Redeem(token, _) => RefreshKeeps(t, token, now);
      case SignOut(token, _) =>
        if token.sid.Some? { RevokeKeeps(t, token.sid.value); }
      case _ => EffectKeeps(t, step);
    }
  }

  /** No call looks at the recorded clock. */
  lemma ClockIrrelevant(s: State, step: Step, now: Instant)
    ensures Effect(s.(clock := now), step) == Effect(s, step).(clock := now)
  {
  }

  lemma {:induction false} RunKeepsInv(s: State, steps: seq<Step>)
    requires Inv(s) && Runs(s, steps)
    ensures Inv(Run(s, steps))
    decreases |steps|
  {
    if steps != [] {
      StepKeepsInv(s, steps[0]);
      RunKeepsInv(Next(s, steps[0]), steps[1..]);
    }
  }

  lemma InitiallyValid()
    ensures Inv(Initial)
  {
  }

  // ─── Rotation ───

  /** At most one token of a family is redeemable, and it is the one issued last. */
  lemma OneRedeemable(s: State, t: Token, u: Token, now: Instant)
    requires Inv(s) && Redeemable(s, t, now)
    requires u in s.issued && u.kind == REFRESH && u.sid == t.sid && u != t
    ensures !Redeemable(s, u, now) && u.jti < t.jti
  {
    assert FamilyValid(s, t.sid.value, s.families[t.sid.value]);
  }

  /** Presenting a superseded token of a live family never succeeds and revokes the family for good. */
  lemma ReplayRevokes(s: State, t: Token, now: Instant)
    requires Inv(s) && t in s.issued && t.kind == REFRESH && t.sid.Some?
    requires HasAccount(s, t) && IsLive(s, t.sid.value, t.sub, now)
    requires s.families[t.sid.value].refreshHash != t
    ensures Refresh(s, t, now) == (Revoke(s, t.sid.value), Err(UNAUTHORIZED))
    ensures Refresh(s, t, now).0.families[t.sid.value].revoked
  {
    assert FamilyValid(s, t.sid.value, s.families[t.sid.value]);
  }

  /**
   What a fresh pair opens: access for its half hour and redemption until the login ends, no longer; and
   neither token does the other's work.
   */
  ghost predicate OpensUntil(s: State, pair: Pair, now: Instant, end: Instant) {
    forall later | now <= later ::
      && (AccessAccepted(s, pair.access, later) <==> later < now + ACCESS_TOKEN_LIFETIME && later < end)
      && (Redeemable(s, pair.refresh, later) <==> later < end)
      && !Redeemable(s, pair.access, later) && !AccessAccepted(s, pair.refresh, later)
  }

  /** The pair speaks for the user and belongs to the login. */
  predicate IsPairOf(pair: Pair, uid: UserId, sid: FamilyId) {
    && pair.access.sub == uid && pair.access.sid == Some(sid)
    && pair.refresh.sub == uid && pair.refresh.sid == Some(sid)
  }

  /** Of all the rows only that login's is written, and only the two tokens are new. */
  ghost predicate OnlyLoginWritten(s: State, t: State, pair: Pair, uid: UserId, sid: FamilyId) {
    && t.accounts == s.accounts && t.issued == s.issued + {pair.access, pair.refresh}
    && pair.access !in s.issued && pair.refresh !in s.issued
    && sid in t.families && t.families[sid].user == uid
    && forall other | other != sid ::
         && (other in t.families <==> other in s.families)
         && (other in s.families ==> t.families[other] == s.families[other])
  }

  /**
   A sign-in succeeds for every active account and opens a new login of that very user; its tokens open the
   account for seven days.
   */
  lemma LoginOpens(s: State, uid: UserId, now: Instant)
    requires Inv(s)
    ensures Login(s, uid, now).1.Ok? <==> uid in s.accounts && s.accounts[uid].isActive
    ensures var (after, reply) := Login(s, uid, now);
      if reply.Ok? then
        && OpensUntil(after, reply.value, now, now + REFRESH_TOKEN_LIFETIME)
        && IsPairOf(reply.value, uid, s.nextFamily) && s.nextFamily !in s.families
        && OnlyLoginWritten(s, after, reply.value, uid, s.nextFamily)
      else after == s
  {
    hide FamiliesValid;
    if uid in s.accounts && s.accounts[uid].isActive {
      NewFamilyIsNew(s);
      LoginWrites(s, uid, now);
      LoginTokensOpen(s, uid, now);
    }
  }

  lemma NewFamilyIsNew(s: State)
    requires FamiliesValid(s)
    ensures s.nextFamily !in s.families
  {
    assert forall sid | sid in s.families :: FamilyValid(s, sid, s.families[sid]) ==> sid < s.nextFamily;
  }

  lemma LoginTokensOpen(s: State, uid: UserId, now: Instant)
    requires uid in s.accounts && s.accounts[uid].isActive
    ensures OpensUntil(Login(s, uid, now).0, Login(s, uid, now).1.value, now, now + REFRESH_TOKEN_LIFETIME)
  {
  }

  lemma LoginWrites(s: State, uid: UserId, now: Instant)
    requires TokensValid(s) && uid in s.accounts && s.accounts[uid].isActive
    ensures var (after, reply) := Login(s, uid, now);
      IsPairOf(reply.value, uid, s.nextFamily) && OnlyLoginWritten(s, after, reply.value, uid, s.nextFamily)
  {
  }

  /**
   A redemption succeeds exactly for the redeemable token; the new pair is one of the same user and login, and
   opens the account until the login's own end.
   */
  lemma RefreshOpens(s: State, t: Token, now: Instant)
    requires Inv(s) && s.clock <= now
    ensures Refresh(s, t, now).1.Ok? <==> Redeemable(s, t, now)
    ensures var (after, reply) := Refresh(s, t, now);
      reply.Ok? ==>
        && OpensUntil(after, reply.value, now, s.families[t.sid.value].expiresAt)
        && IsPairOf(reply.value, t.sub, t.sid.value)
        && OnlyLoginWritten(s, after, reply.value, t.sub, t.sid.value)
  {
    hide OnlyLoginWritten;
    if Refresh(s, t, now).1.Ok? {
      RefreshWrites(s, t, now);
    }
  }

  lemma RefreshWrites(s: State, t: Token, now: Instant)
    requires TokensValid(s) && Refresh(s, t, now).1.Ok?
    ensures var (after, reply) := Refresh(s, t, now); OnlyLoginWritten(s, after, reply.value, t.sub, t.sid.value)
  {
  }

  /** Tokens that are forged, expired or of another kind are refused everywhere and change nothing. */
  lemma WrongTokenChangesNothing(s: State, t: Token, now: Instant, password: int)
    ensures !Decodes(s, t, now) || t.kind != REFRESH ==>
              Refresh(s, t, now) == (s, Err(UNAUTHORIZED)) && Logout(s, t, now) == s
    ensures !Decodes(s, t, now) || t.kind != PASSWORD_RESET ==>
              ResetPassword(s, t, password, now) == (s, Err(BAD_REQUEST))
    ensures !Decodes(s, t, now) || t.kind != ACCESS ==> !AccessAccepted(s, t, now)
  {
  }

  /** A family that will never accept anything again, whatever the hour. */
  ghost predicate Dead(s: State, sid: FamilyId) {
    sid < s.nextFamily && (sid in s.families ==> s.families[sid].revoked)
  }

  /** The token has been overtaken: its family is dead, or its account moved on, or a newer token replaced it. */
  ghost predicate Spent(s: State, t: Token) {
    && t.kind == REFRESH && t.sid.Some? && t.jti < s.nextJti
    && (Dead(s, t.sid.value) || Outdated(s, t)
        || (t.sid.value in s.families && s.families[t.sid.value].refreshHash.jti > t.jti))
  }

  ghost predicate Outdated(s: State, t: Token) {
    t.sub in s.accounts ==> t.ver < s.accounts[t.sub].tokenVersion
  }

  lemma RedeemedIsSpent(s: State, t: Token, now: Instant)
    requires Inv(s) && Refresh(s, t, now).1.Ok?
    ensures Spent(Refresh(s, t, now).0, t)
    ensures var pair := Refresh(s, t, now).1.value;
      && pair.refresh !in s.issued && pair.refresh.sid == t.sid
      && Refresh(s, t, now).0.families[t.sid.value].refreshHash == pair.refresh
  {
  }

  lemma SpentStays(s: State, step: Step, t: Token)
    requires Inv(s) && Enabled(s, step) && Spent(s, t) && t in s.issued
    ensures Spent(Next(s, step), t) && t in Next(s, step).issued
  {
  }

  lemma {:induction false} SpentForever(s: State, steps: seq<Step>, t: Token)
    requires Inv(s) && Runs(s, steps) && Spent(s, t) && t in s.issued
    ensures Inv(Run(s, steps)) && Spent(Run(s, steps), t) && t in Run(s, steps).issued
    decreases |steps|
  {
    if steps != [] {
      StepKeepsInv(s, steps[0]);
      SpentStays(s, steps[0], t);
      SpentForever(Next(s, steps[0]), steps[1..], t);
    }
  }

  /** Nothing issued for the family opens anything at this hour. */
  ghost predicate Closed(s: State, sid: FamilyId, now: Instant) {
    forall u | u in s.issued && u.sid == Some(sid) :: !Redeemable(s, u, now) && !AccessAccepted(s, u, now)
  }

  lemma SpentRefused(s: State, t: Token, now: Instant)
    requires Inv(s) && Spent(s, t) && t in s.issued
    ensures Refresh(s, t, now).1.Err?
    ensures Closed(Refresh(s, t, now).0, t.sid.value, now)
  {
    var sid, after := t.sid.value, Refresh(s, t, now).0;
    if sid in s.families {
      assert FamilyValid(s, sid, s.families[sid]);
    }
  }

  /**
   Presenting a spent token kills its family, unless it is dead, exactly when the token still reaches it: a
   replay shown while the account is inactive, or after the family's end, revokes nothing.
   */
  lemma ReplayKillsExactly(s: State, t: Token, now: Instant)
    requires Inv(s) && Spent(s, t) && t in s.issued
    ensures Dead(Refresh(s, t, now).0, t.sid.value) <==> Dead(s, t.sid.value) || ReachesFamily(s, t, now)
  {
    var sid := t.sid.value;
    if sid in s.families {
      assert FamilyValid(s, sid, s.families[sid]);
    }
  }

  /**
   Two redemptions of one token, however far apart and with any calls between them: the first one succeeds,
   the second never does, and after it the family is closed - for good, when the account is current and the
   family has not yet run out.
   */
  lemma RacingRedemptions(s: State, t: Token, now: Instant, between: seq<Step>, later: Instant)
    requires Inv(s) && s.clock <= now && Refresh(s, t, now).1.Ok?
    requires Runs(Next(s, Redeem(t, now)), between)
    ensures var end := Run(Next(s, Redeem(t, now)), between);
      var second := Refresh(end, t, later);
      && second.1.Err? && Closed(second.0, t.sid.value, later)
      && (HasAccount(end, t) && later < s.families[t.sid.value].expiresAt ==> Dead(second.0, t.sid.value))
  {
    StepKeepsInv(s, Redeem(t, now));
    RedeemedIsSpent(s, t, now);
    var sid, first := t.sid.value, Next(s, Redeem(t, now));
    assert Spent(first, t) && sid in first.families && first.families[sid].expiresAt == s.families[sid].expiresAt;
    hide Inv, Refresh, Runs, Next, Closed, HasAccount, ReachesFamily, Dead;
    SpentForever(first, between, t);
    var end := Run(first, between);
    SpentRefused(end, t, later);
    ReplayKillsExactly(end, t, later);
    ExpiryFixed(first, between, sid);
    if HasAccount(end, t) && later < s.families[sid].expiresAt {
      SpentReaches(end, t, later);
    }
  }

  /** A token of a family that is neither dead nor over reaches it whenever the account is current. */
  lemma SpentReaches(s: State, t: Token, now: Instant)
    requires Inv(s) && Spent(s, t) && t in s.issued && t.sid.value < s.nextFamily
    requires HasAccount(s, t) && (t.sid.value in s.families ==> now < s.families[t.sid.value].expiresAt)
    ensures Dead(s, t.sid.value) || ReachesFamily(s, t, now)
  {
    if t.sid.value in s.families {
      assert FamilyValid(s, t.sid.value, s.families[t.sid.value]);
    }
  }

  // ─── Permanence ───

  lemma {:induction false} DeadForever(s: State, steps: seq<Step>, sid: FamilyId, later: Instant)
    requires Inv(s) && Runs(s, steps) && Dead(s, sid)
    ensures Dead(Run(s, steps), sid) && Closed(Run(s, steps), sid, later)
    decreases |steps|
  {
    if steps != [] {
      StepKeepsInv(s, steps[0]);
      DeadStays(s, steps[0], sid);
      DeadForever(Next(s, steps[0]), steps[1..], sid, later);
    }
  }

  lemma DeadStays(s: State, step: Step, sid: FamilyId)
    requires Inv(s) && Dead(s, sid)
    ensures Dead(Next(s, step), sid)
  {
  }

  /** Signing out closes the family for good, whichever of its tokens is shown and whatever else happens later. */
  lemma LogoutIsFinal(s: State, t: Token, now: Instant, steps: seq<Step>, later: Instant)
    requires Inv(s) && s.clock <= now && Decodes(s, t, now) && t.kind == REFRESH && t.sid.Some?
    requires Runs(Next(s, SignOut(t, now)), steps)
    ensures Closed(Run(Next(s, SignOut(t, now)), steps), t.sid.value, later)
  {
    StepKeepsInv(s, SignOut(t, now));
    if t.sid.value in s.families {
      assert FamilyValid(s, t.sid.value, s.families[t.sid.value]);
    }
    DeadForever(Next(s, SignOut(t, now)), steps, t.sid.value, later);
  }

  /** So does presenting a superseded token while the family is live. */
  lemma ReplayIsFinal(s: State, t: Token, now: Instant, steps: seq<Step>, later: Instant)
    requires Inv(s) && s.clock <= now && t in s.issued && t.kind == REFRESH && t.sid.Some?
    requires HasAccount(s, t) && IsLive(s, t.sid.value, t.sub, now)
    requires s.families[t.sid.value].refreshHash != t
    requires Runs(Next(s, Redeem(t, now)), steps)
    ensures Closed(Run(Next(s, Redeem(t, now)), steps), t.sid.value, later)
  {
    ReplayRevokes(s, t, now);
    StepKeepsInv(s, Redeem(t, now));
    assert FamilyValid(s, t.sid.value, s.families[t.sid.value]);
    DeadForever(Next(s, Redeem(t, now)), steps, t.sid.value, later);
  }

  lemma {:induction false} OutdatedForever(s: State, steps: seq<Step>, u: Token)
    requires Runs(s, steps) && u in s.issued && Outdated(s, u)
    ensures u in Run(s, steps).issued && Outdated(Run(s, steps), u)
    decreases |steps|
  {
    if steps != [] {
      OutdatedForever(Next(s, steps[0]), steps[1..], u);
    }
  }

  /** A password reset ends every token issued to the account before it, the reset token included. */
  lemma ResetIsFinal(s: State, t: Token, password: int, now: Instant, steps: seq<Step>, u: Token, later: Instant)
    requires Inv(s) && ResetPassword(s, t, password, now).1.Ok?
    requires Runs(Next(s, Reset(t, password, now)), steps)
    requires u in s.issued && u.sub == t.sub
    ensures var end := Run(Next(s, Reset(t, password, now)), steps);
      && !AccessAccepted(end, u, later) && !Redeemable(end, u, later)
      && forall other :: ResetPassword(end, u, other, later).1.Err?
  {
    OutdatedForever(Next(s, Reset(t, password, now)), steps, u);
  }

  /** The step erases the account or is an accepted reset of its password. */
  predicate ChangesPassword(s: State, step: Step, uid: UserId) {
    || step == Erase(uid)
    || (step.Reset? && step.token.sub == uid && ResetPassword(s, step.token, step.password, step.now).1.Ok?)
  }

  predicate KeepsPassword(s: State, steps: seq<Step>, uid: UserId)
    decreases |steps|
  {
    steps == [] || (!ChangesPassword(s, steps[0], uid) && KeepsPassword(Next(s, steps[0]), steps[1..], uid))
  }

  lemma {:induction false} CurrentUntilReset(s: State, steps: seq<Step>, t: Token)
    requires Inv(s) && Runs(s, steps) && t in s.issued && t.sub in s.accounts
    requires t.ver == s.accounts[t.sub].tokenVersion && t.passwordVersion == s.accounts[t.sub].password
    ensures t in Run(s, steps).issued
    ensures var end := Run(s, steps);
      if KeepsPassword(s, steps, t.sub) then
        t.sub in end.accounts && end.accounts[t.sub].tokenVersion == t.ver
        && end.accounts[t.sub].password == t.passwordVersion
      else Outdated(end, t)
    decreases |steps|
  {
    hide Inv, Enabled, Next, ChangesPassword;
    if steps != [] {
      var next := Next(s, steps[0]);
      StepKeepsInv(s, steps[0]);
      CurrentStep(s, steps[0], t);
      if ChangesPassword(s, steps[0], t.sub) {
        OutdatedForever(next, steps[1..], t);
      } else {
        CurrentUntilReset(next, steps[1..], t);
      }
    }
  }

  lemma CurrentStep(s: State, step: Step, t: Token)
    requires Inv(s) && Enabled(s, step) && t in s.issued && t.sub in s.accounts
    requires t.ver == s.accounts[t.sub].tokenVersion && t.passwordVersion == s.accounts[t.sub].password
    ensures t in Next(s, step).issued
    ensures var next := Next(s, step);
      if ChangesPassword(s, step, t.sub) then Outdated(next, t)
      else t.sub in next.accounts && next.accounts[t.sub].tokenVersion == t.ver
           && next.accounts[t.sub].password == t.passwordVersion
  {
  }

  /**
   Whatever is called meanwhile, a reset token works for a quarter of an hour unless the account's password
   was reset or the account erased since, and once it has worked it never works again.
   */
  lemma ResetTokenWorks(s: State, uid: UserId, now: Instant, between: seq<Step>, later: Instant, password: int)
    requires Inv(s) && s.clock <= now && uid in s.accounts && Runs(Next(s, Forgot(uid, now)), between)
    ensures var t := ResetToken(s, uid, now);
      var asked := Next(s, Forgot(uid, now));
      var end := Run(asked, between);
      var (after, reply) := ResetPassword(end, t, password, later);
      && t !in s.issued && t in asked.issued
      && (reply.Ok? <==> later < now + RESET_TOKEN_LIFETIME && KeepsPassword(asked, between, uid))
      && (reply.Err? ==> after == end)
      && (reply.Ok? ==> uid in end.accounts && after.accounts[uid].password == password
                        && after.accounts[uid].isActive == end.accounts[uid].isActive
                        && forall other, again :: ResetPassword(after, t, other, again).1.Err?)
  {
    StepKeepsInv(s, Forgot(uid, now));
    CurrentUntilReset(Next(s, Forgot(uid, now)), between, ResetToken(s, uid, now));
  }

  /** Replay, rotation and logout in one family leave the acceptance of every other login's tokens alone. */
  lemma OtherLoginsUntouched(s: State, t: Token, now: Instant, u: Token, later: Instant)
    requires Inv(s) && t.sid.Some? && u in s.issued && u.sid != t.sid
    ensures AccessAccepted(Refresh(s, t, now).0, u, later) == AccessAccepted(s, u, later)
    ensures Redeemable(Refresh(s, t, now).0, u, later) == Redeemable(s, u, later)
    ensures AccessAccepted(Logout(s, t, now), u, later) == AccessAccepted(s, u, later)
    ensures Redeemable(Logout(s, t, now), u, later) == Redeemable(s, u, later)
  {
  }

  // ─── The absolute lifetime of a login ───

  lemma {:induction false} ExpiryFixed(s: State, steps: seq<Step>, sid: FamilyId)
    requires Inv(s) && Runs(s, steps) && sid in s.families
    ensures sid in Run(s, steps).families ==> Run(s, steps).families[sid].expiresAt == s.families[sid].expiresAt
    ensures sid < Run(s, steps).nextFamily
    decreases |steps|
  {
    if steps != [] {
      StepKeepsInv(s, steps[0]);
      var next := Next(s, steps[0]);
      assert FamilyValid(s, sid, s.families[sid]);
      ExpiryStep(s, steps[0], sid);
      if sid in next.families {
        ExpiryFixed(next, steps[1..], sid);
      } else {
        GoneForever(next, steps[1..], sid);
      }
    }
  }

  lemma ExpiryStep(s: State, step: Step, sid: FamilyId)
    requires Inv(s) && sid in s.families && sid < s.nextFamily
    ensures sid in Next(s, step).families ==> Next(s, step).families[sid].expiresAt == s.families[sid].expiresAt
    ensures sid < Next(s, step).nextFamily
  {
  }

  lemma {:induction false} GoneForever(s: State, steps: seq<Step>, sid: FamilyId)
    requires Inv(s) && Runs(s, steps) && sid !in s.families && sid < s.nextFamily
    ensures sid !in Run(s, steps).families && sid < Run(s, steps).nextFamily
    decreases |steps|
  {
    if steps != [] {
      StepKeepsInv(s, steps[0]);
      GoneStep(s, steps[0], sid);
      GoneForever(Next(s, steps[0]), steps[1..], sid);
    }
  }

  lemma GoneStep(s: State, step: Step, sid: FamilyId)
    requires Inv(s) && sid !in s.families && sid < s.nextFamily
    ensures sid !in Next(s, step).families && sid < Next(s, step).nextFamily
  {
  }

  /** However often it is rotated, a login opens nothing once its first seven days are over. */
  lemma LoginEndsOnTime(s: State, uid: UserId, now: Instant, steps: seq<Step>, t: Token, later: Instant)
    requires Inv(s) && s.clock <= now && Login(s, uid, now).1.Ok?
    requires Runs(Next(s, SignIn(uid, now)), steps)
    requires t.sid == Some(s.nextFamily) && now + REFRESH_TOKEN_LIFETIME <= later
    ensures var end := Run(Next(s, SignIn(uid, now)), steps);
      !Redeemable(end, t, later) && !AccessAccepted(end, t, later)
  {
    StepKeepsInv(s, SignIn(uid, now));
    ExpiryFixed(Next(s, SignIn(uid, now)), steps, s.nextFamily);
  }

  // ─── Users apart ───

  /** The user a step speaks for. */
  function UserOf(step: Step): UserId {
    match step
    case SignUp(user, _) => user
    case SignIn(user, _) => user
    case Redeem(token, _) => token.sub
    case SignOut(token, _) => token.sub
    case Forgot(user, _) => user
    case Reset(token, _, _) => token.sub
    case SetActive(user, _) => user
    case Erase(user) => user
  }

  /** Whatever one user's tokens and calls do, every other user's tokens stay as good as they were. */
  lemma OtherUsersUntouched(s: State, step: Step, u: Token, later: Instant)
    requires Inv(s) && Enabled(s, step) && u in s.issued && u.sub != UserOf(step)
    ensures AccessAccepted(Next(s, step), u, later) == AccessAccepted(s, u, later)
    ensures Redeemable(Next(s, step), u, later) == Redeemable(s, u, later)
    ensures u.sub in Next(s, step).accounts <==> u.sub in s.accounts
    ensures u.sub in s.accounts ==> Next(s, step).accounts[u.sub] == s.accounts[u.sub]
  {
    hide TokensValid, FamiliesValid;
    OtherAccountsUntouched(s, step, u.sub);
    if u.sid.Some? {
      OtherFamiliesUntouched(s, step, u);
    }
    hide Login, Refresh, Logout, ForgotPassword, ResetPassword, DeleteAccount;
    IssuedStays(s, step, u);
  }

  lemma IssuedStays(s: State, step: Step, u: Token)
    requires u in s.issued
    ensures u in Next(s, step).issued
  {
  }

  lemma OtherAccountsUntouched(s: State, step: Step, other: UserId)
    requires other != UserOf(step)
    ensures other in Next(s, step).accounts <==> other in s.accounts
    ensures other in s.accounts ==> Next(s, step).accounts[other] == s.accounts[other]
  {
  }

  lemma OtherFamiliesUntouched(s: State, step: Step, u: Token)
    requires Inv(s) && Enabled(s, step) && u in s.issued && u.sid.Some? && u.sub != UserOf(step)
    ensures var t, sid := Next(s, step), u.sid.value;
      && (sid in t.families && t.families[sid].user == u.sub <==> sid in s.families && s.families[sid].user == u.sub)
      && (sid in s.families && s.families[sid].user == u.sub ==> t.families[sid] == s.families[sid])
  {
    var sid := u.sid.value;
    assert sid < s.nextFamily;
    if sid in s.families {
      assert FamilyValid(s, sid, s.families[sid]);
    }
  }

  /** The account is closed: gone, or there but not active. */
  predicate IsInactive(s: State, uid: UserId) {
    uid in s.accounts ==> !s.accounts[uid].isActive
  }

  /** Nothing issued to a deactivated or erased account is accepted until somebody activates it again. */
  lemma {:induction false} InactiveStaysOut(s: State, steps: seq<Step>, u: Token, later: Instant)
    requires Runs(s, steps) && u in s.issued && IsInactive(s, u.sub)
    requires forall i | 0 <= i < |steps| :: steps[i] != SetActive(u.sub, true)
    ensures !AccessAccepted(Run(s, steps), u, later) && !Redeemable(Run(s, steps), u, later)
    decreases |steps|
  {
    if steps != [] {
      InactiveStays(s, steps[0], u);
      InactiveStaysOut(Next(s, steps[0]), steps[1..], u, later);
    }
  }

  lemma InactiveStays(s: State, step: Step, u: Token)
    requires Enabled(s, step) && u in s.issued && IsInactive(s, u.sub) && step != SetActive(u.sub, true)
    ensures u in Next(s, step).issued && IsInactive(Next(s, step), u.sub)
  {
  }

  /** Deactivating closes the account at once; activating it again brings back what was open before. */
  lemma ActiveExactly(s: State, uid: UserId)
    requires uid in s.accounts
    ensures var off := Next(s, SetActive(uid, false));
      && IsInactive(off, uid)
      && (s.accounts[uid].isActive ==> Next(off, SetActive(uid, true)) == s)
  {
    var off := Next(s, SetActive(uid, false));
    assert s.accounts[uid := s.accounts[uid].(isActive := false)][uid := s.accounts[uid]] == s.accounts;
  }

  /** Erasing an account takes its logins with it and nobody else's. */
  lemma ErasedExactly(s: State, uid: UserId)
    ensures var t := DeleteAccount(s, uid);
      && t.accounts.Keys == s.accounts.Keys - {uid}
      && forall sid :: sid in t.families <==> sid in s.families && s.families[sid].user != uid
  {
  }
}
