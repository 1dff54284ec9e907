/** The auth handlers inside the request dependency: which writes are durable when a call raises. */
module AuthRequests {
  import opened Basics
  import opened RefreshFamilies

  /** One database session: the working rows of the open transaction over the committed ones. */
  class AuthDatabase {
    var committed: State
    var accounts: map<UserId, Account>
    var families: map<FamilyId, Family>
    var issued: set<Token>
    var nextJti: int
    var nextFamily: int
    var clock: Instant

    ghost function Working(): State
      reads this
    {
      State(accounts, families, issued, nextJti, nextFamily, clock)
    }

    constructor (initial: State)
      ensures committed == initial && Working() == initial
    {
      committed := initial;
      accounts, families, issued := initial.accounts, initial.families, initial.issued;
      nextJti, nextFamily, clock := initial.nextJti, initial.nextFamily, initial.clock;
    }

    method Commit()
      modifies this
      ensures committed == old(Working()) && Working() == old(Working())
    {
      committed := State(accounts, families, issued, nextJti, nextFamily, clock);
    }

    method Rollback()
      modifies this
      ensures committed == old(committed) && Working() == old(committed)
    {
      accounts, families, issued := committed.accounts, committed.families, committed.issued;
      nextJti, nextFamily, clock := committed.nextJti, committed.nextFamily, committed.clock;
    }

    method IssueTokens(uid: UserId, ver: int, sid: FamilyId, expiresAt: Instant, now: Instant) returns (pair: Pair)
      modifies this
      ensures committed == old(committed)
      ensures (Working(), pair) == RefreshFamilies.IssueTokens(old(Working()), uid, ver, sid, expiresAt, now)
    {
      var refresh := Token(nextJti, REFRESH, uid, ver, Some(sid), now + REFRESH_TOKEN_LIFETIME, 0);
      var access := Token(nextJti + 1, ACCESS, uid, ver, Some(sid), now + ACCESS_TOKEN_LIFETIME, 0);
      families := families[sid := Family(uid, refresh, false, expiresAt)];
      issued := issued + {access, refresh};
      nextJti := nextJti + 2;
      pair := Pair(access, refresh);
    }

    /** `AuthService.login` after its password check. */
    method StartLogin(uid: UserId, now: Instant) returns (reply: Reply<Pair, Error>)
      modifies this
      ensures committed == old(committed)
      ensures (Working(), reply) == Login(old(Working()), uid, now)
    {
      if uid !in accounts || !accounts[uid].isActive {
        return Err(UNAUTHORIZED);
      }
      var pair := IssueTokens(uid, accounts[uid].tokenVersion, nextFamily, now + REFRESH_TOKEN_LIFETIME, now);
      nextFamily := nextFamily + 1;
      reply := Ok(pair);
    }

    /** `AuthService.refresh`: the only handler that commits before it raises. */
    method HandleRefresh(t: Token, now: Instant) returns (reply: Reply<Pair, Error>)
      requires Working() == committed
      modifies this
      ensures (Working(), reply) == Refresh(old(Working()), t, now)
      ensures reply.Err? ==> committed == Working()
      ensures reply.Ok? ==> committed == old(committed)
    {
      if t !in issued || t.exp <= now || t.kind != REFRESH || t.sid.None? {
        return Err(UNAUTHORIZED);
      }
      if t.sub !in accounts || !accounts[t.sub].isActive || t.ver != accounts[t.sub].tokenVersion {
        return Err(UNAUTHORIZED);
      }
      var sid := t.sid.value;
      if sid !in families || families[sid].user != t.sub || families[sid].revoked || families[sid].expiresAt <= now {
        return Err(UNAUTHORIZED);
      }
      if families[sid].refreshHash != t {
        families := families[sid := families[sid].(revoked := true)];
        Commit();
        return Err(UNAUTHORIZED);
      }
      var pair := IssueTokens(t.sub, t.ver, sid, families[sid].expiresAt, now);
      reply := Ok(pair);
    }

    /** The request: commit on success, roll back on an exception. A replay's revocation survives. */
    method RefreshRequest(t: Token, now: Instant) returns (reply: Reply<Pair, Error>)
      requires Working() == committed
      modifies this
      ensures Working() == committed
      ensures (committed, reply) == Refresh(old(committed), t, now)
    {
      reply := HandleRefresh(t, now);
      if reply.Ok? {
        Commit();
      } else {
        Rollback();
      }
    }

    method LogoutRequest(t: Token, now: Instant)
      requires Working() == committed
      modifies this
      ensures Working() == committed == Logout(old(committed), t, now)
    {
      if t in issued && now < t.exp && t.kind == REFRESH && t.sid.Some? {
        var sid := t.sid.value;
        if sid in families && families[sid].user == t.sub && !families[sid].revoked {
          families := families[sid := families[sid].(revoked := true)];
        }
      }
      Commit();
    }

    method ResetRequest(t: Token, password: int, now: Instant) returns (reply: Reply<(), Error>)
      requires Working() == committed
      modifies this
      ensures Working() == committed
      ensures (committed, reply) == ResetPassword(old(committed), t, password, now)
    {
      if t !in issued || t.exp <= now || t.kind != PASSWORD_RESET || t.sub !in accounts {
        return Err(BAD_REQUEST);
      }
      var account := accounts[t.sub];
      if t.passwordVersion != account.password || t.ver != account.tokenVersion {
        return Err(BAD_REQUEST);
      }
      accounts := accounts[t.sub := account.(password := password, tokenVersion := account.tokenVersion + 1)];
      Commit();
      reply := Ok(());
    }
  }
}
