/** Login, refresh, logout and the three ban calls over one user table and one cache. */
module AccountUseCases {
  import opened Common
  import opened Accounts

  class AccountUseCase {
    var users: map<UserId, User>
    var cache: map<string, int>

    function View(): Accounts.State
      reads this
    {
      Accounts.State(users, cache)
    }

    constructor (users: map<UserId, User>)
      ensures View() == Accounts.State(users, map[])
    {
      this.users, cache := users, map[];
    }

    method IncrementFailedLogin(user: UserId) returns (count: nat)
      requires user in users
      modifies this`users
      ensures count == old(users)[user].failedLogins + 1
      ensures users == old(users)[user := old(users)[user].(failedLogins := count)]
    {
      count := users[user].failedLogins + 1;
      users := users[user := users[user].(failedLogins := count)];
    }

    method Login(now: int, user: UserId, valid: bool, digest: string, attempts: int, lockFor: int, ttl: int)
        returns (refused: Option<Error>)
      modifies this
      ensures refused == Refusal(old(View()), Op.Login(now, user, valid, digest, attempts, lockFor, ttl))
      ensures View() == Step(old(View()), Op.Login(now, user, valid, digest, attempts, lockFor, ttl))
    {
      if user !in users { return Some(Unauthorized); }
      var found := users[user];
      if found.Locked(now) { return Some(Forbidden("account_locked")); }
      if !found.hasPassword || !valid {
        var count := IncrementFailedLogin(user);
        if count >= attempts {
          users := users[user := users[user].(lockedUntil := Some(now + lockFor))];
          return Some(Forbidden("account_locked"));
        }
        return Some(Unauthorized);
      }
      if !found.emailVerified { return Some(Forbidden("email_not_verified")); }
      if found.CurrentlyBanned(now) { return Some(Forbidden("account_suspended")); }
      users := users[user := users[user].(failedLogins := 0, lockedUntil := None)];
      cache := cache[SessionKey(user, digest) := now + ttl];
      return None;
    }

    method RefreshAccessToken(now: int, user: UserId, digest: string) returns (refused: Option<Error>)
      ensures refused == Refusal(View(), Op.Refresh(now, user, digest))
    {
      if !CacheLive(cache, SessionKey(user, digest), now) { return Some(Unauthorized); }
      if user !in users { return Some(Unauthorized); }
      if users[user].CurrentlyBanned(now) { return Some(Forbidden("account_suspended")); }
      return None;
    }

    method Logout(now: int, user: UserId, digest: string)
      modifies this`cache
      ensures View() == Step(old(View()), Op.Logout(now, user, digest))
    {
      cache := cache - {SessionKey(user, digest)};
    }

    method WipeSessions(user: UserId)
      modifies this`cache
      ensures cache == EndSessions(old(cache), user)
    {
      cache := DelPrefix(cache, SessionPrefix(user));
      cache := cache - {RolesKey(user)};
    }

    method Ban(now: int, user: UserId, until: Option<int>, permitted: bool, hookAllows: bool)
        returns (refused: Option<Error>)
      modifies this
      ensures refused == Refusal(old(View()), Op.Ban(now, user, until, permitted, hookAllows))
      ensures View() == Step(old(View()), Op.Ban(now, user, until, permitted, hookAllows))
    {
      refused := BanRefusal(View(), user, permitted, hookAllows);
      if refused.Some? { return; }
      users := users[user := users[user].(isBanned := true, bannedUntil := until)];
      var ttl := YEAR;
      if until.Some? {
        ttl := if until.value - now < 0 then 0 else until.value - now;
      }
      cache := cache[BanKey(user) := now + ttl];
      WipeSessions(user);
    }

    method TempBan(now: int, user: UserId, expiry: int, reasonLength: nat, permitted: bool, hookAllows: bool)
        returns (refused: Option<Error>)
      modifies this
      ensures refused == Refusal(old(View()), Op.TempBan(now, user, expiry, reasonLength, permitted, hookAllows))
      ensures View() == Step(old(View()), Op.TempBan(now, user, expiry, reasonLength, permitted, hookAllows))
    {
      if reasonLength > MAX_BAN_REASON_LEN {
        return Some(Unprocessable("Reason must be 1 000 characters or fewer"));
      }
      refused := BanRefusal(View(), user, permitted, hookAllows);
      if refused.Some? { return; }
      users := users[user := users[user].(isBanned := true, bannedUntil := Some(expiry))];
      var ttl := if expiry - now < 0 then 0 else expiry - now;
      if ttl != 0 {
        cache := cache[BanKey(user) := now + ttl];
      }
      WipeSessions(user);
    }

    method Unban(now: int, user: UserId, permitted: bool) returns (refused: Option<Error>)
      modifies this
      ensures refused == Refusal(old(View()), Op.Unban(now, user, permitted))
      ensures View() == Step(old(View()), Op.Unban(now, user, permitted))
    {
      refused := BanRefusal(View(), user, permitted, true);
      if refused.Some? { return; }
      users := users[user := users[user].(isBanned := false, bannedUntil := None)];
      cache := cache - {BanKey(user)};
    }
  }
}
