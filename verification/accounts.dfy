/** Accounts over time: failed logins and lockout, sessions, bans, and the cache they share.
    Times are milliseconds. A cache entry is kept with its expiry and counts while the clock has
    not passed it. */
module Accounts {
  import opened Common

  /** User ids contain no colon, as the ids the repository generates. */
  type UserId = s: string | ':' !in s witness ""

  datatype User = User(
    failedLogins: nat, lockedUntil: Option<int>,
    hasPassword: bool, emailVerified: bool,
    isBanned: bool, bannedUntil: Option<int>)
  {
    predicate Locked(now: int) { lockedUntil.Some? && lockedUntil.value > now }

    predicate CurrentlyBanned(now: int) { isBanned && (bannedUntil.None? || bannedUntil.value > now) }
  }

  datatype State = State(users: map<UserId, User>, cache: map<string, int>)

  /** Logins carry the lockout settings in force, the lifetime of a refresh token, whether the
      password matched the stored hash, and the digest of the token minted on success. */
  datatype Op =
    | Login(now: int, user: UserId, valid: bool, digest: string, attempts: int, lockFor: int, ttl: int)
    | Refresh(now: int, user: UserId, digest: string)
    | Logout(now: int, user: UserId, digest: string)
    | Ban(now: int, user: UserId, until: Option<int>, permitted: bool, hookAllows: bool)
    | TempBan(now: int, user: UserId, expiry: int, reasonLength: nat, permitted: bool, hookAllows: bool)
    | Unban(now: int, user: UserId, permitted: bool)

  const YEAR := 365 * 24 * 3600 * 1000

  // ── Cache keys ─────────────────────────────────────────────────────────────

  function SessionPrefix(user: UserId): string { "refresh:" + user + ":" }

  function SessionKey(user: UserId, digest: string): string { SessionPrefix(user) + digest }

  function BanKey(user: UserId): string { "user:banned:" + user }

  function RolesKey(user: UserId): string { "user:roles:" + user }

  predicate CacheLive(cache: map<string, int>, key: string, now: int) {
    key in cache && now <= cache[key]
  }

  function DelPrefix(cache: map<string, int>, prefix: string): map<string, int> {
    cache - (set k | k in cache && prefix <= k)
  }

  // ── Guards and effects ─────────────────────────────────────────────────────

  /** The call gets as far as comparing the password with the account's hash. */
  predicate ChecksPassword(s: State, op: Op) {
    op.Login? && op.user in s.users && !s.users[op.user].Locked(op.now)
  }

  predicate FailsCheck(s: State, op: Op) {
    ChecksPassword(s, op) && !(s.users[op.user].hasPassword && op.valid)
  }

  function Refusal(s: State, op: Op): Option<Error> {
    match op
    case Login(now, user, valid, _, attempts, _, _) =>
      if user !in s.users then Some(Unauthorized)
      else
        var u := s.users[user];
        if u.Locked(now) then Some(Forbidden("account_locked"))
        else if !u.hasPassword || !valid then
          if u.failedLogins + 1 >= attempts then Some(Forbidden("account_locked")) else Some(Unauthorized)
        else if !u.emailVerified then Some(Forbidden("email_not_verified"))
        else if u.CurrentlyBanned(now) then Some(Forbidden("account_suspended"))
        else None
    case Refresh(now, user, digest) =>
      if !CacheLive(s.cache, SessionKey(user, digest), now) || user !in s.users then Some(Unauthorized)
      else if s.users[user].CurrentlyBanned(now) then Some(Forbidden("account_suspended"))
      else None
    case Logout(_, _, _) => None
    case Ban(_, user, _, permitted, hookAllows) => BanRefusal(s, user, permitted, hookAllows)
    case TempBan(_, user, _, reasonLength, permitted, hookAllows) =>
      if reasonLength > MAX_BAN_REASON_LEN then Some(Unprocessable("Reason must be 1 000 characters or fewer"))
      else BanRefusal(s, user, permitted, hookAllows)
    case Unban(_, user, permitted) => BanRefusal(s, user, permitted, true)
  }

  function BanRefusal(s: State, user: UserId, permitted: bool, hookAllows: bool): Option<Error> {
    if !permitted then Some(Forbidden("permission_denied"))
    else if user !in s.users then Some(NotFound)
    else if !hookAllows then Some(PluginBlocked)
    else None
  }

  /** A failed check counts up and locks from the last allowed attempt on; the lock alone does
      not reset the count. */
  function FailedLogin(u: User, now: int, attempts: int, lockFor: int): User {
    u.(failedLogins := u.failedLogins + 1,
       lockedUntil := if u.failedLogins + 1 >= attempts then Some(now + lockFor) else u.lockedUntil)
  }

  function Banned(u: User, until: Option<int>): User { u.(isBanned := true, bannedUntil := until) }

  function EndSessions(cache: map<string, int>, user: UserId): map<string, int> {
    DelPrefix(cache, SessionPrefix(user)) - {RolesKey(user)}
  }

  function Step(s: State, op: Op): State {
    match op
    case Login(now, user, _, digest, attempts, lockFor, ttl) =>
      if Refusal(s, op).None? then
        s.(users := s.users[user := s.users[user].(failedLogins := 0, lockedUntil := None)],
           cache := s.cache[SessionKey(user, digest) := now + ttl])
      else if FailsCheck(s, op) then
        s.(users := s.users[user := FailedLogin(s.users[user], now, attempts, lockFor)])
      else s
    case Refresh(_, _, _) => s
    case Logout(_, user, digest) => s.(cache := s.cache - {SessionKey(user, digest)})
    case Ban(now, user, until, _, _) =>
      if Refusal(s, op).Some? then s
      else
        var left := if until.None? then YEAR else until.value - now;
        State(s.users[user := Banned(s.users[user], until)],
              EndSessions(s.cache[BanKey(user) := now + (if left < 0 then 0 else left)], user))
    case TempBan(now, user, expiry, _, _, _) =>
      if Refusal(s, op).Some? then s
      else State(s.users[user := Banned(s.users[user], Some(expiry))],
                 EndSessions(if expiry > now then s.cache[BanKey(user) := expiry] else s.cache, user))
    case Unban(_, user, _) =>
      if Refusal(s, op).Some? then s
      else State(s.users[user := s.users[user].(isBanned := false, bannedUntil := None)],
                 s.cache - {BanKey(user)})
  }

  function Run(start: State, ops: seq<Op>): State {
    if ops == [] then start else Step(Run(start, ops[..|ops| - 1]), ops[|ops| - 1])
  }

  // ── Keys do not collide ────────────────────────────────────────────────────

  lemma {:induction false} ColonSplits(a: string, b: string, x: string, y: string)
    requires ':' !in a && ':' !in b && a + ":" + x == b + ":" + y
    ensures a == b && x == y
  {
    assert (a + ":" + x)[0] == (b + ":" + y)[0];
    if a != [] && b != [] {
      assert (a + ":" + x)[1..] == a[1..] + ":" + x;
      assert (b + ":" + y)[1..] == b[1..] + ":" + y;
      ColonSplits(a[1..], b[1..], x, y);
    } else {
      assert x == ([] + ":" + x)[1..] && y == ([] + ":" + y)[1..];
    }
  }

  /** Wiping one user's sessions matches a session key only if it is that user's. */
  lemma PrefixIsPerUser(user: UserId, other: UserId, digest: string)
    ensures SessionPrefix(user) <= SessionKey(other, digest) <==> user == other
  {
    var key := SessionKey(other, digest);
    if SessionPrefix(user) <= key {
      var rest := key[|SessionPrefix(user)|..];
      assert key == SessionPrefix(user) + rest;
      assert key[8..] == user + ":" + rest;
      assert key[8..] == other + ":" + digest;
      ColonSplits(user, other, rest, digest);
    }
  }

  lemma SessionKeysDiffer(user: UserId, other: UserId, digest: string, otherDigest: string)
    ensures SessionKey(user, digest) == SessionKey(other, otherDigest) <==> user == other && digest == otherDigest
  {
    if SessionKey(user, digest) == SessionKey(other, otherDigest) {
      assert SessionKey(user, digest)[8..] == user + ":" + digest;
      assert SessionKey(other, otherDigest)[8..] == other + ":" + otherDigest;
      ColonSplits(user, other, digest, otherDigest);
    }
  }

  lemma OtherKeysDiffer(user: UserId, other: UserId, digest: string)
    ensures !(SessionPrefix(user) <= BanKey(other))
    ensures SessionKey(user, digest) != BanKey(other) && SessionKey(user, digest) != RolesKey(other)
    ensures BanKey(user) != RolesKey(other)
    ensures BanKey(user) == BanKey(other) ==> user == other
  {
    assert SessionPrefix(user)[0] == 'r' && SessionKey(user, digest)[0] == 'r';
    assert BanKey(other)[0] == 'u' && RolesKey(other)[0] == 'u';
    assert BanKey(user)[5] == 'b' && RolesKey(other)[5] == 'r';
    assert BanKey(user)[12..] == user && BanKey(other)[12..] == other;
  }
}
