/** What each account call answers, in terms of the account's own fields; and failed counts and locks
    as the history of the logins. */
module AccountHistory {
  import opened Common
  import opened Accounts
  import opened AccountProperties

  predicate UnderBan(u: User, now: int) {
    u.isBanned && (u.bannedUntil == None || u.bannedUntil.value > now)
  }

  predicate LockedAt(u: User, now: int) { u.lockedUntil.Some? && u.lockedUntil.value > now }

  /** The login compares the password, and it is right. */
  predicate RightPassword(u: User, op: Op)
    requires op.Login?
  {
    !LockedAt(u, op.now) && u.hasPassword && op.valid
  }

  predicate WrongPassword(u: User, op: Op)
    requires op.Login?
  {
    !LockedAt(u, op.now) && !(u.hasPassword && op.valid)
  }

  // ── Answers ────────────────────────────────────────────────────────────────

  lemma LoginAnswers(s: State, op: Op)
    requires op.Login?
    ensures Refusal(s, op)
            == var known := op.user in s.users;
               var u := if known then s.users[op.user] else User(0, None, false, false, false, None);
               ALLOWED
               .OrIf(!known, Unauthorized)
               .OrIf(LockedAt(u, op.now), Forbidden("account_locked"))
               .OrIf(WrongPassword(u, op) && u.failedLogins + 1 >= op.attempts, Forbidden("account_locked"))
               .OrIf(WrongPassword(u, op), Unauthorized)
               .OrIf(!u.emailVerified, Forbidden("email_not_verified"))
               .OrIf(UnderBan(u, op.now), Forbidden("account_suspended"))
  {
  }

  /** A login succeeds exactly when the account exists, is not locked, has a password that matches, is
      verified and is not under a ban. */
  lemma LoginSucceedsIff(s: State, op: Op)
    requires op.Login?
    ensures Refusal(s, op).None?
            <==> && op.user in s.users && !LockedAt(s.users[op.user], op.now)
                 && s.users[op.user].hasPassword && op.valid
                 && s.users[op.user].emailVerified && !UnderBan(s.users[op.user], op.now)
  {
  }

  lemma RefreshAnswers(s: State, op: Op)
    requires op.Refresh?
    ensures Refusal(s, op)
            == var key := "refresh:" + op.user + ":" + op.digest;
               ALLOWED
               .OrIf(!(key in s.cache && op.now <= s.cache[key]), Unauthorized)
               .OrIf(op.user !in s.users, Unauthorized)
               .OrIf(op.user in s.users && UnderBan(s.users[op.user], op.now), Forbidden("account_suspended"))
  {
    assert SessionKey(op.user, op.digest) == "refresh:" + op.user + ":" + op.digest;
  }

  /** The ban calls ask for permission, an existing user and the consent of the plugins, a temporary
      ban for a short reason first; unbanning asks no plugin. */
  lemma BanAnswers(s: State, op: Op)
    requires op.Ban? || op.TempBan? || op.Unban?
    ensures Refusal(s, op)
            == ALLOWED
               .OrIf(op.TempBan? && op.reasonLength > 1000, Unprocessable("Reason must be 1 000 characters or fewer"))
               .OrIf(!op.permitted, Forbidden("permission_denied"))
               .OrIf(op.user !in s.users, NotFound)
               .OrIf(!op.Unban? && !op.hookAllows, PluginBlocked)
  {
  }

  // ── Failed counts and locks ────────────────────────────────────────────────

  /** What a login makes of the count and the lock: a wrong password counts up and locks from the last
      allowed attempt on; a right one clears both, but only on a verified account not under a ban. */
  function Counted(u: User, op: Op): (nat, Option<int>)
    requires op.Login?
  {
    if WrongPassword(u, op) then
      (u.failedLogins + 1, if u.failedLogins + 1 >= op.attempts then Some(op.now + op.lockFor) else u.lockedUntil)
    else if RightPassword(u, op) && u.emailVerified && !UnderBan(u, op.now) then (0, None)
    else (u.failedLogins, u.lockedUntil)
  }

  /** A call changes the count and the lock of the user who logs in, as above, and of nobody else;
      password and verification it changes for nobody. */
  lemma CountAfter(s: State, op: Op, user: UserId)
    requires user in s.users
    ensures user in Step(s, op).users
    ensures var u, v := s.users[user], Step(s, op).users[user];
            && (v.failedLogins, v.lockedUntil)
               == (if op.Login? && op.user == user then Counted(u, op) else (u.failedLogins, u.lockedUntil))
            && v.hasPassword == u.hasPassword && v.emailVerified == u.emailVerified
  {
  }

  /** Failed password checks of the user in the run that no successful login has followed, on top of
      the count at the start if there was no such login. */
  ghost function FailuresSince(start: State, ops: seq<Op>, user: UserId): nat
    requires user in start.users
  {
    if ops == [] then start.users[user].failedLogins
    else
      var earlier, op := ops[..|ops| - 1], ops[|ops| - 1];
      var s := Run(start, earlier);
      if !op.Login? || op.user != user || user !in s.users then FailuresSince(start, earlier, user)
      else if WrongPassword(s.users[user], op) then FailuresSince(start, earlier, user) + 1
      else if RightPassword(s.users[user], op) && s.users[user].emailVerified && !UnderBan(s.users[user], op.now) then 0
      else FailuresSince(start, earlier, user)
  }

  /** In every run the stored count is that of the failed checks since the last successful login. */
  lemma {:induction false} CountIsFailures(start: State, ops: seq<Op>, user: UserId)
    requires user in start.users
    ensures user in Run(start, ops).users
    ensures Run(start, ops).users[user].failedLogins == FailuresSince(start, ops, user)
  {
    if ops != [] {
      var earlier, op := ops[..|ops| - 1], ops[|ops| - 1];
      CountIsFailures(start, earlier, user);
      CountAfter(Run(start, earlier), op, user);
      hide Step, UnderBan, LockedAt;
    }
  }

  /** A login that passed the password check and found the account unverified or under a ban, or that
      found it locked, leaves the account and the sessions as they were. */
  lemma BarredLoginChangesNothing(s: State, op: Op)
    requires op.Login? && op.user in s.users
    requires var u := s.users[op.user];
             LockedAt(u, op.now) || (RightPassword(u, op) && (!u.emailVerified || UnderBan(u, op.now)))
    ensures Refusal(s, op).Some? && Step(s, op) == s
  {
  }

  /** While an account is unverified or, at every login, under a ban, no login lowers its count or
      opens a session for it, whatever else is called. */
  lemma {:induction false} BarredRun(start: State, ops: seq<Op>, user: UserId, digest: string)
    requires user in start.users
    requires forall i :: 0 <= i < |ops| && ops[i].Login? && ops[i].user == user && user in Run(start, ops[..i]).users ==>
               var u := Run(start, ops[..i]).users[user]; !u.emailVerified || UnderBan(u, ops[i].now)
    ensures user in Run(start, ops).users
    ensures Run(start, ops).users[user].failedLogins >= start.users[user].failedLogins
    ensures SessionKey(user, digest) in Run(start, ops).cache ==>
              && SessionKey(user, digest) in start.cache
              && Run(start, ops).cache[SessionKey(user, digest)] == start.cache[SessionKey(user, digest)]
  {
    if ops != [] {
      var n, earlier, op := |ops| - 1, ops[..|ops| - 1], ops[|ops| - 1];
      assert forall i :: 0 <= i < n ==> earlier[..i] == ops[..i];
      BarredRun(start, earlier, user, digest);
      assert ops[..n] == earlier;
      CountAfter(Run(start, earlier), op, user);
      SessionStep(Run(start, earlier), op, user, digest);
      if op.Login? { LoginSucceedsIff(Run(start, earlier), op); }
      hide Step, Refusal, SessionKey, LockedAt, UnderBan;
    }
  }

  /** An account that starts unverified stays so, in particular. */
  lemma {:induction false} UnverifiedRun(start: State, ops: seq<Op>, user: UserId, digest: string)
    requires user in start.users && !start.users[user].emailVerified
    ensures user in Run(start, ops).users && !Run(start, ops).users[user].emailVerified
    ensures Run(start, ops).users[user].failedLogins >= start.users[user].failedLogins
    ensures SessionKey(user, digest) in Run(start, ops).cache ==> SessionKey(user, digest) in start.cache
  {
    if ops != [] {
      var earlier, op := ops[..|ops| - 1], ops[|ops| - 1];
      UnverifiedRun(start, earlier, user, digest);
      CountAfter(Run(start, earlier), op, user);
      SessionStep(Run(start, earlier), op, user, digest);
      if op.Login? { LoginSucceedsIff(Run(start, earlier), op); }
      hide Step, Refusal, SessionKey, LockedAt, UnderBan;
    }
  }

  /** The latest ban call on the user that was not refused. */
  ghost function LastBanCall(start: State, ops: seq<Op>, user: UserId): (r: Option<Op>)
    ensures r.Some? ==> r.value.Ban? || r.value.TempBan? || r.value.Unban?
  {
    if ops == [] then None
    else
      var earlier, op := ops[..|ops| - 1], ops[|ops| - 1];
      if (op.Ban? || op.TempBan? || op.Unban?) && op.user == user && Refusal(Run(start, earlier), op).None? then Some(op)
      else LastBanCall(start, earlier, user)
  }

  /** A ban call on the user that was not refused stores what it said; no other call changes the ban. */
  lemma BanAfter(s: State, op: Op, user: UserId)
    requires user in s.users
    ensures user in Step(s, op).users
    ensures var u, v := s.users[user], Step(s, op).users[user];
            (v.isBanned, v.bannedUntil)
            == if (op.Ban? || op.TempBan? || op.Unban?) && op.user == user && Refusal(s, op).None? then Ruled(op)
               else (u.isBanned, u.bannedUntil)
  {
    hide EndSessions, SessionKey;
    if op.Login? { LoginSucceedsIff(s, op); }
    hide Refusal;
  }

  /** What a ban call says: its end, none for a permanent one, and no ban and no end for an unban. */
  function Ruled(op: Op): (bool, Option<int>)
    requires op.Ban? || op.TempBan? || op.Unban?
  {
    match op
    case Ban(_, _, until, _, _) => (true, until)
    case TempBan(_, _, expiry, _, _, _) => (true, Some(expiry))
    case Unban(_, _, _) => (false, None)
  }

  /** The stored ban is what the latest ban call said. */
  lemma {:induction false} BanIsHistory(start: State, ops: seq<Op>, user: UserId)
    requires user in start.users
    ensures user in Run(start, ops).users
    ensures var u := Run(start, ops).users[user];
            (u.isBanned, u.bannedUntil)
            == match LastBanCall(start, ops, user)
               case None => (start.users[user].isBanned, start.users[user].bannedUntil)
               case Some(op) => Ruled(op)
  {
    if ops != [] {
      var earlier, op := ops[..|ops| - 1], ops[|ops| - 1];
      BanIsHistory(start, earlier, user);
      BanAfter(Run(start, earlier), op, user);
      hide Step, Refusal, Ruled;
    }
  }

  /** A ban that is allowed forgets the cached roles of its user, and those of nobody else. */
  lemma BanForgetsRoles(s: State, op: Op, other: UserId)
    requires (op.Ban? || op.TempBan?) && Refusal(s, op).None?
    ensures RolesKey(op.user) !in Step(s, op).cache
    ensures other != op.user ==> (RolesKey(other) in Step(s, op).cache <==> RolesKey(other) in s.cache)
  {
    assert RolesKey(op.user)[11..] == op.user && RolesKey(other)[11..] == other;
    OtherKeysDiffer(op.user, op.user, "");
    OtherKeysDiffer(op.user, other, "");
    assert SessionPrefix(op.user)[0] == 'r' && RolesKey(other)[0] == 'u';
    assert BanKey(op.user)[5] == 'b' && RolesKey(other)[5] == 'r';
  }
}
