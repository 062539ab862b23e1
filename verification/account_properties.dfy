/** What holds of accounts over whole runs: a bound on password guesses, and the agreement of the
    cached ban flag and of the sessions with what last happened to the user. */
module AccountProperties {
  import opened Common
  import opened Accounts

  predicate InOrder(ops: seq<Op>) {
    forall i, j :: 0 <= i < j < |ops| ==> ops[i].now <= ops[j].now
  }

  // ── Lockout ────────────────────────────────────────────────────────────────

  /** Failed password checks on the account while the calls run from the state. */
  ghost function Failures(s: State, ops: seq<Op>, user: UserId): nat
    decreases |ops|
  {
    if ops == [] then 0
    else (if FailsCheck(s, ops[0]) && ops[0].user == user then 1 else 0) + Failures(Step(s, ops[0]), ops[1..], user)
  }

  /** Successful logins of the account. */
  ghost function Successes(s: State, ops: seq<Op>, user: UserId): nat
    decreases |ops|
  {
    if ops == [] then 0
    else (if ops[0].Login? && Refusal(s, ops[0]).None? && ops[0].user == user then 1 else 0)
         + Successes(Step(s, ops[0]), ops[1..], user)
  }

  function Cap(attempts: int): int { if attempts < 1 then 1 else attempts }

  /** Failed checks that remain possible between `now` and `end` without a successful login. */
  ghost function Allowance(s: State, user: UserId, now: int, end: int, attempts: int, lockFor: int): int
    requires lockFor > 0 && now <= end
  {
    if user in s.users then ChecksLeft(s.users[user], now, end, attempts, lockFor) else 0
  }

  ghost function ChecksLeft(u: User, now: int, end: int, attempts: int, lockFor: int): int
    requires lockFor > 0 && now <= end
  {
    if u.failedLogins < Cap(attempts) then Cap(attempts) - u.failedLogins + (end - now) / lockFor
    else
      var free := if u.Locked(now) then u.lockedUntil.value else now;
      if end < free then 0 else 1 + (end - free) / lockFor
  }

  lemma MulMonotone(p: int, q: int, d: int)
    requires p <= q && d > 0
    ensures p * d <= q * d
  {
    assert q * d == p * d + (q - p) * d;
  }

  lemma DivMonotone(x: int, y: int, d: int)
    requires d > 0 && 0 <= x <= y
    ensures 0 <= x / d <= y / d
  {
    if x / d > y / d {
      MulMonotone(y / d + 1, x / d, d);
    }
  }

  lemma DivUnique(x: int, d: int, q: int)
    requires d > 0 && q * d <= x < q * d + d
    ensures x / d == q
  {
    if x / d < q {
      MulMonotone(x / d + 1, q, d);
    } else if x / d > q {
      MulMonotone(q + 1, x / d, d);
    }
  }

  lemma DivisionSteps(x: int, y: int, d: int)
    requires d > 0 && 0 <= x <= y
    ensures 0 <= x / d <= y / d
    ensures x < d ==> x / d == 0
    ensures x >= d ==> x / d == 1 + (x - d) / d
  {
    DivMonotone(x, y, d);
    if x < d {
      DivUnique(x, d, 0);
    } else {
      var q := (x - d) / d;
      assert (q + 1) * d == q * d + d;
      DivUnique(x, d, q + 1);
    }
  }

  lemma WaitingGivesNone(u: User, now: int, later: int, end: int, attempts: int, lockFor: int)
    requires lockFor > 0 && now <= later <= end
    ensures ChecksLeft(u, later, end, attempts, lockFor) <= ChecksLeft(u, now, end, attempts, lockFor)
  {
    hide Cap;
    DivMonotone(end - later, end - now, lockFor);
    if u.Locked(now) && u.lockedUntil.value <= end {
      var free := u.lockedUntil.value;
      if later <= free { DivMonotone(end - free, end - later, lockFor); }
      else { DivMonotone(end - later, end - free, lockFor); }
    }
  }

  lemma FailureCostsOne(u: User, now: int, end: int, attempts: int, lockFor: int)
    requires lockFor > 0 && now <= end && !u.Locked(now)
    ensures 1 + ChecksLeft(FailedLogin(u, now, attempts, lockFor), now, end, attempts, lockFor)
            <= ChecksLeft(u, now, end, attempts, lockFor)
  {
    DivisionSteps(end - now, end - now, lockFor);
  }

  lemma SuccessGrantsCap(u: User, now: int, end: int, attempts: int, lockFor: int)
    requires lockFor > 0 && now <= end && !u.Locked(now)
    ensures ChecksLeft(u.(failedLogins := 0, lockedUntil := None), now, end, attempts, lockFor)
            <= ChecksLeft(u, now, end, attempts, lockFor) + Cap(attempts)
  {
  }

  /** One call uses up at least what it fails, and a successful login grants one more cap. */
  lemma AllowanceStep(s: State, op: Op, user: UserId, now: int, end: int, attempts: int, lockFor: int)
    requires lockFor > 0 && now <= op.now <= end
    requires op.Login? ==> op.attempts == attempts && op.lockFor == lockFor
    ensures (if FailsCheck(s, op) && op.user == user then 1 else 0)
            + Allowance(Step(s, op), user, op.now, end, attempts, lockFor)
            <= Allowance(s, user, now, end, attempts, lockFor)
               + (if op.Login? && Refusal(s, op).None? && op.user == user then Cap(attempts) else 0)
  {
    if user in s.users {
      var u := s.users[user];
      WaitingGivesNone(u, now, op.now, end, attempts, lockFor);
      if op.Login? && op.user == user && !u.Locked(op.now) {
        FailureCostsOne(u, op.now, end, attempts, lockFor);
        SuccessGrantsCap(u, op.now, end, attempts, lockFor);
      }
      if !op.Login? || op.user != user {
        BanKeepsAllowance(s, op, user, op.now, end, attempts, lockFor);
      }
      hide ChecksLeft, FailedLogin, Cap, EndSessions;
    }
  }

  lemma BanKeepsAllowance(s: State, op: Op, user: UserId, now: int, end: int, attempts: int, lockFor: int)
    requires lockFor > 0 && now <= end && user in s.users && (!op.Login? || op.user != user)
    ensures Allowance(Step(s, op), user, now, end, attempts, lockFor) == Allowance(s, user, now, end, attempts, lockFor)
  {
  }

  lemma AllowanceIsNat(s: State, user: UserId, now: int, end: int, attempts: int, lockFor: int)
    requires lockFor > 0 && now <= end
    ensures 0 <= Allowance(s, user, now, end, attempts, lockFor) <= Cap(attempts) + (end - now) / lockFor
  {
    DivMonotone(0, end - now, lockFor);
    if user in s.users && s.users[user].Locked(now) && s.users[user].lockedUntil.value <= end {
      DivisionSteps(end - s.users[user].lockedUntil.value, end - now, lockFor);
    }
  }

  lemma {:induction false} AllowanceBounds(s: State, ops: seq<Op>, user: UserId, now: int, end: int, attempts: int, lockFor: int)
    requires lockFor > 0 && now <= end && InOrder(ops)
    requires forall i :: 0 <= i < |ops| ==> now <= ops[i].now <= end
    requires forall i :: 0 <= i < |ops| && ops[i].Login? ==> ops[i].attempts == attempts && ops[i].lockFor == lockFor
    ensures Failures(s, ops, user)
            <= Allowance(s, user, now, end, attempts, lockFor) + Cap(attempts) * Successes(s, ops, user)
    decreases |ops|
  {
    hide Step, Refusal, FailsCheck, Allowance, Cap;
    if ops == [] {
      AllowanceIsNat(s, user, now, end, attempts, lockFor);
    } else {
      AllowanceStep(s, ops[0], user, now, end, attempts, lockFor);
      AllowanceBounds(Step(s, ops[0]), ops[1..], user, ops[0].now, end, attempts, lockFor);
      var k := if ops[0].Login? && Refusal(s, ops[0]).None? && ops[0].user == user then 1 else 0;
      assert Cap(attempts) * Successes(s, ops, user)
             == Cap(attempts) * k + Cap(attempts) * Successes(Step(s, ops[0]), ops[1..], user);
    }
  }

  /** From any state whatever, within any span of time, an account sees at most `attempts` failed
      password checks for each successful login and one more time over, plus one for every full
      lockout that fits in the span. A correct password on an unverified or banned account does
      not count as a success. */
  lemma LockoutBound(s: State, ops: seq<Op>, user: UserId, attempts: int, lockFor: int, span: nat)
    requires lockFor > 0 && InOrder(ops)
    requires ops != [] ==> ops[|ops| - 1].now - ops[0].now <= span
    requires forall i :: 0 <= i < |ops| && ops[i].Login? ==> ops[i].attempts == attempts && ops[i].lockFor == lockFor
    ensures Failures(s, ops, user) <= Cap(attempts) * (Successes(s, ops, user) + 1) + span / lockFor
  {
    DivMonotone(0, span, lockFor);
    if ops != [] {
      var now := ops[0].now;
      AllowanceBounds(s, ops, user, now, now + span, attempts, lockFor);
      AllowanceIsNat(s, user, now, now + span, attempts, lockFor);
      assert Cap(attempts) * (Successes(s, ops, user) + 1) == Cap(attempts) * Successes(s, ops, user) + Cap(attempts);
    }
  }

  /** A lockout of no length bounds nothing: any number of checks can fail at one instant. */
  lemma {:induction false} NoLockoutNoBound(s: State, user: UserId, attempts: int, n: nat) returns (ops: seq<Op>)
    requires user in s.users && !s.users[user].Locked(0)
    ensures InOrder(ops) && Failures(s, ops, user) == n
    ensures forall i :: 0 <= i < |ops| ==> ops[i] == Login(0, user, false, "", attempts, 0, 0)
    decreases n
  {
    if n == 0 {
      ops := [];
    } else {
      var op := Login(0, user, false, "", attempts, 0, 0);
      var rest := NoLockoutNoBound(Step(s, op), user, attempts, n - 1);
      ops := [op] + rest;
      assert ops[1..] == rest;
    }
  }

  // ── The cached ban flag ────────────────────────────────────────────────────

  datatype Ruling = Free | BannedAt(at: int, until: Option<int>)

  /** What the last ban call that was not refused said about the user. */
  ghost function LastRuling(start: State, ops: seq<Op>, user: UserId): Ruling {
    if ops == [] then Free else
    var earlier, op := ops[..|ops| - 1], ops[|ops| - 1];
    if op.user != user || Refusal(Run(start, earlier), op).Some? then LastRuling(start, earlier, user)
    else match op
      case Ban(now, _, until, _, _) => BannedAt(now, until)
      case TempBan(now, _, expiry, _, _, _) => BannedAt(now, Some(expiry))
      case Unban(_, _, _) => Free
      case _ => LastRuling(start, earlier, user)
  }

  predicate RulesOn(s: State, op: Op, user: UserId) {
    op.user == user && Refusal(s, op).None? && (op.Ban? || op.TempBan? || op.Unban?)
  }

  /** A temporary ban that is past already, over a flag that outlives the call. */
  predicate PastOverFlag(s: State, op: Op) {
    op.TempBan? && op.expiry <= op.now && BanKey(op.user) in s.cache && s.cache[BanKey(op.user)] > op.now
  }

  /** The last ban call on the user that was not refused was such a one. */
  ghost predicate LastPastOverFlag(start: State, ops: seq<Op>, user: UserId) {
    ops != [] &&
    var earlier, op := ops[..|ops| - 1], ops[|ops| - 1];
    if RulesOn(Run(start, earlier), op, user) then PastOverFlag(Run(start, earlier), op)
    else LastPastOverFlag(start, earlier, user)
  }

  lemma {:induction false} FutureLeavesNothingOver(start: State, ops: seq<Op>, user: UserId)
    requires forall i :: 0 <= i < |ops| && ops[i].TempBan? ==> ops[i].expiry > ops[i].now
    ensures !LastPastOverFlag(start, ops, user)
  {
    if ops != [] {
      FutureLeavesNothingOver(start, ops[..|ops| - 1], user);
    }
  }

  /** The stored ban is that of the ruling, and so is the cached flag unless it was left over. */
  ghost predicate Carries(s: State, user: UserId, ruling: Ruling, leftOver: bool) {
    && user in s.users
    && match ruling
       case Free => !leftOver && !s.users[user].isBanned && BanKey(user) !in s.cache
       case BannedAt(at, until) =>
         && s.users[user].isBanned && s.users[user].bannedUntil == until
         && FlagIs(Lookup(s.cache, BanKey(user)), at, until, leftOver)
  }

  function Lookup(cache: map<string, int>, key: string): Option<int> {
    if key in cache then Some(cache[key]) else None
  }

  /** The flag of a ban: for a year if permanent, up to its end if that was to come, and gone by the
      time of the call if not; or left over from an earlier ban. */
  predicate FlagIs(flag: Option<int>, at: int, until: Option<int>, leftOver: bool) {
    if leftOver then until.Some? && until.value <= at && flag.Some? && flag.value > at
    else if until.None? then flag == Some(at + YEAR)
    else if until.value > at then flag == until
    else flag.None? || flag.value <= at
  }

  /** A call about another user, or one that does not rule on bans, leaves user and flag alone. */
  lemma RulingUntouched(s: State, op: Op, user: UserId)
    requires user in s.users
    requires op.user != user || Refusal(s, op).Some? || !(op.Ban? || op.TempBan? || op.Unban?)
    ensures var t := Step(s, op);
            && user in t.users && t.users[user].isBanned == s.users[user].isBanned
            && t.users[user].bannedUntil == s.users[user].bannedUntil
            && (BanKey(user) in t.cache <==> BanKey(user) in s.cache)
            && (BanKey(user) in s.cache ==> t.cache[BanKey(user)] == s.cache[BanKey(user)])
  {
    OtherKeysDiffer(op.user, user, if op.Login? || op.Logout? then op.digest else "");
    OtherKeysDiffer(user, op.user, "");
  }

  lemma RulingCarried(s: State, op: Op, user: UserId)
    requires RulesOn(s, op, user)
    ensures var ruling := match op
                          case Ban(now, _, until, _, _) => BannedAt(now, until)
                          case TempBan(now, _, expiry, _, _, _) => BannedAt(now, Some(expiry))
                          case _ => Free;
            Carries(Step(s, op), user, ruling, PastOverFlag(s, op))
  {
    OtherKeysDiffer(user, user, "");
  }

  lemma {:induction false} RunCarriesRuling(start: State, ops: seq<Op>, user: UserId)
    requires user in start.users && !start.users[user].isBanned && start.cache == map[]
    ensures Carries(Run(start, ops), user, LastRuling(start, ops, user), LastPastOverFlag(start, ops, user))
  {
    if ops != [] {
      var earlier, op := ops[..|ops| - 1], ops[|ops| - 1];
      var s := Run(start, earlier);
      RunCarriesRuling(start, earlier, user);
      if RulesOn(s, op, user) {
        RulingCarried(s, op, user);
      } else {
        RulingUntouched(s, op, user);
      }
      hide Step, Refusal, BanKey;
    }
  }

  /** The cached flag and the stored ban after any run whose last ban call did not leave an earlier
      flag over: they say the same at every later instant but two kinds, the very instant a ban
      ends, where the flag still counts, and those after the first year of a permanent ban, where
      it no longer does. */
  lemma FlagMatchesBan(start: State, ops: seq<Op>, user: UserId, now: int)
    requires user in start.users && !start.users[user].isBanned && start.cache == map[]
    requires !LastPastOverFlag(start, ops, user)
    requires var ruling := LastRuling(start, ops, user);
             ruling.BannedAt? && ruling.until.Some? && ruling.until.value <= ruling.at ==> now > ruling.at
    ensures user in Run(start, ops).users
    ensures var live, inForce := CacheLive(Run(start, ops).cache, BanKey(user), now),
                                 Run(start, ops).users[user].CurrentlyBanned(now);
            match LastRuling(start, ops, user)
            case Free => !live && !inForce
            case BannedAt(_, Some(until)) => (live <==> now <= until) && (inForce <==> now < until)
            case BannedAt(at, None) => inForce && (live <==> now <= at + YEAR)
  {
    RunCarriesRuling(start, ops, user);
  }

  ghost predicate FlagAgrees(s: State, user: UserId, now: int)
    requires user in s.users
  {
    CacheLive(s.cache, BanKey(user), now) <==> s.users[user].CurrentlyBanned(now)
  }

  /** An instant after the ruling that is neither the end of its ban nor past the year for which a
      permanent ban is flagged. */
  predicate Judged(ruling: Ruling, q: int) {
    match ruling
    case Free => true
    case BannedAt(at, None) => at < q <= at + YEAR
    case BannedAt(at, Some(until)) => at < q && q != until
  }

  /** After any run, flag and ban agree at every later instant if and only if the last ban call on
      the user was not a temporary ban that was past already, over a flag that outlived it. */
  lemma FlagAgreesIff(start: State, ops: seq<Op>, user: UserId)
    requires user in start.users && !start.users[user].isBanned && start.cache == map[]
    ensures user in Run(start, ops).users
    ensures (forall q :: Judged(LastRuling(start, ops, user), q) ==> FlagAgrees(Run(start, ops), user, q))
            <==> !LastPastOverFlag(start, ops, user)
  {
    RunCarriesRuling(start, ops, user);
    hide Run, LastRuling, LastPastOverFlag;
    var s, ruling := Run(start, ops), LastRuling(start, ops, user);
    if LastPastOverFlag(start, ops, user) {
      assert Judged(ruling, ruling.at + 1) && !FlagAgrees(s, user, ruling.at + 1);
    }
  }

  /** A temporary ban leaves flag and ban in agreement from then on, except at the instant it
      ends, exactly when it ends in the future or no earlier flag outlives the call. */
  lemma TempBanAgreesIff(s: State, op: Op)
    requires op.TempBan? && Refusal(s, op).None?
    ensures (forall q :: q > op.now && q != op.expiry ==> FlagAgrees(Step(s, op), op.user, q))
            <==> op.expiry > op.now || BanKey(op.user) !in s.cache || s.cache[BanKey(op.user)] <= op.now
  {
    OtherKeysDiffer(op.user, op.user, "");
    var t := Step(s, op);
    if op.expiry <= op.now && BanKey(op.user) in s.cache && s.cache[BanKey(op.user)] > op.now {
      assert !FlagAgrees(t, op.user, op.now + 1);
    }
  }

  /** The administrator's ban does so unconditionally. */
  lemma BanAgrees(s: State, op: Op, q: int)
    requires op.Ban? && Refusal(s, op).None? && q > op.now
    requires if op.until.Some? then q != op.until.value else q <= op.now + YEAR
    ensures FlagAgrees(Step(s, op), op.user, q)
  {
    OtherKeysDiffer(op.user, op.user, "");
  }

  // ── Sessions ───────────────────────────────────────────────────────────────

  /** When the session of a token ends, if the latest of its logins, its logouts and the bans of
      its user is a login. */
  ghost function SessionEnd(start: State, ops: seq<Op>, user: UserId, digest: string): Option<int> {
    if ops == [] then None else
    var earlier, op := ops[..|ops| - 1], ops[|ops| - 1];
    if op.user != user || Refusal(Run(start, earlier), op).Some? then SessionEnd(start, earlier, user, digest)
    else match op
      case Login(now, _, _, d, _, _, ttl) => if d == digest then Some(now + ttl) else SessionEnd(start, earlier, user, digest)
      case Logout(_, _, d) => if d == digest then None else SessionEnd(start, earlier, user, digest)
      case Ban(_, _, _, _, _) => None
      case TempBan(_, _, _, _, _, _) => None
      case _ => SessionEnd(start, earlier, user, digest)
  }

  lemma SessionStep(s: State, op: Op, user: UserId, digest: string)
    ensures var before, after := Lookup(s.cache, SessionKey(user, digest)), Lookup(Step(s, op).cache, SessionKey(user, digest));
            after == if op.user != user || Refusal(s, op).Some? then before
                     else match op
                       case Login(now, _, _, d, _, _, ttl) => if d == digest then Some(now + ttl) else before
                       case Logout(_, _, d) => if d == digest then None else before
                       case Ban(_, _, _, _, _) => None
                       case TempBan(_, _, _, _, _, _) => None
                       case _ => before
  {
    PrefixIsPerUser(op.user, user, digest);
    OtherKeysDiffer(user, op.user, digest);
    if op.Login? || op.Logout? {
      SessionKeysDiffer(op.user, user, op.digest, digest);
    }
    hide SessionKey, SessionPrefix, BanKey, RolesKey;
  }

  /** The cache holds a session key exactly while its session has not been ended by a call. */
  lemma {:induction false} SessionsFollowHistory(start: State, ops: seq<Op>, user: UserId, digest: string)
    requires start.cache == map[]
    ensures Lookup(Run(start, ops).cache, SessionKey(user, digest)) == SessionEnd(start, ops, user, digest)
  {
    if ops != [] {
      SessionsFollowHistory(start, ops[..|ops| - 1], user, digest);
      SessionStep(Run(start, ops[..|ops| - 1]), ops[|ops| - 1], user, digest);
    }
  }

  /** A user with a session is not under a ban. */
  lemma {:induction false} NoSessionUnderBan(start: State, ops: seq<Op>, user: UserId, digest: string, now: int)
    requires start.cache == map[] && user in start.users
    requires forall i :: 0 <= i < |ops| ==> ops[i].now <= now
    ensures user in Run(start, ops).users
    ensures SessionEnd(start, ops, user, digest).Some? ==> !Run(start, ops).users[user].CurrentlyBanned(now)
  {
    if ops != [] {
      NoSessionUnderBan(start, ops[..|ops| - 1], user, digest, now);
      assert ops[|ops| - 1].now <= now;
    }
  }

  /** In every interleaving, refreshing with a token succeeds exactly when the latest of its
      logins, its logouts and the bans of its user is a login whose session has not expired. */
  lemma RefreshIffSession(start: State, ops: seq<Op>, user: UserId, digest: string, now: int)
    requires start.cache == map[] && user in start.users
    requires forall i :: 0 <= i < |ops| ==> ops[i].now <= now
    ensures Refusal(Run(start, ops), Refresh(now, user, digest)).None?
            <==> SessionEnd(start, ops, user, digest).Some? && now <= SessionEnd(start, ops, user, digest).value
  {
    SessionsFollowHistory(start, ops, user, digest);
    NoSessionUnderBan(start, ops, user, digest, now);
  }
}
