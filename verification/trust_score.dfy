/** Trust scores: reactions and warnings spawn score updates that run later, in any order, and
    each update is clamped to the range 0 to 100. */
module TrustScore {
  import opened Common
  import opened AuthUsers

  const MAX_SCORE := 100

  function Clamp(n: int): int { if n < 0 then 0 else if n > MAX_SCORE then MAX_SCORE else n }

  datatype Kind = Like | Helpful | Insightful | Funny
  datatype Reaction = Reaction(post: Id, user: Id, kind: Kind)
  datatype PostInfo = PostInfo(author: Id, deleted: bool)

  /** A spawned update that has not run yet. */
  datatype Task = Task(user: Id, delta: int)

  datatype State = State(reactions: set<Reaction>, pending: seq<Task>, scores: map<Id, int>)

  /** Calls carry the post as the repository finds it; Run executes one spawned update. */
  datatype Op =
    | React(now: int, actor: AuthUser, post: Id, info: Option<PostInfo>, kind: Kind, hookAllows: bool)
    | Unreact(now: int, actor: AuthUser, post: Id, info: Option<PostInfo>, kind: Kind)
    | Warn(actor: AuthUser, reasonLength: nat, user: Id)
    | Execute(task: nat)

  predicate Meaningful(kind: Kind) { kind.Helpful? || kind.Insightful? }

  function Score(s: State, user: Id): int { if user in s.scores then s.scores[user] else 0 }

  function Refusal(s: State, op: Op): Option<Error> {
    match op
    case React(now, actor, post, info, kind, hookAllows) =>
      if actor.IsCurrentlyBanned(now) then Some(Forbidden("account_suspended"))
      else if !actor.MeetsTrust(BASIC) then Some(Forbidden("trust_level_insufficient"))
      else if info.None? || info.value.deleted then Some(NotFound)
      else if info.value.author == actor.id then Some(Forbidden("cannot_react_to_own_post"))
      else if Reaction(post, actor.id, kind) !in s.reactions && !hookAllows then Some(PluginBlocked)
      else None
    case Unreact(now, actor, post, info, kind) =>
      if actor.IsCurrentlyBanned(now) then Some(Forbidden("account_suspended"))
      else if info.None? || info.value.deleted then Some(NotFound)
      else None
    case Warn(actor, reasonLength, user) =>
      if reasonLength > MAX_BAN_REASON_LEN then Some(Unprocessable("Reason must be 1 000 characters or fewer"))
      else if !actor.HasPerm(MOD_WARN) then Some(Forbidden("permission_denied"))
      else if user !in s.scores then Some(NotFound) else None
    case Execute(_) => None
  }

  function Spawn(s: State, user: Id, delta: int): State { s.(pending := s.pending + [Task(user, delta)]) }

  function Step(s: State, op: Op): State {
    if Refusal(s, op).Some? then s else
    match op
    case React(_, actor, post, info, kind, _) =>
      var r := Reaction(post, actor.id, kind);
      if r in s.reactions then s
      else
        var added := s.(reactions := s.reactions + {r});
        if Meaningful(kind) then Spawn(added, info.value.author, 2) else added
    case Unreact(_, actor, post, info, kind) =>
      var r := Reaction(post, actor.id, kind);
      if r !in s.reactions then s
      else
        var removed := s.(reactions := s.reactions - {r});
        if Meaningful(kind) then Spawn(removed, info.value.author, -2) else removed
    case Warn(_, _, user) => Spawn(s, user, -5)
    case Execute(i) =>
      if i >= |s.pending| then s
      else
        var t := s.pending[i];
        var rest := s.(pending := s.pending[..i] + s.pending[i + 1..]);
        if t.user !in s.scores then rest
        else rest.(scores := s.scores[t.user := Clamp(s.scores[t.user] + t.delta)])
  }

  function Run(start: State, ops: seq<Op>): State {
    if ops == [] then start else Step(Run(start, ops[..|ops| - 1]), ops[|ops| - 1])
  }

  class ScoreUseCase {
    var reactions: set<Reaction>
    var pending: seq<Task>
    var scores: map<Id, int>

    function View(): State
      reads this
    {
      State(reactions, pending, scores)
    }

    constructor (scores: map<Id, int>)
      ensures View() == State({}, [], scores)
    {
      reactions, pending, this.scores := {}, [], scores;
    }

    method Add(now: int, actor: AuthUser, post: Id, info: Option<PostInfo>, kind: Kind, hookAllows: bool)
        returns (refused: Option<Error>)
      modifies this`reactions, this`pending
      ensures refused == Refusal(old(View()), React(now, actor, post, info, kind, hookAllows))
      ensures View() == Step(old(View()), React(now, actor, post, info, kind, hookAllows))
    {
      if actor.IsCurrentlyBanned(now) { return Some(Forbidden("account_suspended")); }
      if !actor.MeetsTrust(BASIC) { return Some(Forbidden("trust_level_insufficient")); }
      if info.None? || info.value.deleted { return Some(NotFound); }
      if info.value.author == actor.id { return Some(Forbidden("cannot_react_to_own_post")); }
      if Reaction(post, actor.id, kind) in reactions { return None; }
      if !hookAllows { return Some(PluginBlocked); }
      reactions := reactions + {Reaction(post, actor.id, kind)};
      if Meaningful(kind) {
        pending := pending + [Task(info.value.author, 2)];
      }
      return None;
    }

    method Remove(now: int, actor: AuthUser, post: Id, info: Option<PostInfo>, kind: Kind)
        returns (refused: Option<Error>)
      modifies this`reactions, this`pending
      ensures refused == Refusal(old(View()), Unreact(now, actor, post, info, kind))
      ensures View() == Step(old(View()), Unreact(now, actor, post, info, kind))
    {
      if actor.IsCurrentlyBanned(now) { return Some(Forbidden("account_suspended")); }
      if info.None? || info.value.deleted { return Some(NotFound); }
      var existed := Reaction(post, actor.id, kind) in reactions;
      reactions := reactions - {Reaction(post, actor.id, kind)};
      if existed && Meaningful(kind) {
        pending := pending + [Task(info.value.author, -2)];
      }
      return None;
    }

    method WarnUser(actor: AuthUser, reasonLength: nat, user: Id) returns (refused: Option<Error>)
      modifies this`pending
      ensures refused == Refusal(old(View()), Warn(actor, reasonLength, user))
      ensures View() == Step(old(View()), Warn(actor, reasonLength, user))
    {
      if reasonLength > MAX_BAN_REASON_LEN { return Some(Unprocessable("Reason must be 1 000 characters or fewer")); }
      if !actor.HasPerm(MOD_WARN) { return Some(Forbidden("permission_denied")); }
      if user !in scores { return Some(NotFound); }
      pending := pending + [Task(user, -5)];
      return None;
    }

    /** Runs one spawned update, whichever the scheduler picks. */
    method ExecuteTask(i: nat)
      requires i < |pending|
      modifies this`pending, this`scores
      ensures View() == Step(old(View()), Execute(i))
    {
      var t := pending[i];
      pending := pending[..i] + pending[i + 1..];
      if t.user in scores {
        var sum := scores[t.user] + t.delta;
        if sum > MAX_SCORE { sum := MAX_SCORE; }
        if sum < 0 { sum := 0; }
        scores := scores[t.user := sum];
      }
    }
  }

  // ── What the clamp costs ───────────────────────────────────────────────────

  /** Who wrote each post; posts never change author. */
  type Authors = map<Id, Id>

  predicate Fits(authors: Authors, op: Op) {
    (op.React? || op.Unreact?) && op.info.Some? ==>
      op.post in authors && authors[op.post] == op.info.value.author
  }

  predicate Consistent(authors: Authors, ops: seq<Op>) {
    forall i :: 0 <= i < |ops| ==> Fits(authors, ops[i])
  }

  function Earned(authors: Authors, reactions: set<Reaction>, user: Id): set<Reaction> {
    set r | r in reactions && Meaningful(r.kind) && r.post in authors && authors[r.post] == user
  }

  function PendingSum(pending: seq<Task>, user: Id): int {
    if pending == [] then 0
    else PendingSum(pending[..|pending| - 1], user)
         + (if pending[|pending| - 1].user == user then pending[|pending| - 1].delta else 0)
  }

  /** Warnings the user received in the run. */
  ghost function Warnings(start: State, ops: seq<Op>, user: Id): nat {
    if ops == [] then 0
    else
      var s, op := Run(start, ops[..|ops| - 1]), ops[|ops| - 1];
      Warnings(start, ops[..|ops| - 1], user) + (if op.Warn? && op.user == user && Refusal(s, op).None? then 1 else 0)
  }

  /** What one executed update would have added beyond what the clamp let through. */
  ghost function Overshoot(s: State, op: Op, user: Id): int {
    if op.Execute? && op.task < |s.pending| && s.pending[op.task].user == user
    then Score(s, user) + s.pending[op.task].delta - Clamp(Score(s, user) + s.pending[op.task].delta)
    else 0
  }

  ghost function Lost(start: State, ops: seq<Op>, user: Id): int {
    if ops == [] then 0
    else Lost(start, ops[..|ops| - 1], user) + Overshoot(Run(start, ops[..|ops| - 1]), ops[|ops| - 1], user)
  }

  /** What the books of `user` say of a state: score and pending updates, less what was earned. */
  ghost function Books(authors: Authors, s: State, user: Id): int {
    Score(s, user) + PendingSum(s.pending, user) - 2 * |Earned(authors, s.reactions, user)|
  }

  lemma PendingSnoc(pending: seq<Task>, t: Task, user: Id)
    ensures PendingSum(pending + [t], user) == PendingSum(pending, user) + (if t.user == user then t.delta else 0)
  {
    assert (pending + [t])[..|pending|] == pending;
  }

  lemma {:induction false} PendingRemove(pending: seq<Task>, i: nat, user: Id)
    requires i < |pending|
    ensures PendingSum(pending[..i] + pending[i + 1..], user)
            == PendingSum(pending, user) - (if pending[i].user == user then pending[i].delta else 0)
  {
    var n := |pending| - 1;
    if i == n {
      assert pending[..i] + pending[i + 1..] == pending[..n];
    } else {
      PendingRemove(pending[..n], i, user);
      assert pending[..i] + pending[i + 1..] == (pending[..n][..i] + pending[..n][i + 1..]) + [pending[n]];
      PendingSnoc(pending[..n][..i] + pending[..n][i + 1..], pending[n], user);
    }
  }

  lemma EarnedAdd(authors: Authors, reactions: set<Reaction>, r: Reaction, user: Id)
    requires r !in reactions && r.post in authors
    ensures |Earned(authors, reactions + {r}, user)|
            == |Earned(authors, reactions, user)|
               + (if Meaningful(r.kind) && authors[r.post] == user then 1 else 0)
  {
    var before, after := Earned(authors, reactions, user), Earned(authors, reactions + {r}, user);
    if Meaningful(r.kind) && authors[r.post] == user {
      assert after == before + {r};
    } else {
      assert after == before;
    }
  }

  lemma ReactBalances(authors: Authors, s: State, op: Op, user: Id)
    requires op.React? && Fits(authors, op)
    ensures Step(s, op).scores == s.scores && Books(authors, Step(s, op), user) == Books(authors, s, user)
  {
    if Refusal(s, op).None? {
      var r := Reaction(op.post, op.actor.id, op.kind);
      if r !in s.reactions {
        hide Refusal, PendingSum, Earned;
        PendingSnoc(s.pending, Task(op.info.value.author, 2), user);
        EarnedAdd(authors, s.reactions, r, user);
      }
    }
  }

  lemma UnreactBalances(authors: Authors, s: State, op: Op, user: Id)
    requires op.Unreact? && Fits(authors, op)
    ensures Step(s, op).scores == s.scores && Books(authors, Step(s, op), user) == Books(authors, s, user)
  {
    if Refusal(s, op).None? {
      var r := Reaction(op.post, op.actor.id, op.kind);
      if r in s.reactions {
        hide Refusal, PendingSum, Earned;
        PendingSnoc(s.pending, Task(op.info.value.author, -2), user);
        EarnedAdd(authors, s.reactions - {r}, r, user);
        assert (s.reactions - {r}) + {r} == s.reactions;
      }
    }
  }

  lemma ExecuteBalances(authors: Authors, s: State, op: Op, user: Id)
    requires op.Execute? && user in s.scores
    ensures user in Step(s, op).scores
    ensures Books(authors, Step(s, op), user) + Overshoot(s, op, user) == Books(authors, s, user)
  {
    if op.task < |s.pending| {
      hide PendingSum, Earned, Clamp;
      PendingRemove(s.pending, op.task, user);
    }
  }

  lemma BalanceStep(authors: Authors, s: State, op: Op, user: Id)
    requires user in s.scores && Fits(authors, op)
    ensures user in Step(s, op).scores
    ensures Books(authors, Step(s, op), user) + Overshoot(s, op, user)
            == Books(authors, s, user) - (if op.Warn? && op.user == user && Refusal(s, op).None? then 5 else 0)
  {
    match op {
      case React(_, _, _, _, _, _) =>
        hide Books;
        ReactBalances(authors, s, op, user);
      case Unreact(_, _, _, _, _) =>
        hide Books;
        UnreactBalances(authors, s, op, user);
      case Warn(_, _, u) =>
        hide PendingSum, Earned;
        PendingSnoc(s.pending, Task(u, -5), user);
      case Execute(i) =>
        hide Books, Overshoot;
        ExecuteBalances(authors, s, op, user);
    }
  }

  /** The books balance in every run, whenever the updates are executed: score, pending updates
      and what the clamp has cost move by two points for each helpful or insightful reaction the
      user's posts gained or lost, less five for each warning. */
  lemma {:induction false} ScoreBooksBalance(authors: Authors, start: State, ops: seq<Op>, user: Id)
    requires user in start.scores && Consistent(authors, ops)
    ensures user in Run(start, ops).scores
    ensures var s := Run(start, ops);
            Score(s, user) + PendingSum(s.pending, user) + Lost(start, ops, user)
            == Score(start, user) + PendingSum(start.pending, user)
               + 2 * |Earned(authors, s.reactions, user)| - 2 * |Earned(authors, start.reactions, user)|
               - 5 * Warnings(start, ops, user)
  {
    hide PendingSum, Earned;
    if ops != [] {
      var earlier, op := ops[..|ops| - 1], ops[|ops| - 1];
      ScoreBooksBalance(authors, start, earlier, user);
      BalanceStep(authors, Run(start, earlier), op, user);
    }
  }

  /** The score alone is not conserved: at the maximum, a reaction given and taken back costs two
      points. */
  lemma GivenAndTakenBackAtMaximum(s: State, give: Op, take: Op)
    requires s.pending == [] && give.React? && take.Unreact? && Meaningful(give.kind)
    requires give.actor == take.actor && give.post == take.post && give.info == take.info && give.kind == take.kind
    requires Refusal(s, give).None? && Refusal(s, take).None?
    requires Reaction(give.post, give.actor.id, give.kind) !in s.reactions
    requires give.info.value.author in s.scores && Score(s, give.info.value.author) == MAX_SCORE
    ensures var t := Step(Step(Step(Step(s, give), Execute(0)), take), Execute(0));
            && t.reactions == s.reactions && t.pending == []
            && Score(t, give.info.value.author) == MAX_SCORE - 2
  {
    var author := give.info.value.author;
    var s1 := Step(s, give);
    assert s1.pending == [Task(author, 2)] && s1.scores == s.scores;
    var s2 := Step(s1, Execute(0));
    assert s2.pending == [] && s2.reactions == s1.reactions && Score(s2, author) == MAX_SCORE;
    var s3 := Step(s2, take);
    assert s3.pending == [Task(author, -2)] && s3.scores == s2.scores;
    assert s3.reactions == s.reactions;
  }

  // ── When draining is exact ─────────────────────────────────────────────────

  function Drain(score: int, deltas: seq<int>): int
    decreases |deltas|
  {
    if deltas == [] then score else Drain(Clamp(score + deltas[0]), deltas[1..])
  }

  function Gains(deltas: seq<int>): nat {
    if deltas == [] then 0 else (if deltas[0] > 0 then deltas[0] else 0) + Gains(deltas[1..])
  }

  function Losses(deltas: seq<int>): nat {
    if deltas == [] then 0 else (if deltas[0] < 0 then -deltas[0] else 0) + Losses(deltas[1..])
  }

  function Positive(deltas: seq<int>): (r: seq<int>)
    ensures forall i :: 0 <= i < |r| ==> r[i] > 0
  {
    if deltas == [] then [] else (if deltas[0] > 0 then [deltas[0]] else []) + Positive(deltas[1..])
  }

  function Others(deltas: seq<int>): (r: seq<int>)
    ensures forall i :: 0 <= i < |r| ==> r[i] <= 0
  {
    if deltas == [] then [] else (if deltas[0] > 0 then [] else [deltas[0]]) + Others(deltas[1..])
  }

  lemma {:induction false} SameElements(deltas: seq<int>)
    ensures multiset(Positive(deltas)) + multiset(Others(deltas)) == multiset(deltas)
  {
    if deltas != [] {
      SameElements(deltas[1..]);
      assert deltas == [deltas[0]] + deltas[1..];
    }
  }

  lemma {:induction false} SameSums(deltas: seq<int>)
    ensures Gains(Positive(deltas)) == Gains(deltas) && Losses(Others(deltas)) == Losses(deltas)
  {
    if deltas != [] {
      SameSums(deltas[1..]);
      if deltas[0] > 0 {
        assert Positive(deltas)[1..] == Positive(deltas[1..]) && Others(deltas) == Others(deltas[1..]);
      } else {
        assert Others(deltas)[1..] == Others(deltas[1..]) && Positive(deltas) == Positive(deltas[1..]);
      }
    }
  }

  /** An order whose gains and losses both fit in the range is never clamped. */
  lemma {:induction false} NeverClamped(score: int, deltas: seq<int>)
    requires Losses(deltas) <= score && score + Gains(deltas) <= MAX_SCORE
    ensures Drain(score, deltas) == score + Gains(deltas) - Losses(deltas)
    decreases |deltas|
  {
    if deltas != [] {
      NeverClamped(score + deltas[0], deltas[1..]);
    }
  }

  lemma {:induction false} DrainAppend(score: int, a: seq<int>, b: seq<int>)
    ensures Drain(score, a + b) == Drain(Drain(score, a), b)
    decreases |a|
  {
    if a == [] {
      assert a + b == b;
    } else {
      assert (a + b)[1..] == a[1..] + b;
      DrainAppend(Clamp(score + a[0]), a[1..], b);
    }
  }

  lemma {:induction false} DrainPositive(score: int, deltas: seq<int>)
    requires 0 <= score <= MAX_SCORE && forall i :: 0 <= i < |deltas| ==> deltas[i] > 0
    ensures Drain(score, deltas) == Clamp(score + Gains(deltas))
    decreases |deltas|
  {
    if deltas != [] {
      DrainPositive(Clamp(score + deltas[0]), deltas[1..]);
    }
  }

  lemma {:induction false} DrainOthers(score: int, deltas: seq<int>)
    requires 0 <= score <= MAX_SCORE && forall i :: 0 <= i < |deltas| ==> deltas[i] <= 0
    ensures Drain(score, deltas) == Clamp(score - Losses(deltas))
    decreases |deltas|
  {
    if deltas != [] {
      DrainOthers(Clamp(score + deltas[0]), deltas[1..]);
    }
  }

  lemma {:induction false} GainsLessLosses(deltas: seq<int>)
    ensures Gains(deltas) - Losses(deltas) == Total(deltas)
  {
    if deltas != [] {
      GainsLessLosses(deltas[1..]);
    }
  }

  function Total(deltas: seq<int>): int {
    if deltas == [] then 0 else deltas[0] + Total(deltas[1..])
  }

  ghost predicate EveryOrderExact(score: int, deltas: seq<int>) {
    forall order: seq<int> :: multiset(order) == multiset(deltas) ==> Drain(score, order) == score + Total(deltas)
  }

  lemma ExactIfItFits(score: int, deltas: seq<int>)
    requires score + Gains(deltas) <= MAX_SCORE && Losses(deltas) <= score
    ensures EveryOrderExact(score, deltas)
  {
    hide Drain, Gains, Losses, Total;
    forall order: seq<int> | multiset(order) == multiset(deltas)
      ensures Drain(score, order) == score + Total(deltas)
    {
      SumsOfElements(order, deltas);
      NeverClamped(score, order);
      GainsLessLosses(deltas);
    }
  }

  /** All gains first, or all losses first. */
  lemma TwoOrders(score: int, deltas: seq<int>)
    requires 0 <= score <= MAX_SCORE
    ensures var up, down := Positive(deltas), Others(deltas);
            && multiset(up + down) == multiset(deltas) && multiset(down + up) == multiset(deltas)
            && Drain(score, up + down) == Clamp(Clamp(score + Gains(deltas)) - Losses(deltas))
            && Drain(score, down + up) == Clamp(Clamp(score - Losses(deltas)) + Gains(deltas))
  {
    hide Drain, Gains, Losses, Positive, Others;
    var up, down := Positive(deltas), Others(deltas);
    SameElements(deltas);
    SameSums(deltas);
    DrainAppend(score, up, down);
    DrainPositive(score, up);
    DrainOthers(Drain(score, up), down);
    DrainAppend(score, down, up);
    DrainOthers(score, down);
    DrainPositive(Drain(score, down), up);
  }

  /** Pending updates bring the score to its exact total in every order of execution if and only
      if the gains alone do not pass the maximum and the losses alone do not pass zero. */
  lemma EveryOrderExactIff(score: int, deltas: seq<int>)
    requires 0 <= score <= MAX_SCORE
    ensures EveryOrderExact(score, deltas)
            <==> score + Gains(deltas) <= MAX_SCORE && Losses(deltas) <= score
  {
    hide Drain, Gains, Losses, Total, Positive, Others;
    if score + Gains(deltas) <= MAX_SCORE && Losses(deltas) <= score {
      ExactIfItFits(score, deltas);
    }
    if EveryOrderExact(score, deltas) {
      TwoOrders(score, deltas);
      GainsLessLosses(deltas);
      assert Drain(score, Positive(deltas) + Others(deltas)) == score + Total(deltas);
      assert Drain(score, Others(deltas) + Positive(deltas)) == score + Total(deltas);
    }
  }

  lemma {:induction false} SumsOfElements(a: seq<int>, b: seq<int>)
    requires multiset(a) == multiset(b)
    ensures Gains(a) == Gains(b) && Losses(a) == Losses(b)
    decreases |a|
  {
    if a == [] {
      assert |multiset(b)| == 0;
    } else {
      assert a[0] in multiset(b);
      var i :| 0 <= i < |b| && b[i] == a[0];
      SumsWithout(b, i);
      Without(b, i);
      assert a == [a[0]] + a[1..];
      assert multiset(a) == multiset{a[0]} + multiset(a[1..]);
      assert multiset(a[1..]) == multiset(b) - multiset{a[0]};
      assert multiset(b[..i] + b[i + 1..]) == multiset(b) - multiset{a[0]};
      SumsOfElements(a[1..], b[..i] + b[i + 1..]);
    }
  }

  lemma Without(b: seq<int>, i: nat)
    requires i < |b|
    ensures multiset(b) == multiset{b[i]} + multiset(b[..i] + b[i + 1..])
  {
    assert b == b[..i] + ([b[i]] + b[i + 1..]);
  }

  lemma SumsWithout(b: seq<int>, i: nat)
    requires i < |b|
    ensures Gains(b) == Gains(b[..i] + b[i + 1..]) + (if b[i] > 0 then b[i] else 0)
    ensures Losses(b) == Losses(b[..i] + b[i + 1..]) + (if b[i] < 0 then -b[i] else 0)
  {
    var before, tail := b[..i], [b[i]] + b[i + 1..];
    assert tail[1..] == b[i + 1..];
    assert Gains(tail) == (if b[i] > 0 then b[i] else 0) + Gains(b[i + 1..]);
    assert Losses(tail) == (if b[i] < 0 then -b[i] else 0) + Losses(b[i + 1..]);
    hide Gains, Losses;
    SumsSplit(before, tail);
    SumsSplit(before, b[i + 1..]);
    assert b == before + tail;
  }

  lemma {:induction false} SumsSplit(a: seq<int>, b: seq<int>)
    ensures Gains(a + b) == Gains(a) + Gains(b) && Losses(a + b) == Losses(a) + Losses(b)
  {
    if a == [] {
      assert a + b == b;
    } else {
      assert (a + b)[1..] == a[1..] + b;
      SumsSplit(a[1..], b);
    }
  }

  // ── Draining, update by update ─────────────────────────────────────────────

  /** The user's share of the pending updates. */
  function Deltas(pending: seq<Task>, user: Id): seq<int> {
    if pending == [] then []
    else (if pending[0].user == user then [pending[0].delta] else []) + Deltas(pending[1..], user)
  }

  /** Only spawned updates run, and all of them do. */
  ghost predicate Drains(s: State, ops: seq<Op>) {
    (forall i :: 0 <= i < |ops| ==> ops[i].Execute?) && Run(s, ops).pending == []
  }

  /** The user's update that one operation executes, if any. */
  function Update(s: State, op: Op, user: Id): seq<int> {
    if op.Execute? && op.task < |s.pending| && s.pending[op.task].user == user then [s.pending[op.task].delta] else []
  }

  /** The user's updates in the order the run executes them. */
  ghost function Executed(s: State, ops: seq<Op>, user: Id): seq<int> {
    if ops == [] then []
    else Executed(s, ops[..|ops| - 1], user) + Update(Run(s, ops[..|ops| - 1]), ops[|ops| - 1], user)
  }

  lemma {:induction false} DeltasAppend(a: seq<Task>, b: seq<Task>, user: Id)
    ensures Deltas(a + b, user) == Deltas(a, user) + Deltas(b, user)
  {
    if a == [] {
      assert a + b == b;
    } else {
      var first := if a[0].user == user then [a[0].delta] else [];
      DeltasAppend(a[1..], b, user);
      assert Deltas(a + b, user) == first + Deltas(a[1..] + b, user) by {
        assert (a + b)[1..] == a[1..] + b;
      }
      assert Deltas(a, user) == first + Deltas(a[1..], user);
    }
  }

  lemma DeltasWithout(pending: seq<Task>, i: nat, user: Id)
    requires i < |pending|
    ensures multiset(Deltas(pending, user))
            == multiset(Deltas(pending[..i] + pending[i + 1..], user))
               + (if pending[i].user == user then multiset{pending[i].delta} else multiset{})
  {
    var tail := [pending[i]] + pending[i + 1..];
    assert pending == pending[..i] + tail;
    assert tail[1..] == pending[i + 1..];
    DeltasAppend(pending[..i], tail, user);
    DeltasAppend(pending[..i], pending[i + 1..], user);
  }

  lemma {:induction false} PendingIsTotal(pending: seq<Task>, user: Id)
    ensures PendingSum(pending, user) == Total(Deltas(pending, user))
  {
    if pending != [] {
      var n := |pending| - 1;
      PendingIsTotal(pending[..n], user);
      DeltasAppend(pending[..n], [pending[n]], user);
      TotalAppend(Deltas(pending[..n], user), Deltas([pending[n]], user));
      LastDelta(pending[n], user);
      hide Deltas, Total;
      assert pending == pending[..n] + [pending[n]];
    }
  }

  lemma LastDelta(t: Task, user: Id)
    ensures Total(Deltas([t], user)) == if t.user == user then t.delta else 0
  {
    assert [t][1..] == [];
    if t.user == user { assert Deltas([t], user) == [t.delta] && [t.delta][1..] == []; }
  }

  lemma {:induction false} TotalAppend(a: seq<int>, b: seq<int>)
    ensures Total(a + b) == Total(a) + Total(b)
  {
    if a == [] {
      assert a + b == b;
    } else {
      assert (a + b)[1..] == a[1..] + b;
      TotalAppend(a[1..], b);
    }
  }

  lemma UpdateStep(s: State, op: Op, user: Id)
    requires op.Execute? && user in s.scores
    ensures op.task < |s.pending| ==> |Step(s, op).pending| < |s.pending|
    ensures user in Step(s, op).scores && Score(Step(s, op), user) == Drain(Score(s, user), Update(s, op, user))
    ensures multiset(Update(s, op, user)) + multiset(Deltas(Step(s, op).pending, user)) == multiset(Deltas(s.pending, user))
  {
    hide Deltas;
    if op.task < |s.pending| {
      DeltasWithout(s.pending, op.task, user);
      if s.pending[op.task].user == user { DrainOne(Score(s, user), s.pending[op.task].delta); }
    }
    hide Step, Score;
  }

  lemma DrainOne(score: int, delta: int)
    ensures Drain(score, [delta]) == Clamp(score + delta)
  {
    assert [delta][1..] == [];
  }

  /** A run of updates drains the user's score in the order it executes them, and what it has
      not executed is still pending. */
  lemma {:induction false} RunsAreDrains(s: State, ops: seq<Op>, user: Id)
    requires user in s.scores && forall i :: 0 <= i < |ops| ==> ops[i].Execute?
    ensures var t := Run(s, ops);
            && user in t.scores && Score(t, user) == Drain(Score(s, user), Executed(s, ops, user))
            && multiset(Executed(s, ops, user)) + multiset(Deltas(t.pending, user)) == multiset(Deltas(s.pending, user))
  {
    hide Step, Deltas, Update, Score;
    if ops != [] {
      var earlier, op := ops[..|ops| - 1], ops[|ops| - 1];
      RunsAreDrains(s, earlier, user);
      UpdateStep(Run(s, earlier), op, user);
      DrainAppend(Score(s, user), Executed(s, earlier, user), Update(Run(s, earlier), op, user));
    }
  }

  lemma {:induction false} RunFirst(s: State, op: Op, ops: seq<Op>)
    ensures Run(s, [op] + ops) == Run(Step(s, op), ops)
    decreases |ops|
  {
    hide Step;
    if ops == [] {
      assert [op] + ops == [op] && [op][..0] == [];
    } else {
      var n := |ops| - 1;
      RunFirst(s, op, ops[..n]);
      assert ([op] + ops)[..|ops|] == [op] + ops[..n];
    }
  }

  lemma {:induction false} ExecutedFirst(s: State, op: Op, ops: seq<Op>, user: Id)
    ensures Executed(s, [op] + ops, user) == Update(s, op, user) + Executed(Step(s, op), ops, user)
    decreases |ops|
  {
    hide Step, Update, Run;
    if ops == [] {
      assert [op] + ops == [op] && [op][..0] == [];
      assert Run(s, []) == s by { RunNothing(s); }
    } else {
      var n := |ops| - 1;
      ExecutedFirst(s, op, ops[..n], user);
      RunFirst(s, op, ops[..n]);
      assert ([op] + ops)[..|ops|] == [op] + ops[..n];
    }
  }

  lemma RunNothing(s: State)
    ensures Run(s, []) == s
  {
  }

  lemma Cancel(whole: seq<int>, first: seq<int>, left: seq<int>, rest: multiset<int>)
    requires whole == first + left && multiset(first) + rest == multiset(whole)
    ensures multiset(left) == rest
  {
    assert multiset(left) == multiset(whole) - multiset(first);
    assert rest == multiset(whole) - multiset(first);
  }

  /** Some pending update can go first in an execution that follows the order. */
  lemma FirstOfOrder(s: State, user: Id, order: seq<int>) returns (first: Op, left: seq<int>)
    requires s.pending != [] && user in s.scores && multiset(order) == multiset(Deltas(s.pending, user))
    ensures first.Execute? && user in Step(s, first).scores && |Step(s, first).pending| < |s.pending|
    ensures order == Update(s, first, user) + left
    ensures multiset(left) == multiset(Deltas(Step(s, first).pending, user))
  {
    var i := NextTask(s.pending, user, order);
    hide Deltas, Step, Drain, Score;
    first, left := Execute(i), if s.pending[i].user == user then order[1..] else order;
    UpdateStep(s, first, user);
    Cancel(order, Update(s, first, user), left, multiset(Deltas(Step(s, first).pending, user)));
  }

  /** Any order of the user's updates is the order of some draining run. */
  lemma {:induction false} AnyOrderRuns(s: State, user: Id, order: seq<int>) returns (ops: seq<Op>)
    requires user in s.scores && multiset(order) == multiset(Deltas(s.pending, user))
    ensures Drains(s, ops) && Executed(s, ops, user) == order
    decreases |s.pending|
  {
    if s.pending == [] {
      assert |multiset(order)| == 0;
      return [];
    }
    hide Step, Update, Executed, Deltas, Run;
    var first, left := FirstOfOrder(s, user, order);
    var rest := AnyOrderRuns(Step(s, first), user, left);
    RunFirst(s, first, rest);
    ExecutedFirst(s, first, rest, user);
    return [first] + rest;
  }

  /** The first pending update if it belongs to somebody else, otherwise one that comes first in
      the order. */
  lemma NextTask(pending: seq<Task>, user: Id, order: seq<int>) returns (i: nat)
    requires pending != [] && multiset(order) == multiset(Deltas(pending, user))
    ensures i < |pending|
    ensures pending[i].user == user ==> order != [] && pending[i].delta == order[0]
  {
    if pending[0].user != user { return 0; }
    assert Deltas(pending, user)[0] in multiset(order);
    assert order[0] in multiset(Deltas(pending, user));
    i := TaskOf(pending, user, order[0]);
  }

  lemma {:induction false} TaskOf(pending: seq<Task>, user: Id, delta: int) returns (i: nat)
    requires delta in Deltas(pending, user)
    ensures i < |pending| && pending[i] == Task(user, delta)
  {
    if pending[0] == Task(user, delta) { return 0; }
    var j := TaskOf(pending[1..], user, delta);
    return j + 1;
  }

  /** Draining the pending updates brings the score to its exact total, whatever order they run
      in, if and only if the pending gains alone do not pass the maximum and the pending losses
      alone do not pass zero. */
  lemma DrainedScoreExactIff(s: State, user: Id)
    requires user in s.scores && 0 <= Score(s, user) <= MAX_SCORE
    ensures (forall ops: seq<Op> :: Drains(s, ops) ==>
               Score(Run(s, ops), user) == Score(s, user) + PendingSum(s.pending, user))
            <==> (&& Score(s, user) + Gains(Deltas(s.pending, user)) <= MAX_SCORE
                  && Losses(Deltas(s.pending, user)) <= Score(s, user))
  {
    hide *;
    var score, deltas := Score(s, user), Deltas(s.pending, user);
    EveryOrderExactIff(score, deltas);
    PendingIsTotal(s.pending, user);
    if EveryOrderExact(score, deltas) {
      forall ops: seq<Op> | Drains(s, ops)
        ensures Score(Run(s, ops), user) == score + PendingSum(s.pending, user)
      {
        DrainedInOrder(s, ops, user);
        ExactOrder(score, deltas, Executed(s, ops, user));
      }
    }
    if forall ops: seq<Op> :: Drains(s, ops) ==> Score(Run(s, ops), user) == score + PendingSum(s.pending, user) {
      forall order: seq<int> | multiset(order) == multiset(deltas)
        ensures Drain(score, order) == score + Total(deltas)
      {
        var ops := AnyOrderRuns(s, user, order);
        DrainedInOrder(s, ops, user);
      }
      OrdersExact(score, deltas);
    }
  }

  lemma DrainedInOrder(s: State, ops: seq<Op>, user: Id)
    requires user in s.scores && Drains(s, ops)
    ensures Score(Run(s, ops), user) == Drain(Score(s, user), Executed(s, ops, user))
    ensures multiset(Executed(s, ops, user)) == multiset(Deltas(s.pending, user))
  {
    RunsAreDrains(s, ops, user);
    assert Deltas([], user) == [];
  }

  lemma ExactOrder(score: int, deltas: seq<int>, order: seq<int>)
    requires EveryOrderExact(score, deltas) && multiset(order) == multiset(deltas)
    ensures Drain(score, order) == score + Total(deltas)
  {
  }

  lemma OrdersExact(score: int, deltas: seq<int>)
    requires forall order: seq<int> :: multiset(order) == multiset(deltas) ==> Drain(score, order) == score + Total(deltas)
    ensures EveryOrderExact(score, deltas)
  {
  }

  // ── Every schedule of a list of calls ──────────────────────────────────────

  /** The calls of a run, without the updates executed in between. */
  function Calls(ops: seq<Op>): seq<Op> {
    if ops == [] then []
    else Calls(ops[..|ops| - 1]) + (if ops[|ops| - 1].Execute? then [] else [ops[|ops| - 1]])
  }

  /** The updates one operation spawns. */
  function SpawnedBy(s: State, op: Op): seq<Task> {
    if op.Execute? then [] else Step(s, op).pending[|s.pending|..]
  }

  /** The updates a run spawns, in order. */
  ghost function Spawned(start: State, ops: seq<Op>): seq<Task> {
    if ops == [] then []
    else Spawned(start, ops[..|ops| - 1]) + SpawnedBy(Run(start, ops[..|ops| - 1]), ops[|ops| - 1])
  }

  /** The user's share of the updates pending at the start and of those the run spawns. */
  ghost function Due(start: State, ops: seq<Op>, user: Id): seq<int> {
    Deltas(start.pending, user) + Deltas(Spawned(start, ops), user)
  }

  ghost predicate FitsRange(score: int, deltas: seq<int>) {
    score + Gains(deltas) <= MAX_SCORE && Losses(deltas) <= score
  }

  lemma CallSpawns(s: State, op: Op)
    requires !op.Execute?
    ensures Step(s, op).pending == s.pending + SpawnedBy(s, op) && Step(s, op).scores == s.scores
  {
  }

  /** What calls do is the same whatever the updates have done to the scores. */
  lemma CallIgnoresScores(s: State, t: State, op: Op)
    requires !op.Execute? && s.reactions == t.reactions && s.scores.Keys == t.scores.Keys
    ensures Step(s, op).reactions == Step(t, op).reactions && SpawnedBy(s, op) == SpawnedBy(t, op)
    ensures Refusal(s, op) == Refusal(t, op)
  {
  }

  lemma ExecuteIgnoresCalls(s: State, op: Op)
    requires op.Execute?
    ensures Step(s, op).reactions == s.reactions && Step(s, op).scores.Keys == s.scores.Keys
  {
  }

  /** A schedule leaves the reactions, and spawns the updates, that its calls alone would. */
  lemma {:induction false} ScheduleSpawnsTheSame(start: State, ops: seq<Op>)
    ensures var t, u := Run(start, ops), Run(start, Calls(ops));
            t.reactions == u.reactions && t.scores.Keys == u.scores.Keys
    ensures Spawned(start, ops) == Spawned(start, Calls(ops))
  {
    hide Step, SpawnedBy;
    if ops != [] {
      var earlier, op := ops[..|ops| - 1], ops[|ops| - 1];
      ScheduleSpawnsTheSame(start, earlier);
      if op.Execute? {
        ExecuteIgnoresCalls(Run(start, earlier), op);
        SpawnedByUpdate(Run(start, earlier), op);
        assert Calls(ops) == Calls(earlier) && Spawned(start, ops) == Spawned(start, earlier);
      } else {
        assert Calls(ops)[..|Calls(earlier)|] == Calls(earlier);
        CallIgnoresScores(Run(start, earlier), Run(start, Calls(earlier)), op);
        CallSpawns(Run(start, earlier), op);
        CallSpawns(Run(start, Calls(earlier)), op);
      }
    }
  }

  lemma SpawnedByUpdate(s: State, op: Op)
    requires op.Execute?
    ensures SpawnedBy(s, op) == []
  {
  }

  lemma DueGrows(start: State, ops: seq<Op>, user: Id)
    requires ops != []
    ensures Due(start, ops, user)
            == Due(start, ops[..|ops| - 1], user)
               + Deltas(SpawnedBy(Run(start, ops[..|ops| - 1]), ops[|ops| - 1]), user)
  {
    hide Deltas, SpawnedBy, Run;
    var earlier := ops[..|ops| - 1];
    DeltasAppend(Spawned(start, earlier), SpawnedBy(Run(start, earlier), ops[|ops| - 1]), user);
  }

  /** What has been executed and what is pending make up what is due. */
  lemma {:induction false} ExecutedOrPending(start: State, ops: seq<Op>, user: Id)
    requires user in start.scores
    ensures user in Run(start, ops).scores
    ensures multiset(Executed(start, ops, user)) + multiset(Deltas(Run(start, ops).pending, user))
            == multiset(Due(start, ops, user))
  {
    if ops == [] {
      assert Deltas(Spawned(start, []), user) == [];
      assert Due(start, [], user) == Deltas(start.pending, user);
    } else {
      hide Step, Deltas, Update, SpawnedBy, Due;
      var earlier, op := ops[..|ops| - 1], ops[|ops| - 1];
      var s := Run(start, earlier);
      ExecutedOrPending(start, earlier, user);
      DueGrows(start, ops, user);
      StepMovesDue(s, op, user);
      Rebalance(Executed(start, earlier, user), Update(s, op, user), Deltas(Step(s, op).pending, user),
                Deltas(s.pending, user), Deltas(SpawnedBy(s, op), user), Due(start, earlier, user));
    }
  }

  lemma Rebalance(done: seq<int>, now: seq<int>, left: seq<int>, before: seq<int>, more: seq<int>, due: seq<int>)
    requires multiset(now) + multiset(left) == multiset(before) + multiset(more)
    requires multiset(done) + multiset(before) == multiset(due)
    ensures multiset(done + now) + multiset(left) == multiset(due + more)
  {
    assert multiset(done + now) + multiset(left) == multiset(done) + (multiset(now) + multiset(left));
  }

  lemma StepMovesDue(s: State, op: Op, user: Id)
    requires user in s.scores
    ensures user in Step(s, op).scores
    ensures multiset(Update(s, op, user)) + multiset(Deltas(Step(s, op).pending, user))
            == multiset(Deltas(s.pending, user)) + multiset(Deltas(SpawnedBy(s, op), user))
  {
    if op.Execute? {
      UpdateStep(s, op, user);
      SpawnedByUpdate(s, op);
    } else {
      CallSpawns(s, op);
      hide Step;
      DeltasAppend(s.pending, SpawnedBy(s, op), user);
    }
  }

  /** No selection of updates gains or loses more than all of them. */
  lemma PartFits(part: seq<int>, rest: seq<int>, whole: seq<int>)
    requires multiset(part) + multiset(rest) == multiset(whole)
    ensures Gains(part) <= Gains(whole) && Losses(part) <= Losses(whole)
  {
    assert multiset(part + rest) == multiset(part) + multiset(rest);
    SumsOfElements(part + rest, whole);
    SumsSplit(part, rest);
  }

  /** Where gains and losses each fit, a schedule never meets the clamp: the score is always the
      start score plus what has been executed. */
  lemma {:induction false} NothingLostIfItFits(start: State, ops: seq<Op>, user: Id)
    requires user in start.scores && FitsRange(Score(start, user), Due(start, ops, user))
    ensures Lost(start, ops, user) == 0
    ensures Score(Run(start, ops), user) == Score(start, user) + Total(Executed(start, ops, user))
  {
    if ops != [] {
      var earlier, op := ops[..|ops| - 1], ops[|ops| - 1];
      var s, done, now := Run(start, earlier), Executed(start, earlier, user), Update(Run(start, earlier), op, user);
      DueGrows(start, ops, user);
      hide Step, Deltas, SpawnedBy, Due, Gains, Losses, Total, Clamp;
      SumsSplit(Due(start, earlier, user), Deltas(SpawnedBy(s, op), user));
      NothingLostIfItFits(start, earlier, user);
      ExecutedOrPending(start, earlier, user);
      ExecutedOrPending(start, ops, user);
      PartFits(done + now, Deltas(Run(start, ops).pending, user), Due(start, ops, user));
      GainsLessLosses(done + now);
      TotalAppend(done, now);
      StepInRange(s, op, user);
    }
  }

  /** A step whose update stays in the range loses nothing. */
  lemma StepInRange(s: State, op: Op, user: Id)
    requires user in s.scores && 0 <= Score(s, user) + Total(Update(s, op, user)) <= MAX_SCORE
    ensures Overshoot(s, op, user) == 0
    ensures Score(Step(s, op), user) == Score(s, user) + Total(Update(s, op, user))
  {
    if !op.Execute? {
      CallSpawns(s, op);
    } else if Update(s, op, user) != [] {
      assert Total([s.pending[op.task].delta]) == s.pending[op.task].delta + Total([]);
    }
  }

  lemma {:induction false} RunInTwoParts(start: State, a: seq<Op>, b: seq<Op>, user: Id)
    ensures Run(start, a + b) == Run(Run(start, a), b)
    ensures Lost(start, a + b, user) == Lost(start, a, user) + Lost(Run(start, a), b, user)
    decreases |b|
  {
    hide Step, Overshoot;
    if b == [] {
      assert a + b == a;
    } else {
      var n := |b| - 1;
      RunInTwoParts(start, a, b[..n], user);
      assert (a + b)[..|a + b| - 1] == a + b[..n];
    }
  }

  lemma {:induction false} CallsOfCalls(calls: seq<Op>, updates: seq<Op>)
    requires forall i :: 0 <= i < |calls| ==> !calls[i].Execute?
    requires forall i :: 0 <= i < |updates| ==> updates[i].Execute?
    ensures Calls(calls + updates) == calls
    decreases |calls| + |updates|
  {
    if updates != [] {
      assert (calls + updates)[..|calls + updates| - 1] == calls + updates[..|updates| - 1];
      CallsOfCalls(calls, updates[..|updates| - 1]);
    } else if calls != [] {
      assert (calls + updates)[..|calls + updates| - 1] == calls[..|calls| - 1] + [];
      CallsOfCalls(calls[..|calls| - 1], []);
      assert calls == calls[..|calls| - 1] + [calls[|calls| - 1]];
    } else {
      assert calls + updates == [];
    }
  }

  /** The calls alone, with every update delayed: all that is due is pending. */
  lemma {:induction false} AllDelayed(start: State, calls: seq<Op>, user: Id)
    requires forall i :: 0 <= i < |calls| ==> !calls[i].Execute?
    ensures Run(start, calls).scores == start.scores && Lost(start, calls, user) == 0
    ensures Run(start, calls).pending == start.pending + Spawned(start, calls)
  {
    hide Step, SpawnedBy;
    if calls != [] {
      AllDelayed(start, calls[..|calls| - 1], user);
      CallSpawns(Run(start, calls[..|calls| - 1]), calls[|calls| - 1]);
    }
  }

  lemma {:induction false} UpdatesWarnNobody(start: State, ops: seq<Op>, user: Id)
    requires forall i :: 0 <= i < |ops| ==> ops[i].Execute?
    ensures Warnings(start, ops, user) == 0
  {
    if ops != [] {
      UpdatesWarnNobody(start, ops[..|ops| - 1], user);
    }
  }

  /** Draining loses exactly what it misses of the exact total. */
  lemma DrainLoses(s: State, ops: seq<Op>, user: Id)
    requires user in s.scores && Drains(s, ops)
    ensures Score(Run(s, ops), user) + Lost(s, ops, user) == Score(s, user) + PendingSum(s.pending, user)
  {
    ScoreBooksBalance(map[], s, ops, user);
    UpdatesWarnNobody(s, ops, user);
    assert Earned(map[], Run(s, ops).reactions, user) == {} == Earned(map[], s.reactions, user);
  }

  /** No schedule of the calls, with updates executed at any point between them or after, loses a
      point to the clamp. */
  ghost predicate NeverLoses(start: State, calls: seq<Op>, user: Id) {
    forall ops: seq<Op> :: Calls(ops) == calls ==> Lost(start, ops, user) == 0
  }

  lemma NeverLosesIfItFits(start: State, calls: seq<Op>, user: Id)
    requires user in start.scores && FitsRange(Score(start, user), Due(start, calls, user))
    ensures NeverLoses(start, calls, user)
  {
    hide Calls, Lost, FitsRange, Due, Score;
    forall ops: seq<Op> | Calls(ops) == calls ensures Lost(start, ops, user) == 0 {
      SameDue(start, ops, user);
      NothingLostIfItFits(start, ops, user);
    }
  }

  lemma FitsIfNeverLoses(start: State, calls: seq<Op>, user: Id)
    requires user in start.scores && 0 <= Score(start, user) <= MAX_SCORE
    requires forall i :: 0 <= i < |calls| ==> !calls[i].Execute?
    requires NeverLoses(start, calls, user)
    ensures FitsRange(Score(start, user), Due(start, calls, user))
  {
    hide Calls, Lost, Due, Score, Deltas, PendingSum, Gains, Losses, Drains, Run;
    var mid := Run(start, calls);
    DelayedDue(start, calls, user);
    forall updates: seq<Op> | Drains(mid, updates)
      ensures Score(Run(mid, updates), user) == Score(mid, user) + PendingSum(mid.pending, user)
    {
      DrainsExecutes(mid, updates);
      CallsOfCalls(calls, updates);
      RunInTwoParts(start, calls, updates, user);
      AllDelayed(start, calls, user);
      DrainLoses(mid, updates, user);
    }
    DrainedScoreExactIff(mid, user);
  }

  /** No schedule loses a point if and only if the start score takes all gains that are due,
      pending or spawned, without passing the maximum, and all losses without passing zero. */
  lemma NothingLostIff(start: State, calls: seq<Op>, user: Id)
    requires user in start.scores && 0 <= Score(start, user) <= MAX_SCORE
    requires forall i :: 0 <= i < |calls| ==> !calls[i].Execute?
    ensures NeverLoses(start, calls, user) <==> FitsRange(Score(start, user), Due(start, calls, user))
  {
    hide *;
    if FitsRange(Score(start, user), Due(start, calls, user)) { NeverLosesIfItFits(start, calls, user); }
    if NeverLoses(start, calls, user) { FitsIfNeverLoses(start, calls, user); }
  }

  ghost predicate Conserved(authors: Authors, start: State, ops: seq<Op>, user: Id) {
    var s := Run(start, ops);
    Score(s, user) + PendingSum(s.pending, user)
    == Score(start, user) + PendingSum(start.pending, user)
       + 2 * |Earned(authors, s.reactions, user)| - 2 * |Earned(authors, start.reactions, user)|
       - 5 * Warnings(start, ops, user)
  }

  /** So score and pending updates add up to what reactions and warnings say, in every schedule of
      the calls, under exactly that condition. */
  lemma ScoreConservedIff(authors: Authors, start: State, calls: seq<Op>, user: Id)
    requires user in start.scores && 0 <= Score(start, user) <= MAX_SCORE && Consistent(authors, calls)
    requires forall i :: 0 <= i < |calls| ==> !calls[i].Execute?
    ensures (forall ops: seq<Op> :: Calls(ops) == calls ==> Conserved(authors, start, ops, user))
            <==> FitsRange(Score(start, user), Due(start, calls, user))
  {
    forall ops: seq<Op> | Calls(ops) == calls
      ensures Conserved(authors, start, ops, user) <==> Lost(start, ops, user) == 0
    {
      hide Run, Score, PendingSum, Earned, Warnings, Lost;
      ScheduleConsistent(authors, ops);
      ScoreBooksBalance(authors, start, ops, user);
    }
    NothingLostIff(start, calls, user);
    hide Conserved, Lost, Calls, FitsRange, Due;
  }

  lemma {:induction false} ScheduleConsistent(authors: Authors, ops: seq<Op>)
    requires Consistent(authors, Calls(ops))
    ensures Consistent(authors, ops)
  {
    if ops != [] {
      var n := |ops| - 1;
      assert forall i :: 0 <= i < |Calls(ops[..n])| ==> Calls(ops)[i] == Calls(ops[..n])[i];
      if !ops[n].Execute? { assert Calls(ops)[|Calls(ops[..n])|] == ops[n]; }
      ScheduleConsistent(authors, ops[..n]);
      assert forall i :: 0 <= i < n ==> ops[i] == ops[..n][i];
    }
  }

  lemma SameDue(start: State, ops: seq<Op>, user: Id)
    ensures Due(start, ops, user) == Due(start, Calls(ops), user)
  {
    ScheduleSpawnsTheSame(start, ops);
  }

  lemma DelayedDue(start: State, calls: seq<Op>, user: Id)
    requires forall i :: 0 <= i < |calls| ==> !calls[i].Execute?
    ensures Score(Run(start, calls), user) == Score(start, user)
    ensures user in start.scores ==> user in Run(start, calls).scores
    ensures Deltas(Run(start, calls).pending, user) == Due(start, calls, user)
  {
    AllDelayed(start, calls, user);
    hide Deltas;
    DeltasAppend(start.pending, Spawned(start, calls), user);
  }

  lemma DrainsExecutes(s: State, ops: seq<Op>)
    requires Drains(s, ops)
    ensures forall i :: 0 <= i < |ops| ==> ops[i].Execute?
  {
  }
}
