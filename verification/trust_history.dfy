/** What the reaction and warning calls answer and spawn, and the reactions as their history. */
module TrustHistory {
  import opened Common
  import opened AuthUsers
  import opened TrustScore
  import PostGuards

  /** Reacting twice is fine and asks no plugin; taking back a reaction needs neither trust nor one's
      own reaction to be there. */
  lemma ReactAnswers(s: State, op: Op)
    requires op.React? || op.Unreact?
    ensures Refusal(s, op)
            == ALLOWED
               .OrIf(PostGuards.UnderBan(op.actor, op.now), Forbidden("account_suspended"))
               .OrIf(op.React? && op.actor.trustLevel < 1, Forbidden("trust_level_insufficient"))
               .OrIf(op.info == None || op.info.value.deleted, NotFound)
               .OrIf(op.React? && op.info.Some? && op.info.value.author == op.actor.id, Forbidden("cannot_react_to_own_post"))
               .OrIf(op.React? && Reaction(op.post, op.actor.id, op.kind) !in s.reactions && !op.hookAllows, PluginBlocked)
  {
  }

  lemma WarnAnswers(s: State, op: Op)
    requires op.Warn?
    ensures Refusal(s, op)
            == ALLOWED
               .OrIf(op.reasonLength > 1000, Unprocessable("Reason must be 1 000 characters or fewer"))
               .OrIf("moderation.warn" !in op.actor.permissions, Forbidden("permission_denied"))
               .OrIf(op.user !in s.scores, NotFound)
  {
  }

  /** The call is a reaction to, or the taking back of, just this, and was not refused. */
  predicate Concerns(s: State, op: Op, r: Reaction) {
    (op.React? || op.Unreact?) && Reaction(op.post, op.actor.id, op.kind) == r && Refusal(s, op).None?
  }

  /** The latest allowed call about the reaction: true for giving it, false for taking it back. */
  ghost function Latest(start: State, ops: seq<Op>, r: Reaction): Option<bool> {
    if ops == [] then None
    else
      var earlier, op := ops[..|ops| - 1], ops[|ops| - 1];
      if Concerns(Run(start, earlier), op, r) then Some(op.React?) else Latest(start, earlier, r)
  }

  /** A reaction is there exactly if the latest allowed call about it gave it, or it was there at the
      start and no allowed call was about it; the updates that run meanwhile do not matter. */
  lemma {:induction false} ReactionIsHistory(start: State, ops: seq<Op>, r: Reaction)
    ensures r in Run(start, ops).reactions
            <==> if Latest(start, ops, r).Some? then Latest(start, ops, r).value else r in start.reactions
  {
    if ops != [] {
      ReactionIsHistory(start, ops[..|ops| - 1], r);
    }
  }

  /** What a call spawns: two points for the author when a helpful or insightful reaction is new, two
      less when one that was there goes, five less for the warned user, and nothing otherwise. */
  lemma SpawnsExactly(s: State, op: Op)
    requires !op.Execute?
    ensures Step(s, op).scores == s.scores
    ensures Step(s, op).pending
            == s.pending
               + if Refusal(s, op).Some? then []
                 else if op.Warn? then [Task(op.user, -5)]
                 else if (op.kind == Helpful || op.kind == Insightful)
                         && (op.React? <==> Reaction(op.post, op.actor.id, op.kind) !in s.reactions)
                 then [Task(op.info.value.author, if op.React? then 2 else -2)]
                 else []
  {
    assert s.pending + [] == s.pending;
  }
}
