/** What every run of post calls keeps: reference counts, counters and events. */
module PostProperties {
  import opened Common
  import opened Counting
  import opened AuthUsers
  import opened Permissions
  import opened AttachmentKeys
  import opened Posts

  /** What a call that is not refused can rely on. */
  lemma AllowedMeans(s: State, op: Op)
    requires Refusal(s, op).None?
    ensures match op
            case Create(r, _, _, _) => r.category.Some?
            case Edit(_, id, _) => id < |s.posts| && !s.posts[id].deleted
            case Delete(_, id) => id < |s.posts| && !s.posts[id].deleted
            case Approve(_, id) => id < |s.posts| && s.posts[id].status.Pending?
            case Reject(_, id) => id < |s.posts| && s.posts[id].status.Pending?
            case Upload(_, _, _, _, _) => true
  {
    hide UsageSince, UploadRefusal, KeysIn;
  }

  // ── What no call changes ───────────────────────────────────────────────────

  /** A later state of a post: thread, author and time are fixed, a published post stays published,
      a deleted one stays deleted and keeps its content. */
  predicate Continues(p: Post, q: Post) {
    && q.thread == p.thread && q.author == p.author && q.createdAt == p.createdAt
    && (p.status.Published? ==> q.status.Published?)
    && (p.deleted ==> q.deleted && q.content == p.content)
  }

  ghost predicate PostsContinue(before: seq<Post>, after: seq<Post>) {
    |before| <= |after| && forall id :: 0 <= id < |before| ==> Continues(before[id], after[id])
  }

  lemma StepContinues(s: State, op: Op)
    ensures PostsContinue(s.posts, Step(s, op).posts)
  {
    hide KeysIn, Refusal, ResolvePostStatus, SyncRefs, UsageSince;
    if Refusal(s, op).None? { AllowedMeans(s, op); }
  }

  /** However a run goes on, no post is lost, moved, unpublished or brought back, and nobody edits
      a deleted one. */
  lemma {:induction false} RunContinues(start: State, ops: seq<Op>, n: nat)
    requires n <= |ops|
    ensures PostsContinue(Run(start, ops[..n]).posts, Run(start, ops).posts)
  {
    if n < |ops| {
      var earlier := ops[..|ops| - 1];
      assert earlier[..n] == ops[..n];
      RunContinues(start, earlier, n);
      StepContinues(Run(start, earlier), ops[|ops| - 1]);
    } else {
      assert ops[..n] == ops;
    }
  }

  /** Content the blacklist flags is stored, but an ordinary caller's post then waits: it is neither
      counted nor announced. */
  lemma FlaggedPostWaits(s: State, op: Op)
    requires op.Create? && Refusal(s, op).None? && op.r.blacklisted
    requires !op.r.actor.HasPerm(ADMIN_USERS) && !op.r.actor.HasPermIn(MOD_WARN, op.r.category.value.id)
    ensures var t := Step(s, op);
            && |t.posts| == |s.posts| + 1 && t.posts[|s.posts|].status.Pending?
            && t.replies == s.replies && t.postCounts == s.postCounts && t.events == s.events
  {
    hide KeysIn, Refusal, SyncRefs;
    AllowedMeans(s, op);
  }

  lemma OnlyApprovalPublishes(s: State, op: Op, id: nat)
    requires id < |s.posts| && s.posts[id].status.Pending?
    ensures id < |Step(s, op).posts|
    ensures Step(s, op).posts[id].status.Published? ==> op.Approve? && op.id == id && Refusal(s, op).None?
  {
    hide KeysIn, Refusal, ResolvePostStatus, SyncRefs, UsageSince;
    if Refusal(s, op).None? { AllowedMeans(s, op); }
  }

  /** A post that waited and is published now was approved in between, by a call that was allowed. */
  lemma {:induction false} PublishedWasApproved(start: State, ops: seq<Op>, n: nat, id: nat) returns (at: nat)
    requires n <= |ops| && id < |Run(start, ops[..n]).posts| && Run(start, ops[..n]).posts[id].status.Pending?
    requires id < |Run(start, ops).posts| && Run(start, ops).posts[id].status.Published?
    ensures n <= at < |ops| && ops[at].Approve? && ops[at].id == id
    ensures Refusal(Run(start, ops[..at]), ops[at]).None?
  {
    hide Step, Refusal;
    assert ops[..|ops|] == ops;
    var earlier := ops[..|ops| - 1];
    assert earlier[..n] == ops[..n];
    RunContinues(start, earlier, n);
    if Run(start, earlier).posts[id].status.Published? {
      at := PublishedWasApproved(start, earlier, n, id);
      assert earlier[..at] == ops[..at];
    } else {
      at := |ops| - 1;
      OnlyApprovalPublishes(Run(start, earlier), ops[|ops| - 1], id);
    }
  }

  /** What a banned caller can still change: only approving and rejecting do not ask about a ban.
      An approval that is allowed always changes the state, a rejection unless the post was deleted
      already. */
  lemma BannedCallerChangesIff(s: State, op: Op)
    requires op.r.actor.IsCurrentlyBanned(op.r.now)
    ensures Step(s, op) != s
            <==> Refusal(s, op).None? && (op.Approve? || (op.Reject? && !s.posts[op.id].deleted))
    ensures Step(s, op) != s && op.Approve? ==>
              op.id < |Step(s, op).posts| && Step(s, op).posts[op.id].status.Published?
  {
    hide KeysIn, UsageSince, ContentRefusal, ParentRefusal, SyncRefs, Add, AddClamped;
    if Refusal(s, op).None? {
      AllowedMeans(s, op);
      if op.Approve? {
        assert |Step(s, op).events| == |s.events| + 1;
      } else if op.Reject? {
        assert Step(s, op).posts[op.id].deleted;
        if s.posts[op.id].deleted { assert Step(s, op).posts == s.posts; }
      }
    }
  }

  // ── Attachment references ──────────────────────────────────────────────────

  ghost function Embeds(key: Key): Post -> bool {
    (p: Post) => !p.deleted && key in KeysIn(p.content)
  }

  /** How many posts that are not deleted embed the key. */
  ghost function Live(s: State, key: Key): nat { Count(s.posts, Embeds(key)) }

  ghost function Floored(n: int): nat { if n < 0 then 0 else n }

  /** The keys a post counts for. */
  function LiveKeys(p: Post): set<Key> { if p.deleted then {} else KeysIn(p.content) }

  /** The live embedders of a key moved by at most one, and the key's count, if it has a row, by
      the same amount but not below zero. A new row has count zero and comes without a move. */
  ghost predicate MoveTogether(s: State, t: State, key: Key) {
    var delta := Live(t, key) - Live(s, key);
    && -1 <= delta <= 1
    && (key in s.refs ==> key in t.refs && t.refs[key] == Floored(s.refs[key] + delta))
    && (key !in s.refs && key in t.refs ==> delta == 0 && t.refs[key] == 0)
  }

  lemma NewPostMoves(s: State, t: State, p: Post, key: Key)
    requires t.posts == s.posts + [p] && t.refs == SyncRefs(s.refs, {}, LiveKeys(p))
    ensures MoveTogether(s, t, key)
  {
    CountAppend(s.posts, p, Embeds(key));
    hide KeysIn;
  }

  lemma PostMoves(s: State, t: State, id: nat, p: Post, key: Key)
    requires id < |s.posts| && t.posts == s.posts[id := p]
    requires t.refs == SyncRefs(s.refs, LiveKeys(s.posts[id]), LiveKeys(p))
    ensures MoveTogether(s, t, key)
  {
    CountUpdate(s.posts, id, p, Embeds(key));
    hide KeysIn;
  }

  lemma SyncNothing(refs: map<Key, nat>, keys: set<Key>)
    ensures SyncRefs(refs, keys, keys) == refs
  {
  }

  /** Every call keeps count and live embedders of every key in step. */
  lemma StepMovesTogether(s: State, op: Op, key: Key)
    ensures MoveTogether(s, Step(s, op), key)
  {
    hide KeysIn, Refusal, ResolvePostStatus, SyncRefs, Add, AddClamped, MoveTogether;
    if Refusal(s, op).None? {
      AllowedMeans(s, op);
      var t := Step(s, op);
      match op {
        case Create(_, _, _, _) => NewPostMoves(s, t, t.posts[|s.posts|], key);
        case Edit(_, id, _) => PostMoves(s, t, id, t.posts[id], key);
        case Delete(_, id) => PostMoves(s, t, id, t.posts[id], key);
        case Reject(_, id) =>
          SyncNothing(s.refs, {});
          PostMoves(s, t, id, t.posts[id], key);
        case Approve(_, id) =>
          SyncNothing(s.refs, LiveKeys(s.posts[id]));
          PostMoves(s, t, id, t.posts[id], key);
        case Upload(_, _, _, _, _) => RowMoves(s, t, key);
      }
    } else {
      RowMoves(s, s, key);
    }
  }

  lemma RowMoves(s: State, t: State, key: Key)
    requires t.posts == s.posts && (t.refs == s.refs || exists k :: k !in s.refs && t.refs == s.refs[k := 0])
    ensures MoveTogether(s, t, key)
  {
    hide KeysIn;
  }

  /** The fewest live embedders the key has had at any moment since it got its row. */
  ghost function LowWater(start: State, ops: seq<Op>, key: Key): nat {
    var live := Live(Run(start, ops), key);
    if ops == [] || key !in Run(start, ops[..|ops| - 1]).refs then live
    else
      var earlier := LowWater(start, ops[..|ops| - 1], key);
      if earlier < live then earlier else live
  }

  /** The stored count is the number of live embedders, less the embedders that were there before
      the file was first stored and have been there ever since. */
  lemma {:induction false} CountIsLiveLessLowWater(start: State, ops: seq<Op>, key: Key)
    requires start.refs == map[] && key in Run(start, ops).refs
    ensures LowWater(start, ops, key) <= Live(Run(start, ops), key)
    ensures Run(start, ops).refs[key] == Live(Run(start, ops), key) - LowWater(start, ops, key)
  {
    var earlier := ops[..|ops| - 1];
    StepMovesTogether(Run(start, earlier), ops[|ops| - 1], key);
    if key in Run(start, earlier).refs {
      CountIsLiveLessLowWater(start, earlier, key);
    }
  }

  /** The key has a row and no live post embeds it. */
  ghost predicate Free(s: State, key: Key) { key in s.refs && Live(s, key) == 0 }

  /** At some moment since the key got its row, no live post embedded it. */
  ghost predicate WasFree(start: State, ops: seq<Op>, key: Key) {
    exists n :: 0 <= n <= |ops| && Free(Run(start, ops[..n]), key)
  }

  lemma {:induction false} RowsStay(start: State, ops: seq<Op>, n: nat, key: Key)
    requires n <= |ops| && key in Run(start, ops[..n]).refs
    ensures key in Run(start, ops).refs
  {
    if n < |ops| {
      var earlier := ops[..|ops| - 1];
      assert earlier[..n] == ops[..n];
      RowsStay(start, earlier, n, key);
      StepMovesTogether(Run(start, earlier), ops[|ops| - 1], key);
    } else {
      assert ops[..n] == ops;
    }
  }

  lemma WasFreeGrows(start: State, ops: seq<Op>, key: Key)
    requires ops != []
    ensures WasFree(start, ops, key) <==> WasFree(start, ops[..|ops| - 1], key) || Free(Run(start, ops), key)
  {
    hide Run, Free;
    var earlier := ops[..|ops| - 1];
    assert ops[..|ops|] == ops;
    assert forall n :: 0 <= n <= |earlier| ==> earlier[..n] == ops[..n];
  }

  lemma NotFreeWithoutRow(start: State, ops: seq<Op>, key: Key)
    requires key !in Run(start, ops).refs
    ensures !WasFree(start, ops, key)
  {
    hide Run, Live;
    if n :| 0 <= n <= |ops| && Free(Run(start, ops[..n]), key) {
      RowsStay(start, ops, n, key);
    }
  }

  lemma {:induction false} LowWaterZeroIffWasFree(start: State, ops: seq<Op>, key: Key)
    requires start.refs == map[] && key in Run(start, ops).refs
    ensures LowWater(start, ops, key) == 0 <==> WasFree(start, ops, key)
  {
    hide Live, Step, WasFree;
    WasFreeGrows(start, ops, key);
    var earlier := ops[..|ops| - 1];
    if key in Run(start, earlier).refs {
      LowWaterZeroIffWasFree(start, earlier, key);
    } else {
      NotFreeWithoutRow(start, earlier, key);
    }
  }

  /** A stored count never exceeds the live embedders, so a file with a positive count is always
      embedded by some post that is not deleted. The count is exact if and only if the file has,
      at some moment since it was stored, been embedded by no live post. */
  lemma ReferenceCounts(start: State, ops: seq<Op>, key: Key)
    requires start.refs == map[] && key in Run(start, ops).refs
    ensures var s := Run(start, ops);
            && s.refs[key] <= Live(s, key)
            && (s.refs[key] == Live(s, key) <==> WasFree(start, ops, key))
  {
    CountIsLiveLessLowWater(start, ops, key);
    LowWaterZeroIffWasFree(start, ops, key);
  }

  /** When a call takes away a live embedder, it meets a stored count of zero only where every
      live embedder was there before the file and has been ever since; so never, once the file has
      been free. */
  lemma DecrementMeetsZeroIff(start: State, ops: seq<Op>, op: Op, key: Key)
    requires start.refs == map[] && key in Run(start, ops).refs
    requires Live(Step(Run(start, ops), op), key) < Live(Run(start, ops), key)
    ensures Run(start, ops).refs[key] == 0 <==> Live(Run(start, ops), key) == LowWater(start, ops, key)
    ensures WasFree(start, ops, key) ==>
              && Run(start, ops).refs[key] > 0 && key in Step(Run(start, ops), op).refs
              && Step(Run(start, ops), op).refs[key] == Run(start, ops).refs[key] - 1
  {
    CountIsLiveLessLowWater(start, ops, key);
    ReferenceCounts(start, ops, key);
    StepMovesTogether(Run(start, ops), op, key);
  }

  /** The call writes content that embeds the key. */
  predicate Writes(op: Op, key: Key) { (op.Create? || op.Edit?) && key in KeysIn(op.content) }

  lemma OnlyWritingAdds(s: State, op: Op, key: Key)
    requires !Writes(op, key)
    ensures Live(Step(s, op), key) <= Live(s, key)
  {
    hide KeysIn, Refusal, ResolvePostStatus, SyncRefs, Add, AddClamped;
    if Refusal(s, op).None? {
      AllowedMeans(s, op);
      var t := Step(s, op);
      match op {
        case Create(_, _, _, _) => CountAppend(s.posts, t.posts[|s.posts|], Embeds(key));
        case Edit(_, id, _) => CountUpdate(s.posts, id, t.posts[id], Embeds(key));
        case Delete(_, id) => CountUpdate(s.posts, id, t.posts[id], Embeds(key));
        case Reject(_, id) => CountUpdate(s.posts, id, t.posts[id], Embeds(key));
        case Approve(_, id) => CountUpdate(s.posts, id, t.posts[id], Embeds(key));
        case Upload(_, _, _, _, _) =>
      }
    }
  }

  /** Whenever the run writes the key into a post, the file is stored already. */
  ghost predicate StoredFirst(start: State, ops: seq<Op>, key: Key) {
    forall i :: 0 <= i < |ops| && Writes(ops[i], key) ==> key in Run(start, ops[..i]).refs
  }

  lemma RowComesAlone(s: State, op: Op, key: Key)
    requires key !in s.refs && key in Step(s, op).refs
    ensures Live(Step(s, op), key) == Live(s, key)
  {
    StepMovesTogether(s, op, key);
  }

  lemma StoredFirstBefore(start: State, ops: seq<Op>, key: Key)
    requires ops != [] && StoredFirst(start, ops, key)
    ensures var earlier, op := ops[..|ops| - 1], ops[|ops| - 1];
            StoredFirst(start, earlier, key) && (Writes(op, key) ==> key in Run(start, earlier).refs)
  {
    hide Run, Writes;
    var earlier := ops[..|ops| - 1];
    assert forall i :: 0 <= i <= |earlier| ==> earlier[..i] == ops[..i];
    assert earlier[..|earlier|] == earlier;
  }

  lemma {:induction false} StoredFirstIsFree(start: State, ops: seq<Op>, key: Key)
    requires start.refs == map[] && start.posts == [] && StoredFirst(start, ops, key)
    ensures if key in Run(start, ops).refs then WasFree(start, ops, key) else Live(Run(start, ops), key) == 0
  {
    if ops != [] {
      hide Step, Live, WasFree, Writes, StoredFirst;
      var earlier, op := ops[..|ops| - 1], ops[|ops| - 1];
      StoredFirstBefore(start, ops, key);
      StoredFirstIsFree(start, earlier, key);
      WasFreeGrows(start, ops, key);
      if key !in Run(start, earlier).refs {
        OnlyWritingAdds(Run(start, earlier), op, key);
        if key in Run(start, ops).refs { RowComesAlone(Run(start, earlier), op, key); }
      } else {
        assert ops[..|earlier|] == earlier && ops[..|ops|] == ops;
        RowsStay(start, ops, |earlier|, key);
      }
    }
  }

  /** Where the URL is posted only after its file is stored, the count is always exact. */
  lemma StoredFirstIsExact(start: State, ops: seq<Op>, key: Key)
    requires start.refs == map[] && start.posts == [] && StoredFirst(start, ops, key)
    requires key in Run(start, ops).refs
    ensures Run(start, ops).refs[key] == Live(Run(start, ops), key)
  {
    StoredFirstIsFree(start, ops, key);
    ReferenceCounts(start, ops, key);
  }

  /** An untroubled request: an active member posting to an open thread of a public category. */
  function SampleRequest(): Request {
    Request(AuthUser(0, LEADER, false, None, {POST_CREATE, POST_DELETE_ANY, FILE_UPLOAD}, map[]), 0,
            Some(ThreadRow(0, false, false)), Some(Category(0, Public, Members)),
            true, true, false, false, NEW, 0)
  }

  lemma SamplesAreAllowed(s: State, url: string, digest: Digest)
    requires |url| <= 100 && '/' in url
    ensures Refusal(s, Create(SampleRequest(), 0, None, url)).None?
    ensures s.files == [] ==> Refusal(s, Upload(SampleRequest(), digest, 1, "image/png", true)).None?
    ensures s.posts != [] && !s.posts[0].deleted ==> Refusal(s, Delete(SampleRequest(), 0)).None?
  {}

  lemma RunSnoc(start: State, ops: seq<Op>, op: Op)
    ensures Run(start, ops + [op]) == Step(Run(start, ops), op)
  {
    assert (ops + [op])[..|ops|] == ops;
  }

  lemma OneKeySync(key: Key)
    ensures SyncRefs(map[], {}, {key}) == map[]
    ensures SyncRefs(map[key := 0], {}, {key}) == map[key := 1]
    ensures SyncRefs(map[key := 1], {key}, {}) == map[key := 0]
  {}

  lemma SampleSteps(s: State, url: string, digest: Digest)
    requires |url| <= 100 && '/' in url
    ensures var t := Step(s, Create(SampleRequest(), 0, None, url));
            && t.posts == s.posts + [Post(0, 0, url, Published, false, 0)]
            && t.refs == SyncRefs(s.refs, {}, KeysIn(url)) && t.files == s.files
    ensures var key := CasKey(NAMESPACE, digest, "image/png");
            s.files == [] && key !in s.refs ==>
              Step(s, Upload(SampleRequest(), digest, 1, "image/png", true))
              == s.(refs := s.refs[key := 0], files := [FileRow(key, 0, 1, 0)])
    ensures s.posts != [] && !s.posts[0].deleted ==>
              var t := Step(s, Delete(SampleRequest(), 0));
              && t.posts == s.posts[0 := s.posts[0].(deleted := true)]
              && t.refs == SyncRefs(s.refs, KeysIn(s.posts[0].content), {})
  {
    hide KeysIn, Refusal, SyncRefs;
    SamplesAreAllowed(s, url, digest);
  }

  lemma EarlyEmbedStates(s0: State, url: string, digest: Digest, key: Key)
    requires s0 == State([], map[], [], map[], map[], [])
    requires |url| <= 100 && '/' in url && KeysIn(url) == {key}
    requires key == CasKey(NAMESPACE, digest, "image/png")
    ensures var r, p := SampleRequest(), Post(0, 0, url, Published, false, 0);
            var s3 := Step(Step(Step(s0, Create(r, 0, None, url)), Upload(r, digest, 1, "image/png", true)),
                           Create(r, 0, None, url));
            s3.posts == [p, p] && s3.refs == map[key := 1]
  {
    hide KeysIn, Step, SyncRefs, CasKey;
    OneKeySync(key);
    var r, p := SampleRequest(), Post(0, 0, url, Published, false, 0);
    SampleSteps(s0, url, digest);
    var s1 := Step(s0, Create(r, 0, None, url));
    assert s1.posts == [p] && s1.refs == map[] && s1.files == [];
    SampleSteps(s1, url, digest);
    var s2 := Step(s1, Upload(r, digest, 1, "image/png", true));
    assert s2.posts == [p] && s2.refs == map[key := 0];
    SampleSteps(s2, url, digest);
  }

  /** The exception is real: a URL posted before its file is stored is never counted, so deleting
      that post later takes away the reference of another post that still embeds the file. */
  lemma EarlyEmbedUndercounts(digest: Digest) returns (ops: seq<Op>)
    ensures var s, key := Run(State([], map[], [], map[], map[], []), ops), CasKey(NAMESPACE, digest, "image/png");
            key in s.refs && s.refs[key] == 0 && Live(s, key) == 1
  {
    hide KeysIn, Step, SyncRefs;
    var key := CasKey(NAMESPACE, digest, "image/png");
    var url := ROUTE + key;
    AcceptedUploadIsKey(digest, "image/png");
    OneUrlOneKey(key);
    OneKeySync(key);
    assert url[0] == '/';
    var r := SampleRequest();
    var a, b, c := Create(r, 0, None, url), Upload(r, digest, 1, "image/png", true), Delete(r, 0);
    var s0 := State([], map[], [], map[], map[], []);
    EarlyEmbedStates(s0, url, digest, key);
    var s3 := Step(Step(Step(s0, a), b), a);
    SampleSteps(s3, url, digest);
    ops := RunFour(s0, a, b, a, c);
    var p := s3.posts[0];
    CountAppend([p.(deleted := true)], p, Embeds(key));
    CountAppend([], p.(deleted := true), Embeds(key));
    assert Step(s3, c).posts == [] + [p.(deleted := true)] + [p];
  }

  lemma RunFour(s: State, a: Op, b: Op, c: Op, d: Op) returns (ops: seq<Op>)
    ensures Run(s, ops) == Step(Step(Step(Step(s, a), b), c), d)
  {
    hide Step;
    RunSnoc(s, [], a);
    RunSnoc(s, [] + [a], b);
    RunSnoc(s, [] + [a] + [b], c);
    RunSnoc(s, [] + [a] + [b] + [c], d);
    ops := [] + [a] + [b] + [c] + [d];
  }

  // ── Reply counts and post counts ───────────────────────────────────────────

  datatype Scope = OfThread(thread: Id) | OfAuthor(author: Id)

  predicate InScope(scope: Scope, p: Post) {
    match scope
    case OfThread(t) => p.thread == t
    case OfAuthor(a) => p.author == a
  }

  ghost function Counted(scope: Scope): Post -> bool {
    (p: Post) => p.status.Published? && !p.deleted && InScope(scope, p)
  }

  function Counter(s: State, scope: Scope): int {
    match scope
    case OfThread(t) => Get(s.replies, t)
    case OfAuthor(a) => Get(s.postCounts, a)
  }

  /** Approvals in the run of posts of the scope that had been deleted already. */
  ghost function LateApprovals(start: State, ops: seq<Op>, scope: Scope): nat {
    if ops == [] then 0 else
    var s, op := Run(start, ops[..|ops| - 1]), ops[|ops| - 1];
    LateApprovals(start, ops[..|ops| - 1], scope) +
    (if op.Approve? && Refusal(s, op).None? && s.posts[op.id].deleted && InScope(scope, s.posts[op.id]) then 1 else 0)
  }

  ghost function Change(s: State, t: State, scope: Scope): int {
    (Counter(t, scope) - Counter(s, scope)) - (Count(t.posts, Counted(scope)) - Count(s.posts, Counted(scope)))
  }

  lemma AddMoves(m: map<Id, int>, k: Id, delta: int, j: Id)
    ensures Get(Add(m, k, delta), j) == Get(m, j) + (if j == k then delta else 0)
    ensures Get(AddClamped(m, k, delta), j)
            == if j != k then Get(m, j) else if Get(m, k) + delta < 0 then 0 else Get(m, k) + delta
  {
  }

  lemma CreateMoves(s: State, r: Request, threadId: Id, content: string, scope: Scope)
    requires r.category.Some? && (scope.OfAuthor? ==> Counter(s, scope) >= 0)
    ensures Change(s, CreateEffect(s, r, threadId, content), scope) == 0
  {
    hide KeysIn, ResolvePostStatus, SyncRefs, Get, Add, AddClamped;
    var p := Post(threadId, r.actor.id, content, ResolvePostStatus(r, r.category.value), false, r.now);
    CountAppend(s.posts, p, Counted(scope));
    match scope {
      case OfThread(t) => AddMoves(s.replies, threadId, 1, t);
      case OfAuthor(a) => AddMoves(s.postCounts, r.actor.id, 1, a);
    }
  }

  lemma DeleteMoves(s: State, id: nat, scope: Scope)
    requires id < |s.posts| && !s.posts[id].deleted
    requires scope.OfAuthor? ==> Counter(s, scope) >= Count(s.posts, Counted(scope))
    ensures Change(s, DeleteEffect(s, id), scope) == 0
  {
    hide KeysIn, SyncRefs;
    CountUpdate(s.posts, id, s.posts[id].(deleted := true), Counted(scope));
    if Counted(scope)(s.posts[id]) {
      CountHas(s.posts, id, Counted(scope));
    }
  }

  lemma ApproveMoves(s: State, id: nat, scope: Scope)
    requires id < |s.posts| && s.posts[id].status.Pending? && (scope.OfAuthor? ==> Counter(s, scope) >= 0)
    ensures Change(s, ApproveEffect(s, id), scope)
            == if s.posts[id].deleted && InScope(scope, s.posts[id]) then 1 else 0
  {
    CountUpdate(s.posts, id, s.posts[id].(status := Published), Counted(scope));
  }

  /** One call moves a counter and the published live posts together, up to a late approval,
      provided a clamped counter is not below the posts it counts. */
  lemma StepMovesCounter(s: State, op: Op, scope: Scope)
    requires scope.OfAuthor? ==> Counter(s, scope) >= Count(s.posts, Counted(scope))
    ensures Change(s, Step(s, op), scope)
            == if op.Approve? && Refusal(s, op).None? && s.posts[op.id].deleted
                  && InScope(scope, s.posts[op.id]) then 1 else 0
  {
    hide KeysIn, Refusal, SyncRefs, CreateEffect, DeleteEffect, ApproveEffect;
    if Refusal(s, op).None? {
      AllowedMeans(s, op);
      match op {
        case Create(r, threadId, _, content) => CreateMoves(s, r, threadId, content, scope);
        case Edit(_, id, content) =>
          CountUpdate(s.posts, id, s.posts[id].(content := content), Counted(scope));
        case Delete(_, id) => DeleteMoves(s, id, scope);
        case Approve(_, id) => ApproveMoves(s, id, scope);
        case Reject(_, id) =>
          CountUpdate(s.posts, id, s.posts[id].(deleted := true), Counted(scope));
        case Upload(_, _, _, _, _) =>
      }
    }
  }

  /** A thread's reply count and an author's post count grow by exactly the published posts that
      are not deleted plus the approvals of deleted posts; the clamp at zero never acts. */
  lemma {:induction false} CountersFollowPosts(start: State, ops: seq<Op>, scope: Scope)
    requires start.posts == [] && (scope.OfAuthor? ==> Counter(start, scope) >= 0)
    ensures Counter(Run(start, ops), scope)
            == Counter(start, scope) + Count(Run(start, ops).posts, Counted(scope)) + LateApprovals(start, ops, scope)
  {
    if ops != [] {
      CountersFollowPosts(start, ops[..|ops| - 1], scope);
      StepMovesCounter(Run(start, ops[..|ops| - 1]), ops[|ops| - 1], scope);
    }
  }

  // ── Creation events ────────────────────────────────────────────────────────

  ghost predicate Announced(s: State) {
    forall id: nat :: multiset(s.events)[PostCreated(id)]
      == if id < |s.posts| && s.posts[id].status.Published? then 1 else 0
  }

  lemma AnnouncesOne(s: State, t: State, id: nat)
    requires Announced(s) && t.events == s.events + [PostCreated(id)] && id < |t.posts| && |s.posts| <= |t.posts|
    requires t.posts[id].status.Published? && (id < |s.posts| ==> s.posts[id].status.Pending?)
    requires forall k :: 0 <= k < |t.posts| && k != id ==> k < |s.posts| && t.posts[k].status == s.posts[k].status
    ensures Announced(t)
  {
  }

  /** Nothing newly published, and at most a deletion told. */
  lemma AnnouncesNone(s: State, t: State)
    requires Announced(s) && (t.events == s.events || exists d :: t.events == s.events + [PostDeleted(d)])
    requires |s.posts| <= |t.posts|
    requires forall k :: 0 <= k < |s.posts| ==> t.posts[k].status == s.posts[k].status
    requires forall k :: |s.posts| <= k < |t.posts| ==> t.posts[k].status.Pending?
    ensures Announced(t)
  {
  }

  lemma CreateAnnounces(s: State, r: Request, threadId: Id, content: string)
    requires Announced(s) && r.category.Some?
    ensures Announced(CreateEffect(s, r, threadId, content))
  {
    hide KeysIn, ResolvePostStatus, SyncRefs, Announced, Add, AddClamped;
    var t := CreateEffect(s, r, threadId, content);
    if t.posts[|s.posts|].status.Pending? { AnnouncesNone(s, t); } else { AnnouncesOne(s, t, |s.posts|); }
  }

  lemma DeleteAnnounces(s: State, id: nat)
    requires Announced(s) && id < |s.posts|
    ensures Announced(DeleteEffect(s, id))
  {
    hide KeysIn, SyncRefs, Announced, Add, AddClamped;
    var t := DeleteEffect(s, id);
    assert t.events == s.events + [PostDeleted(id)];
    AnnouncesNone(s, t);
  }

  lemma ApproveAnnounces(s: State, id: nat)
    requires Announced(s) && id < |s.posts| && s.posts[id].status.Pending?
    ensures Announced(ApproveEffect(s, id))
  {
    hide Announced, Add, AddClamped;
    AnnouncesOne(s, ApproveEffect(s, id), id);
  }

  lemma EditAnnounces(s: State, id: nat, content: string)
    requires Announced(s) && id < |s.posts|
    ensures Announced(EditEffect(s, id, content))
  {
    hide KeysIn, SyncRefs, Announced;
    AnnouncesNone(s, EditEffect(s, id, content));
  }

  lemma RejectAnnounces(s: State, id: nat)
    requires Announced(s) && id < |s.posts|
    ensures Announced(Removed(s, id))
  {
    hide KeysIn, SyncRefs, Announced;
    AnnouncesNone(s, Removed(s, id));
  }

  lemma UploadAnnounces(s: State, r: Request, digest: Digest, size: nat, contentType: string)
    requires Announced(s)
    ensures Announced(UploadEffect(s, r, digest, size, contentType))
  {
    hide CasKey, Announced;
    AnnouncesNone(s, UploadEffect(s, r, digest, size, contentType));
  }

  lemma StepAnnounces(s: State, op: Op)
    requires Announced(s)
    ensures Announced(Step(s, op))
  {
    hide Refusal, Announced, CreateEffect, EditEffect, DeleteEffect, ApproveEffect, Removed, UploadEffect;
    if Refusal(s, op).None? {
      AllowedMeans(s, op);
      match op {
        case Create(r, threadId, _, content) => CreateAnnounces(s, r, threadId, content);
        case Delete(_, id) => DeleteAnnounces(s, id);
        case Approve(_, id) => ApproveAnnounces(s, id);
        case Edit(_, id, content) => EditAnnounces(s, id, content);
        case Reject(_, id) => RejectAnnounces(s, id);
        case Upload(r, digest, size, contentType, _) => UploadAnnounces(s, r, digest, size, contentType);
      }
    }
  }

  /** In every run the creation of a post has been announced exactly once if the post is
      published, and not at all while it is pending. */
  lemma {:induction false} PublishedIffAnnouncedOnce(start: State, ops: seq<Op>)
    requires start.posts == [] && start.events == []
    ensures Announced(Run(start, ops))
  {
    if ops != [] {
      PublishedIffAnnouncedOnce(start, ops[..|ops| - 1]);
      StepAnnounces(Run(start, ops[..|ops| - 1]), ops[|ops| - 1]);
    }
  }

  // ── Upload quota ───────────────────────────────────────────────────────────

  /** Rows and bytes of the user in a closed time window. */
  ghost function UsageWithin(files: seq<FileRow>, user: Id, from: int, to: int): (nat, nat) {
    if files == [] then (0, 0) else
    var f, rest := files[|files| - 1], UsageWithin(files[..|files| - 1], user, from, to);
    if f.uploader == user && from <= f.createdAt <= to then (rest.0 + 1, rest.1 + f.size) else rest
  }

  lemma {:induction false} WithinIsSince(files: seq<FileRow>, user: Id, from: int, to: int, since: int)
    requires since <= from
    ensures var w, u := UsageWithin(files, user, from, to), UsageSince(files, user, since);
            w.0 <= u.0 && w.1 <= u.1
  {
    if files != [] {
      WithinIsSince(files[..|files| - 1], user, from, to, since);
    }
  }

  ghost predicate FitsWindow(files: seq<FileRow>, user: Id, from: int) {
    var w := UsageWithin(files, user, from, from + UPLOAD_QUOTA_WINDOW);
    w.0 <= MAX_UPLOADS_PER_WINDOW && w.1 <= MAX_UPLOAD_BYTES_PER_WINDOW
  }

  ghost predicate WithinQuota(files: seq<FileRow>, user: Id) {
    forall from :: FitsWindow(files, user, from)
  }

  lemma NewRowKeepsQuota(files: seq<FileRow>, f: FileRow, user: Id)
    requires WithinQuota(files, user)
    requires f.uploader == user ==>
      var u := UsageSince(files, user, f.createdAt - UPLOAD_QUOTA_WINDOW);
      u.0 < MAX_UPLOADS_PER_WINDOW && u.1 + f.size <= MAX_UPLOAD_BYTES_PER_WINDOW
    ensures WithinQuota(files + [f], user)
  {
    forall from ensures FitsWindow(files + [f], user, from) {
      assert (files + [f])[..|files|] == files;
      assert FitsWindow(files, user, from);
      if from <= f.createdAt <= from + UPLOAD_QUOTA_WINDOW {
        WithinIsSince(files, user, from, from + UPLOAD_QUOTA_WINDOW, f.createdAt - UPLOAD_QUOTA_WINDOW);
      }
    }
  }

  function NewRow(op: Op): FileRow
    requires op.Upload?
  {
    FileRow(CasKey(NAMESPACE, op.digest, op.contentType), op.r.actor.id, op.size, op.r.now)
  }

  /** Only an upload adds a row, and only staff add one beyond the quota. */
  lemma RowsAdded(s: State, op: Op)
    ensures Step(s, op).files == s.files || (op.Upload? && Step(s, op).files == s.files + [NewRow(op)])
    ensures Step(s, op).files != s.files && !IsStaff(op.r.actor) ==>
              var u := UsageSince(s.files, op.r.actor.id, op.r.now - UPLOAD_QUOTA_WINDOW);
              u.0 < MAX_UPLOADS_PER_WINDOW && u.1 + op.size <= MAX_UPLOAD_BYTES_PER_WINDOW
  {
    hide KeysIn, UsageSince, CasKey, CreateRefusal, EditRefusal, DeleteRefusal, ModerateRefusal, IsStaff;
    if Refusal(s, op).None? { AllowedMeans(s, op); }
  }

  lemma StepKeepsQuota(s: State, op: Op, user: Id)
    requires WithinQuota(s.files, user)
    requires op.Upload? && op.r.actor.id == user ==> !IsStaff(op.r.actor)
    ensures WithinQuota(Step(s, op).files, user)
  {
    hide Step, UsageSince, WithinQuota, IsStaff;
    RowsAdded(s, op);
    if Step(s, op).files != s.files {
      NewRowKeepsQuota(s.files, NewRow(op), user);
    }
  }

  /** Whatever the run, every window of 24 hours holds at most 50 rows and 100 MiB that an account
      stored, if no upload of the account was made with staff permissions. */
  lemma {:induction false} UploadsStayWithinQuota(start: State, ops: seq<Op>, user: Id)
    requires WithinQuota(start.files, user)
    requires forall i :: 0 <= i < |ops| && ops[i].Upload? && ops[i].r.actor.id == user ==> !IsStaff(ops[i].r.actor)
    ensures WithinQuota(Run(start, ops).files, user)
  {
    hide Step, WithinQuota, IsStaff;
    if ops != [] {
      var earlier, op := ops[..|ops| - 1], ops[|ops| - 1];
      UploadsStayWithinQuota(start, earlier, user);
      StepKeepsQuota(Run(start, earlier), op, user);
    }
  }
}
