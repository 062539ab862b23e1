/** Posts and files as the history of the calls: every column of a post, and every stored file, is
    what the latest call that wrote it said. */
module PostHistory {
  import opened Common
  import opened AuthUsers
  import opened Permissions
  import opened AttachmentKeys
  import opened Posts
  import opened PostProperties

  /** The call at this place was not refused. */
  ghost predicate Allowed(start: State, ops: seq<Op>, i: int) {
    0 <= i < |ops| && Refusal(Run(start, ops[..i]), ops[i]).None?
  }

  ghost predicate Creates(start: State, ops: seq<Op>, i: int, id: nat) {
    Allowed(start, ops, i) && ops[i].Create? && id == |Run(start, ops[..i]).posts|
  }

  ghost predicate Edits(start: State, ops: seq<Op>, i: int, id: nat) {
    Allowed(start, ops, i) && ops[i].Edit? && ops[i].id == id
  }

  ghost predicate Deletes(start: State, ops: seq<Op>, i: int, id: nat) {
    Allowed(start, ops, i) && ops[i].Delete? && ops[i].id == id
  }

  ghost predicate Rejects(start: State, ops: seq<Op>, i: int, id: nat) {
    Allowed(start, ops, i) && ops[i].Reject? && ops[i].id == id
  }

  ghost predicate Approves(start: State, ops: seq<Op>, i: int, id: nat) {
    Allowed(start, ops, i) && ops[i].Approve? && ops[i].id == id
  }

  /** The author has no right to publish at once, and the content, the category or the author's
      trust level calls for approval. */
  predicate MustWait(r: Request)
    requires r.category.Some?
  {
    && ADMIN_USERS !in r.actor.permissions && !r.actor.HasPermIn(MOD_WARN, r.category.value.id)
    && (r.blacklisted || r.category.value.postPolicy == Moderated
        || (r.approvalEnabled && r.actor.trustLevel < r.approvalMinTrust))
  }

  // ── One call ───────────────────────────────────────────────────────────────

  /** What each call that is allowed does to the posts. */
  lemma PostsAfter(s: State, op: Op)
    requires Refusal(s, op).None?
    ensures var t := Step(s, op);
            match op
            case Create(r, threadId, _, content) =>
              && r.category.Some? && |t.posts| == |s.posts| + 1 && t.posts[..|s.posts|] == s.posts
              && var p := t.posts[|s.posts|];
                 && p.thread == threadId && p.author == r.actor.id && p.content == content
                 && !p.deleted && p.createdAt == r.now && (p.status.Pending? <==> MustWait(r))
            case Edit(_, id, content) =>
              id < |s.posts| && t.posts == s.posts[id := s.posts[id].(content := content)]
            case Delete(_, id) => id < |s.posts| && t.posts == s.posts[id := s.posts[id].(deleted := true)]
            case Reject(_, id) => id < |s.posts| && t.posts == s.posts[id := s.posts[id].(deleted := true)]
            case Approve(_, id) => id < |s.posts| && t.posts == s.posts[id := s.posts[id].(status := Published)]
            case Upload(_, _, _, _, _) => t.posts == s.posts
  {
    hide KeysIn, Refusal, SyncRefs, Add, AddClamped;
    AllowedMeans(s, op);
  }

  /** An edit that is allowed changes the content of its post and the reference counts, and nothing
      else. */
  lemma EditChangesOnly(s: State, op: Op)
    requires op.Edit? && Refusal(s, op).None?
    ensures op.id < |s.posts| && Step(s, op).posts == s.posts[op.id := s.posts[op.id].(content := op.content)]
    ensures Step(s, op).refs.Keys == s.refs.Keys && Step(s, op).files == s.files && Step(s, op).events == s.events
    ensures Step(s, op).replies == s.replies && Step(s, op).postCounts == s.postCounts
  {
    hide KeysIn, Refusal;
    AllowedMeans(s, op);
  }

  // ── Every run ──────────────────────────────────────────────────────────────

  lemma Prefixes(ops: seq<Op>)
    requires ops != []
    ensures forall i :: 0 <= i < |ops| ==> ops[..|ops| - 1][..i] == ops[..i]
    ensures forall i :: 0 <= i < |ops| - 1 ==> ops[..|ops| - 1][i] == ops[i]
  {
  }

  /** Going one call further: the earlier calls are what they were, and the last one is new. */
  lemma HistoryGrows(start: State, ops: seq<Op>, id: nat)
    requires ops != []
    ensures var n, earlier := |ops| - 1, ops[..|ops| - 1];
            && (forall i :: i < n ==> (Creates(start, ops, i, id) <==> Creates(start, earlier, i, id)))
            && (forall i :: i < n ==> (Edits(start, ops, i, id) <==> Edits(start, earlier, i, id)))
            && (forall i :: i < n ==> (Deletes(start, ops, i, id) <==> Deletes(start, earlier, i, id)))
            && (forall i :: i < n ==> (Rejects(start, ops, i, id) <==> Rejects(start, earlier, i, id)))
            && (forall i :: i < n ==> (Approves(start, ops, i, id) <==> Approves(start, earlier, i, id)))
  {
    hide Run, Refusal;
    Prefixes(ops);
  }

  /** The content of a post is that of the latest allowed call that created or edited it. */
  lemma {:induction false} ContentIsLatest(start: State, ops: seq<Op>, id: nat) returns (at: nat)
    requires start.posts == [] && id < |Run(start, ops).posts|
    ensures at < |ops| && (Creates(start, ops, at, id) || Edits(start, ops, at, id))
    ensures forall i :: at < i ==> !Creates(start, ops, i, id) && !Edits(start, ops, i, id)
    ensures Run(start, ops).posts[id].content == ops[at].content
  {
    var n, earlier, op := |ops| - 1, ops[..|ops| - 1], ops[|ops| - 1];
    var s := Run(start, earlier);
    HistoryGrows(start, ops, id);
    if Refusal(s, op).None? { PostsAfter(s, op); }
    hide Run, Refusal, MustWait;
    assert Run(start, ops) == if Refusal(s, op).None? then Step(s, op) else s by { LastCall(start, ops); }
    hide Step;
    if Creates(start, ops, n, id) || Edits(start, ops, n, id) {
      at := n;
    } else {
      at := ContentIsLatest(start, earlier, id);
    }
  }

  lemma LastCall(start: State, ops: seq<Op>)
    requires ops != []
    ensures var s, op := Run(start, ops[..|ops| - 1]), ops[|ops| - 1];
            Run(start, ops) == if Refusal(s, op).None? then Step(s, op) else s
  {
  }

  /** A post that the last call creates has no earlier history. */
  lemma NothingBefore(start: State, ops: seq<Op>, id: nat)
    requires ops != [] && Creates(start, ops, |ops| - 1, id)
    ensures forall i :: !Deletes(start, ops, i, id) && !Rejects(start, ops, i, id) && !Approves(start, ops, i, id)
  {
    var n := |ops| - 1;
    assert ops[..n][..n] == ops[..n];
    forall i | 0 <= i < n && Allowed(start, ops, i)
      ensures !Deletes(start, ops, i, id) && !Rejects(start, ops, i, id) && !Approves(start, ops, i, id)
    {
      assert ops[..n][..i] == ops[..i];
      RunContinues(start, ops[..n], i);
      AllowedMeans(Run(start, ops[..i]), ops[i]);
    }
  }

  /** What one call does to a post that is there. */
  lemma OnePostAfter(s: State, op: Op, id: nat)
    requires id < |s.posts|
    ensures id < |Step(s, op).posts|
    ensures var p, q, allowed := s.posts[id], Step(s, op).posts[id], Refusal(s, op).None?;
            && q.thread == p.thread && q.author == p.author && q.createdAt == p.createdAt
            && (q.deleted <==> p.deleted || (allowed && (op.Delete? || op.Reject?) && op.id == id))
            && (q.status.Published? <==> p.status.Published? || (allowed && op.Approve? && op.id == id))
  {
    if Refusal(s, op).None? {
      PostsAfter(s, op);
      hide Step, Refusal, MustWait;
      if op.Create? { assert Step(s, op).posts[id] == Step(s, op).posts[..|s.posts|][id]; }
    }
  }

  /** Where a post came from: thread, author and time are those of the call that created it. */
  lemma {:induction false} PostOrigin(start: State, ops: seq<Op>, id: nat) returns (at: nat)
    requires start.posts == [] && id < |Run(start, ops).posts|
    ensures Creates(start, ops, at, id) && ops[at].r.category.Some?
    ensures var p := Run(start, ops).posts[id];
            p.thread == ops[at].threadId && p.author == ops[at].r.actor.id && p.createdAt == ops[at].r.now
  {
    var n, earlier, op := |ops| - 1, ops[..|ops| - 1], ops[|ops| - 1];
    var s := Run(start, earlier);
    assert ops[..n] == earlier;
    if id < |s.posts| {
      at := PostOrigin(start, earlier, id);
      OnePostAfter(s, op, id);
      HistoryGrows(start, ops, id);
      hide Step, Refusal, MustWait;
    } else {
      at := n;
      PostsAfter(s, op);
      hide Refusal, MustWait, Step;
    }
  }

  /** A post is deleted exactly if a deletion or a rejection of it was allowed. */
  lemma {:induction false} DeletedIff(start: State, ops: seq<Op>, id: nat)
    requires start.posts == [] && id < |Run(start, ops).posts|
    ensures Run(start, ops).posts[id].deleted <==> exists i :: Deletes(start, ops, i, id) || Rejects(start, ops, i, id)
  {
    var n, earlier, op := |ops| - 1, ops[..|ops| - 1], ops[|ops| - 1];
    var s := Run(start, earlier);
    assert ops[..n] == earlier;
    if id < |s.posts| {
      DeletedIff(start, earlier, id);
      OnePostAfter(s, op, id);
      HistoryGrows(start, ops, id);
      hide Step, Refusal;
      assert Deletes(start, ops, n, id) || Rejects(start, ops, n, id)
        <==> Refusal(s, op).None? && (op.Delete? || op.Reject?) && op.id == id;
    } else {
      PostsAfter(s, op);
      hide Step, Refusal, MustWait;
      NothingBefore(start, ops, id);
    }
  }

  /** A post is published exactly if it did not have to wait or an approval of it was allowed. */
  lemma {:induction false} PublishedIff(start: State, ops: seq<Op>, at: nat, id: nat)
    requires start.posts == [] && id < |Run(start, ops).posts|
    requires Creates(start, ops, at, id) && ops[at].r.category.Some?
    ensures Run(start, ops).posts[id].status.Published?
            <==> !MustWait(ops[at].r) || exists i :: Approves(start, ops, i, id)
  {
    var n, earlier, op := |ops| - 1, ops[..|ops| - 1], ops[|ops| - 1];
    var s := Run(start, earlier);
    assert ops[..n] == earlier;
    if at < n {
      HistoryGrows(start, ops, id);
      assert earlier[..at] == ops[..at];
      CreatedIsThere(start, earlier, at, id);
      PublishedIff(start, earlier, at, id);
      OnePostAfter(s, op, id);
      assert Approves(start, ops, n, id) <==> Refusal(s, op).None? && op.Approve? && op.id == id;
      hide Step, Refusal, MustWait, Approves, Creates, Edits, Deletes, Rejects;
      assert (exists i :: Approves(start, ops, i, id))
        <==> (exists i :: Approves(start, earlier, i, id)) || Approves(start, ops, n, id) by {
        hide Run;
        NoneBeyond(start, earlier, id);
        NoneBeyond(start, ops, id);
      }
    } else {
      PostsAfter(s, op);
      hide Step, Refusal, MustWait;
      NothingBefore(start, ops, id);
    }
  }

  lemma NoneBeyond(start: State, ops: seq<Op>, id: nat)
    ensures forall i :: Approves(start, ops, i, id) ==> 0 <= i < |ops|
  {
  }

  lemma CreatedIsThere(start: State, ops: seq<Op>, at: nat, id: nat)
    requires Creates(start, ops, at, id)
    ensures id < |Run(start, ops).posts|
  {
    PostsAfter(Run(start, ops[..at]), ops[at]);
    RunContinues(start, ops, at + 1);
    assert ops[..at + 1][..at] == ops[..at];
    LastCall(start, ops[..at + 1]);
  }

  /** A deletion is announced once for every post that was deleted, and never for a rejection. */
  lemma {:induction false} DeletionsAnnounced(start: State, ops: seq<Op>, id: nat)
    requires start.posts == [] && start.events == []
    ensures multiset(Run(start, ops).events)[PostDeleted(id)] == if exists i :: Deletes(start, ops, i, id) then 1 else 0
  {
    if ops != [] {
      var n, earlier, op := |ops| - 1, ops[..|ops| - 1], ops[|ops| - 1];
      var s := Run(start, earlier);
      DeletionsAnnounced(start, earlier, id);
      HistoryGrows(start, ops, id);
      assert ops[..n] == earlier;
      EventsAfter(s, op, id);
      if Deletes(start, ops, n, id) {
        forall i ensures !Deletes(start, earlier, i, id) {
          if Deletes(start, earlier, i, id) {
            AllowedMeans(s, op);
            AllowedMeans(Run(start, earlier[..i]), earlier[i]);
            DeletedIff(start, earlier, id);
          }
        }
      }
      LastCall(start, ops);
      hide Run, Step, Refusal;
    }
  }

  lemma EventsAfter(s: State, op: Op, id: nat)
    ensures multiset(Step(s, op).events)[PostDeleted(id)]
            == multiset(s.events)[PostDeleted(id)]
               + (if op.Delete? && op.id == id && Refusal(s, op).None? then 1 else 0)
  {
    hide KeysIn, Refusal, SyncRefs, Add, AddClamped, ResolvePostStatus;
    if Refusal(s, op).None? { AllowedMeans(s, op); }
  }

  // ── Stored files ───────────────────────────────────────────────────────────

  ghost predicate Stores(start: State, ops: seq<Op>, i: int, key: Key) {
    Allowed(start, ops, i) && ops[i].Upload? && CasKey(NAMESPACE, ops[i].digest, ops[i].contentType) == key
  }

  lemma FilesAfter(s: State, op: Op)
    ensures var t := Step(s, op);
            if op.Upload? && Refusal(s, op).None? then
              var key := CasKey(NAMESPACE, op.digest, op.contentType);
              && ValidImageContentType(op.contentType)
              && t.refs.Keys == s.refs.Keys + {key} && (key !in s.refs ==> t.refs[key] == 0)
              && t.files == if key in s.refs then s.files else s.files + [FileRow(key, op.r.actor.id, op.size, op.r.now)]
            else t.refs.Keys == s.refs.Keys && t.files == s.files
  {
    hide KeysIn, CasKey, UsageSince, CreateRefusal, EditRefusal, DeleteRefusal, ModerateRefusal;
    if Refusal(s, op).None? { AllowedMeans(s, op); }
  }

  /** A key has a row exactly if an allowed upload had that key. */
  lemma {:induction false} StoredIffUploaded(start: State, ops: seq<Op>, key: Key)
    requires start.refs == map[]
    ensures key in Run(start, ops).refs <==> exists i :: Stores(start, ops, i, key)
  {
    if ops != [] {
      var n, earlier, op := |ops| - 1, ops[..|ops| - 1], ops[|ops| - 1];
      StoredIffUploaded(start, earlier, key);
      Prefixes(ops);
      assert ops[..n] == earlier;
      FilesAfter(Run(start, earlier), op);
      LastCall(start, ops);
      hide Run, Step, Refusal, CasKey;
      assert forall i :: i < n ==> (Stores(start, ops, i, key) <==> Stores(start, earlier, i, key));
      assert key in Run(start, ops).refs <==> key in Run(start, earlier).refs || Stores(start, ops, n, key);
    }
  }

  predicate SameImage(op: Op, other: Op)
    requires op.Upload? && other.Upload?
  {
    op.digest == other.digest
    && (op.contentType == other.contentType || (IsJpeg(op.contentType) && IsJpeg(other.contentType)))
  }

  /** An allowed upload of an image nobody uploaded before adds a row of its own, with the uploader,
      size and time of the call; one of an image uploaded before adds none. */
  lemma NewImageNewRow(start: State, ops: seq<Op>, op: Op)
    requires start.refs == map[] && op.Upload? && Refusal(Run(start, ops), op).None?
    ensures var s, t := Run(start, ops), Step(Run(start, ops), op);
            if exists i :: Allowed(start, ops, i) && ops[i].Upload? && SameImage(ops[i], op) then t.files == s.files
            else t.files == s.files + [NewRow(op)]
  {
    var s, key := Run(start, ops), CasKey(NAMESPACE, op.digest, op.contentType);
    FilesAfter(s, op);
    StoredIffUploaded(start, ops, key);
    forall i | Allowed(start, ops, i) && ops[i].Upload?
      ensures Stores(start, ops, i, key) <==> SameImage(ops[i], op)
    {
      FilesAfter(Run(start, ops[..i]), ops[i]);
      KeysEqualIff(ops[i].digest, ops[i].contentType, op.digest, op.contentType);
    }
    hide Run, Step, Refusal, CasKey, SameImage;
  }
}
