/** The post use case over its repositories, updated in place call by call. */
module PostUseCases {
  import opened Common
  import opened AuthUsers
  import opened AttachmentKeys
  import opened Posts

  lemma TakeOne(refs: map<Key, nat>, taken: set<Key>, key: Key)
    requires key !in taken
    ensures var sofar := SyncRefs(refs, {}, taken);
            SyncRefs(refs, {}, taken + {key}) == if key in sofar then sofar[key := sofar[key] + 1] else sofar
  {}

  lemma GiveOne(refs: map<Key, nat>, given: set<Key>, key: Key)
    requires key !in given
    ensures var sofar := SyncRefs(refs, given, {});
            SyncRefs(refs, given + {key}, {})
            == if key in sofar && sofar[key] > 0 then sofar[key := sofar[key] - 1] else sofar
  {}

  lemma TakeThenGive(refs: map<Key, nat>, before: set<Key>, after: set<Key>)
    ensures SyncRefs(SyncRefs(refs, {}, after - before), before - after, {}) == SyncRefs(refs, before, after)
    ensures SyncRefs(refs, {}, {}) == refs
  {}

  class PostUseCase {
    var posts: seq<Post>
    var refs: map<Key, nat>
    var files: seq<FileRow>
    var replies: map<Id, int>
    var postCounts: map<Id, int>
    var events: seq<Event>

    constructor ()
      ensures View() == State([], map[], [], map[], map[], [])
    {
      posts, refs, files, replies, postCounts, events := [], map[], [], map[], map[], [];
    }

    ghost function View(): State
      reads this
    {
      State(posts, refs, files, replies, postCounts, events)
    }

    // ── Repository calls ─────────────────────────────────────────────────────

    method IncrementRef(key: Key)
      modifies this`refs
      ensures refs == if key in old(refs) then old(refs)[key := old(refs)[key] + 1] else old(refs)
    {
      if key in refs {
        refs := refs[key := refs[key] + 1];
      }
    }

    method DecrementRef(key: Key)
      modifies this`refs
      ensures refs == if key in old(refs) && old(refs)[key] > 0
                      then old(refs)[key := old(refs)[key] - 1] else old(refs)
    {
      if key in refs && refs[key] > 0 {
        refs := refs[key := refs[key] - 1];
      }
    }

    method UpdateReplyStats(thread: Id, delta: int)
      modifies this`replies
      ensures replies == Add(old(replies), thread, delta)
      ensures Get(replies, thread) == Get(old(replies), thread) + delta
      ensures forall t: Id :: t != thread ==> Get(replies, t) == Get(old(replies), t)
    {
      replies := replies[thread := Get(replies, thread) + delta];
    }

    method IncrementPostCount(user: Id, delta: int)
      modifies this`postCounts
      ensures postCounts == AddClamped(old(postCounts), user, delta)
      ensures var sum := Get(old(postCounts), user) + delta; Get(postCounts, user) == if sum < 0 then 0 else sum
      ensures forall u: Id :: u != user ==> Get(postCounts, u) == Get(old(postCounts), u)
    {
      var sum := Get(postCounts, user) + delta;
      postCounts := postCounts[user := if sum < 0 then 0 else sum];
    }

    // ── The use case ─────────────────────────────────────────────────────────

    /** Takes a reference for each key the edit added and gives one back for each it removed. */
    method SyncAttachmentRefs(before: string, after: string)
      modifies this`refs
      ensures refs == SyncRefs(old(refs), KeysIn(before), KeysIn(after))
    {
      hide KeysIn, SyncRefs;
      var oldKeys := ExtractAttachmentKeys(before);
      var newKeys := ExtractAttachmentKeys(after);
      TakeThenGive(refs, oldKeys, newKeys);
      var todo := newKeys - oldKeys;
      ghost var done := {};
      while todo != {}
        invariant refs == SyncRefs(old(refs), {}, done)
        invariant done + todo == newKeys - oldKeys && done !! todo
        decreases todo
      {
        var key :| key in todo;
        TakeOne(old(refs), done, key);
        IncrementRef(key);
        todo, done := todo - {key}, done + {key};
      }
      assert done == newKeys - oldKeys;
      ghost var taken := refs;
      TakeThenGive(taken, {}, {});
      todo, done := oldKeys - newKeys, {};
      while todo != {}
        invariant refs == SyncRefs(taken, done, {})
        invariant done + todo == oldKeys - newKeys && done !! todo
        decreases todo
      {
        var key :| key in todo;
        GiveOne(taken, done, key);
        DecrementRef(key);
        todo, done := todo - {key}, done + {key};
      }
      assert done == oldKeys - newKeys;
    }

    method Create(r: Request, threadId: Id, parent: Option<nat>, content: string) returns (refused: Option<Error>)
      modifies this
      ensures refused == Refusal(old(View()), Op.Create(r, threadId, parent, content))
      ensures View() == Step(old(View()), Op.Create(r, threadId, parent, content))
    {
      refused := CreateRefusal(posts, r, threadId, parent, content);
      if refused.Some? { return; }
      var status := ResolvePostStatus(r, r.category.value);
      var id := |posts|;
      posts := posts + [Post(threadId, r.actor.id, content, status, false, r.now)];
      SyncAttachmentRefs("", content);
      NoKeysInNothing();
      if status.Pending? { return; }
      UpdateReplyStats(threadId, 1);
      IncrementPostCount(r.actor.id, 1);
      events := events + [PostCreated(id)];
    }

    method Edit(r: Request, id: nat, content: string) returns (refused: Option<Error>)
      modifies this
      ensures refused == Refusal(old(View()), Op.Edit(r, id, content))
      ensures View() == Step(old(View()), Op.Edit(r, id, content))
    {
      refused := EditRefusal(posts, r, id, content);
      if refused.Some? { return; }
      var before := posts[id].content;
      posts := posts[id := posts[id].(content := content)];
      SyncAttachmentRefs(before, content);
    }

    method SoftDelete(id: nat)
      requires id < |posts|
      modifies this`posts
      ensures posts == old(posts)[id := old(posts)[id].(deleted := true)]
    {
      posts := posts[id := posts[id].(deleted := true)];
    }

    method Delete(r: Request, id: nat) returns (refused: Option<Error>)
      modifies this
      ensures refused == Refusal(old(View()), Op.Delete(r, id))
      ensures View() == Step(old(View()), Op.Delete(r, id))
    {
      refused := DeleteRefusal(posts, r, id);
      if refused.Some? { return; }
      var post := posts[id];
      SoftDelete(id);
      if !post.deleted {
        SyncAttachmentRefs(post.content, "");
        NoKeysInNothing();
      }
      events := events + [PostDeleted(id)];
      if !post.status.Pending? {
        UpdateReplyStats(post.thread, -1);
        IncrementPostCount(post.author, -1);
      }
    }

    method ApprovePost(r: Request, id: nat) returns (refused: Option<Error>)
      modifies this
      ensures refused == Refusal(old(View()), Op.Approve(r, id))
      ensures View() == Step(old(View()), Op.Approve(r, id))
    {
      refused := ModerateRefusal(posts, r, id);
      if refused.Some? { return; }
      var post := posts[id];
      posts := posts[id := post.(status := Published)];
      UpdateReplyStats(post.thread, 1);
      IncrementPostCount(post.author, 1);
      events := events + [PostCreated(id)];
    }

    method RejectPost(r: Request, id: nat) returns (refused: Option<Error>)
      modifies this
      ensures refused == Refusal(old(View()), Op.Reject(r, id))
      ensures View() == Step(old(View()), Op.Reject(r, id))
    {
      refused := ModerateRefusal(posts, r, id);
      if refused.Some? { return; }
      var post := posts[id];
      SoftDelete(id);
      if !post.deleted {
        SyncAttachmentRefs(post.content, "");
        NoKeysInNothing();
      }
    }

    method UploadAttachment(r: Request, digest: Digest, size: nat, contentType: string, magicOk: bool)
        returns (refused: Option<Error>, url: string)
      modifies this
      ensures refused == Refusal(old(View()), Op.Upload(r, digest, size, contentType, magicOk))
      ensures View() == Step(old(View()), Op.Upload(r, digest, size, contentType, magicOk))
      ensures refused.None? ==>
        var key := CasKey(NAMESPACE, digest, contentType);
        url == ROUTE + key && IsKey(key) && key in refs
    {
      url := "";
      refused := UploadRefusal(files, r, size, contentType, magicOk);
      if refused.Some? { return; }
      var key := CasKey(NAMESPACE, digest, contentType);
      AcceptedUploadIsKey(digest, contentType);
      if key !in refs {
        refs := refs[key := 0];
        files := files + [FileRow(key, r.actor.id, size, r.now)];
      }
      url := ROUTE + key;
    }
  }

  lemma NoKeysInNothing()
    ensures KeysIn("") == {}
  {}
}
