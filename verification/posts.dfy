/** The life of a post as a state machine: what each call refuses, and what it does when it does
    not. A refused call changes nothing. */
module Posts {
  import opened Common
  import opened AuthUsers
  import opened Permissions
  import opened AttachmentKeys

  const MAX_POST_CONTENT_BYTES := 100 * 1024
  const MAX_POST_ATTACHMENT_BYTES := 8 * 1024 * 1024
  const MAX_UPLOADS_PER_WINDOW := 50
  const MAX_UPLOAD_BYTES_PER_WINDOW := 100 * 1024 * 1024
  const UPLOAD_QUOTA_WINDOW := 24 * 3600 * 1000  // 24 hours in milliseconds

  type Key = string
  type Digest = d: seq<byte> | |d| == 16 witness seq(16, _ => 0)

  datatype Status = Pending | Published
  datatype Post = Post(thread: Id, author: Id, content: string, status: Status, deleted: bool, createdAt: int)
  datatype FileRow = FileRow(key: Key, uploader: Id, size: nat, createdAt: int)
  datatype Event = PostCreated(post: nat) | PostDeleted(post: nat)

  /** `refs` is the reference-count column of the stored files, `files` the rest of their rows in
      the order of insertion. The counters are read as 0 where they have no entry. */
  datatype State = State(
    posts: seq<Post>,
    refs: map<Key, nat>,
    files: seq<FileRow>,
    replies: map<Id, int>,
    postCounts: map<Id, int>,
    events: seq<Event>)

  datatype ThreadRow = ThreadRow(category: Id, locked: bool, deleted: bool)

  /** Who calls and when, and what the repositories and plugins not modelled here answer. */
  datatype Request = Request(
    actor: AuthUser, now: int,
    thread: Option<ThreadRow>, category: Option<Category>,
    hookAllows: bool, renders: bool, blacklisted: bool,
    approvalEnabled: bool, approvalMinTrust: TrustLevel, editWindow: int)

  datatype Op =
    | Create(r: Request, threadId: Id, parent: Option<nat>, content: string)
    | Edit(r: Request, id: nat, content: string)
    | Delete(r: Request, id: nat)
    | Approve(r: Request, id: nat)
    | Reject(r: Request, id: nat)
    | Upload(r: Request, digest: Digest, size: nat, contentType: string, magicOk: bool)

  // ── Guards ─────────────────────────────────────────────────────────────────

  function ContentRefusal(content: string): Option<Error> {
    if Blank(content) then Some(Unprocessable("Post content cannot be empty"))
    else if |content| > MAX_POST_CONTENT_BYTES then Some(Unprocessable("Post content exceeds 100 KB limit"))
    else None
  }

  function ParentRefusal(posts: seq<Post>, parent: Option<nat>, threadId: Id): Option<Error> {
    if parent.None? then None
    else if parent.value >= |posts| then Some(NotFound)
    else if posts[parent.value].thread != threadId then Some(Unprocessable("parent_id does not belong to this thread"))
    else None
  }

  function CreateRefusal(posts: seq<Post>, r: Request, threadId: Id, parent: Option<nat>, content: string): Option<Error> {
    if r.thread.None? || r.thread.value.deleted then Some(NotFound)
    else if r.thread.value.locked then Some(Forbidden("thread_locked"))
    else if r.category.None? then Some(NotFound)
    else if CanCreatePost(r.actor, r.category.value, r.now).Some? then CanCreatePost(r.actor, r.category.value, r.now)
    else if !r.hookAllows then Some(PluginBlocked)
    else if ContentRefusal(content).Some? then ContentRefusal(content)
    else if ParentRefusal(posts, parent, threadId).Some? then ParentRefusal(posts, parent, threadId)
    else if !r.renders then Some(Unprocessable("Post content exceeds the maximum allowed size"))
    else None
  }

  function EditRefusal(posts: seq<Post>, r: Request, id: nat, content: string): Option<Error> {
    if ContentRefusal(content).Some? then ContentRefusal(content)
    else if id >= |posts| || r.thread.None? then Some(NotFound)
    else
      var p := posts[id];
      var denied := CanEditPost(r.actor, p.author, p.deleted, p.createdAt, r.thread.value.category, r.editWindow, r.now);
      if denied.Some? then denied
      else if !r.hookAllows then Some(PluginBlocked)
      else if !r.renders then Some(Unprocessable("Post content exceeds the maximum allowed size"))
      else None
  }

  function DeleteRefusal(posts: seq<Post>, r: Request, id: nat): Option<Error> {
    if id >= |posts| || r.thread.None? then Some(NotFound)
    else
      var p := posts[id];
      var denied := CanDeletePost(r.actor, p.author, p.deleted, r.thread.value.category, r.now);
      if denied.Some? then denied
      else if !r.hookAllows then Some(PluginBlocked)
      else None
  }

  /** Approving and rejecting test only that the post is pending; a deleted one may be. */
  function ModerateRefusal(posts: seq<Post>, r: Request, id: nat): Option<Error> {
    if id >= |posts| then Some(NotFound)
    else if !posts[id].status.Pending? then Some(Unprocessable("Post is not pending approval"))
    else if r.thread.None? then Some(NotFound)
    else if !CanModerate(r.actor, r.thread.value.category) then Some(Forbidden("permission_denied"))
    else None
  }

  /** Rows and bytes the user stored at or after a time. */
  function UsageSince(files: seq<FileRow>, user: Id, since: int): (nat, nat) {
    if files == [] then (0, 0) else
    var f, rest := files[|files| - 1], UsageSince(files[..|files| - 1], user, since);
    if f.uploader == user && f.createdAt >= since then (rest.0 + 1, rest.1 + f.size) else rest
  }

  predicate IsStaff(user: AuthUser) { user.HasPerm(ADMIN_USERS) || user.HasPerm(MOD_WARN) }

  function UploadRefusal(files: seq<FileRow>, r: Request, size: nat, contentType: string, magicOk: bool): Option<Error> {
    if CanUpload(r.actor, r.now).Some? then CanUpload(r.actor, r.now)
    else if !ValidImageContentType(contentType) then Some(Unprocessable("attachment must be jpeg, png, webp, or gif"))
    else if size > MAX_POST_ATTACHMENT_BYTES then Some(Unprocessable("attachment exceeds 8 MB size limit"))
    else if !magicOk then Some(Unprocessable("file content does not match a supported image format"))
    else if IsStaff(r.actor) then None
    else
      var usage := UsageSince(files, r.actor.id, r.now - UPLOAD_QUOTA_WINDOW);
      if usage.0 >= MAX_UPLOADS_PER_WINDOW || usage.1 + size > MAX_UPLOAD_BYTES_PER_WINDOW
      then Some(Forbidden("upload_quota_exceeded")) else None
  }

  function Refusal(s: State, op: Op): Option<Error> {
    match op
    case Create(r, threadId, parent, content) => CreateRefusal(s.posts, r, threadId, parent, content)
    case Edit(r, id, content) => EditRefusal(s.posts, r, id, content)
    case Delete(r, id) => DeleteRefusal(s.posts, r, id)
    case Approve(r, id) => ModerateRefusal(s.posts, r, id)
    case Reject(r, id) => ModerateRefusal(s.posts, r, id)
    case Upload(r, _, size, contentType, magicOk) => UploadRefusal(s.files, r, size, contentType, magicOk)
  }

  // ── Effects ────────────────────────────────────────────────────────────────

  /** Staff publish at once; flagged content, moderated categories and, where approval is on,
      callers below the required trust level wait for approval. */
  function ResolvePostStatus(r: Request, category: Category): Status {
    if r.actor.HasPerm(ADMIN_USERS) || r.actor.HasPermIn(MOD_WARN, category.id) then Published
    else if r.blacklisted || category.postPolicy.Moderated? then Pending
    else if r.approvalEnabled && r.actor.trustLevel < r.approvalMinTrust then Pending
    else Published
  }

  /** The count of one key after a post's keys went from `before` to `after`: no count falls
      below zero, and a key without a row has none to change. */
  function NewCount(refs: map<Key, nat>, before: set<Key>, after: set<Key>, k: Key): nat {
    if k !in refs then 0
    else if k in after - before then refs[k] + 1
    else if k in before - after && refs[k] > 0 then refs[k] - 1
    else refs[k]
  }

  function SyncRefs(refs: map<Key, nat>, before: set<Key>, after: set<Key>): map<Key, nat> {
    map k | k in refs :: NewCount(refs, before, after, k)
  }

  function Get(m: map<Id, int>, k: Id): int { if k in m then m[k] else 0 }

  function Add(m: map<Id, int>, k: Id, delta: int): map<Id, int> { m[k := Get(m, k) + delta] }

  /** A user's post count is clamped at zero, unlike a thread's reply count. */
  function AddClamped(m: map<Id, int>, k: Id, delta: int): map<Id, int> {
    m[k := if Get(m, k) + delta < 0 then 0 else Get(m, k) + delta]
  }

  function Publish(s: State, id: nat, p: Post): State {
    s.(replies := Add(s.replies, p.thread, 1),
       postCounts := AddClamped(s.postCounts, p.author, 1),
       events := s.events + [PostCreated(id)])
  }

  function Unpublish(s: State, p: Post): State {
    s.(replies := Add(s.replies, p.thread, -1), postCounts := AddClamped(s.postCounts, p.author, -1))
  }

  function CreateEffect(s: State, r: Request, threadId: Id, content: string): State
    requires r.category.Some?
  {
    var p := Post(threadId, r.actor.id, content, ResolvePostStatus(r, r.category.value), false, r.now);
    var stored := s.(posts := s.posts + [p], refs := SyncRefs(s.refs, {}, KeysIn(content)));
    if p.status.Pending? then stored else Publish(stored, |s.posts|, p)
  }

  function EditEffect(s: State, id: nat, content: string): State
    requires id < |s.posts|
  {
    var p := s.posts[id];
    s.(posts := s.posts[id := p.(content := content)],
       refs := SyncRefs(s.refs, KeysIn(p.content), KeysIn(content)))
  }

  /** Soft deletion; the references are given back unless the post was deleted already. */
  function Removed(s: State, id: nat): State
    requires id < |s.posts|
  {
    var p := s.posts[id];
    s.(posts := s.posts[id := p.(deleted := true)],
       refs := if p.deleted then s.refs else SyncRefs(s.refs, KeysIn(p.content), {}))
  }

  function DeleteEffect(s: State, id: nat): State
    requires id < |s.posts|
  {
    var gone := Removed(s, id);
    var told := gone.(events := gone.events + [PostDeleted(id)]);
    if s.posts[id].status.Pending? then told else Unpublish(told, s.posts[id])
  }

  function ApproveEffect(s: State, id: nat): State
    requires id < |s.posts|
  {
    var p := s.posts[id];
    Publish(s.(posts := s.posts[id := p.(status := Published)]), id, p)
  }

  /** A staged row with count zero; an existing row of the same key is left alone. */
  function UploadEffect(s: State, r: Request, digest: Digest, size: nat, contentType: string): State {
    var key := CasKey(NAMESPACE, digest, contentType);
    if key in s.refs then s
    else s.(refs := s.refs[key := 0], files := s.files + [FileRow(key, r.actor.id, size, r.now)])
  }

  function Step(s: State, op: Op): State {
    if Refusal(s, op).Some? then s else
    match op
    case Create(r, threadId, _, content) => CreateEffect(s, r, threadId, content)
    case Edit(_, id, content) => EditEffect(s, id, content)
    case Delete(_, id) => DeleteEffect(s, id)
    case Approve(_, id) => ApproveEffect(s, id)
    case Reject(_, id) => Removed(s, id)
    case Upload(r, digest, size, contentType, _) => UploadEffect(s, r, digest, size, contentType)
  }

  function Run(start: State, ops: seq<Op>): State {
    if ops == [] then start else Step(Run(start, ops[..|ops| - 1]), ops[|ops| - 1])
  }
}
