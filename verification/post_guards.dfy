/** What each post call answers, as the list of its checks in order, of which the first that fails
    decides; in terms of the caller's and the rows' own fields. */
module PostGuards {
  import opened Common
  import opened Counting
  import opened AuthUsers
  import opened Permissions
  import opened AttachmentKeys
  import opened Posts

  predicate UnderBan(user: AuthUser, now: int) {
    user.isBanned && (user.bannedUntil == None || user.bannedUntil.value > now)
  }

  predicate HasAnywhereOrIn(user: AuthUser, key: string, category: Id) {
    key in user.permissions || (category in user.categoryPermissions && key in user.categoryPermissions[category])
  }

  /** Who sees a category: a guest only public ones, and the answer for a staff category does not
      admit that it exists. */
  lemma ViewAnswers(user: Option<AuthUser>, category: Category)
    ensures CanViewCategory(user, category)
            == ALLOWED
               .OrIf(category.viewPolicy.MembersOnly? && user.None?, Unauthorized)
               .OrIf(category.viewPolicy.MembersOnly?
                     && !(user.Some? && ("post.create" in user.value.permissions || user.value.trustLevel >= 1)),
                     Forbidden("trust_level_insufficient"))
               .OrIf(category.viewPolicy == ViewPolicy.StaffOnly
                     && !(user.Some? && (HasAnywhereOrIn(user.value, "moderation.view_reports", category.id)
                                         || "admin.users" in user.value.permissions)),
                     NotFound)
  {
  }

  /** What posting in a category takes: no ban, for a staff category the right to warn there or to
      administer users, a category that is not closed, the right to post there, and the trust level
      its policy asks for, which the right to warn there stands in for. */
  lemma PostingAnswers(user: AuthUser, category: Category, now: int)
    ensures var warns := HasAnywhereOrIn(user, "moderation.warn", category.id);
            CanCreatePost(user, category, now)
            == ALLOWED
               .OrIf(UnderBan(user, now), Forbidden("account_suspended"))
               .OrIf(category.viewPolicy == ViewPolicy.StaffOnly && !warns && "admin.users" !in user.permissions, NotFound)
               .OrIf(category.postPolicy == Closed, Forbidden("category_closed"))
               .OrIf(!HasAnywhereOrIn(user, "post.create", category.id), Forbidden("permission_denied"))
               .OrIf(!warns && (|| user.trustLevel < 1
                                || (category.postPolicy == Trusted && user.trustLevel < 2)
                                || (category.postPolicy == StaffMembers && user.trustLevel < 4)),
                     Forbidden("trust_level_insufficient"))
  {
  }

  lemma CreateAnswers(s: State, op: Op)
    requires op.Create?
    ensures var r, parent := op.r, op.parent;
            Refusal(s, op)
            == ALLOWED
               .OrIf(r.thread == None || r.thread.value.deleted, NotFound)
               .OrIf(r.thread.Some? && r.thread.value.locked, Forbidden("thread_locked"))
               .OrIf(r.category == None, NotFound)
               .OrElse(if r.category.Some? then CanCreatePost(r.actor, r.category.value, r.now) else None)
               .OrIf(!r.hookAllows, PluginBlocked)
               .OrIf(Blank(op.content), Unprocessable("Post content cannot be empty"))
               .OrIf(|op.content| > 102400, Unprocessable("Post content exceeds 100 KB limit"))
               .OrIf(parent.Some? && parent.value >= |s.posts|, NotFound)
               .OrIf(parent.Some? && parent.value < |s.posts| && s.posts[parent.value].thread != op.threadId,
                     Unprocessable("parent_id does not belong to this thread"))
               .OrIf(!r.renders, Unprocessable("Post content exceeds the maximum allowed size"))
  {
    hide CanCreatePost;
  }

  /** An author edits while the window lasts; whoever may edit any thread in the category edits at any
      time; nobody edits a deleted post. */
  lemma EditAnswers(s: State, op: Op)
    requires op.Edit?
    ensures var r := op.r;
            Refusal(s, op)
            == var found := op.id < |s.posts| && r.thread.Some?;
               var p := if found then s.posts[op.id] else Post(0, 0, "", Pending, true, 0);
               var moderates := found && HasAnywhereOrIn(r.actor, "thread.edit_any", r.thread.value.category);
               ALLOWED
               .OrIf(Blank(op.content), Unprocessable("Post content cannot be empty"))
               .OrIf(|op.content| > 102400, Unprocessable("Post content exceeds 100 KB limit"))
               .OrIf(!found, NotFound)
               .OrIf(UnderBan(r.actor, r.now), Forbidden("account_suspended"))
               .OrIf(p.deleted, NotFound)
               .OrIf(!moderates && p.author != r.actor.id, Forbidden("not_author"))
               .OrIf(!moderates && "post.edit_own" !in r.actor.permissions, Forbidden("permission_denied"))
               .OrIf(!moderates && r.now - p.createdAt > r.editWindow, Forbidden("edit_window_expired"))
               .OrIf(!r.hookAllows, PluginBlocked)
               .OrIf(!r.renders, Unprocessable("Post content exceeds the maximum allowed size"))
  {
  }

  lemma DeleteAnswers(s: State, op: Op)
    requires op.Delete?
    ensures var r := op.r;
            Refusal(s, op)
            == var found := op.id < |s.posts| && r.thread.Some?;
               var p := if found then s.posts[op.id] else Post(0, 0, "", Pending, true, 0);
               ALLOWED
               .OrIf(!found, NotFound)
               .OrIf(UnderBan(r.actor, r.now), Forbidden("account_suspended"))
               .OrIf(p.deleted, NotFound)
               .OrIf(!(found && HasAnywhereOrIn(r.actor, "post.delete_any", r.thread.value.category))
                     && !(p.author == r.actor.id && "post.delete_own" in r.actor.permissions),
                     Forbidden("permission_denied"))
               .OrIf(!r.hookAllows, PluginBlocked)
  {
  }

  /** Approving and rejecting ask for a pending post and the right to view reports in its category. */
  lemma ModerateAnswers(s: State, op: Op)
    requires op.Approve? || op.Reject?
    ensures Refusal(s, op)
            == ALLOWED
               .OrIf(op.id >= |s.posts|, NotFound)
               .OrIf(op.id < |s.posts| && s.posts[op.id].status == Published, Unprocessable("Post is not pending approval"))
               .OrIf(op.r.thread == None, NotFound)
               .OrIf(op.r.thread.Some?
                     && !HasAnywhereOrIn(op.r.actor, "moderation.view_reports", op.r.thread.value.category),
                     Forbidden("permission_denied"))
  {
  }

  predicate Recent(f: FileRow, user: Id, since: int) { f.uploader == user && f.createdAt >= since }

  /** The usage is the number and the total size of the user's own rows since then. */
  lemma {:induction false} UsageCounts(files: seq<FileRow>, user: Id, since: int)
    ensures UsageSince(files, user, since).0 == Count(files, (f: FileRow) => Recent(f, user, since))
    ensures UsageSince(files, user, since).1 == Sum(files, (f: FileRow) => if Recent(f, user, since) then f.size else 0)
  {
    if files != [] {
      UsageCounts(files[..|files| - 1], user, since);
    }
  }

  lemma UploadAnswers(s: State, op: Op)
    requires op.Upload?
    ensures var r, since := op.r, op.r.now - 86400000;
            var warns := "moderation.warn" in r.actor.permissions;
            Refusal(s, op)
            == ALLOWED
               .OrIf(UnderBan(r.actor, r.now), Forbidden("account_suspended"))
               .OrIf("file.upload" !in r.actor.permissions, Forbidden("permission_denied"))
               .OrIf(!warns && r.actor.trustLevel < 2, Forbidden("trust_level_insufficient"))
               .OrIf(op.contentType !in ["image/jpeg", "image/jpg", "image/png", "image/webp", "image/gif"],
                     Unprocessable("attachment must be jpeg, png, webp, or gif"))
               .OrIf(op.size > 8388608, Unprocessable("attachment exceeds 8 MB size limit"))
               .OrIf(!op.magicOk, Unprocessable("file content does not match a supported image format"))
               .OrIf(!warns && "admin.users" !in r.actor.permissions
                     && (|| Count(s.files, (f: FileRow) => Recent(f, r.actor.id, since)) >= 50
                         || Sum(s.files, (f: FileRow) => if Recent(f, r.actor.id, since) then f.size else 0) + op.size > 104857600),
                     Forbidden("upload_quota_exceeded"))
  {
    UsageCounts(s.files, op.r.actor.id, op.r.now - 86400000);
    hide UsageSince, Count, Sum;
  }
}
