/** The guards of the post use cases, in the order the checks are made. None means allowed. */
module Permissions {
  import opened Common
  import opened AuthUsers

  datatype ViewPolicy = Public | MembersOnly | StaffOnly
  datatype PostPolicy = Members | Trusted | StaffMembers | Closed | Moderated
  datatype Category = Category(id: Id, viewPolicy: ViewPolicy, postPolicy: PostPolicy)

  function CanViewCategory(user: Option<AuthUser>, category: Category): Option<Error> {
    match category.viewPolicy
    case Public => None
    case MembersOnly =>
      if user.None? then Some(Unauthorized)
      else if user.value.HasPerm(POST_CREATE) || user.value.MeetsTrust(BASIC) then None
      else Some(Forbidden("trust_level_insufficient"))
    case StaffOnly =>
      if user.Some? && (user.value.HasPermIn(MOD_VIEW_REPORTS, category.id) || user.value.HasPerm(ADMIN_USERS))
      then None else Some(NotFound)
  }

  function MinTrust(policy: PostPolicy): TrustLevel {
    match policy
    case Members => BASIC
    case Moderated => BASIC
    case Trusted => MEMBER
    case StaffMembers => LEADER
    case Closed => LEADER
  }

  function CanCreatePost(user: AuthUser, category: Category, now: int): Option<Error> {
    if user.IsCurrentlyBanned(now) then Some(Forbidden("account_suspended"))
    else if category.viewPolicy.StaffOnly? && !user.HasPermIn(MOD_WARN, category.id) && !user.HasPerm(ADMIN_USERS)
    then Some(NotFound)
    else if category.postPolicy.Closed? then Some(Forbidden("category_closed"))
    else if !user.HasPermIn(POST_CREATE, category.id) then Some(Forbidden("permission_denied"))
    else if !user.HasPermIn(MOD_WARN, category.id) && !user.MeetsTrust(MinTrust(category.postPolicy))
    then Some(Forbidden("trust_level_insufficient"))
    else None
  }

  function CanEditPost(user: AuthUser, author: Id, deleted: bool, createdAt: int, category: Id,
                       editWindow: int, now: int): Option<Error> {
    if user.IsCurrentlyBanned(now) then Some(Forbidden("account_suspended"))
    else if deleted then Some(NotFound)
    else if user.HasPermIn(THREAD_EDIT_ANY, category) then None
    else if author != user.id then Some(Forbidden("not_author"))
    else if !user.HasPerm(POST_EDIT_OWN) then Some(Forbidden("permission_denied"))
    else if now - createdAt > editWindow then Some(Forbidden("edit_window_expired"))
    else None
  }

  function CanDeletePost(user: AuthUser, author: Id, deleted: bool, category: Id, now: int): Option<Error> {
    if user.IsCurrentlyBanned(now) then Some(Forbidden("account_suspended"))
    else if deleted then Some(NotFound)
    else if user.HasPermIn(POST_DELETE_ANY, category) then None
    else if author == user.id && user.HasPerm(POST_DELETE_OWN) then None
    else Some(Forbidden("permission_denied"))
  }

  function CanUpload(user: AuthUser, now: int): Option<Error> {
    if user.IsCurrentlyBanned(now) then Some(Forbidden("account_suspended"))
    else if !user.HasPerm(FILE_UPLOAD) then Some(Forbidden("permission_denied"))
    else if !user.HasPerm(MOD_WARN) && !user.MeetsTrust(MEMBER) then Some(Forbidden("trust_level_insufficient"))
    else None
  }

  predicate CanModerate(user: AuthUser, category: Id) {
    user.HasPerm(MOD_VIEW_REPORTS) || user.HasPermIn(MOD_VIEW_REPORTS, category)
  }

  /** Whoever may post in a category may also see it, except in two cases: a staff category for
      someone without the right to view reports there, and a members' category for someone new who
      may post only in that category. Both need the right to warn there, which stands in for
      the other conditions of posting. */
  lemma PostersCanView(user: AuthUser, category: Category, now: int)
    requires CanCreatePost(user, category, now).None?
    ensures CanViewCategory(Some(user), category).Some? <==>
      || (category.viewPolicy.StaffOnly? && !user.HasPermIn(MOD_VIEW_REPORTS, category.id) && !user.HasPerm(ADMIN_USERS))
      || (category.viewPolicy.MembersOnly? && !user.HasPerm(POST_CREATE) && user.trustLevel == NEW)
    ensures CanViewCategory(Some(user), category).Some? ==>
      user.HasPermIn(MOD_WARN, category.id) && user.HasPermIn(POST_CREATE, category.id)
  {
    assert MinTrust(category.postPolicy) >= BASIC;
  }

  /** Both cases occur, the second even for someone who may also view reports there. */
  lemma PostersUnseen(id: Id, category: Id, now: int)
    ensures var warner := AuthUser(id, NEW, false, None, {}, map[category := {MOD_WARN, POST_CREATE}]);
            var staffRoom := Category(category, ViewPolicy.StaffOnly, Members);
            && CanCreatePost(warner, staffRoom, now).None?
            && CanViewCategory(Some(warner), staffRoom) == Some(NotFound)
    ensures var moderator := AuthUser(id, NEW, false, None, {}, map[category := {MOD_WARN, POST_CREATE, MOD_VIEW_REPORTS}]);
            var lounge := Category(category, MembersOnly, Members);
            && CanCreatePost(moderator, lounge, now).None?
            && CanViewCategory(Some(moderator), lounge) == Some(Forbidden("trust_level_insufficient"))
  {
  }
}
