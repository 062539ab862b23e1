/** The authenticated caller: resolved permissions, trust level and ban claim. */
module AuthUsers {
  import opened Common

  type Id = nat

  /** Trust levels in order: New, Basic, Member, Regular, Leader. */
  type TrustLevel = t: int | 0 <= t <= 4
  const NEW: TrustLevel := 0
  const BASIC: TrustLevel := 1
  const MEMBER: TrustLevel := 2
  const LEADER: TrustLevel := 4

  datatype AuthUser = AuthUser(
    id: Id,
    trustLevel: TrustLevel,
    isBanned: bool,
    bannedUntil: Option<int>,
    permissions: set<string>,
    categoryPermissions: map<Id, set<string>>)
  {
    predicate IsCurrentlyBanned(now: int) {
      isBanned && (bannedUntil.None? || bannedUntil.value > now)
    }

    predicate HasPerm(key: string) { key in permissions }

    predicate HasPermIn(key: string, category: Id) {
      HasPerm(key) || (category in categoryPermissions && key in categoryPermissions[category])
    }

    predicate HasPermAnyCategory(key: string) {
      HasPerm(key) || exists c <- categoryPermissions.Keys :: key in categoryPermissions[c]
    }

    /** None means every category; otherwise the categories where the key is held by scope. */
    function PermittedCategoryIds(key: string): Option<set<Id>> {
      if HasPerm(key) then None
      else Some(set c | c in categoryPermissions && key in categoryPermissions[c])
    }

    predicate MeetsTrust(required: TrustLevel) { trustLevel >= required }
  }

  const THREAD_EDIT_ANY := "thread.edit_any"
  const POST_CREATE := "post.create"
  const POST_EDIT_OWN := "post.edit_own"
  const POST_DELETE_OWN := "post.delete_own"
  const POST_DELETE_ANY := "post.delete_any"
  const FILE_UPLOAD := "file.upload"
  const MOD_VIEW_REPORTS := "moderation.view_reports"
  const MOD_WARN := "moderation.warn"
  const ADMIN_USERS := "admin.users"
}
