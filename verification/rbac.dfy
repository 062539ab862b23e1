/** Roles and permissions: the in-memory cache against the relations it is loaded from, and what
    assigning and revoking roles can do to anyone's authority. */
module Rbac {
  import opened Common
  import opened AuthUsers

  // ── Loading and resolving ──────────────────────────────────────────────────

  /** A row of the permissions left-joined with the roles that carry them. */
  datatype Row = Row(role: Option<Id>, key: string, minTrust: string)

  datatype Assignment = Assignment(role: Id, category: Option<Id>)

  predicate Carries(perms: map<Id, set<string>>, role: Id, key: string) {
    role in perms && key in perms[role]
  }

  /** Adds keys to what a role, or a category, carries. */
  function AddKeys(perms: map<Id, set<string>>, role: Id, keys: set<string>): (more: map<Id, set<string>>)
    ensures forall r: Id, k :: (Carries(more, r, k) <==> Carries(perms, r, k) || (r == role && k in keys))
  {
    perms[role := (if role in perms then perms[role] else {}) + keys]
  }

  ghost predicate RowsGrant(rows: seq<Row>, role: Id, key: string) {
    exists i :: 0 <= i < |rows| && rows[i].role == Some(role) && rows[i].key == key
  }

  /** The first row with this key. */
  ghost predicate IsFirst(rows: seq<Row>, key: string, i: int) {
    0 <= i < |rows| && rows[i].key == key && forall j :: 0 <= j < i ==> rows[j].key != key
  }

  class RolePermissionCache {
    var inner: map<Id, set<string>>
    var minTrust: map<string, string>

    constructor ()
      ensures inner == map[] && minTrust == map[]
    {
      inner, minTrust := map[], map[];
    }

    /** Replaces both maps by what the rows say: a role carries a key exactly if some row grants
        it, and a key's minimum trust is that of its first row. */
    method Load(rows: seq<Row>)
      modifies this
      ensures forall role: Id, key :: Carries(inner, role, key) <==> RowsGrant(rows, role, key)
      ensures forall role <- inner.Keys :: inner[role] != {}
      ensures forall key :: key in minTrust <==> exists i :: IsFirst(rows, key, i)
      ensures forall key, i :: IsFirst(rows, key, i) ==> key in minTrust && minTrust[key] == rows[i].minTrust
    {
      var permMap: map<Id, set<string>> := map[];
      var trustMap: map<string, string> := map[];
      for n := 0 to |rows|
        invariant forall role: Id, key :: Carries(permMap, role, key) <==> RowsGrant(rows[..n], role, key)
        invariant forall role <- permMap.Keys :: permMap[role] != {}
        invariant forall key :: key in trustMap <==> exists i :: i < n && IsFirst(rows, key, i)
        invariant forall key, i :: i < n && IsFirst(rows, key, i) ==> key in trustMap && trustMap[key] == rows[i].minTrust
      {
        var row := rows[n];
        RowAdded(rows, n);
        FirstAdded(rows, n);
        if row.key !in trustMap {
          trustMap := trustMap[row.key := row.minTrust];
        }
        if row.role.Some? {
          permMap := AddKeys(permMap, row.role.value, {row.key});
        }
      }
      assert rows[..|rows|] == rows;
      inner := permMap;
      minTrust := trustMap;
    }

    method ResolveGlobal(assignments: seq<Assignment>) returns (result: set<string>)
      ensures forall key :: key in result <==>
        exists i :: 0 <= i < |assignments| && assignments[i].category.None? && Carries(inner, assignments[i].role, key)
    {
      result := {};
      for n := 0 to |assignments|
        invariant forall key :: key in result <==>
          exists i :: 0 <= i < n && assignments[i].category.None? && Carries(inner, assignments[i].role, key)
      {
        var a := assignments[n];
        if a.category.None? && a.role in inner {
          result := result + inner[a.role];
        }
      }
    }

    method ResolveCategory(assignments: seq<Assignment>) returns (result: map<Id, set<string>>)
      ensures forall c: Id, key :: Carries(result, c, key) <==>
        exists i :: 0 <= i < |assignments| && assignments[i].category == Some(c) && Carries(inner, assignments[i].role, key)
    {
      result := map[];
      for n := 0 to |assignments|
        invariant forall c: Id, key :: Carries(result, c, key) <==>
          exists i :: 0 <= i < n && assignments[i].category == Some(c) && Carries(inner, assignments[i].role, key)
      {
        var a := assignments[n];
        if a.category.Some? && a.role in inner {
          result := AddKeys(result, a.category.value, inner[a.role]);
        }
      }
    }
  }

  lemma RowAdded(rows: seq<Row>, n: nat)
    requires n < |rows|
    ensures forall role: Id, key ::
      (RowsGrant(rows[..n + 1], role, key)
       <==> RowsGrant(rows[..n], role, key) || (rows[n].role == Some(role) && rows[n].key == key))
  {
    forall role: Id, key
      ensures RowsGrant(rows[..n + 1], role, key)
              <==> RowsGrant(rows[..n], role, key) || (rows[n].role == Some(role) && rows[n].key == key)
    {
      assert rows[..n + 1] == rows[..n] + [rows[n]];
      if RowsGrant(rows[..n], role, key) {
        var i :| 0 <= i < n && rows[..n][i].role == Some(role) && rows[..n][i].key == key;
        assert rows[..n + 1][i] == rows[..n][i];
      }
      if rows[n].role == Some(role) && rows[n].key == key {
        assert rows[..n + 1][n] == rows[n];
      }
      if RowsGrant(rows[..n + 1], role, key) {
        var i :| 0 <= i < n + 1 && rows[..n + 1][i].role == Some(role) && rows[..n + 1][i].key == key;
        assert i < n ==> rows[..n][i] == rows[..n + 1][i];
      }
    }
  }

  lemma FirstAdded(rows: seq<Row>, n: nat)
    requires n < |rows|
    ensures IsFirst(rows, rows[n].key, n) || exists i :: i < n && IsFirst(rows, rows[n].key, i)
  {
    if !IsFirst(rows, rows[n].key, n) {
      var j :| 0 <= j < n && rows[j].key == rows[n].key;
      FirstAdded(rows, j);
    }
  }

  // ── What a caller's resolved permissions mean ──────────────────────────────

  /** The caller's permissions are what the cache resolves for these assignments. */
  ghost predicate ResolvedFrom(user: AuthUser, perms: map<Id, set<string>>, assignments: seq<Assignment>) {
    && (forall key :: key in user.permissions <==>
          exists i :: 0 <= i < |assignments| && assignments[i].category.None? && Carries(perms, assignments[i].role, key))
    && (forall c: Id, key :: Carries(user.categoryPermissions, c, key) <==>
          exists i :: 0 <= i < |assignments| && assignments[i].category == Some(c) && Carries(perms, assignments[i].role, key))
  }

  /** The per-item check holds exactly if some global or matching scoped assignment's role is
      granted the key by the relations, whatever the order of rows and assignments. */
  lemma HasPermInIffGranted(user: AuthUser, perms: map<Id, set<string>>, rows: seq<Row>, assignments: seq<Assignment>,
                            key: string, c: Id)
    requires forall role: Id, k :: Carries(perms, role, k) <==> RowsGrant(rows, role, k)
    requires ResolvedFrom(user, perms, assignments)
    ensures user.HasPermIn(key, c) <==>
      exists a <- assignments :: (a.category.None? || a.category == Some(c)) && RowsGrant(rows, a.role, key)
  {
    assert user.HasPermIn(key, c) <==> key in user.permissions || Carries(user.categoryPermissions, c, key);
    if user.HasPermIn(key, c) {
      var i :| 0 <= i < |assignments| && (assignments[i].category.None? || assignments[i].category == Some(c))
               && Carries(perms, assignments[i].role, key);
      assert assignments[i] in assignments && RowsGrant(rows, assignments[i].role, key);
    }
    if a :| a in assignments && (a.category.None? || a.category == Some(c)) && RowsGrant(rows, a.role, key) {
      var i :| 0 <= i < |assignments| && assignments[i] == a;
      assert Carries(perms, assignments[i].role, key);
    }
  }

  /** Filtering a list by the permitted categories keeps exactly the items the per-item check
      allows, and the check without a category succeeds exactly if the filter can keep anything. */
  lemma FilterMatchesCheck(user: AuthUser, key: string, c: Id)
    ensures user.HasPermIn(key, c) <==>
      user.PermittedCategoryIds(key).None? || c in user.PermittedCategoryIds(key).value
    ensures user.HasPermAnyCategory(key) <==>
      user.PermittedCategoryIds(key).None? || user.PermittedCategoryIds(key).value != {}
  {
    if !user.HasPerm(key) && user.HasPermAnyCategory(key) {
      var d :| d in user.categoryPermissions && key in user.categoryPermissions[d];
      assert d in user.PermittedCategoryIds(key).value;
    }
  }

  // ── Assigning and revoking ─────────────────────────────────────────────────

  const ADMIN_SLUG := "admin"

  /** At most one row per user, role and scope. */
  datatype Grant = Grant(user: Id, role: Id, category: Option<Id>)
  type Grants = map<Grant, Option<int>>  // with the time each expires, if it does

  datatype Roles = Roles(slugs: map<Id, string>, perms: map<Id, set<string>>)

  datatype Op =
    | Assign(now: int, actor: AuthUser, grant: Grant, expires: Option<int>)
    | Revoke(now: int, actor: AuthUser, grant: Grant)

  predicate Active(grants: Grants, g: Grant, now: int) {
    g in grants && (grants[g].None? || grants[g].value > now)
  }

  function PermsOf(roles: Roles, role: Id): set<string> {
    if role in roles.perms then roles.perms[role] else {}
  }

  /** How many users hold the role globally. */
  function GlobalCount(grants: Grants, role: Id, now: int): nat {
    |set g | g in grants && g.role == role && g.category.None? && Active(grants, g, now) :: g.user|
  }

  function Refusal(roles: Roles, grants: Grants, op: Op): Option<Error> {
    if !op.actor.HasPerm(ADMIN_USERS) then Some(Forbidden("permission_denied")) else
    match op
    case Assign(_, actor, g, _) =>
      if g.role !in roles.slugs then Some(NotFound)
      else if exists k <- PermsOf(roles, g.role) ::
                !(match g.category
                  case Some(c) => actor.HasPerm(k) || actor.HasPermIn(k, c)
                  case None => actor.HasPerm(k))
      then Some(Forbidden("cannot_grant_permissions_you_lack"))
      else if g in grants then Some(Conflict("role_already_assigned"))
      else None
    case Revoke(now, _, g) =>
      if g.category.None? && g.role in roles.slugs && roles.slugs[g.role] == ADMIN_SLUG
         && GlobalCount(grants, g.role, now) <= 1
      then Some(Forbidden("cannot_remove_last_admin"))
      else if g !in grants then Some(NotFound)
      else None
  }

  function Step(roles: Roles, grants: Grants, op: Op): Grants {
    if Refusal(roles, grants, op).Some? then grants else
    match op
    case Assign(_, _, g, expires) => grants[g := expires]
    case Revoke(_, _, g) => grants - {g}
  }

  function Run(roles: Roles, start: Grants, ops: seq<Op>): Grants {
    if ops == [] then start else Step(roles, Run(roles, start, ops[..|ops| - 1]), ops[|ops| - 1])
  }

  class RoleUseCase {
    var roles: Roles
    var grants: Grants

    constructor (roles: Roles)
      ensures this.roles == roles && grants == map[]
    {
      this.roles, grants := roles, map[];
    }

    method AssignRole(now: int, actor: AuthUser, grant: Grant, expires: Option<int>) returns (refused: Option<Error>)
      modifies this`grants
      ensures refused == Refusal(roles, old(grants), Assign(now, actor, grant, expires))
      ensures grants == Step(roles, old(grants), Assign(now, actor, grant, expires))
    {
      if !actor.HasPerm(ADMIN_USERS) { return Some(Forbidden("permission_denied")); }
      if grant.role !in roles.slugs { return Some(NotFound); }
      var rolePerms := PermsOf(roles, grant.role);
      var actorHasAll := match grant.category
        case Some(c) => forall k <- rolePerms :: actor.HasPerm(k) || actor.HasPermIn(k, c)
        case None => forall k <- rolePerms :: actor.HasPerm(k);
      if !actorHasAll { return Some(Forbidden("cannot_grant_permissions_you_lack")); }
      if grant in grants { return Some(Conflict("role_already_assigned")); }
      grants := grants[grant := expires];
      return None;
    }

    method RevokeRole(now: int, actor: AuthUser, grant: Grant) returns (refused: Option<Error>)
      modifies this`grants
      ensures refused == Refusal(roles, old(grants), Revoke(now, actor, grant))
      ensures grants == Step(roles, old(grants), Revoke(now, actor, grant))
    {
      if !actor.HasPerm(ADMIN_USERS) { return Some(Forbidden("permission_denied")); }
      if grant.category.None? {
        if grant.role in roles.slugs && roles.slugs[grant.role] == ADMIN_SLUG {
          var globalAdminCount := GlobalCount(grants, grant.role, now);
          if globalAdminCount <= 1 { return Some(Forbidden("cannot_remove_last_admin")); }
        }
      }
      if grant !in grants { return Some(NotFound); }
      grants := grants - {grant};
      return None;
    }
  }

  // ── No run creates authority ───────────────────────────────────────────────

  /** Somebody holds the permission in the scope: globally, or also in the category if one is named. */
  ghost predicate Held(roles: Roles, grants: Grants, now: int, scope: Option<Id>, key: string) {
    exists g <- grants.Keys ::
      Active(grants, g, now) && key in PermsOf(roles, g.role) && (g.category.None? || g.category == scope)
  }

  /** The caller claims only what somebody held in the state at the time. A claim may be stale. */
  ghost predicate ClaimsHeld(actor: AuthUser, roles: Roles, grants: Grants, at: int) {
    && (forall k :: actor.HasPerm(k) ==> Held(roles, grants, at, None, k))
    && (forall k, c :: actor.HasPermIn(k, c) ==> Held(roles, grants, at, Some(c), k))
  }

  ghost predicate ActorFromRun(roles: Roles, start: Grants, ops: seq<Op>, from: int, i: nat)
    requires i < |ops|
  {
    exists j, at :: 0 <= j <= i && at >= from && ClaimsHeld(ops[i].actor, roles, Run(roles, start, ops[..j]), at)
  }

  /** Every caller's permissions were resolved in some earlier state of the run, not before `from`. */
  ghost predicate ActorsFromRun(roles: Roles, start: Grants, ops: seq<Op>, from: int) {
    forall i :: 0 <= i < |ops| ==> ActorFromRun(roles, start, ops, from, i)
  }

  /** With the contents of the roles fixed, no run makes a permission effective in a scope, global
      or a category, in which nobody held it at the start. */
  lemma {:induction false} NoNewAuthority(roles: Roles, start: Grants, ops: seq<Op>, from: int,
                                          now: int, scope: Option<Id>, key: string)
    requires ActorsFromRun(roles, start, ops, from) && now >= from
    requires Held(roles, Run(roles, start, ops), now, scope, key)
    ensures Held(roles, start, from, scope, key)
    decreases |ops|
  {
    var g :| g in Run(roles, start, ops) && Active(Run(roles, start, ops), g, now)
             && key in PermsOf(roles, g.role) && (g.category.None? || g.category == scope);
    if ops == [] {
      assert Active(start, g, from);
    } else {
      var earlier, op := ops[..|ops| - 1], ops[|ops| - 1];
      var before := Run(roles, start, earlier);
      ActorsOfPrefix(roles, start, ops, from, |ops| - 1);
      if g in before && before[g] == Run(roles, start, ops)[g] {
        assert Active(before, g, now);
        NoNewAuthority(roles, start, earlier, from, now, scope, key);
      } else {
        assert op.Assign? && op.grant == g && Refusal(roles, before, op).None?;
        assert ActorFromRun(roles, start, ops, from, |ops| - 1);
        var j, at :| 0 <= j <= |ops| - 1 && at >= from && ClaimsHeld(op.actor, roles, Run(roles, start, ops[..j]), at);
        assert Held(roles, Run(roles, start, ops[..j]), at, g.category, key);
        ActorsOfPrefix(roles, start, ops, from, j);
        NoNewAuthority(roles, start, ops[..j], from, at, g.category, key);
        assert Held(roles, start, from, scope, key) by {
          var h :| h in start && Active(start, h, from) && key in PermsOf(roles, h.role)
                   && (h.category.None? || h.category == g.category);
          assert h.category.None? || h.category == scope;
        }
      }
    }
  }

  lemma ActorsOfPrefix(roles: Roles, start: Grants, ops: seq<Op>, from: int, n: nat)
    requires n <= |ops| && ActorsFromRun(roles, start, ops, from)
    ensures ActorsFromRun(roles, start, ops[..n], from)
  {
    forall i: nat | i < n ensures ActorFromRun(roles, start, ops[..n], from, i) {
      assert ActorFromRun(roles, start, ops, from, i);
      var j, at :| 0 <= j <= i && at >= from && ClaimsHeld(ops[i].actor, roles, Run(roles, start, ops[..j]), at);
      assert ops[..n][..j] == ops[..j] && ops[..n][i] == ops[i];
    }
  }

  // ── The last administrator ─────────────────────────────────────────────────

  /** The scope and role of a global administrator. */
  predicate IsAdminGrant(roles: Roles, g: Grant) {
    g.category.None? && g.role in roles.slugs && roles.slugs[g.role] == ADMIN_SLUG
  }

  ghost predicate HasAdmin(roles: Roles, grants: Grants, now: int) {
    exists g <- grants.Keys :: IsAdminGrant(roles, g) && Active(grants, g, now)
  }

  lemma AnotherMember<T>(s: set<T>, x: T) returns (y: T)
    requires |s| > 1
    ensures y in s && y != x
  {
    var rest := s - {x};
    assert |rest| >= |s| - |{x}|;
    assert rest != {};
    y :| y in rest;
  }

  /** No call takes away the last global administrator at the time it is made. */
  lemma StepKeepsAdmin(roles: Roles, grants: Grants, op: Op)
    requires HasAdmin(roles, grants, op.now)
    ensures HasAdmin(roles, Step(roles, grants, op), op.now)
  {
    var after := Step(roles, grants, op);
    var g :| g in grants && IsAdminGrant(roles, g) && Active(grants, g, op.now);
    if g !in after {
      assert op.Revoke? && op.grant == g;
      var holders := set h | h in grants && h.role == g.role && h.category.None? && Active(grants, h, op.now) :: h.user;
      assert |holders| > 1;
      var u := AnotherMember(holders, g.user);
      var h :| h in grants && h.role == g.role && h.category.None? && Active(grants, h, op.now) && h.user == u;
      assert Active(after, h, op.now);
    } else {
      assert Active(after, g, op.now);
    }
  }

  ghost predicate AdminsNeverExpire(roles: Roles, grants: Grants) {
    forall g <- grants.Keys :: IsAdminGrant(roles, g) ==> grants[g].None?
  }

  /** So where no global assignment of the administrator role expires, a run that starts with a
      global administrator keeps one. */
  lemma {:induction false} RunKeepsAdmin(roles: Roles, start: Grants, ops: seq<Op>, now: int)
    requires AdminsNeverExpire(roles, start) && HasAdmin(roles, start, now)
    requires forall i :: 0 <= i < |ops| && ops[i].Assign? && IsAdminGrant(roles, ops[i].grant) ==> ops[i].expires.None?
    ensures AdminsNeverExpire(roles, Run(roles, start, ops)) && HasAdmin(roles, Run(roles, start, ops), now)
  {
    if ops != [] {
      var earlier, op := ops[..|ops| - 1], ops[|ops| - 1];
      RunKeepsAdmin(roles, start, earlier, now);
      var before := Run(roles, start, earlier);
      AdminAtAnyTime(roles, before, now, op.now);
      StepKeepsAdmin(roles, before, op);
      AdminAtAnyTime(roles, Run(roles, start, ops), op.now, now);
    }
  }

  lemma AdminAtAnyTime(roles: Roles, grants: Grants, now: int, other: int)
    requires AdminsNeverExpire(roles, grants) && HasAdmin(roles, grants, now)
    ensures HasAdmin(roles, grants, other)
  {
    var g :| g in grants && IsAdminGrant(roles, g) && Active(grants, g, now);
    assert Active(grants, g, other);
  }

  // ── With expiry ────────────────────────────────────────────────────────────

  predicate PermanentAdmin(roles: Roles, grants: Grants, g: Grant) {
    g in grants && IsAdminGrant(roles, g) && grants[g].None?
  }

  ghost predicate HasPermanentAdmin(roles: Roles, grants: Grants) {
    exists g <- grants.Keys :: PermanentAdmin(roles, grants, g)
  }

  /** By some time every assignment that expires has expired. */
  lemma {:induction false} AllExpireBy(grants: Grants, some: set<Grant>) returns (at: int)
    requires some <= grants.Keys
    ensures forall g <- some :: grants[g].Some? ==> grants[g].value <= at
    decreases some
  {
    if some == {} {
      at := 0;
    } else {
      var g :| g in some;
      at := AllExpireBy(grants, some - {g});
      if grants[g].Some? && grants[g].value > at { at := grants[g].value; }
    }
  }

  ghost predicate AdminForever(roles: Roles, grants: Grants) {
    forall at :: HasAdmin(roles, grants, at)
  }

  /** There will be a global administrator at every time if and only if one has no expiry. */
  lemma AdminForeverIff(roles: Roles, grants: Grants)
    ensures AdminForever(roles, grants) <==> HasPermanentAdmin(roles, grants)
  {
    if HasPermanentAdmin(roles, grants) {
      var g :| g in grants && PermanentAdmin(roles, grants, g);
      forall at ensures HasAdmin(roles, grants, at) {
        assert Active(grants, g, at);
      }
    }
    if AdminForever(roles, grants) {
      var end := AllExpireBy(grants, grants.Keys);
      assert HasAdmin(roles, grants, end);
      var g :| g in grants && IsAdminGrant(roles, g) && Active(grants, g, end);
      assert PermanentAdmin(roles, grants, g);
    }
  }

  /** The call revokes the only administrator without expiry, as the guard lets it while others
      that will expire are still active. */
  ghost predicate RevokesLastPermanent(roles: Roles, grants: Grants, op: Op) {
    && op.Revoke? && Refusal(roles, grants, op).None? && PermanentAdmin(roles, grants, op.grant)
    && forall h <- grants.Keys :: PermanentAdmin(roles, grants, h) ==> h == op.grant
  }

  lemma StepKeepsPermanentIff(roles: Roles, grants: Grants, op: Op)
    requires HasPermanentAdmin(roles, grants)
    ensures HasPermanentAdmin(roles, Step(roles, grants, op)) <==> !RevokesLastPermanent(roles, grants, op)
  {
    var after := Step(roles, grants, op);
    if !RevokesLastPermanent(roles, grants, op) {
      var g :| g in grants && PermanentAdmin(roles, grants, g)
               && (op.Revoke? && Refusal(roles, grants, op).None? ==> g != op.grant);
      assert PermanentAdmin(roles, after, g);
    } else if h :| h in after && PermanentAdmin(roles, after, h) {
      assert PermanentAdmin(roles, grants, h);
    }
  }

  /** With expiry too, a run that starts with an administrator for good stays assured of one, at
      every time and after every call, if and only if none of its calls revokes the only one
      without expiry. */
  lemma AdminAssuredIff(roles: Roles, start: Grants, ops: seq<Op>)
    requires HasPermanentAdmin(roles, start)
    ensures (forall n :: 0 <= n <= |ops| ==> AdminForever(roles, Run(roles, start, ops[..n])))
            <==> forall i :: 0 <= i < |ops| ==> !RevokesLastPermanent(roles, Run(roles, start, ops[..i]), ops[i])
  {
    hide Step, AdminForever, HasPermanentAdmin, RevokesLastPermanent;
    forall n | 0 <= n <= |ops|
      ensures AdminForever(roles, Run(roles, start, ops[..n])) <==> HasPermanentAdmin(roles, Run(roles, start, ops[..n]))
    {
      AdminForeverIff(roles, Run(roles, start, ops[..n]));
    }
    if forall i :: 0 <= i < |ops| ==> !RevokesLastPermanent(roles, Run(roles, start, ops[..i]), ops[i]) {
      forall n: nat | n <= |ops| ensures HasPermanentAdmin(roles, Run(roles, start, ops[..n])) {
        PermanentKept(roles, start, ops, n);
      }
    }
    if forall n :: 0 <= n <= |ops| ==> AdminForever(roles, Run(roles, start, ops[..n])) {
      forall i | 0 <= i < |ops| ensures !RevokesLastPermanent(roles, Run(roles, start, ops[..i]), ops[i]) {
        assert ops[..i + 1][..i] == ops[..i];
        StepKeepsPermanentIff(roles, Run(roles, start, ops[..i]), ops[i]);
      }
    }
  }

  lemma {:induction false} PermanentKept(roles: Roles, start: Grants, ops: seq<Op>, n: nat)
    requires n <= |ops| && HasPermanentAdmin(roles, start)
    requires forall i :: 0 <= i < |ops| ==> !RevokesLastPermanent(roles, Run(roles, start, ops[..i]), ops[i])
    ensures HasPermanentAdmin(roles, Run(roles, start, ops[..n]))
  {
    hide Step, HasPermanentAdmin, RevokesLastPermanent;
    if n > 0 {
      PermanentKept(roles, start, ops, n - 1);
      assert ops[..n][..n - 1] == ops[..n - 1];
      StepKeepsPermanentIff(roles, Run(roles, start, ops[..n - 1]), ops[n - 1]);
    }
  }

  /** The guard does let such a call through: it counts an assignment that will expire. */
  lemma ExpiryLosesAdmin(roles: Roles, actor: AuthUser, role: Id, first: Id, second: Id, now: int, expiry: int)
    requires role in roles.slugs && roles.slugs[role] == ADMIN_SLUG && first != second
    requires actor.HasPerm(ADMIN_USERS) && now < expiry
    ensures var start: Grants := map[Grant(first, role, None) := None, Grant(second, role, None) := Some(expiry)];
            var op := Revoke(now, actor, Grant(first, role, None));
            && RevokesLastPermanent(roles, start, op)
            && HasAdmin(roles, start, expiry) && !HasAdmin(roles, Step(roles, start, op), expiry)
  {
    var kept, gone := Grant(second, role, None), Grant(first, role, None);
    var start: Grants := map[gone := None, kept := Some(expiry)];
    assert Active(start, gone, now) && Active(start, kept, now) && Active(start, gone, expiry);
    var holders := set h | h in start && h.role == role && h.category.None? && Active(start, h, now) :: h.user;
    assert gone.user in holders && kept.user in holders;
    assert holders == {first, second};
    assert Step(roles, start, Revoke(now, actor, gone)).Keys == {kept};
  }

  // ── Answers and history ────────────────────────────────────────────────────

  /** The caller holds in the scope of the grant every permission the role carries. */
  ghost predicate HoldsAll(actor: AuthUser, roles: Roles, g: Grant) {
    forall k :: Carries(roles.perms, g.role, k) ==>
      k in actor.permissions
      || (g.category.Some? && g.category.value in actor.categoryPermissions
          && k in actor.categoryPermissions[g.category.value])
  }

  /** The users with an active global assignment of the role. */
  ghost function GlobalHolders(grants: Grants, role: Id, now: int): set<Id> {
    set g | g in grants && g.role == role && g.category == None && (grants[g] == None || grants[g].value > now) :: g.user
  }

  lemma AssignAnswers(roles: Roles, grants: Grants, op: Op)
    requires op.Assign?
    ensures Refusal(roles, grants, op)
            == ALLOWED
               .OrIf("admin.users" !in op.actor.permissions, Forbidden("permission_denied"))
               .OrIf(op.grant.role !in roles.slugs, NotFound)
               .OrIf(!HoldsAll(op.actor, roles, op.grant), Forbidden("cannot_grant_permissions_you_lack"))
               .OrIf(op.grant in grants, Conflict("role_already_assigned"))
  {
    assert HoldsAll(op.actor, roles, op.grant)
      <==> forall k <- PermsOf(roles, op.grant.role) ::
             match op.grant.category
             case Some(c) => op.actor.HasPerm(k) || op.actor.HasPermIn(k, c)
             case None => op.actor.HasPerm(k) by {
      assert forall k :: Carries(roles.perms, op.grant.role, k) <==> k in PermsOf(roles, op.grant.role);
    }
  }

  lemma RevokeAnswers(roles: Roles, grants: Grants, op: Op)
    requires op.Revoke?
    ensures Refusal(roles, grants, op)
            == ALLOWED
               .OrIf("admin.users" !in op.actor.permissions, Forbidden("permission_denied"))
               .OrIf(op.grant.category == None
                     && op.grant.role in roles.slugs && roles.slugs[op.grant.role] == "admin"
                     && |GlobalHolders(grants, op.grant.role, op.now)| <= 1,
                     Forbidden("cannot_remove_last_admin"))
               .OrIf(op.grant !in grants, NotFound)
  {
    assert GlobalHolders(grants, op.grant.role, op.now)
      == set g | g in grants && g.role == op.grant.role && g.category.None? && Active(grants, g, op.now) :: g.user;
  }

  /** The latest allowed call on the grant. */
  ghost function LatestOn(roles: Roles, start: Grants, ops: seq<Op>, g: Grant): Option<Op> {
    if ops == [] then None
    else
      var earlier, op := ops[..|ops| - 1], ops[|ops| - 1];
      if op.grant == g && Refusal(roles, Run(roles, start, earlier), op).None? then Some(op)
      else LatestOn(roles, start, earlier, g)
  }

  /** In every run a grant is in the table exactly when the latest allowed call on it assigned it, with
      the expiry that call carried, or when it was there at the start and no allowed call named it. */
  lemma {:induction false} GrantIsHistory(roles: Roles, start: Grants, ops: seq<Op>, g: Grant)
    ensures var grants := Run(roles, start, ops);
            match LatestOn(roles, start, ops, g)
            case Some(op) => if op.Assign? then g in grants && grants[g] == op.expires else g !in grants
            case None => (g in grants <==> g in start) && (g in start ==> grants[g] == start[g])
  {
    hide Refusal;
    if ops != [] {
      GrantIsHistory(roles, start, ops[..|ops| - 1], g);
    }
  }

  /** A permission that the table gives in a scope through one grant alone is held while that grant,
      as it was last assigned, has not expired, and ends at that time. */
  lemma HeldUntilExpiry(roles: Roles, start: Grants, ops: seq<Op>, g: Grant, now: int, scope: Option<Id>, key: string)
    requires var last := LatestOn(roles, start, ops, g); last.Some? && last.value.Assign?
    requires Carries(roles.perms, g.role, key) && (g.category == None || g.category == scope)
    requires forall h <- Run(roles, start, ops).Keys ::
               Carries(roles.perms, h.role, key) && (h.category == None || h.category == scope) ==> h == g
    ensures var expires := LatestOn(roles, start, ops, g).value.expires;
            Held(roles, Run(roles, start, ops), now, scope, key) <==> expires == None || now < expires.value
  {
    GrantIsHistory(roles, start, ops, g);
    var grants := Run(roles, start, ops);
    assert forall h: Grant :: key in PermsOf(roles, h.role) <==> Carries(roles.perms, h.role, key);
    hide Run, LatestOn;
    assert Held(roles, grants, now, scope, key) <==> Active(grants, g, now);
  }
}
