/**
 * user_management/role_manager.py: roles with permission lists, role
 * assignments with an optional expiry, per-user permission overrides, and an
 * audit trail of role actions.  Tables that are only looked up by their UNIQUE
 * key are maps from that key; the `role` column of the users table is the map
 * `users`.  CURRENT_TIMESTAMP is the `now` argument.
 */
module RoleManagement {
  import opened Common

  datatype Role = Role(name: string, description: string, permissions: seq<string>, level: int)

  /** A user_roles row, UNIQUE(user_id, role_id). */
  datatype Assignment = Assignment(assignedBy: Option<int>, expiresAt: Option<int>)

  /** A permission_overrides row, UNIQUE(user_id, permission). */
  datatype Override = Override(granted: bool, reason: Option<string>, grantedBy: Option<int>, expiresAt: Option<int>)

  datatype AuditEntry = AuditEntry(
    userId: int, action: string, roleId: Option<string>, permission: Option<string>,
    performedBy: Option<int>, timestamp: int)

  const AdminRole := Role("Administrator", "Full system access",
    ["user.create", "user.read", "user.update", "user.delete",
     "module.create", "module.read", "module.update", "module.delete",
     "report.generate", "report.export",
     "system.config", "system.backup",
     "training.view_all", "training.manage_all"], 100)

  const InstructorRole := Role("Instructor", "Can manage training content and view reports",
    ["user.read", "user.update_own",
     "module.create", "module.read", "module.update",
     "report.generate", "report.export",
     "training.view_all", "training.evaluate"], 50)

  const TraineeRole := Role("Trainee", "Can access training modules and view own progress",
    ["user.read_own", "user.update_own",
     "module.read",
     "training.view_own", "training.participate"], 10)

  const GuestRole := Role("Guest", "Limited read-only access", ["module.read", "training.view_demo"], 1)

  /** DEFAULT_ROLES, in definition order. */
  const DefaultRoleIds: seq<string> := ["admin", "instructor", "trainee", "guest"]
  const DefaultRoles: map<string, Role> :=
    map["admin" := AdminRole, "instructor" := InstructorRole, "trainee" := TraineeRole, "guest" := GuestRole]

  /** `expires_at IS NULL OR expires_at > CURRENT_TIMESTAMP`. */
  predicate Live(expiresAt: Option<int>, now: int)
  {
    expiresAt.None? || expiresAt.value > now
  }

  /** The roles table after `INSERT OR IGNORE` of every default role: existing
      roles are kept as they are, missing default roles are added. */
  function Seeded(roles: map<string, Role>): (r: map<string, Role>)
    ensures r.Keys == roles.Keys + DefaultRoles.Keys
    ensures forall k :: k in roles ==> r[k] == roles[k]
    ensures forall k :: k in DefaultRoles && k !in roles ==> r[k] == DefaultRoles[k]
  {
    map k | k in roles.Keys + DefaultRoles.Keys :: if k in roles then roles[k] else DefaultRoles[k]
  }

  /** The roles table after `INSERT OR IGNORE` of the roles `ids` of
      `defaults`, in order. */
  function SeedIds(roles: map<string, Role>, defaults: map<string, Role>, ids: seq<string>): map<string, Role>
    requires forall i :: 0 <= i < |ids| ==> ids[i] in defaults
  {
    if |ids| == 0 then roles
    else
      var r := SeedIds(roles, defaults, ids[..|ids| - 1]);
      var id := ids[|ids| - 1];
      if id in r then r else r[id := defaults[id]]
  }

  /** Inserting roles one by one keeps every existing role and adds each
      listed role that was missing. */
  lemma {:induction false} SeedIdsSpec(roles: map<string, Role>, defaults: map<string, Role>, ids: seq<string>)
    requires forall i :: 0 <= i < |ids| ==> ids[i] in defaults
    ensures SeedIds(roles, defaults, ids).Keys == roles.Keys + set x | x in ids
    ensures forall k :: k in roles ==> SeedIds(roles, defaults, ids)[k] == roles[k]
    ensures forall k :: k in SeedIds(roles, defaults, ids) && k !in roles ==> SeedIds(roles, defaults, ids)[k] == defaults[k]
  {
    if |ids| > 0 {
      var front := ids[..|ids| - 1];
      SeedIdsSpec(roles, defaults, front);
      assert ids == front + [ids[|ids| - 1]];
    }
  }

  /** Inserting every role of `defaults` one by one gives the table with
      the existing roles and the missing ones of `defaults`. */
  lemma SeedIdsAll(roles: map<string, Role>, defaults: map<string, Role>, ids: seq<string>)
    requires (set x | x in ids) == defaults.Keys
    ensures SeedIds(roles, defaults, ids)
      == map k | k in roles.Keys + defaults.Keys :: if k in roles then roles[k] else defaults[k]
  {
    SeedIdsSpec(roles, defaults, ids);
  }

  /** Inserting the default roles one by one, in definition order, yields
      the seeded table. */
  lemma SeedIdsDefaults(roles: map<string, Role>)
    ensures SeedIds(roles, DefaultRoles, DefaultRoleIds) == Seeded(roles)
  {
    var ids := DefaultRoleIds;
    assert ids[0] == "admin" && ids[1] == "instructor" && ids[2] == "trainee" && ids[3] == "guest";
    assert (set x | x in ids) == DefaultRoles.Keys;
    SeedIdsAll(roles, DefaultRoles, ids);
  }

  /** Seeding twice is seeding once. */
  lemma SeedingIdempotent(roles: map<string, Role>)
    ensures Seeded(Seeded(roles)) == Seeded(roles)
  {
  }

  // ---------------------------------------------------------------------
  // The permission set of get_user_permissions.

  /** The permissions of the live assignments among `keys` of user `u`. */
  function AssignedPermissions(roles: map<string, Role>, userRoles: map<(int, string), Assignment>,
                               keys: set<(int, string)>, u: int, now: int): set<string>
  {
    set k, p | k in keys && k in userRoles && k.0 == u && Live(userRoles[k].expiresAt, now)
                 && k.1 in roles && p in roles[k.1].permissions :: p
  }

  /** The permissions of the user's primary role, whether or not it is
      assigned or expired. */
  function PrimaryPermissions(roles: map<string, Role>, users: map<int, string>, u: int): set<string>
  {
    if u in users && users[u] in roles then set p | p in roles[users[u]].permissions else {}
  }

  /** The permissions named by the user's live overrides among `keys` whose
      `granted` flag is `granted`. */
  function Overridden(overrides: map<(int, string), Override>, keys: set<(int, string)>,
                      u: int, now: int, granted: bool): set<string>
  {
    set k | k in keys && k in overrides && k.0 == u && overrides[k].granted == granted
              && Live(overrides[k].expiresAt, now) :: k.1
  }

  predicate LiveOverride(overrides: map<(int, string), Override>, u: int, p: string, now: int)
  {
    (u, p) in overrides && Live(overrides[(u, p)].expiresAt, now)
  }

  /** get_user_permissions: the role-derived permissions, with live revoking
      overrides removed and live granting overrides added. */
  function UserPermissions(roles: map<string, Role>, userRoles: map<(int, string), Assignment>,
                           overrides: map<(int, string), Override>, users: map<int, string>,
                           u: int, now: int): set<string>
  {
    var base := AssignedPermissions(roles, userRoles, userRoles.Keys, u, now) + PrimaryPermissions(roles, users, u);
    (base - Overridden(overrides, overrides.Keys, u, now, false)) + Overridden(overrides, overrides.Keys, u, now, true)
  }

  /** A live override decides a permission outright; without one the
      permission is held exactly when a live assignment or the primary role
      carries it. */
  lemma OverrideDecides(roles: map<string, Role>, userRoles: map<(int, string), Assignment>,
                        overrides: map<(int, string), Override>, users: map<int, string>,
                        u: int, now: int, p: string)
    ensures LiveOverride(overrides, u, p, now) ==>
      (p in UserPermissions(roles, userRoles, overrides, users, u, now) <==> overrides[(u, p)].granted)
    ensures !LiveOverride(overrides, u, p, now) ==>
      (p in UserPermissions(roles, userRoles, overrides, users, u, now) <==>
        p in AssignedPermissions(roles, userRoles, userRoles.Keys, u, now) || p in PrimaryPermissions(roles, users, u))
  {
    if LiveOverride(overrides, u, p, now) {
      assert overrides[(u, p)].granted ==> p in Overridden(overrides, overrides.Keys, u, now, true);
      assert !overrides[(u, p)].granted ==> p in Overridden(overrides, overrides.Keys, u, now, false);
    }
  }

  /** After grant_permission with no expiry or a later one, the user holds the
      permission, whatever the roles say. */
  lemma GrantWins(roles: map<string, Role>, userRoles: map<(int, string), Assignment>,
                  overrides: map<(int, string), Override>, users: map<int, string>,
                  u: int, now: int, p: string, o: Override)
    requires o.granted && Live(o.expiresAt, now)
    ensures p in UserPermissions(roles, userRoles, overrides[(u, p) := o], users, u, now)
  {
    OverrideDecides(roles, userRoles, overrides[(u, p) := o], users, u, now, p);
  }

  /** After revoke_permission the user lacks the permission, whatever the
      roles say. */
  lemma RevokeWins(roles: map<string, Role>, userRoles: map<(int, string), Assignment>,
                   overrides: map<(int, string), Override>, users: map<int, string>,
                   u: int, now: int, p: string, o: Override)
    requires !o.granted && o.expiresAt.None?
    ensures p !in UserPermissions(roles, userRoles, overrides[(u, p) := o], users, u, now)
  {
    OverrideDecides(roles, userRoles, overrides[(u, p) := o], users, u, now, p);
  }

  /** An override of one permission leaves every other permission as it was. */
  lemma OverrideIsolated(roles: map<string, Role>, userRoles: map<(int, string), Assignment>,
                         overrides: map<(int, string), Override>, users: map<int, string>,
                         u: int, now: int, p: string, q: string, o: Override)
    requires p != q
    ensures q in UserPermissions(roles, userRoles, overrides[(u, p) := o], users, u, now)
        <==> q in UserPermissions(roles, userRoles, overrides, users, u, now)
  {
    OverrideDecides(roles, userRoles, overrides[(u, p) := o], users, u, now, q);
    OverrideDecides(roles, userRoles, overrides, users, u, now, q);
  }

  // ---------------------------------------------------------------------
  // Wildcard matching of has_permission.

  /** The wildcard built from the first `i + 1` dotted parts. */
  function Wildcard(parts: seq<string>, i: nat): string
    requires i < |parts|
  {
    Join(parts[..i + 1], '.') + ".*"
  }

  /** has_permission's test on a permission set: the permission itself, or
      one of its dotted prefixes followed by `.*`. */
  predicate Matches(perms: set<string>, p: string)
  {
    var parts := Split(p, '.');
    p in perms || exists i | 0 <= i < |parts| :: Wildcard(parts, i) in perms
  }

  /** `p.*` grants `p` itself. */
  lemma SelfWildcard(perms: set<string>, p: string)
    requires p + ".*" in perms
    ensures Matches(perms, p)
  {
    var parts := Split(p, '.');
    assert parts[..|parts|] == parts;
    assert Wildcard(parts, |parts| - 1) == p + ".*";
  }

  /** `area.*` grants every `area.rest`. */
  lemma PrefixWildcard(perms: set<string>, area: string, rest: string)
    requires '.' !in area
    requires area + ".*" in perms
    ensures Matches(perms, area + "." + rest)
  {
    var parts := Split(area + "." + rest, '.');
    SplitCons(area, '.', rest);
    assert area + "." + rest == area + ['.'] + rest;
    assert parts[..1] == [area];
    assert Wildcard(parts, 0) == area + ".*";
  }

  /** Every wildcard ends in `.*`, so a bare `*` matches only the permission
      `*` itself. */
  lemma BareStarMatchesNothing(p: string)
    requires p != "*"
    ensures !Matches({"*"}, p)
  {
    var parts := Split(p, '.');
    forall i | 0 <= i < |parts| ensures Wildcard(parts, i) != "*" {
      assert |Wildcard(parts, i)| >= 2;
    }
  }

  /** One more assignment key adds its role's permissions when the
      assignment is the user's, is live and names an existing role. */
  lemma AssignedStep(roles: map<string, Role>, userRoles: map<(int, string), Assignment>,
                     done: set<(int, string)>, k: (int, string), u: int, now: int)
    requires k in userRoles && k !in done
    ensures AssignedPermissions(roles, userRoles, done + {k}, u, now)
      == AssignedPermissions(roles, userRoles, done, u, now)
         + (if k.0 == u && Live(userRoles[k].expiresAt, now) && k.1 in roles
            then set p | p in roles[k.1].permissions else {})
  {
  }

  /** Applying one more override (add when granting, discard when revoking)
      keeps the applied set equal to the base with the revoked permissions of
      the applied keys removed and their granted ones added: no other applied
      key names the same permission. */
  lemma OverrideStep(overrides: map<(int, string), Override>, base: set<string>,
                     done: set<(int, string)>, k: (int, string), u: int, now: int)
    requires k in overrides && k !in done
    ensures var perms := (base - Overridden(overrides, done, u, now, false)) + Overridden(overrides, done, u, now, true);
      var o := overrides[k];
      (if k.0 == u && Live(o.expiresAt, now) then (if o.granted then perms + {k.1} else perms - {k.1}) else perms)
      == (base - Overridden(overrides, done + {k}, u, now, false)) + Overridden(overrides, done + {k}, u, now, true)
  {
    var o := overrides[k];
    var g0, r0 := Overridden(overrides, done, u, now, true), Overridden(overrides, done, u, now, false);
    var g1, r1 := Overridden(overrides, done + {k}, u, now, true), Overridden(overrides, done + {k}, u, now, false);
    if k.0 == u && Live(o.expiresAt, now) {
      assert k.1 !in g0 && k.1 !in r0;
      if o.granted {
        assert g1 == g0 + {k.1} && r1 == r0;
      } else {
        assert g1 == g0 && r1 == r0 + {k.1};
      }
    } else {
      assert g1 == g0 && r1 == r0;
    }
  }

  class RoleManager {
    var roles: map<string, Role>
    var userRoles: map<(int, string), Assignment>
    var overrides: map<(int, string), Override>
    /** The `role` column of the users table, by user id. */
    var users: map<int, string>
    var audit: seq<AuditEntry>

    /** Opening the manager on an existing database seeds the default roles
        with `INSERT OR IGNORE`. */
    constructor (roles: map<string, Role>, userRoles: map<(int, string), Assignment>,
                 overrides: map<(int, string), Override>, users: map<int, string>)
      ensures this.roles == Seeded(roles)
      ensures this.userRoles == userRoles && this.overrides == overrides && this.users == users
      ensures audit == []
    {
      this.roles := roles;
      this.userRoles := userRoles;
      this.overrides := overrides;
      this.users := users;
      audit := [];
      new;
      InitializeDefaultRoles();
    }

    /** _initialize_default_roles: one `INSERT OR IGNORE` per default role. */
    method InitializeDefaultRoles()
      modifies this
      ensures roles == Seeded(old(roles))
      ensures userRoles == old(userRoles) && overrides == old(overrides)
      ensures users == old(users) && audit == old(audit)
    {
      var i := 0;
      while i < |DefaultRoleIds|
        invariant 0 <= i <= |DefaultRoleIds|
        invariant roles == SeedIds(old(roles), DefaultRoles, DefaultRoleIds[..i])
        invariant userRoles == old(userRoles) && overrides == old(overrides)
        invariant users == old(users) && audit == old(audit)
      {
        var id := DefaultRoleIds[i];
        assert DefaultRoleIds[..i + 1][..i] == DefaultRoleIds[..i];
        if id !in roles {
          roles := roles[id := DefaultRoles[id]];
        }
        i := i + 1;
      }
      assert DefaultRoleIds[..i] == DefaultRoleIds;
      SeedIdsDefaults(old(roles));
    }

    function Permissions(u: int, now: int): set<string>
      reads this
    {
      UserPermissions(roles, userRoles, overrides, users, u, now)
    }

    /** _log_role_action. */
    method LogRoleAction(u: int, action: string, roleId: Option<string>, permission: Option<string>,
                         actor: Option<int>, now: int)
      modifies this
      ensures audit == old(audit) + [AuditEntry(u, action, roleId, permission, actor, now)]
      ensures roles == old(roles) && userRoles == old(userRoles)
      ensures overrides == old(overrides) && users == old(users)
    {
      audit := audit + [AuditEntry(u, action, roleId, permission, actor, now)];
    }

    /** assign_role: an unknown role is refused and nothing changes; otherwise
        the user's primary role becomes the role (if the user exists), the
        assignment is inserted or replaced, and the action is audited. */
    method AssignRole(u: int, roleId: string, actor: Option<int>, expiresAt: Option<int>, now: int) returns (ok: bool)
      modifies this
      ensures ok <==> roleId in old(roles)
      ensures !ok ==> roles == old(roles) && userRoles == old(userRoles) && overrides == old(overrides)
                      && users == old(users) && audit == old(audit)
      ensures ok ==> (roles == old(roles) && overrides == old(overrides)
        && users == (if u in old(users) then old(users)[u := roleId] else old(users))
        && userRoles == old(userRoles)[(u, roleId) := Assignment(actor, expiresAt)]
        && audit == old(audit) + [AuditEntry(u, "role_assigned", Some(roleId), None, actor, now)])
    {
      if roleId !in roles {
        return false;
      }
      if u in users {
        users := users[u := roleId];
      }
      userRoles := userRoles[(u, roleId) := Assignment(actor, expiresAt)];
      LogRoleAction(u, "role_assigned", Some(roleId), None, actor, now);
      ok := true;
    }

    /** revoke_role: the assignment is deleted; the primary role falls back to
        `trainee` only when it was the revoked role. */
    method RevokeRole(u: int, roleId: string, actor: Option<int>, now: int) returns (ok: bool)
      modifies this
      ensures ok
      ensures userRoles == old(userRoles) - {(u, roleId)}
      ensures users == if u in old(users) && old(users)[u] == roleId then old(users)[u := "trainee"] else old(users)
      ensures roles == old(roles) && overrides == old(overrides)
      ensures audit == old(audit) + [AuditEntry(u, "role_revoked", Some(roleId), None, actor, now)]
    {
      userRoles := userRoles - {(u, roleId)};
      if u in users && users[u] == roleId {
        users := users[u := "trainee"];
      }
      LogRoleAction(u, "role_revoked", Some(roleId), None, actor, now);
      ok := true;
    }

    /** get_user_permissions: the permission lists of the live assignments and
        of the primary role are merged, then the live overrides are applied
        one by one. */
    method GetUserPermissions(u: int, now: int) returns (perms: set<string>)
      ensures perms == Permissions(u, now)
    {
      perms := {};
      var todo := userRoles.Keys;
      while todo != {}
        invariant todo <= userRoles.Keys
        invariant perms == AssignedPermissions(roles, userRoles, userRoles.Keys - todo, u, now)
        decreases todo
      {
        var k :| k in todo;
        AssignedStep(roles, userRoles, userRoles.Keys - todo, k, u, now);
        if k.0 == u && Live(userRoles[k].expiresAt, now) && k.1 in roles {
          perms := perms + set p | p in roles[k.1].permissions;
        }
        todo := todo - {k};
        assert userRoles.Keys - todo == (userRoles.Keys - (todo + {k})) + {k};
      }
      assert userRoles.Keys - todo == userRoles.Keys;
      if u in users && users[u] in roles {
        perms := perms + set p | p in roles[users[u]].permissions;
      }
      var base := perms;
      todo := overrides.Keys;
      while todo != {}
        invariant todo <= overrides.Keys
        invariant perms == (base - Overridden(overrides, overrides.Keys - todo, u, now, false))
                           + Overridden(overrides, overrides.Keys - todo, u, now, true)
        decreases todo
      {
        var k :| k in todo;
        var done := overrides.Keys - todo;
        OverrideStep(overrides, base, done, k, u, now);
        if k.0 == u && Live(overrides[k].expiresAt, now) {
          if overrides[k].granted {
            perms := perms + {k.1};
          } else {
            perms := perms - {k.1};
          }
        }
        todo := todo - {k};
        assert overrides.Keys - todo == done + {k};
      }
      assert overrides.Keys - todo == overrides.Keys;
    }

    /** has_permission: the exact permission, then each dotted prefix with
        `.*` appended, shortest first. */
    method HasPermission(u: int, p: string, now: int) returns (b: bool)
      ensures b == Matches(Permissions(u, now), p)
    {
      var perms := GetUserPermissions(u, now);
      if p in perms {
        return true;
      }
      var parts := Split(p, '.');
      var i := 0;
      while i < |parts|
        invariant 0 <= i <= |parts|
        invariant forall j :: 0 <= j < i ==> Wildcard(parts, j) !in perms
      {
        if Join(parts[..i + 1], '.') + ".*" in perms {
          assert Wildcard(parts, i) in perms;
          return true;
        }
        i := i + 1;
      }
      b := false;
    }

    /** grant_permission: the (user, permission) override is inserted or
        replaced by a granting one. */
    method GrantPermission(u: int, p: string, actor: Option<int>, reason: Option<string>,
                           expiresAt: Option<int>, now: int) returns (ok: bool)
      modifies this
      ensures ok
      ensures overrides == old(overrides)[(u, p) := Override(true, reason, actor, expiresAt)]
      ensures roles == old(roles) && userRoles == old(userRoles) && users == old(users)
      ensures audit == old(audit) + [AuditEntry(u, "permission_granted", None, Some(p), actor, now)]
      ensures Live(expiresAt, now) ==> p in Permissions(u, now)
    {
      if Live(expiresAt, now) {
        GrantWins(roles, userRoles, overrides, users, u, now, p, Override(true, reason, actor, expiresAt));
      }
      overrides := overrides[(u, p) := Override(true, reason, actor, expiresAt)];
      LogRoleAction(u, "permission_granted", None, Some(p), actor, now);
      ok := true;
    }

    /** revoke_permission: the override is inserted or replaced by a revoking
        one without expiry. */
    method RevokePermission(u: int, p: string, actor: Option<int>, reason: Option<string>, now: int) returns (ok: bool)
      modifies this
      ensures ok
      ensures overrides == old(overrides)[(u, p) := Override(false, reason, actor, None)]
      ensures roles == old(roles) && userRoles == old(userRoles) && users == old(users)
      ensures audit == old(audit) + [AuditEntry(u, "permission_revoked", None, Some(p), actor, now)]
      ensures p !in Permissions(u, now)
    {
      RevokeWins(roles, userRoles, overrides, users, u, now, p, Override(false, reason, actor, None));
      overrides := overrides[(u, p) := Override(false, reason, actor, None)];
      LogRoleAction(u, "permission_revoked", None, Some(p), actor, now);
      ok := true;
    }

    /** create_custom_role: a plain INSERT, refused on a duplicate role id. */
    method CreateCustomRole(roleId: string, name: string, description: string,
                            permissions: seq<string>, level: int) returns (ok: bool)
      modifies this
      ensures ok <==> roleId !in old(roles)
      ensures roles == if ok then old(roles)[roleId := Role(name, description, permissions, level)] else old(roles)
      ensures userRoles == old(userRoles) && overrides == old(overrides)
      ensures users == old(users) && audit == old(audit)
    {
      if roleId in roles {
        return false;
      }
      roles := roles[roleId := Role(name, description, permissions, level)];
      ok := true;
    }

    /** update_role: refused when no field is given; otherwise the given
        fields of an existing role are replaced and the result says whether a
        role was updated. */
    method UpdateRole(roleId: string, name: Option<string>, description: Option<string>,
                      permissions: Option<seq<string>>, level: Option<int>) returns (ok: bool)
      modifies this
      ensures ok <==> (name.Some? || description.Some? || permissions.Some? || level.Some?) && roleId in old(roles)
      ensures roles == if ok then old(roles)[roleId := Revised(old(roles)[roleId], name, description, permissions, level)]
                       else old(roles)
      ensures userRoles == old(userRoles) && overrides == old(overrides)
      ensures users == old(users) && audit == old(audit)
    {
      if name.None? && description.None? && permissions.None? && level.None? {
        return false;
      }
      if roleId !in roles {
        return false;
      }
      roles := roles[roleId := Revised(roles[roleId], name, description, permissions, level)];
      ok := true;
    }

    /** delete_role: default roles and roles still some user's primary role
        are kept; otherwise the role and all its assignments are deleted. */
    method DeleteRole(roleId: string) returns (ok: bool)
      modifies this
      ensures ok <==> roleId !in DefaultRoles && (forall v :: v in old(users) ==> old(users)[v] != roleId)
      ensures ok ==> (roles == old(roles) - {roleId}
        && userRoles == map k | k in old(userRoles) && k.1 != roleId :: old(userRoles)[k])
      ensures !ok ==> roles == old(roles) && userRoles == old(userRoles)
      ensures overrides == old(overrides) && users == old(users) && audit == old(audit)
    {
      if roleId in DefaultRoles {
        return false;
      }
      if exists v :: v in users && users[v] == roleId {
        return false;
      }
      roles := roles - {roleId};
      userRoles := map k | k in userRoles && k.1 != roleId :: userRoles[k];
      ok := true;
    }
  }

  /** The role with the given fields replaced and the others kept. */
  function Revised(r: Role, name: Option<string>, description: Option<string>,
                   permissions: Option<seq<string>>, level: Option<int>): (s: Role)
    ensures s.name == (if name.Some? then name.value else r.name)
    ensures s.description == (if description.Some? then description.value else r.description)
    ensures s.permissions == (if permissions.Some? then permissions.value else r.permissions)
    ensures s.level == (if level.Some? then level.value else r.level)
  {
    Role(if name.Some? then name.value else r.name,
         if description.Some? then description.value else r.description,
         if permissions.Some? then permissions.value else r.permissions,
         if level.Some? then level.value else r.level)
  }
}
