/** The services as they run when nothing interferes: methods over a mutable
    database, each proved to be one run of its call in the interleaved system. */
module Services {
  import opened Outcomes
  import PermissionSlug
  import opened PolicyEngine
  import opened Store
  import opened Machine
  import opened SingleCalls

  /** A row as the repositories return it, under its id. */
  datatype Stored<+T> = Stored(id: Id, row: T)

  datatype PermissionRecord = PermissionRecord(id: Id, row: Permission, slug: string)

  /** The slug column, spelled out. */
  function SlugText(resource: string, action: string, specificity: Option<string>): string {
    resource + ":" + action + if specificity.Some? then ":" + specificity.value else ""
  }

  function SlugOf(row: Permission): string {
    SlugText(row.resource, row.action, row.specificity)
  }

  /** What the caller gets: the value, unless the call failed. */
  function Answered<T>(op: Op, value: T): Result<T, Error> {
    if op.stage.Failed? then Err(op.stage.error) else Ok(value)
  }

  /** A statement either takes its whole effect or fails and changes nothing. */
  ghost predicate Settles<T>(before: Db, attempt: Result<Db, Error>, after: Db, r: Result<T, Error>) {
    match attempt
    case Ok(db) => after == db && r.Ok?
    case Err(e) => after == before && r == Err(e)
  }

  /** The tables behind the repositories, with one method per repository statement. */
  class Database {
    var tenants: map<Id, Tenant>
    var principals: map<Id, Principal>
    var roles: map<Id, Role>
    var permissions: map<Id, Permission>
    var policies: map<Id, Policy>
    var rolePermissions: set<(Id, Id)>
    var principalRoles: set<(Id, Id)>

    ghost function Rows(): Db
      reads this
    {
      Db(tenants, principals, roles, permissions, policies, rolePermissions, principalRoles)
    }

    constructor ()
      ensures Rows() == EmptyDb
    {
      tenants, principals, roles, permissions, policies := map[], map[], map[], map[], map[];
      rolePermissions, principalRoles := {}, {};
    }

    method CreateTenant(id: Id, slug: string, publicKey: string) returns (r: Result<Stored<Tenant>, Error>)
      modifies this`tenants
      ensures Settles(old(Rows()), InsertTenant(old(Rows()), id, slug, publicKey), Rows(), r)
      ensures r == if !(|slug| >= 2 && PermissionSlug.IsWord(slug) && slug[0] != '-' && slug[|slug| - 1] != '-')
                   then Err(CheckViolation)
                   else if id in old(tenants) || exists u :: u in old(tenants) && old(tenants)[u].slug == slug
                   then Err(UniqueViolation)
                   else Ok(Stored(id, Tenant(slug, publicKey, 1, 1)))
      ensures tenants == if r.Ok? then old(tenants)[id := r.value.row] else old(tenants)
    {
      PermissionSlug.SegmentsAreWords(slug);
      if !IsTenantSlug(slug) {
        return Err(CheckViolation);
      }
      if id in tenants || SlugTaken(tenants, slug) {
        return Err(UniqueViolation);
      }
      tenants := tenants[id := Tenant(slug, publicKey, 1, 1)];
      r := Ok(Stored(id, tenants[id]));
    }

    method CreatePrincipal(t: Id, id: Id, externalId: string)
      returns (r: Result<Stored<Principal>, Error>)
      modifies this`principals
      ensures Settles(old(Rows()), InsertPrincipal(old(Rows()), t, id, externalId), Rows(), r)
      ensures r == if id in old(principals) || exists p :: p in old(principals) && old(principals)[p].tenant == t &&
                                                           old(principals)[p].externalId == externalId
                   then Err(UniqueViolation)
                   else if t !in tenants then Err(ForeignKeyViolation)
                   else Ok(Stored(id, Principal(t, externalId, 1)))
      ensures principals == if r.Ok? then old(principals)[id := r.value.row] else old(principals)
    {
      if id in principals || ExternalIdTaken(principals, t, externalId) {
        return Err(UniqueViolation);
      }
      if t !in tenants {
        return Err(ForeignKeyViolation);
      }
      principals := principals[id := Principal(t, externalId, 1)];
      r := Ok(Stored(id, principals[id]));
    }

    method CreateRole(t: Id, id: Id, name: string) returns (r: Result<Stored<Role>, Error>)
      modifies this`roles
      ensures Settles(old(Rows()), InsertRole(old(Rows()), t, id, name), Rows(), r)
      ensures r == if id in old(roles) ||
                      exists x :: x in old(roles) && old(roles)[x].tenant == t && old(roles)[x].name == name
                   then Err(UniqueViolation)
                   else if t !in tenants then Err(ForeignKeyViolation)
                   else Ok(Stored(id, Role(t, name)))
      ensures roles == if r.Ok? then old(roles)[id := r.value.row] else old(roles)
    {
      if id in roles || RoleNameTaken(roles, t, name) {
        return Err(UniqueViolation);
      }
      if t !in tenants {
        return Err(ForeignKeyViolation);
      }
      roles := roles[id := Role(t, name)];
      r := Ok(Stored(id, roles[id]));
    }

    method CreatePermission(t: Id, id: Id, resource: string, action: string, specificity: Option<string>)
      returns (r: Result<PermissionRecord, Error>)
      modifies this`permissions
      ensures Settles(old(Rows()), InsertPermission(old(Rows()), t, id, resource, action, specificity), Rows(), r)
      ensures var slug := SlugText(resource, action, specificity);
              r == if !(PermissionSlug.IsWord(resource) &&
                        action in ["read", "write", "delete", "execute", "approve", "export", "administer"] &&
                        (specificity == None || PermissionSlug.IsWord(specificity.value)))
                   then Err(CheckViolation)
                   else if id in old(permissions) ||
                           exists q :: q in old(permissions) && old(permissions)[q].tenant == t &&
                                       SlugOf(old(permissions)[q]) == slug
                   then Err(UniqueViolation)
                   else if t !in tenants then Err(ForeignKeyViolation)
                   else Ok(PermissionRecord(id, Permission(t, resource, action, specificity), slug))
      ensures permissions == if r.Ok? then old(permissions)[id := r.value.row] else old(permissions)
      ensures r.Ok? ==> r.value.slug == PermissionSlug.BuildPermissionSlug(resource, action, specificity) &&
                        PermissionSlug.IsValidPermissionSlug(r.value.slug)
    {
      hide PermissionSlug.IsValidPermissionSlug, PermissionSlug.WellFormed, PermissionSlug.IsWord;
      PermissionSlug.CheckedComponentsAre(resource, action, specificity);
      var row := Permission(t, resource, action, specificity);
      if !PermissionSlug.WellFormed(resource, action, specificity) {
        return Err(CheckViolation);
      }
      if id in permissions || PermissionSlugTaken(permissions, t, row.Slug()) {
        return Err(UniqueViolation);
      }
      if t !in tenants {
        return Err(ForeignKeyViolation);
      }
      permissions := permissions[id := row];
      r := Ok(PermissionRecord(id, row, row.Slug()));
      PermissionSlug.SlugsAgree(resource, action, specificity);
      PermissionSlug.RecogniserIsPrinterImage(row.Slug());
    }

    method CreatePolicy(t: Id, id: Id, name: string, required: seq<string>, strategy: MatchStrategy,
                        contextVersion: string) returns (r: Result<Stored<Policy>, Error>)
      modifies this`policies
      ensures Settles(old(Rows()), InsertPolicy(old(Rows()), t, id, name, required, strategy, contextVersion),
                      Rows(), r)
      ensures r == if id in old(policies) ||
                      exists y :: y in old(policies) && old(policies)[y].tenant == t && old(policies)[y].name == name
                   then Err(UniqueViolation)
                   else if t !in tenants then Err(ForeignKeyViolation)
                   else Ok(Stored(id, Policy(t, name, required, strategy, contextVersion)))
      ensures policies == if r.Ok? then old(policies)[id := r.value.row] else old(policies)
    {
      if id in policies || PolicyNameTaken(policies, t, name) {
        return Err(UniqueViolation);
      }
      if t !in tenants {
        return Err(ForeignKeyViolation);
      }
      policies := policies[id := Policy(t, name, required, strategy, contextVersion)];
      r := Ok(Stored(id, policies[id]));
    }

    /** The repository looks the role up again before it writes the junction row. */
    method AssignPermission(t: Id, r: Id, q: Id) returns (result: Result<(), Error>)
      modifies this`rolePermissions
      ensures Settles(old(Rows()),
                      if HasRole(old(Rows()), t, r) then InsertRolePermission(old(Rows()), r, q) else Err(RowNotFound),
                      Rows(), result)
      ensures result == if r !in roles || roles[r].tenant != t then Err(RowNotFound)
                        else if q !in permissions then Err(ForeignKeyViolation)
                        else Ok(())
      ensures rolePermissions == old(rolePermissions) + if result.Ok? then {(r, q)} else {}
    {
      if r !in roles || roles[r].tenant != t {
        return Err(RowNotFound);
      }
      if q !in permissions {
        return Err(ForeignKeyViolation);
      }
      rolePermissions := rolePermissions + {(r, q)};
      result := Ok(());
    }

    method AssignRole(t: Id, p: Id, r: Id)
      modifies this`principalRoles
      ensures Rows() == InsertPrincipalRole(old(Rows()), t, p, r)
      ensures principalRoles == old(principalRoles) +
              if p in principals && principals[p].tenant == t && r in roles && roles[r].tenant == t
              then {(p, r)} else {}
    {
      if p in principals && principals[p].tenant == t && r in roles && roles[r].tenant == t {
        principalRoles := principalRoles + {(p, r)};
      }
    }

    /** Returns the new version. */
    method IncrementPolicyVersion(t: Id) returns (r: Result<nat, Error>)
      modifies this`tenants
      ensures match Store.IncrementPolicyVersion(old(Rows()), t)
              case Ok(db) => Rows() == db && r == Ok(db.tenants[t].policyVersion)
              case Err(e) => Rows() == old(Rows()) && r == Err(e)
      ensures r == if t !in old(tenants) then Err(RowNotFound)
                   else if old(tenants)[t].policyVersion >= 2147483647 then Err(OutOfRange)
                   else Ok(old(tenants)[t].policyVersion + 1)
      ensures tenants == if r.Ok? then old(tenants)[t := old(tenants)[t].(policyVersion := r.value)] else old(tenants)
    {
      if t !in tenants {
        return Err(RowNotFound);
      }
      var row := tenants[t];
      if row.policyVersion >= MAX_INTEGER {
        return Err(OutOfRange);
      }
      tenants := tenants[t := row.(policyVersion := row.policyVersion + 1)];
      r := Ok(row.policyVersion + 1);
    }

    /** Returns the new version. */
    method IncrementKeyVersion(t: Id) returns (r: Result<nat, Error>)
      modifies this`tenants
      ensures match Store.IncrementKeyVersion(old(Rows()), t)
              case Ok(db) => Rows() == db && r == Ok(db.tenants[t].keyVersion)
              case Err(e) => Rows() == old(Rows()) && r == Err(e)
      ensures r == if t !in old(tenants) then Err(RowNotFound)
                   else if old(tenants)[t].keyVersion >= 2147483647 then Err(OutOfRange)
                   else Ok(old(tenants)[t].keyVersion + 1)
      ensures tenants == if r.Ok? then old(tenants)[t := old(tenants)[t].(keyVersion := r.value)] else old(tenants)
    {
      if t !in tenants {
        return Err(RowNotFound);
      }
      var row := tenants[t];
      if row.keyVersion >= MAX_INTEGER {
        return Err(OutOfRange);
      }
      tenants := tenants[t := row.(keyVersion := row.keyVersion + 1)];
      r := Ok(row.keyVersion + 1);
    }

    /** Returns the new version. */
    method IncrementVersion(t: Id, p: Id) returns (r: Result<nat, Error>)
      modifies this`principals
      ensures match IncrementPrincipalVersion(old(Rows()), t, p)
              case Ok(db) => Rows() == db && r == Ok(db.principals[p].version)
              case Err(e) => Rows() == old(Rows()) && r == Err(e)
      ensures r == if p !in old(principals) || old(principals)[p].tenant != t then Err(RowNotFound)
                   else if old(principals)[p].version >= 2147483647 then Err(OutOfRange)
                   else Ok(old(principals)[p].version + 1)
      ensures principals == if r.Ok? then old(principals)[p := old(principals)[p].(version := r.value)] else old(principals)
    {
      if p !in principals || principals[p].tenant != t {
        return Err(RowNotFound);
      }
      var row := principals[p];
      if row.version >= MAX_INTEGER {
        return Err(OutOfRange);
      }
      principals := principals[p := row.(version := row.version + 1)];
      r := Ok(row.version + 1);
    }

    /** The four-table join, duplicates removed. */
    method GetFlatPermissionSlugs(t: Id, p: Id) returns (slugs: set<string>)
      ensures slugs == FlatSlugs(Rows(), t, p)
      ensures forall s :: s in slugs <==>
                exists r, q :: (p, r) in principalRoles && (r, q) in rolePermissions &&
                               r in roles && roles[r].tenant == t &&
                               q in permissions && permissions[q].tenant == t && SlugOf(permissions[q]) == s
    {
      slugs := set pr, rq | pr in principalRoles && rq in rolePermissions && rq.0 == pr.1 && pr.0 == p &&
                            rq.1 in permissions && permissions[rq.1].tenant == t &&
                            pr.1 in roles && roles[pr.1].tenant == t :: permissions[rq.1].Slug();
      forall s ensures s in slugs <==> s in FlatSlugs(Rows(), t, p) {
        FlatSlugsContain(Rows(), t, p, s);
        if HoldsSlug(Rows(), t, p, s) {
          var q :| Holds(Rows(), t, p, q) && permissions[q].Slug() == s;
          var r :| HasRole(Rows(), t, r) && (p, r) in principalRoles && (r, q) in rolePermissions;
          var pr, rq := (p, r), (r, q);
          assert pr in principalRoles && rq in rolePermissions && rq.0 == pr.1;
        }
      }
    }
  }

  class AccessControlService {
    const db: Database

    constructor (db: Database)
      ensures this.db == db
    {
      this.db := db;
    }

    method CreateRole(t: Id, id: Id, name: string) returns (r: Result<Stored<Role>, Error>)
      modifies db
      ensures var (after, op) := Alone(old(db.Rows()), t, Machine.CreateRole(name), id, false);
              db.Rows() == after && r == Answered(op, Stored(id, Role(t, name)))
      ensures r.Ok? <==>
              t in old(db.tenants) && old(db.tenants)[t].policyVersion < 2147483647 && id !in old(db.roles) &&
              forall x :: x in old(db.roles) && old(db.roles)[x].tenant == t ==> old(db.roles)[x].name != name
    {
      hide Alone;
      CreationAlone(db.Rows(), t, Machine.CreateRole(name), id, false);
      r := db.CreateRole(t, id, name);
      if r.Ok? {
        var v := db.IncrementPolicyVersion(t);
        r := Unless(v, r.value);
      }
    }

    /** The returned slug is the one the database generated. */
    method CreatePermission(t: Id, id: Id, resource: string, action: string, specificity: Option<string>)
      returns (r: Result<PermissionRecord, Error>)
      modifies db
      ensures var call := Machine.CreatePermission(resource, action, specificity);
              var (after, op) := Alone(old(db.Rows()), t, call, id, false);
              db.Rows() == after &&
              r == Answered(op, PermissionRecord(id, Permission(t, resource, action, specificity),
                                                 PermissionSlug.BuildPermissionSlug(resource, action, specificity)))
      ensures r.Ok? <==>
              PermissionSlug.IsWord(resource) &&
              action in ["read", "write", "delete", "execute", "approve", "export", "administer"] &&
              (specificity == None || PermissionSlug.IsWord(specificity.value)) &&
              t in old(db.tenants) && old(db.tenants)[t].policyVersion < 2147483647 && id !in old(db.permissions) &&
              forall q :: q in old(db.permissions) && old(db.permissions)[q].tenant == t ==>
                SlugOf(old(db.permissions)[q]) != SlugText(resource, action, specificity)
    {
      hide PermissionSlug.WellFormed, PermissionSlug.GeneratedSlug, PermissionSlug.BuildPermissionSlug,
           PermissionSlug.IsValidPermissionSlug, InsertPermission, Alone;
      CreationAlone(db.Rows(), t, Machine.CreatePermission(resource, action, specificity), id, false);
      r := db.CreatePermission(t, id, resource, action, specificity);
      if r.Ok? {
        var v := db.IncrementPolicyVersion(t);
        r := Unless(v, r.value);
      }
    }

    method AssignPermissionToRole(t: Id, role: Id, permission: Id) returns (r: Result<(), Error>)
      modifies db
      ensures var (after, op) := Alone(old(db.Rows()), t, Machine.AssignPermissionToRole(role, permission), "", false);
              db.Rows() == after && r == Answered(op, ())
      ensures db.rolePermissions == old(db.rolePermissions) +
              if role in db.roles && db.roles[role].tenant == t &&
                 permission in db.permissions && db.permissions[permission].tenant == t
              then {(role, permission)} else {}
    {
      hide Alone;
      PermissionAssignmentAlone(db.Rows(), t, role, permission, "", false);
      var foundRole := role in db.roles && db.roles[role].tenant == t;
      var foundPermission := permission in db.permissions && db.permissions[permission].tenant == t;
      if !foundRole {
        return Err(NotFound);
      }
      if !foundPermission {
        return Err(NotFound);
      }
      r := db.AssignPermission(t, role, permission);
      if r.Ok? {
        var v := db.IncrementPolicyVersion(t);
        r := Unless(v, ());
      }
    }

    /** Both increments are started whatever becomes of the other, and the one that
        fails first gives the answer; principalFirst says which settles first. */
    method AssignRoleToPrincipal(t: Id, principal: Id, role: Id, principalFirst: bool)
      returns (r: Result<(), Error>)
      modifies db
      ensures var call := Machine.AssignRoleToPrincipal(principal, role);
              var (after, op) := Alone(old(db.Rows()), t, call, "", principalFirst);
              db.Rows() == after && r == Answered(op, ())
      ensures db.principalRoles == old(db.principalRoles) +
              if principal in old(db.principals) && old(db.principals)[principal].tenant == t &&
                 role in db.roles && db.roles[role].tenant == t
              then {(principal, role)} else {}
    {
      hide Alone;
      RoleAssignmentAlone(db.Rows(), t, principal, role, "", principalFirst);
      var foundPrincipal := principal in db.principals && db.principals[principal].tenant == t;
      var foundRole := role in db.roles && db.roles[role].tenant == t;
      if !foundPrincipal {
        return Err(NotFound);
      }
      if !foundRole {
        return Err(NotFound);
      }
      db.AssignRole(t, principal, role);
      var v, w;
      if principalFirst {
        w := db.IncrementVersion(t, principal);
        v := db.IncrementPolicyVersion(t);
        r := if w.Err? then Err(w.error) else Unless(v, ());
      } else {
        v := db.IncrementPolicyVersion(t);
        w := db.IncrementVersion(t, principal);
        r := if v.Err? then Err(v.error) else Unless(w, ());
      }
    }

    method FlattenPermissions(principal: Id, t: Id) returns (slugs: set<string>)
      ensures slugs == FlatSlugs(db.Rows(), t, principal)
    {
      slugs := db.GetFlatPermissionSlugs(t, principal);
    }
  }

  class PolicyRegistryService {
    const db: Database

    constructor (db: Database)
      ensures this.db == db
    {
      this.db := db;
    }

    /** The context version is bound here, not by the caller. */
    method CreatePolicy(t: Id, id: Id, name: string, required: seq<string>, strategy: MatchStrategy)
      returns (r: Result<Stored<Policy>, Error>)
      modifies db
      ensures var (after, op) := Alone(old(db.Rows()), t, Machine.CreatePolicy(name, required, strategy), id, false);
              db.Rows() == after &&
              r == Answered(op, Stored(id, Policy(t, name, required, strategy, "v1")))
      ensures r.Ok? <==>
              t in old(db.tenants) && old(db.tenants)[t].policyVersion < 2147483647 && id !in old(db.policies) &&
              forall y :: y in old(db.policies) && old(db.policies)[y].tenant == t ==> old(db.policies)[y].name != name
    {
      hide Alone;
      CreationAlone(db.Rows(), t, Machine.CreatePolicy(name, required, strategy), id, false);
      r := db.CreatePolicy(t, id, name, required, strategy, CURRENT_CONTEXT_VERSION);
      if r.Ok? {
        var v := db.IncrementPolicyVersion(t);
        r := Unless(v, r.value);
      }
    }
  }

  /** The value, unless what was awaited before returning it failed. */
  function Unless<T>(awaited: Result<nat, Error>, value: T): Result<T, Error> {
    match awaited
    case Ok(_) => Ok(value)
    case Err(e) => Err(e)
  }
}
