/** The authorization tables and the SQL statements the repositories run on them.
    Every statement is one atomic function from a database to its outcome. */
module Store {
  import opened Outcomes
  import opened PermissionSlug
  import opened PolicyEngine

  type Id = string

  /** The largest value of a Postgres integer column. */
  const MAX_INTEGER: nat := 0x7fff_ffff

  const CURRENT_CONTEXT_VERSION := "v1"

  datatype Tenant = Tenant(slug: string, publicKey: string, keyVersion: nat, policyVersion: nat)

  datatype Principal = Principal(tenant: Id, externalId: string, version: nat)

  datatype Role = Role(tenant: Id, name: string)

  datatype Permission = Permission(tenant: Id, resource: string, action: string, specificity: Option<string>) {
    function Slug(): string {
      GeneratedSlug(resource, action, specificity)
    }
  }

  datatype Db = Db(
    tenants: map<Id, Tenant>,
    principals: map<Id, Principal>,
    roles: map<Id, Role>,
    permissions: map<Id, Permission>,
    policies: map<Id, Policy>,
    rolePermissions: set<(Id, Id)>,
    principalRoles: set<(Id, Id)>)

  const EmptyDb := Db(map[], map[], map[], map[], map[], {}, {})

  datatype Error =
    | UniqueViolation | ForeignKeyViolation | CheckViolation | OutOfRange
    | RowNotFound | NotFound | Crashed

  // ---------------------------------------------------------------------------
  // Tenant-scoped lookups
  // ---------------------------------------------------------------------------

  predicate HasPrincipal(db: Db, t: Id, p: Id) {
    p in db.principals && db.principals[p].tenant == t
  }

  predicate HasRole(db: Db, t: Id, r: Id) {
    r in db.roles && db.roles[r].tenant == t
  }

  predicate HasPermission(db: Db, t: Id, q: Id) {
    q in db.permissions && db.permissions[q].tenant == t
  }

  predicate HasPolicy(db: Db, t: Id, y: Id) {
    y in db.policies && db.policies[y].tenant == t
  }

  // ---------------------------------------------------------------------------
  // Inserts
  // ---------------------------------------------------------------------------

  /** The CHECK on tenant slugs: letters, digits and inner hyphens, two or more. */
  predicate IsTenantSlug(slug: string) {
    |slug| >= 2 && IsSegment(slug) && slug[0] != '-' && slug[|slug| - 1] != '-'
  }

  predicate SlugTaken(tenants: map<Id, Tenant>, slug: string) {
    exists u | u in tenants :: tenants[u].slug == slug
  }

  predicate ExternalIdTaken(principals: map<Id, Principal>, t: Id, externalId: string) {
    exists p | p in principals :: principals[p].tenant == t && principals[p].externalId == externalId
  }

  predicate RoleNameTaken(roles: map<Id, Role>, t: Id, name: string) {
    exists r | r in roles :: roles[r].tenant == t && roles[r].name == name
  }

  predicate PermissionSlugTaken(permissions: map<Id, Permission>, t: Id, slug: string) {
    exists q | q in permissions :: permissions[q].tenant == t && permissions[q].Slug() == slug
  }

  predicate PolicyNameTaken(policies: map<Id, Policy>, t: Id, name: string) {
    exists y | y in policies :: policies[y].tenant == t && policies[y].name == name
  }

  function InsertTenant(db: Db, id: Id, slug: string, publicKey: string): Result<Db, Error> {
    if !IsTenantSlug(slug) then Err(CheckViolation)
    else if id in db.tenants || SlugTaken(db.tenants, slug) then Err(UniqueViolation)
    else Ok(db.(tenants := db.tenants[id := Tenant(slug, publicKey, 1, 1)]))
  }

  function InsertPrincipal(db: Db, t: Id, id: Id, externalId: string): Result<Db, Error> {
    if id in db.principals || ExternalIdTaken(db.principals, t, externalId) then Err(UniqueViolation)
    else if t !in db.tenants then Err(ForeignKeyViolation)
    else Ok(db.(principals := db.principals[id := Principal(t, externalId, 1)]))
  }

  function InsertRole(db: Db, t: Id, id: Id, name: string): Result<Db, Error> {
    if id in db.roles || RoleNameTaken(db.roles, t, name) then Err(UniqueViolation)
    else if t !in db.tenants then Err(ForeignKeyViolation)
    else Ok(db.(roles := db.roles[id := Role(t, name)]))
  }

  function InsertPermission(db: Db, t: Id, id: Id, resource: string, action: string,
                            specificity: Option<string>): Result<Db, Error> {
    var row := Permission(t, resource, action, specificity);
    if !WellFormed(resource, action, specificity) then Err(CheckViolation)
    else if id in db.permissions || PermissionSlugTaken(db.permissions, t, row.Slug()) then Err(UniqueViolation)
    else if t !in db.tenants then Err(ForeignKeyViolation)
    else Ok(db.(permissions := db.permissions[id := row]))
  }

  function InsertPolicy(db: Db, t: Id, id: Id, name: string, required: seq<string>,
                        strategy: MatchStrategy, contextVersion: string): Result<Db, Error> {
    if id in db.policies || PolicyNameTaken(db.policies, t, name) then Err(UniqueViolation)
    else if t !in db.tenants then Err(ForeignKeyViolation)
    else Ok(db.(policies := db.policies[id := Policy(t, name, required, strategy, contextVersion)]))
  }

  /** Not tenant-guarded: only the foreign keys are checked. */
  function InsertRolePermission(db: Db, r: Id, q: Id): Result<Db, Error> {
    if r !in db.roles || q !in db.permissions then Err(ForeignKeyViolation)
    else Ok(db.(rolePermissions := db.rolePermissions + {(r, q)}))
  }

  /** Tenant-guarded insert-select: no row is written, and none is reported missing,
      unless both ends belong to the tenant. */
  function InsertPrincipalRole(db: Db, t: Id, p: Id, r: Id): Db {
    if HasPrincipal(db, t, p) && HasRole(db, t, r)
    then db.(principalRoles := db.principalRoles + {(p, r)}) else db
  }

  // ---------------------------------------------------------------------------
  // Counters
  // ---------------------------------------------------------------------------

  function IncrementPolicyVersion(db: Db, t: Id): Result<Db, Error> {
    if t !in db.tenants then Err(RowNotFound)
    else if db.tenants[t].policyVersion >= MAX_INTEGER then Err(OutOfRange)
    else Ok(db.(tenants := db.tenants[t := db.tenants[t].(policyVersion := db.tenants[t].policyVersion + 1)]))
  }

  function IncrementKeyVersion(db: Db, t: Id): Result<Db, Error> {
    if t !in db.tenants then Err(RowNotFound)
    else if db.tenants[t].keyVersion >= MAX_INTEGER then Err(OutOfRange)
    else Ok(db.(tenants := db.tenants[t := db.tenants[t].(keyVersion := db.tenants[t].keyVersion + 1)]))
  }

  function IncrementPrincipalVersion(db: Db, t: Id, p: Id): Result<Db, Error> {
    if !HasPrincipal(db, t, p) then Err(RowNotFound)
    else if db.principals[p].version >= MAX_INTEGER then Err(OutOfRange)
    else Ok(db.(principals := db.principals[p := db.principals[p].(version := db.principals[p].version + 1)]))
  }

  // ---------------------------------------------------------------------------
  // Deletes, with the cascades the schema declares
  // ---------------------------------------------------------------------------

  function DeletePrincipal(db: Db, t: Id, p: Id): Db {
    if !HasPrincipal(db, t, p) then db
    else db.(principals := db.principals - {p},
             principalRoles := set pr | pr in db.principalRoles && pr.0 != p)
  }

  function DeleteRole(db: Db, t: Id, r: Id): Db {
    if !HasRole(db, t, r) then db
    else db.(roles := db.roles - {r},
             rolePermissions := (set rq | rq in db.rolePermissions && rq.0 != r),
             principalRoles := set pr | pr in db.principalRoles && pr.1 != r)
  }

  function DeletePermission(db: Db, t: Id, q: Id): Db {
    if !HasPermission(db, t, q) then db
    else db.(permissions := db.permissions - {q},
             rolePermissions := set rq | rq in db.rolePermissions && rq.1 != q)
  }

  function DeletePolicy(db: Db, t: Id, y: Id): Db {
    if !HasPolicy(db, t, y) then db else db.(policies := db.policies - {y})
  }

  function DeleteTenant(db: Db, t: Id): Db {
    Db(db.tenants - {t},
       map p | p in db.principals && db.principals[p].tenant != t :: db.principals[p],
       map r | r in db.roles && db.roles[r].tenant != t :: db.roles[r],
       map q | q in db.permissions && db.permissions[q].tenant != t :: db.permissions[q],
       map y | y in db.policies && db.policies[y].tenant != t :: db.policies[y],
       (set rq | rq in db.rolePermissions && !HasRole(db, t, rq.0) && !HasPermission(db, t, rq.1)),
       set pr | pr in db.principalRoles && !HasPrincipal(db, t, pr.0) && !HasRole(db, t, pr.1))
  }

  // ---------------------------------------------------------------------------
  // The permission projection
  // ---------------------------------------------------------------------------

  ghost predicate Holds(db: Db, t: Id, p: Id, q: Id) {
    HasPermission(db, t, q) &&
    exists r :: HasRole(db, t, r) && (p, r) in db.principalRoles && (r, q) in db.rolePermissions
  }

  /** The permission rows the four-table join reaches. */
  ghost function ReachablePermissions(db: Db, t: Id, p: Id): set<Id> {
    set q | q in db.permissions && Holds(db, t, p, q)
  }

  /** The DISTINCT slugs of those rows. */
  ghost function FlatSlugs(db: Db, t: Id, p: Id): set<string> {
    set q | q in ReachablePermissions(db, t, p) :: db.permissions[q].Slug()
  }

  ghost predicate HoldsSlug(db: Db, t: Id, p: Id, s: string) {
    exists q :: Holds(db, t, p, q) && db.permissions[q].Slug() == s
  }

  lemma FlatSlugsContain(db: Db, t: Id, p: Id, s: string)
    ensures s in FlatSlugs(db, t, p) <==> HoldsSlug(db, t, p, s)
  {
    if HoldsSlug(db, t, p, s) {
      var q :| Holds(db, t, p, q) && db.permissions[q].Slug() == s;
      assert q in ReachablePermissions(db, t, p);
    }
  }

  // ---------------------------------------------------------------------------
  // What the constraints guarantee
  // ---------------------------------------------------------------------------

  ghost predicate TenantsExist(db: Db) {
    (forall p :: p in db.principals ==> db.principals[p].tenant in db.tenants) &&
    (forall r :: r in db.roles ==> db.roles[r].tenant in db.tenants) &&
    (forall q :: q in db.permissions ==> db.permissions[q].tenant in db.tenants) &&
    (forall y :: y in db.policies ==> db.policies[y].tenant in db.tenants)
  }

  /** Referential integrity of the junction tables, and both ends in one tenant. */
  ghost predicate JunctionsStayInTenant(db: Db) {
    (forall r, q :: (r, q) in db.rolePermissions ==>
       r in db.roles && HasPermission(db, db.roles[r].tenant, q)) &&
    (forall p, r :: (p, r) in db.principalRoles ==>
       p in db.principals && HasRole(db, db.principals[p].tenant, r))
  }

  ghost predicate SlugsUnique(db: Db) {
    forall a, b | a in db.permissions && b in db.permissions &&
                  db.permissions[a].tenant == db.permissions[b].tenant &&
                  db.permissions[a].Slug() == db.permissions[b].Slug() :: a == b
  }

  ghost predicate TriplesUnique(db: Db) {
    forall a, b | a in db.permissions && b in db.permissions && db.permissions[a] == db.permissions[b] :: a == b
  }

  ghost predicate RowsChecked(db: Db) {
    (forall q :: q in db.permissions ==>
       WellFormed(db.permissions[q].resource, db.permissions[q].action, db.permissions[q].specificity)) &&
    (forall y :: y in db.policies ==> db.policies[y].contextVersion == CURRENT_CONTEXT_VERSION)
  }

  ghost predicate TenantSlugsProper(tenants: map<Id, Tenant>) {
    (forall t :: t in tenants ==> IsTenantSlug(tenants[t].slug)) &&
    (forall a, b | a in tenants && b in tenants && tenants[a].slug == tenants[b].slug :: a == b)
  }

  ghost predicate ExternalIdsUnique(principals: map<Id, Principal>) {
    forall a, b | a in principals && b in principals && principals[a].tenant == principals[b].tenant &&
                  principals[a].externalId == principals[b].externalId :: a == b
  }

  ghost predicate RoleNamesUnique(roles: map<Id, Role>) {
    forall a, b | a in roles && b in roles && roles[a] == roles[b] :: a == b
  }

  ghost predicate PolicyNamesUnique(policies: map<Id, Policy>) {
    forall a, b | a in policies && b in policies && policies[a].tenant == policies[b].tenant &&
                  policies[a].name == policies[b].name :: a == b
  }

  ghost predicate NamesUnique(db: Db) {
    TenantSlugsProper(db.tenants) && ExternalIdsUnique(db.principals) &&
    RoleNamesUnique(db.roles) && PolicyNamesUnique(db.policies)
  }

  ghost predicate Integrity(db: Db) {
    TenantsExist(db) && JunctionsStayInTenant(db) && SlugsUnique(db) && RowsChecked(db) && NamesUnique(db)
  }

  // ---------------------------------------------------------------------------
  // Consequences for the projection
  // ---------------------------------------------------------------------------

  /** The query never joins principals, yet a principal of another tenant gets nothing. */
  lemma OtherTenantsPrincipalHoldsNothing(db: Db, t: Id, p: Id)
    requires Integrity(db) && p in db.principals && db.principals[p].tenant != t
    ensures FlatSlugs(db, t, p) == {}
  {
    forall s ensures s !in FlatSlugs(db, t, p) {
      FlatSlugsContain(db, t, p, s);
    }
  }

  /** On the rows the CHECK constraints admit, the slug column is the application's
      slug and its uniqueness per tenant is uniqueness of the component triple. */
  lemma SlugUniquenessIsTripleUniqueness(db: Db)
    requires RowsChecked(db)
    ensures SlugsUnique(db) <==> TriplesUnique(db)
    ensures forall q :: q in db.permissions ==>
              var x := db.permissions[q];
              x.Slug() == BuildPermissionSlug(x.resource, x.action, x.specificity)
  {
    hide GeneratedSlug, BuildPermissionSlug, WellFormed;
    forall q | q in db.permissions
      ensures var x := db.permissions[q]; x.Slug() == BuildPermissionSlug(x.resource, x.action, x.specificity)
    {
      var x := db.permissions[q];
      SlugsAgree(x.resource, x.action, x.specificity);
    }
    forall a, b | a in db.permissions && b in db.permissions &&
                  db.permissions[a].tenant == db.permissions[b].tenant &&
                  db.permissions[a].Slug() == db.permissions[b].Slug()
      ensures db.permissions[a] == db.permissions[b]
    {
      var x, y := db.permissions[a], db.permissions[b];
      SlugDeterminesComponents(x.resource, x.action, x.specificity, y.resource, y.action, y.specificity);
    }
  }

  /** DISTINCT removes nothing but repeated joins: one slug per reachable row. */
  lemma FlatSizeIsReachableRows(db: Db, t: Id, p: Id)
    requires Integrity(db)
    ensures |FlatSlugs(db, t, p)| == |ReachablePermissions(db, t, p)|
  {
    SlugImageSize(db, t, ReachablePermissions(db, t, p));
  }

  lemma {:induction false} SlugImageSize(db: Db, t: Id, rows: set<Id>)
    requires SlugsUnique(db) && rows <= db.permissions.Keys
    requires forall q :: q in rows ==> HasPermission(db, t, q)
    ensures |(set q | q in rows :: db.permissions[q].Slug())| == |rows|
  {
    if rows == {} {
    } else {
      var q :| q in rows;
      SlugImageSize(db, t, rows - {q});
      var rest := set x | x in rows - {q} :: db.permissions[x].Slug();
      assert db.permissions[q].Slug() !in rest;
      assert (set x | x in rows :: db.permissions[x].Slug()) == rest + {db.permissions[q].Slug()};
    }
  }

  // ---------------------------------------------------------------------------
  // Cascades
  // ---------------------------------------------------------------------------

  /** What ON DELETE CASCADE means: of the rows not deleted themselves, exactly those
      stay whose references all stay, and they stay unchanged. */
  ghost predicate Cascades(db: Db, db': Db, tenants: set<Id>, principals: set<Id>, roles: set<Id>,
                           permissions: set<Id>, policies: set<Id>) {
    db'.tenants == db.tenants - tenants &&
    db'.principals == (map p | p in db.principals && p !in principals && db.principals[p].tenant in db'.tenants ::
                         db.principals[p]) &&
    db'.roles == (map r | r in db.roles && r !in roles && db.roles[r].tenant in db'.tenants :: db.roles[r]) &&
    db'.permissions == (map q | q in db.permissions && q !in permissions && db.permissions[q].tenant in db'.tenants ::
                          db.permissions[q]) &&
    db'.policies == (map y | y in db.policies && y !in policies && db.policies[y].tenant in db'.tenants ::
                       db.policies[y]) &&
    (forall r, q :: (r, q) in db'.rolePermissions <==>
       (r, q) in db.rolePermissions && r in db'.roles && q in db'.permissions) &&
    (forall p, r :: (p, r) in db'.principalRoles <==>
       (p, r) in db.principalRoles && p in db'.principals && r in db'.roles)
  }

  lemma DeletePrincipalCascades(db: Db, t: Id, p: Id)
    requires TenantsExist(db) && JunctionsStayInTenant(db) && HasPrincipal(db, t, p)
    ensures Cascades(db, DeletePrincipal(db, t, p), {}, {p}, {}, {}, {})
  {
  }

  lemma DeleteRoleCascades(db: Db, t: Id, r: Id)
    requires TenantsExist(db) && JunctionsStayInTenant(db) && HasRole(db, t, r)
    ensures Cascades(db, DeleteRole(db, t, r), {}, {}, {r}, {}, {})
  {
  }

  lemma DeletePermissionCascades(db: Db, t: Id, q: Id)
    requires TenantsExist(db) && JunctionsStayInTenant(db) && HasPermission(db, t, q)
    ensures Cascades(db, DeletePermission(db, t, q), {}, {}, {}, {q}, {})
  {
  }

  lemma DeletePolicyCascades(db: Db, t: Id, y: Id)
    requires TenantsExist(db) && JunctionsStayInTenant(db) && HasPolicy(db, t, y)
    ensures Cascades(db, DeletePolicy(db, t, y), {}, {}, {}, {}, {y})
  {
  }

  lemma DeleteTenantCascades(db: Db, t: Id)
    requires TenantsExist(db) && JunctionsStayInTenant(db)
    ensures Cascades(db, DeleteTenant(db, t), {t}, {}, {}, {}, {})
  {
  }

  // ---------------------------------------------------------------------------
  // Incremental maintenance of the projection
  // ---------------------------------------------------------------------------

  ghost predicate RoleGrants(db: Db, t: Id, r: Id, s: string) {
    exists q :: HasPermission(db, t, q) && (r, q) in db.rolePermissions && db.permissions[q].Slug() == s
  }

  /** Assigning a role changes exactly that principal's flat set, by exactly the
      slugs the role grants. */
  lemma AssigningRoleAddsItsSlugs(db: Db, t: Id, p: Id, r: Id, t': Id, p': Id, s: string)
    requires HasPrincipal(db, t, p) && HasRole(db, t, r)
    ensures s in FlatSlugs(InsertPrincipalRole(db, t, p, r), t', p') <==>
            s in FlatSlugs(db, t', p') || (p' == p && t' == t && RoleGrants(db, t, r, s))
  {
    var db' := InsertPrincipalRole(db, t, p, r);
    FlatSlugsContain(db, t', p', s);
    FlatSlugsContain(db', t', p', s);
    if HoldsSlug(db', t', p', s) {
      var q :| Holds(db', t', p', q) && db'.permissions[q].Slug() == s;
      assert Holds(db, t', p', q) || (p' == p && t' == t && HasPermission(db, t, q) && (r, q) in db.rolePermissions);
    }
    if HoldsSlug(db, t', p', s) {
      var q :| Holds(db, t', p', q) && db.permissions[q].Slug() == s;
      assert Holds(db', t', p', q);
    }
    if p' == p && t' == t && RoleGrants(db, t, r, s) {
      var q :| HasPermission(db, t, q) && (r, q) in db.rolePermissions && db.permissions[q].Slug() == s;
      assert Holds(db', t', p', q);
    }
  }

  /** Assigning a permission to a role adds exactly its slug, for exactly the
      principals holding the role. */
  lemma AssigningPermissionAddsItsSlug(db: Db, t: Id, r: Id, q: Id, t': Id, p': Id, s: string)
    requires HasRole(db, t, r) && HasPermission(db, t, q)
    ensures s in FlatSlugs(InsertRolePermission(db, r, q).value, t', p') <==>
            s in FlatSlugs(db, t', p') ||
            (t' == t && (p', r) in db.principalRoles && s == db.permissions[q].Slug())
  {
    var db' := InsertRolePermission(db, r, q).value;
    FlatSlugsContain(db, t', p', s);
    FlatSlugsContain(db', t', p', s);
    if HoldsSlug(db', t', p', s) {
      var q' :| Holds(db', t', p', q') && db'.permissions[q'].Slug() == s;
      assert Holds(db, t', p', q') || (t' == t && q' == q && (p', r) in db.principalRoles);
    }
    if HoldsSlug(db, t', p', s) {
      var q' :| Holds(db, t', p', q') && db.permissions[q'].Slug() == s;
      assert Holds(db', t', p', q');
    }
    if t' == t && (p', r) in db.principalRoles && s == db.permissions[q].Slug() {
      assert Holds(db', t', p', q);
    }
  }

  /** Creating roles, permissions, policies or principals changes no flat set. */
  lemma CreatingChangesNoFlatSet(db: Db, db': Db, t: Id, p: Id)
    requires Integrity(db)
    requires db'.rolePermissions == db.rolePermissions && db'.principalRoles == db.principalRoles
    requires forall r :: r in db.roles ==> r in db'.roles && db'.roles[r] == db.roles[r]
    requires forall q :: q in db.permissions ==> q in db'.permissions && db'.permissions[q] == db.permissions[q]
    ensures FlatSlugs(db', t, p) == FlatSlugs(db, t, p)
  {
    forall q ensures Holds(db', t, p, q) <==> Holds(db, t, p, q) {
    }
    forall s ensures s in FlatSlugs(db', t, p) <==> s in FlatSlugs(db, t, p) {
      FlatSlugsContain(db, t, p, s);
      FlatSlugsContain(db', t, p, s);
      if HoldsSlug(db, t, p, s) {
        var q :| Holds(db, t, p, q) && db.permissions[q].Slug() == s;
        assert Holds(db', t, p, q);
      }
    }
  }
}
