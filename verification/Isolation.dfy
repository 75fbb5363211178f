/** Tenant non-interference: what one tenant can observe does not depend on the
    calls and deletions of the others. */
module Isolation {
  import opened Outcomes
  import PermissionSlug
  import opened PolicyEngine
  import opened Store
  import opened Machine
  import opened Tenancy

  // The rows of one tenant, table by table.

  ghost function OwnTenant(rows: map<Id, Tenant>, t: Id): map<Id, Tenant> {
    map x | x in rows && x == t :: rows[x]
  }

  ghost function OwnPrincipals(rows: map<Id, Principal>, t: Id): map<Id, Principal> {
    map x | x in rows && rows[x].tenant == t :: rows[x]
  }

  ghost function OwnRoles(rows: map<Id, Role>, t: Id): map<Id, Role> {
    map x | x in rows && rows[x].tenant == t :: rows[x]
  }

  ghost function OwnPermissions(rows: map<Id, Permission>, t: Id): map<Id, Permission> {
    map x | x in rows && rows[x].tenant == t :: rows[x]
  }

  ghost function OwnPolicies(rows: map<Id, Policy>, t: Id): map<Id, Policy> {
    map x | x in rows && rows[x].tenant == t :: rows[x]
  }

  predicate IsOwnRole(roles: map<Id, Role>, t: Id, r: Id) {
    r in roles && roles[r].tenant == t
  }

  ghost function GrantsOf(links: set<(Id, Id)>, roles: map<Id, Role>, t: Id): set<(Id, Id)> {
    set rq | rq in links && IsOwnRole(roles, t, rq.0)
  }

  ghost function HoldersOf(links: set<(Id, Id)>, roles: map<Id, Role>, t: Id): set<(Id, Id)> {
    set pr | pr in links && IsOwnRole(roles, t, pr.1)
  }

  ghost function Restrict(db: Db, t: Id): Db {
    Db(OwnTenant(db.tenants, t), OwnPrincipals(db.principals, t), OwnRoles(db.roles, t),
       OwnPermissions(db.permissions, t), OwnPolicies(db.policies, t),
       GrantsOf(db.rolePermissions, db.roles, t), HoldersOf(db.principalRoles, db.roles, t))
  }

  /** What tenant t can observe: its rows and its calls. */
  datatype Slice = Slice(db: Db, ops: map<OpId, Op>)

  ghost function SliceOf(s: State, t: Id): Slice {
    Slice(Restrict(s.db, t), OpsOf(s.ops, t))
  }

  ghost function OpsOf(ops: map<OpId, Op>, t: Id): map<OpId, Op> {
    map o | o in ops && o.tenant == t :: ops[o]
  }

  function TenantOf(e: Event): Id {
    match e
    case RegisterTenant(id, _, _) => id
    case RotateKey(t) => t
    case CreatePrincipal(t, _, _) => t
    case Invoke(o, _) => o.tenant
    case Step(o, _) => o.tenant
    case RemoveTenant(t) => t
    case RemovePrincipal(t, _) => t
    case RemoveRole(t, _) => t
    case RemovePermission(t, _) => t
    case RemovePolicy(t, _) => t
  }

  /** The events of tenant t only. */
  function Purge(events: seq<Event>, t: Id): seq<Event> {
    if events == [] then []
    else if TenantOf(events[0]) == t then [events[0]] + Purge(events[1..], t)
    else Purge(events[1..], t)
  }

  /** No event hands out an id that was handed out before. */
  predicate IdsFresh(used: set<Id>, events: seq<Event>)
    decreases |events|
  {
    events == [] ||
    (NewIds(events[0]) !! used && IdsFresh(used + NewIds(events[0]), events[1..]))
  }

  // ---------------------------------------------------------------------------
  // Writing one row
  // ---------------------------------------------------------------------------

  lemma WriteTenant(rows: map<Id, Tenant>, x: Id, row: Tenant, t: Id)
    ensures OwnTenant(rows[x := row], t) == if x == t then OwnTenant(rows, t)[x := row] else OwnTenant(rows, t)
  {
  }

  lemma WritePrincipal(rows: map<Id, Principal>, x: Id, row: Principal, t: Id)
    requires x in rows ==> rows[x].tenant == row.tenant
    ensures OwnPrincipals(rows[x := row], t) ==
            if row.tenant == t then OwnPrincipals(rows, t)[x := row] else OwnPrincipals(rows, t)
  {
  }

  lemma WriteRole(rows: map<Id, Role>, x: Id, row: Role, t: Id)
    requires x !in rows
    ensures OwnRoles(rows[x := row], t) == if row.tenant == t then OwnRoles(rows, t)[x := row] else OwnRoles(rows, t)
  {
  }

  lemma WritePermission(rows: map<Id, Permission>, x: Id, row: Permission, t: Id)
    requires x !in rows
    ensures OwnPermissions(rows[x := row], t) ==
            if row.tenant == t then OwnPermissions(rows, t)[x := row] else OwnPermissions(rows, t)
  {
  }

  lemma WritePolicy(rows: map<Id, Policy>, x: Id, row: Policy, t: Id)
    requires x !in rows
    ensures OwnPolicies(rows[x := row], t) ==
            if row.tenant == t then OwnPolicies(rows, t)[x := row] else OwnPolicies(rows, t)
  {
  }

  lemma NewRoleLinksNothing(db: Db, x: Id, row: Role, t: Id)
    requires JunctionsStayInTenant(db) && x !in db.roles
    ensures GrantsOf(db.rolePermissions, db.roles[x := row], t) == GrantsOf(db.rolePermissions, db.roles, t)
    ensures HoldersOf(db.principalRoles, db.roles[x := row], t) == HoldersOf(db.principalRoles, db.roles, t)
  {
    forall rq | rq in db.rolePermissions ensures rq.0 != x {
      assert (rq.0, rq.1) in db.rolePermissions;
    }
    forall pr | pr in db.principalRoles ensures pr.1 != x {
      assert (pr.0, pr.1) in db.principalRoles;
    }
  }

  lemma WriteLinks(links: set<(Id, Id)>, roles: map<Id, Role>, a: Id, b: Id, t: Id)
    ensures GrantsOf(links + {(a, b)}, roles, t) ==
            GrantsOf(links, roles, t) + if IsOwnRole(roles, t, a) then {(a, b)} else {}
    ensures HoldersOf(links + {(a, b)}, roles, t) ==
            HoldersOf(links, roles, t) + if IsOwnRole(roles, t, b) then {(a, b)} else {}
  {
  }

  // ---------------------------------------------------------------------------
  // Other tenants' statements leave the slice alone
  // ---------------------------------------------------------------------------

  lemma OthersInsertsAreInvisible(db: Db, u: Id, call: Call, id: Id, t: Id)
    requires !Assigns(call) && u != t && InsertFor(db, u, call, id).Ok? && JunctionsStayInTenant(db)
    ensures Restrict(InsertFor(db, u, call, id).value, t) == Restrict(db, t)
  {
    hide OwnTenant, OwnPrincipals, OwnRoles, OwnPermissions, OwnPolicies, GrantsOf, HoldersOf, JunctionsStayInTenant,
         PermissionSlug.WellFormed, PermissionSlugTaken, RoleNameTaken, PolicyNameTaken;
    var db' := InsertFor(db, u, call, id).value;
    match call
    case CreateRole(name) =>
      WriteRole(db.roles, id, db'.roles[id], t);
      NewRoleLinksNothing(db, id, db'.roles[id], t);
    case CreatePermission(_, _, _) => WritePermission(db.permissions, id, db'.permissions[id], t);
    case CreatePolicy(_, _, _) => WritePolicy(db.policies, id, db'.policies[id], t);
  }

  lemma OthersLinksAreInvisible(db: Db, u: Id, r: Id, q: Id, p: Id, t: Id)
    requires u != t
    ensures HasRole(db, u, r) && InsertRolePermission(db, r, q).Ok? ==>
              Restrict(InsertRolePermission(db, r, q).value, t) == Restrict(db, t)
    ensures Restrict(InsertPrincipalRole(db, u, p, r), t) == Restrict(db, t)
  {
    hide OwnTenant, OwnPrincipals, OwnRoles, OwnPermissions, OwnPolicies, GrantsOf, HoldersOf;
    WriteLinks(db.rolePermissions, db.roles, r, q, t);
    WriteLinks(db.principalRoles, db.roles, p, r, t);
  }

  lemma OthersCountersAreInvisible(db: Db, u: Id, p: Id, t: Id)
    requires u != t
    ensures IncrementPolicyVersion(db, u).Ok? ==> Restrict(IncrementPolicyVersion(db, u).value, t) == Restrict(db, t)
    ensures IncrementKeyVersion(db, u).Ok? ==> Restrict(IncrementKeyVersion(db, u).value, t) == Restrict(db, t)
    ensures IncrementPrincipalVersion(db, u, p).Ok? ==>
              Restrict(IncrementPrincipalVersion(db, u, p).value, t) == Restrict(db, t)
  {
    hide OwnTenant, OwnPrincipals, OwnRoles, OwnPermissions, OwnPolicies, GrantsOf, HoldersOf;
    if u in db.tenants {
      var row := db.tenants[u];
      WriteTenant(db.tenants, u, row.(policyVersion := row.policyVersion + 1), t);
      WriteTenant(db.tenants, u, row.(keyVersion := row.keyVersion + 1), t);
    }
    if HasPrincipal(db, u, p) {
      var row := db.principals[p];
      WritePrincipal(db.principals, p, row.(version := row.version + 1), t);
    }
  }

  lemma OthersStepsAreInvisible(s: State, o: OpId, a: Action, t: Id)
    requires Inv(s) && o in s.ops && o.tenant != t && (a.Insert? ==> a.id !in s.issued)
    ensures Restrict(StepOp(s.db, o.tenant, s.ops[o], a).0, t) == Restrict(s.db, t)
  {
    hide Restrict, InsertRole, InsertPermission, InsertPolicy, SlugsUnique, RowsChecked, TenantsExist;
    var op := s.ops[o];
    assert Knows(s, o.tenant, op);
    match a
    case Insert(id) =>
      if !Assigns(op.call) && InsertFor(s.db, o.tenant, op.call, id).Ok? {
        OthersInsertsAreInvisible(s.db, o.tenant, op.call, id, t);
      }
    case Link =>
      if op.call.AssignPermissionToRole? {
        OthersLinksAreInvisible(s.db, o.tenant, op.call.role, op.call.permission, o.tenant, t);
      } else if op.call.AssignRoleToPrincipal? {
        OthersLinksAreInvisible(s.db, o.tenant, op.call.roleOf, o.tenant, op.call.principal, t);
      }
    case BumpPolicy => OthersCountersAreInvisible(s.db, o.tenant, o.tenant, t);
    case BumpPrincipal =>
      if op.call.AssignRoleToPrincipal? {
        OthersCountersAreInvisible(s.db, o.tenant, op.call.principal, t);
      }
    case _ =>
  }

  lemma OthersPrincipalDeleteIsInvisible(db: Db, u: Id, x: Id, t: Id)
    requires JunctionsStayInTenant(db) && u != t
    ensures Restrict(DeletePrincipal(db, u, x), t) == Restrict(db, t)
  {
    var db' := DeletePrincipal(db, u, x);
    forall pr | pr in HoldersOf(db.principalRoles, db.roles, t) ensures pr in db'.principalRoles {
      assert (pr.0, pr.1) in db.principalRoles;
    }
    assert HoldersOf(db'.principalRoles, db.roles, t) == HoldersOf(db.principalRoles, db.roles, t);
    assert OwnPrincipals(db'.principals, t) == OwnPrincipals(db.principals, t);
    hide OwnTenant, OwnPrincipals, OwnRoles, OwnPermissions, OwnPolicies, GrantsOf, HoldersOf;
  }

  lemma OthersPermissionDeleteIsInvisible(db: Db, u: Id, x: Id, t: Id)
    requires JunctionsStayInTenant(db) && u != t
    ensures Restrict(DeletePermission(db, u, x), t) == Restrict(db, t)
  {
    var db' := DeletePermission(db, u, x);
    forall rq | rq in GrantsOf(db.rolePermissions, db.roles, t) ensures rq in db'.rolePermissions {
      assert (rq.0, rq.1) in db.rolePermissions;
    }
    assert GrantsOf(db'.rolePermissions, db.roles, t) == GrantsOf(db.rolePermissions, db.roles, t);
    assert OwnPermissions(db'.permissions, t) == OwnPermissions(db.permissions, t);
    hide OwnTenant, OwnPrincipals, OwnRoles, OwnPermissions, OwnPolicies, GrantsOf, HoldersOf;
  }

  lemma OthersPolicyDeleteIsInvisible(db: Db, u: Id, x: Id, t: Id)
    requires u != t
    ensures Restrict(DeletePolicy(db, u, x), t) == Restrict(db, t)
  {
    assert OwnPolicies(DeletePolicy(db, u, x).policies, t) == OwnPolicies(db.policies, t);
    hide OwnTenant, OwnPrincipals, OwnRoles, OwnPermissions, OwnPolicies, GrantsOf, HoldersOf;
  }

  lemma OthersRoleDeleteIsInvisible(db: Db, u: Id, x: Id, t: Id)
    requires u != t
    ensures Restrict(DeleteRole(db, u, x), t) == Restrict(db, t)
  {
    var db' := DeleteRole(db, u, x);
    if HasRole(db, u, x) {
      assert forall r :: IsOwnRole(db'.roles, t, r) <==> IsOwnRole(db.roles, t, r);
      assert OwnRoles(db'.roles, t) == OwnRoles(db.roles, t);
      assert GrantsOf(db'.rolePermissions, db'.roles, t) == GrantsOf(db.rolePermissions, db.roles, t);
      assert HoldersOf(db'.principalRoles, db'.roles, t) == HoldersOf(db.principalRoles, db.roles, t);
    }
    hide OwnTenant, OwnPrincipals, OwnRoles, OwnPermissions, OwnPolicies, GrantsOf, HoldersOf;
  }

  lemma OthersTenantDeleteIsInvisible(db: Db, u: Id, t: Id)
    requires JunctionsStayInTenant(db) && u != t
    ensures Restrict(DeleteTenant(db, u), t) == Restrict(db, t)
  {
    var db' := DeleteTenant(db, u);
    OthersTenantRowsStay(db, u, t);
    OthersTenantModelRowsStay(db, u, t);
    assert forall r :: IsOwnRole(db'.roles, t, r) <==> IsOwnRole(db.roles, t, r);
    forall rq | rq in GrantsOf(db.rolePermissions, db.roles, t) ensures rq in db'.rolePermissions {
      assert (rq.0, rq.1) in db.rolePermissions;
    }
    forall pr | pr in HoldersOf(db.principalRoles, db.roles, t) ensures pr in db'.principalRoles {
      assert (pr.0, pr.1) in db.principalRoles;
    }
    assert GrantsOf(db'.rolePermissions, db'.roles, t) == GrantsOf(db.rolePermissions, db.roles, t);
    assert HoldersOf(db'.principalRoles, db'.roles, t) == HoldersOf(db.principalRoles, db.roles, t);
    hide DeleteTenant, GrantsOf, HoldersOf;
  }

  lemma OthersTenantRowsStay(db: Db, u: Id, t: Id)
    requires u != t
    ensures var db' := DeleteTenant(db, u);
            OwnTenant(db'.tenants, t) == OwnTenant(db.tenants, t) &&
            OwnPrincipals(db'.principals, t) == OwnPrincipals(db.principals, t) &&
            OwnPolicies(db'.policies, t) == OwnPolicies(db.policies, t)
  {
  }

  lemma OthersTenantModelRowsStay(db: Db, u: Id, t: Id)
    requires u != t
    ensures var db' := DeleteTenant(db, u);
            OwnRoles(db'.roles, t) == OwnRoles(db.roles, t) &&
            OwnPermissions(db'.permissions, t) == OwnPermissions(db.permissions, t)
  {
  }

  lemma FreshInsert(s: State, o: OpId, a: Action)
    requires NewIds(Step(o, a)) !! s.issued
    ensures a.Insert? ==> a.id !in s.issued
  {
    if a.Insert? {
      assert a.id in NewIds(Step(o, a));
    }
  }

  /** Local respect: an event of another tenant is invisible. */
  lemma OthersAreInvisible(s: State, e: Event, t: Id)
    requires Inv(s) && TenantOf(e) != t
    ensures SliceOf(Apply(s, e), t) == SliceOf(s, t)
  {
    hide Restrict, Knows, StepOp, DeletePrincipal, DeleteRole, DeletePermission, DeletePolicy, DeleteTenant,
         IncrementKeyVersion, SlugsUnique, RowsChecked, TenantsExist, JunctionsStayInTenant;
    assert OpsOf(Apply(s, e).ops, t) == OpsOf(s.ops, t);
    if NewIds(e) !! s.issued {
      match e
      case RegisterTenant(id, slug, key) => OthersRowsAreInvisible(s.db, id, id, slug, key, t);
      case RotateKey(u) => OthersCountersAreInvisible(s.db, u, u, t);
      case CreatePrincipal(u, id, externalId) => OthersRowsAreInvisible(s.db, u, id, externalId, externalId, t);
      case Invoke(_, _) =>
      case Step(o, a) =>
        if o in s.ops {
          FreshInsert(s, o, a);
          OthersStepsAreInvisible(s, o, a, t);
        }
      case RemoveTenant(u) => OthersTenantDeleteIsInvisible(s.db, u, t);
      case RemovePrincipal(u, x) => OthersPrincipalDeleteIsInvisible(s.db, u, x, t);
      case RemoveRole(u, x) => OthersRoleDeleteIsInvisible(s.db, u, x, t);
      case RemovePermission(u, x) => OthersPermissionDeleteIsInvisible(s.db, u, x, t);
      case RemovePolicy(u, x) => OthersPolicyDeleteIsInvisible(s.db, u, x, t);
    }
  }

  lemma OthersRowsAreInvisible(db: Db, u: Id, id: Id, name: string, key: string, t: Id)
    requires u != t
    ensures id == u && InsertTenant(db, id, name, key).Ok? ==>
              Restrict(InsertTenant(db, id, name, key).value, t) == Restrict(db, t)
    ensures InsertPrincipal(db, u, id, name).Ok? ==>
              Restrict(InsertPrincipal(db, u, id, name).value, t) == Restrict(db, t)
  {
    hide OwnTenant, OwnPrincipals, OwnRoles, OwnPermissions, OwnPolicies, GrantsOf, HoldersOf;
    WriteTenant(db.tenants, id, Tenant(name, key, 1, 1), t);
    if id !in db.principals {
      WritePrincipal(db.principals, id, Principal(u, name, 1), t);
    }
  }

  // ---------------------------------------------------------------------------
  // The tenant's own statements see nothing but the slice
  // ---------------------------------------------------------------------------

  ghost function RestrictOutcome(r: Result<Db, Error>, t: Id): Result<Db, Error> {
    match r
    case Ok(db) => Ok(Restrict(db, t))
    case Err(e) => Err(e)
  }

  lemma NamesTakenInSlice(db: Db, t: Id, name: string)
    ensures ExternalIdTaken(OwnPrincipals(db.principals, t), t, name) <==> ExternalIdTaken(db.principals, t, name)
    ensures RoleNameTaken(OwnRoles(db.roles, t), t, name) <==> RoleNameTaken(db.roles, t, name)
    ensures PermissionSlugTaken(OwnPermissions(db.permissions, t), t, name) <==> PermissionSlugTaken(db.permissions, t, name)
    ensures PolicyNameTaken(OwnPolicies(db.policies, t), t, name) <==> PolicyNameTaken(db.policies, t, name)
  {
    if r :| r in db.roles && db.roles[r].tenant == t && db.roles[r].name == name {
      assert r in OwnRoles(db.roles, t);
    }
    if p :| p in db.principals && db.principals[p].tenant == t && db.principals[p].externalId == name {
      assert p in OwnPrincipals(db.principals, t);
    }
    if q :| q in db.permissions && db.permissions[q].tenant == t && db.permissions[q].Slug() == name {
      assert q in OwnPermissions(db.permissions, t);
    }
    if y :| y in db.policies && db.policies[y].tenant == t && db.policies[y].name == name {
      assert y in OwnPolicies(db.policies, t);
    }
  }

  lemma KeysInSlice(db: Db, t: Id)
    ensures t in OwnTenant(db.tenants, t) <==> t in db.tenants
    ensures OwnPrincipals(db.principals, t).Keys <= db.principals.Keys
    ensures OwnRoles(db.roles, t).Keys <= db.roles.Keys
    ensures OwnPermissions(db.permissions, t).Keys <= db.permissions.Keys
    ensures OwnPolicies(db.policies, t).Keys <= db.policies.Keys
  {
  }

  lemma InsertsCommute(db: Db, t: Id, call: Call, id: Id, issued: set<Id>)
    requires Sound(db, issued) && id !in issued && !Assigns(call)
    ensures InsertFor(Restrict(db, t), t, call, id) == RestrictOutcome(InsertFor(db, t, call, id), t)
  {
    hide OwnTenant, OwnPrincipals, OwnRoles, OwnPermissions, OwnPolicies, GrantsOf, HoldersOf, JunctionsStayInTenant,
         TenantsExist, SlugsUnique, RowsChecked, PermissionSlug.WellFormed, PermissionSlug.GeneratedSlug,
         PermissionSlugTaken, RoleNameTaken, PolicyNameTaken;
    KeysInSlice(db, t);
    match call
    case CreateRole(name) =>
      NamesTakenInSlice(db, t, name);
      WriteRole(db.roles, id, Role(t, name), t);
      NewRoleLinksNothing(db, id, Role(t, name), t);
    case CreatePermission(resource, action, specificity) =>
      var row := Permission(t, resource, action, specificity);
      NamesTakenInSlice(db, t, row.Slug());
      WritePermission(db.permissions, id, row, t);
    case CreatePolicy(name, required, strategy) =>
      NamesTakenInSlice(db, t, name);
      WritePolicy(db.policies, id, Policy(t, name, required, strategy, CURRENT_CONTEXT_VERSION), t);
  }

  lemma InsertPrincipalCommutes(db: Db, t: Id, id: Id, externalId: string)
    requires id !in db.principals
    ensures InsertPrincipal(Restrict(db, t), t, id, externalId) ==
            RestrictOutcome(InsertPrincipal(db, t, id, externalId), t)
  {
    hide OwnTenant, OwnPrincipals, OwnRoles, OwnPermissions, OwnPolicies, GrantsOf, HoldersOf, ExternalIdTaken;
    KeysInSlice(db, t);
    NamesTakenInSlice(db, t, externalId);
    WritePrincipal(db.principals, id, Principal(t, externalId, 1), t);
  }

  lemma LinksCommute(db: Db, t: Id, r: Id, q: Id, p: Id)
    ensures (r in db.roles ==> db.roles[r].tenant == t) && (q in db.permissions ==> db.permissions[q].tenant == t) ==>
              InsertRolePermission(Restrict(db, t), r, q) == RestrictOutcome(InsertRolePermission(db, r, q), t)
    ensures InsertPrincipalRole(Restrict(db, t), t, p, r) == Restrict(InsertPrincipalRole(db, t, p, r), t)
  {
    WriteLinks(db.rolePermissions, db.roles, r, q, t);
    WriteLinks(db.principalRoles, db.roles, p, r, t);
    assert r in OwnRoles(db.roles, t) <==> HasRole(db, t, r);
    assert q in OwnPermissions(db.permissions, t) <==> HasPermission(db, t, q);
    assert HasRole(Restrict(db, t), t, r) <==> HasRole(db, t, r);
    assert HasPrincipal(Restrict(db, t), t, p) <==> HasPrincipal(db, t, p);
    hide OwnTenant, OwnPrincipals, OwnRoles, OwnPermissions, OwnPolicies, GrantsOf, HoldersOf;
  }

  lemma CountersCommute(db: Db, t: Id, p: Id)
    ensures IncrementPolicyVersion(Restrict(db, t), t) == RestrictOutcome(IncrementPolicyVersion(db, t), t)
    ensures IncrementKeyVersion(Restrict(db, t), t) == RestrictOutcome(IncrementKeyVersion(db, t), t)
    ensures IncrementPrincipalVersion(Restrict(db, t), t, p) == RestrictOutcome(IncrementPrincipalVersion(db, t, p), t)
  {
    assert t in db.tenants ==> Restrict(db, t).tenants[t] == db.tenants[t];
    assert HasPrincipal(Restrict(db, t), t, p) <==> HasPrincipal(db, t, p);
    assert HasPrincipal(db, t, p) ==> Restrict(db, t).principals[p] == db.principals[p];
    KeysInSlice(db, t);
    if t in db.tenants {
      var row := db.tenants[t];
      WriteTenant(db.tenants, t, row.(policyVersion := row.policyVersion + 1), t);
      WriteTenant(db.tenants, t, row.(keyVersion := row.keyVersion + 1), t);
    }
    if HasPrincipal(db, t, p) {
      var row := db.principals[p];
      WritePrincipal(db.principals, p, row.(version := row.version + 1), t);
    }
    hide OwnTenant, OwnPrincipals, OwnRoles, OwnPermissions, OwnPolicies, GrantsOf, HoldersOf;
  }

  lemma LookupsSeeTheSlice(db: Db, t: Id, x: Id)
    ensures HasPrincipal(Restrict(db, t), t, x) <==> HasPrincipal(db, t, x)
    ensures HasRole(Restrict(db, t), t, x) <==> HasRole(db, t, x)
    ensures HasPermission(Restrict(db, t), t, x) <==> HasPermission(db, t, x)
    ensures HasPolicy(Restrict(db, t), t, x) <==> HasPolicy(db, t, x)
  {
  }

  /** A call's step computes on the whole database what it computes on the slice. */
  lemma StepsCommute(s: State, o: OpId, a: Action)
    requires Inv(s) && o in s.ops && (a.Insert? ==> a.id !in s.issued)
    ensures var t, op := o.tenant, s.ops[o];
            var (db', op') := StepOp(s.db, t, op, a);
            StepOp(Restrict(s.db, t), t, op, a) == (Restrict(db', t), op')
  {
    hide Restrict, HasRole, HasPrincipal, HasPermission, InsertRole, InsertPermission, InsertPolicy,
         InsertPrincipalRole, InsertRolePermission, IncrementPolicyVersion, IncrementPrincipalVersion, Integrity;
    var t, op := o.tenant, s.ops[o];
    assert Knows(s, t, op);
    match a
    case LookupFirst => LookupAnswersCommute(s.db, t, op.call);
    case LookupSecond => LookupAnswersCommute(s.db, t, op.call);
    case Recheck =>
      if op.call.AssignPermissionToRole? {
        LookupsSeeTheSlice(s.db, t, op.call.role);
      }
    case Insert(id) =>
      if !Assigns(op.call) {
        InsertsCommute(s.db, t, op.call, id, s.issued);
      }
    case Link =>
      if op.call.AssignPermissionToRole? {
        LinksCommute(s.db, t, op.call.role, op.call.permission, t);
      } else if op.call.AssignRoleToPrincipal? {
        LinksCommute(s.db, t, op.call.roleOf, t, op.call.principal);
      }
    case BumpPolicy => CountersCommute(s.db, t, t);
    case BumpPrincipal =>
      if op.call.AssignRoleToPrincipal? {
        CountersCommute(s.db, t, op.call.principal);
      }
    case Crash =>
  }

  lemma LookupAnswersCommute(db: Db, t: Id, call: Call)
    ensures Assigns(call) ==>
              FirstAnswer(Restrict(db, t), t, call) == FirstAnswer(db, t, call) &&
              SecondAnswer(Restrict(db, t), t, call) == SecondAnswer(db, t, call)
  {
    match call
    case AssignPermissionToRole(r, q) => LookupsSeeTheSlice(db, t, r); LookupsSeeTheSlice(db, t, q);
    case AssignRoleToPrincipal(p, r) => LookupsSeeTheSlice(db, t, p); LookupsSeeTheSlice(db, t, r);
    case _ =>
  }

  lemma PrincipalDeleteCommutes(db: Db, t: Id, x: Id)
    ensures DeletePrincipal(Restrict(db, t), t, x) == Restrict(DeletePrincipal(db, t, x), t)
  {
    var v, db' := Restrict(db, t), DeletePrincipal(db, t, x);
    assert Restrict(db', t).principals == DeletePrincipal(v, t, x).principals;
    assert Restrict(db', t).principalRoles == DeletePrincipal(v, t, x).principalRoles;
  }

  lemma RoleDeleteCommutes(db: Db, t: Id, x: Id)
    ensures DeleteRole(Restrict(db, t), t, x) == Restrict(DeleteRole(db, t, x), t)
  {
    var v, db' := Restrict(db, t), DeleteRole(db, t, x);
    assert HasRole(v, t, x) <==> HasRole(db, t, x);
    if HasRole(db, t, x) {
      assert forall r :: IsOwnRole(db'.roles, t, r) <==> IsOwnRole(db.roles, t, r) && r != x;
      assert OwnRoles(db'.roles, t) == v.roles - {x};
      assert GrantsOf(db'.rolePermissions, db'.roles, t) == (set rq | rq in v.rolePermissions && rq.0 != x);
      assert HoldersOf(db'.principalRoles, db'.roles, t) == (set pr | pr in v.principalRoles && pr.1 != x);
    }
    hide OwnTenant, OwnPrincipals, OwnRoles, OwnPermissions, OwnPolicies, GrantsOf, HoldersOf;
  }

  lemma PermissionDeleteCommutes(db: Db, t: Id, x: Id)
    ensures DeletePermission(Restrict(db, t), t, x) == Restrict(DeletePermission(db, t, x), t)
  {
    var v, db' := Restrict(db, t), DeletePermission(db, t, x);
    assert Restrict(db', t).permissions == DeletePermission(v, t, x).permissions;
    assert Restrict(db', t).rolePermissions == DeletePermission(v, t, x).rolePermissions;
  }

  lemma PolicyDeleteCommutes(db: Db, t: Id, x: Id)
    ensures DeletePolicy(Restrict(db, t), t, x) == Restrict(DeletePolicy(db, t, x), t)
  {
    var v := Restrict(db, t);
    assert HasPolicy(v, t, x) <==> HasPolicy(db, t, x);
    if HasPolicy(db, t, x) {
      assert OwnPolicies(db.policies - {x}, t) == v.policies - {x};
    }
    hide OwnTenant, OwnPrincipals, OwnRoles, OwnPermissions, OwnPolicies, GrantsOf, HoldersOf;
  }

  lemma TenantDeleteEmptiesTheSlice(db: Db, t: Id)
    ensures Restrict(DeleteTenant(db, t), t) == EmptyDb
  {
  }

  /** Step consistency: an event of tenant t acts alike on states that look alike
      to t, whatever else they hold. */
  lemma OwnEventsSeeTheSlice(s1: State, s2: State, e: Event, t: Id)
    requires Inv(s1) && Inv(s2) && SliceOf(s1, t) == SliceOf(s2, t)
    requires TenantOf(e) == t && !e.RegisterTenant?
    requires NewIds(e) !! s1.issued && NewIds(e) !! s2.issued
    ensures SliceOf(Apply(s1, e), t) == SliceOf(Apply(s2, e), t)
  {
    hide Restrict, Knows, StepOp, Integrity, DeletePrincipal, DeleteRole, DeletePermission, DeletePolicy, DeleteTenant,
         IncrementKeyVersion, InsertPrincipal, OpsOf;
    OwnCallsSeeTheSlice(s1, s2, e, t);
    match e
    case RotateKey(_) => CountersCommute(s1.db, t, t); CountersCommute(s2.db, t, t);
    case CreatePrincipal(_, id, externalId) =>
      assert id in NewIds(e);
      InsertPrincipalCommutes(s1.db, t, id, externalId);
      InsertPrincipalCommutes(s2.db, t, id, externalId);
    case Invoke(_, _) =>
    case Step(o, a) =>
      FreshInsert(s1, o, a);
      FreshInsert(s2, o, a);
      OwnOp(s1.ops, o, t);
      OwnOp(s2.ops, o, t);
      if o in s1.ops {
        StepsCommute(s1, o, a);
        StepsCommute(s2, o, a);
      }
    case RemoveTenant(_) => TenantDeleteEmptiesTheSlice(s1.db, t); TenantDeleteEmptiesTheSlice(s2.db, t);
    case RemovePrincipal(_, x) => PrincipalDeleteCommutes(s1.db, t, x); PrincipalDeleteCommutes(s2.db, t, x);
    case RemoveRole(_, x) => RoleDeleteCommutes(s1.db, t, x); RoleDeleteCommutes(s2.db, t, x);
    case RemovePermission(_, x) => PermissionDeleteCommutes(s1.db, t, x); PermissionDeleteCommutes(s2.db, t, x);
    case RemovePolicy(_, x) => PolicyDeleteCommutes(s1.db, t, x); PolicyDeleteCommutes(s2.db, t, x);
  }

  lemma WriteOp(ops: map<OpId, Op>, o: OpId, op: Op, t: Id)
    ensures OpsOf(ops[o := op], t) == if o.tenant == t then OpsOf(ops, t)[o := op] else OpsOf(ops, t)
  {
  }

  lemma OwnOp(ops: map<OpId, Op>, o: OpId, t: Id)
    requires o.tenant == t
    ensures o in OpsOf(ops, t) <==> o in ops
    ensures o in ops ==> OpsOf(ops, t)[o] == ops[o]
  {
  }

  lemma OwnCallsSeeTheSlice(s1: State, s2: State, e: Event, t: Id)
    requires Inv(s1) && Inv(s2) && SliceOf(s1, t) == SliceOf(s2, t)
    requires TenantOf(e) == t && NewIds(e) !! s1.issued && NewIds(e) !! s2.issued
    ensures OpsOf(Apply(s1, e).ops, t) == OpsOf(Apply(s2, e).ops, t)
  {
    hide Restrict, Inv, StepOp, OpsOf;
    match e
    case Invoke(o, call) =>
      OwnOp(s1.ops, o, t);
      OwnOp(s2.ops, o, t);
      WriteOp(s1.ops, o, Op(call, FirstStage(call), NoDebt, NoDebt), t);
      WriteOp(s2.ops, o, Op(call, FirstStage(call), NoDebt, NoDebt), t);
    case Step(o, a) =>
      FreshInsert(s1, o, a);
      FreshInsert(s2, o, a);
      OwnOp(s1.ops, o, t);
      OwnOp(s2.ops, o, t);
      if o in s1.ops {
        StepsCommute(s1, o, a);
        StepsCommute(s2, o, a);
        WriteOp(s1.ops, o, StepOp(s1.db, t, s1.ops[o], a).1, t);
        WriteOp(s2.ops, o, StepOp(s2.db, t, s2.ops[o], a).1, t);
      }
    case _ =>
  }

  // ---------------------------------------------------------------------------
  // Unwinding
  // ---------------------------------------------------------------------------

  lemma {:induction false} Unwind(s1: State, s2: State, used: set<Id>, events: seq<Event>, t: Id)
    requires Inv(s1) && Inv(s2) && SliceOf(s1, t) == SliceOf(s2, t)
    requires s1.issued <= used && s2.issued <= used && IdsFresh(used, events)
    requires forall e :: e in events && TenantOf(e) == t ==> !e.RegisterTenant?
    ensures SliceOf(Run(s1, events), t) == SliceOf(Run(s2, Purge(events, t)), t)
    decreases |events|
  {
    hide Inv, SliceOf, Apply;
    if events == [] {
    } else {
      var e, rest := events[0], events[1..];
      var used' := used + NewIds(e);
      IssuedGrows(s1, e);
      IssuedGrows(s2, e);
      EventKeepsInv(s1, e);
      assert forall x :: x in rest ==> x in events;
      if TenantOf(e) == t {
        EventKeepsInv(s2, e);
        OwnEventsSeeTheSlice(s1, s2, e, t);
        Unwind(Apply(s1, e), Apply(s2, e), used', rest, t);
        assert Purge(events, t)[1..] == Purge(rest, t);
      } else {
        OthersAreInvisible(s1, e, t);
        Unwind(Apply(s1, e), s2, used', rest, t);
      }
    }
  }

  lemma IssuedGrows(s: State, e: Event)
    ensures s.issued <= Apply(s, e).issued <= s.issued + NewIds(e)
  {
    hide StepOp;
  }

  /** Deleting every event of the other tenants from a run leaves tenant t's rows,
      counters, flat sets and calls exactly as they were. The run does not register
      t itself: tenant slugs are unique across tenants. */
  lemma {:induction false} TenantsDoNotInterfere(s: State, events: seq<Event>, t: Id, p: Id)
    requires Inv(s) && IdsFresh(s.issued, events)
    requires forall e :: e in events && TenantOf(e) == t ==> !e.RegisterTenant?
    ensures SliceOf(Run(s, events), t) == SliceOf(Run(s, Purge(events, t)), t)
    ensures FlatSlugs(Run(s, events).db, t, p) == FlatSlugs(Run(s, Purge(events, t)).db, t, p)
  {
    hide Inv, IdsFresh, Restrict, FlatSlugs, Run;
    Unwind(s, s, s.issued, events, t);
    FlatSlugsSeeTheSlice(Run(s, events).db, t, p);
    FlatSlugsSeeTheSlice(Run(s, Purge(events, t)).db, t, p);
  }

  lemma FlatSlugsSeeTheSlice(db: Db, t: Id, p: Id)
    ensures FlatSlugs(Restrict(db, t), t, p) == FlatSlugs(db, t, p)
  {
    var v := Restrict(db, t);
    forall q ensures Holds(v, t, p, q) <==> Holds(db, t, p, q) {
    }
    forall s ensures s in FlatSlugs(v, t, p) <==> s in FlatSlugs(db, t, p) {
      FlatSlugsContain(db, t, p, s);
      FlatSlugsContain(v, t, p, s);
      if HoldsSlug(db, t, p, s) {
        var q :| Holds(db, t, p, q) && db.permissions[q].Slug() == s;
        assert Holds(v, t, p, q);
      }
    }
  }

  // ---------------------------------------------------------------------------
  // The exception
  // ---------------------------------------------------------------------------

  /** Registering a tenant under an admissible slug acts alike on two states exactly
      when the slug is taken in both or free in both: the one constraint that spans
      tenants. */
  lemma {:induction false} RegistrationIsIsolatedIff(s1: State, s2: State, t: Id, slug: string, key: string)
    requires Inv(s1) && Inv(s2) && SliceOf(s1, t) == SliceOf(s2, t)
    requires t !in s1.issued && t !in s2.issued
    ensures var e := RegisterTenant(t, slug, key);
            SliceOf(Apply(s1, e), t) == SliceOf(Apply(s2, e), t) <==>
            (IsTenantSlug(slug) ==> (SlugTaken(s1.db.tenants, slug) <==> SlugTaken(s2.db.tenants, slug)))
  {
    hide IsTenantSlug, SlugTaken, OwnPrincipals, OwnRoles, OwnPermissions, OwnPolicies, GrantsOf, HoldersOf, OpsOf,
         Integrity, Knows, OwnTenant;
    var row := Tenant(slug, key, 1, 1);
    WriteTenant(s1.db.tenants, t, row, t);
    WriteTenant(s2.db.tenants, t, row, t);
    KeysInSlice(s1.db, t);
    KeysInSlice(s2.db, t);
  }

  /** So another tenant can make any admissible registration fail that would succeed
      without it. */
  lemma RegistrationCanBeBlocked(t: Id, u: Id, slug: string, key: string)
    requires t != u && IsTenantSlug(slug)
    ensures var events := [RegisterTenant(u, slug, key), RegisterTenant(t, slug, key)];
            t !in Run(Initial, events).db.tenants && t in Run(Initial, Purge(events, t)).db.tenants
  {
    hide IsTenantSlug;
    var e1, e2 := RegisterTenant(u, slug, key), RegisterTenant(t, slug, key);
    var events := [e1, e2];
    assert events[1..] == [e2] && [e2][1..] == [];
    assert Purge([e2], t) == [e2] + Purge([], t) == [e2];
    assert Purge(events, t) == Purge([e2], t);
    var s := Apply(Initial, e1);
    assert s.db.tenants[u].slug == slug;
    assert Run(Initial, [e2]) == Run(Apply(Initial, e2), []);
    assert Run(Initial, events) == Run(s, [e2]) == Run(Apply(s, e2), []);
  }
}
