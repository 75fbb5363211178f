/** What every reachable state keeps, whatever the interleaving and whatever rows
    are deleted meanwhile: the constraints, and junction rows that stay in one tenant. */
module Tenancy {
  import opened Outcomes
  import opened PermissionSlug
  import opened PolicyEngine
  import opened Store
  import opened Machine

  ghost predicate KeysIssued(db: Db, issued: set<Id>) {
    db.tenants.Keys <= issued && db.principals.Keys <= issued && db.roles.Keys <= issued &&
    db.permissions.Keys <= issued && db.policies.Keys <= issued
  }

  ghost predicate Sound(db: Db, issued: set<Id>) {
    Integrity(db) && KeysIssued(db, issued)
  }

  /** Rows under ids handed out earlier are old rows of the same tenant. */
  ghost predicate Evolves(db: Db, db': Db, issued: set<Id>) {
    (forall p :: p in db'.principals && p in issued ==>
       p in db.principals && db'.principals[p].tenant == db.principals[p].tenant) &&
    (forall r :: r in db'.roles && r in issued ==> r in db.roles && db'.roles[r] == db.roles[r]) &&
    (forall q :: q in db'.permissions && q in issued ==>
       q in db.permissions && db'.permissions[q] == db.permissions[q])
  }

  ghost predicate Safe(db: Db, db': Db, issued: set<Id>, issued': set<Id>) {
    Sound(db', issued') && Evolves(db, db', issued)
  }

  // ---------------------------------------------------------------------------
  // Every statement is safe
  // ---------------------------------------------------------------------------

  lemma NothingIsSafe(db: Db, issued: set<Id>, issued': set<Id>)
    requires Sound(db, issued) && issued <= issued'
    ensures Safe(db, db, issued, issued')
  {
  }

  lemma InsertTenantIsSafe(db: Db, id: Id, slug: string, key: string, issued: set<Id>)
    requires Sound(db, issued) && InsertTenant(db, id, slug, key).Ok?
    ensures Safe(db, InsertTenant(db, id, slug, key).value, issued, issued + {id})
  {
    hide NamesUnique, SlugsUnique, RowsChecked;
    SameModelRows(db, InsertTenant(db, id, slug, key).value);
    InsertTenantKeepsNames(db, id, slug, key);
  }

  // Names stay unique when a row is added under a free name, when a row keeps its
  // name, and when rows are dropped.

  lemma InsertTenantKeepsNames(db: Db, id: Id, slug: string, key: string)
    requires NamesUnique(db) && InsertTenant(db, id, slug, key).Ok?
    ensures NamesUnique(InsertTenant(db, id, slug, key).value)
  {
    hide IsTenantSlug, ExternalIdsUnique, RoleNamesUnique, PolicyNamesUnique;
  }

  lemma InsertPrincipalKeepsNames(db: Db, t: Id, id: Id, externalId: string)
    requires NamesUnique(db) && InsertPrincipal(db, t, id, externalId).Ok?
    ensures NamesUnique(InsertPrincipal(db, t, id, externalId).value)
  {
    hide TenantSlugsProper, RoleNamesUnique, PolicyNamesUnique;
  }

  lemma InsertRoleKeepsNames(db: Db, t: Id, id: Id, name: string)
    requires NamesUnique(db) && InsertRole(db, t, id, name).Ok?
    ensures NamesUnique(InsertRole(db, t, id, name).value)
  {
    hide TenantSlugsProper, ExternalIdsUnique, PolicyNamesUnique;
  }

  lemma InsertPolicyKeepsNames(db: Db, t: Id, id: Id, name: string, required: seq<string>,
                               strategy: MatchStrategy, contextVersion: string)
    requires NamesUnique(db) && InsertPolicy(db, t, id, name, required, strategy, contextVersion).Ok?
    ensures NamesUnique(InsertPolicy(db, t, id, name, required, strategy, contextVersion).value)
  {
    hide TenantSlugsProper, ExternalIdsUnique, RoleNamesUnique;
  }

  lemma TenantUpdateKeepsNames(db: Db, t: Id, row: Tenant)
    requires NamesUnique(db) && t in db.tenants && row.slug == db.tenants[t].slug
    ensures NamesUnique(db.(tenants := db.tenants[t := row]))
  {
    hide IsTenantSlug, ExternalIdsUnique, RoleNamesUnique, PolicyNamesUnique;
  }

  lemma PrincipalUpdateKeepsNames(db: Db, t: Id, p: Id)
    requires NamesUnique(db) && IncrementPrincipalVersion(db, t, p).Ok?
    ensures NamesUnique(IncrementPrincipalVersion(db, t, p).value)
  {
    hide TenantSlugsProper, RoleNamesUnique, PolicyNamesUnique;
  }

  lemma SameNamedRows(db: Db, db': Db)
    requires db'.tenants == db.tenants && db'.principals == db.principals
    requires db'.roles == db.roles && db'.policies == db.policies
    ensures NamesUnique(db) ==> NamesUnique(db')
  {
  }

  lemma FewerRowsKeepNames(db: Db, db': Db)
    requires NamesUnique(db)
    requires forall t :: t in db'.tenants ==> t in db.tenants && db'.tenants[t] == db.tenants[t]
    requires forall p :: p in db'.principals ==> p in db.principals && db'.principals[p] == db.principals[p]
    requires forall r :: r in db'.roles ==> r in db.roles && db'.roles[r] == db.roles[r]
    requires forall y :: y in db'.policies ==> y in db.policies && db'.policies[y] == db.policies[y]
    ensures NamesUnique(db')
  {
    hide IsTenantSlug;
  }

  /** The checks on permission and policy rows see only those rows. */
  lemma SameModelRows(db: Db, db': Db)
    requires db'.permissions == db.permissions && db'.policies == db.policies
    ensures SlugsUnique(db) ==> SlugsUnique(db')
    ensures RowsChecked(db) ==> RowsChecked(db')
  {
  }

  lemma FewerModelRows(db: Db, db': Db)
    requires SlugsUnique(db) && RowsChecked(db)
    requires forall q :: q in db'.permissions ==> q in db.permissions && db'.permissions[q] == db.permissions[q]
    requires forall y :: y in db'.policies ==> y in db.policies && db'.policies[y] == db.policies[y]
    ensures SlugsUnique(db') && RowsChecked(db')
  {
  }

  lemma TenantCountersAreSafe(db: Db, t: Id, row: Tenant, issued: set<Id>)
    requires Sound(db, issued) && t in db.tenants && row.slug == db.tenants[t].slug
    ensures Safe(db, db.(tenants := db.tenants[t := row]), issued, issued)
  {
    hide NamesUnique, SlugsUnique, RowsChecked, JunctionsStayInTenant;
    SameModelRows(db, db.(tenants := db.tenants[t := row]));
    JunctionsIgnoreTenants(db, db.(tenants := db.tenants[t := row]));
    TenantUpdateKeepsNames(db, t, row);
  }

  lemma JunctionsIgnoreTenants(db: Db, db': Db)
    requires db' == db.(tenants := db'.tenants)
    ensures JunctionsStayInTenant(db) ==> JunctionsStayInTenant(db')
  {
  }

  lemma PrincipalCounterIsSafe(db: Db, t: Id, p: Id, issued: set<Id>)
    requires Sound(db, issued) && IncrementPrincipalVersion(db, t, p).Ok?
    ensures Safe(db, IncrementPrincipalVersion(db, t, p).value, issued, issued)
  {
    hide NamesUnique, SlugsUnique, RowsChecked;
    SameModelRows(db, IncrementPrincipalVersion(db, t, p).value);
    PrincipalUpdateKeepsNames(db, t, p);
  }

  lemma CountersAreSafe(db: Db, t: Id, issued: set<Id>)
    requires Sound(db, issued)
    ensures IncrementPolicyVersion(db, t).Ok? ==> Safe(db, IncrementPolicyVersion(db, t).value, issued, issued)
    ensures IncrementKeyVersion(db, t).Ok? ==> Safe(db, IncrementKeyVersion(db, t).value, issued, issued)
  {
    hide Sound, Safe;
    if t in db.tenants {
      var row := db.tenants[t];
      TenantCountersAreSafe(db, t, row.(policyVersion := row.policyVersion + 1), issued);
      TenantCountersAreSafe(db, t, row.(keyVersion := row.keyVersion + 1), issued);
    }
  }

  lemma InsertPrincipalIsSafe(db: Db, t: Id, id: Id, externalId: string, issued: set<Id>)
    requires Sound(db, issued) && id !in issued && InsertPrincipal(db, t, id, externalId).Ok?
    ensures Safe(db, InsertPrincipal(db, t, id, externalId).value, issued, issued + {id})
  {
    hide NamesUnique, SlugsUnique, RowsChecked;
    SameModelRows(db, InsertPrincipal(db, t, id, externalId).value);
    InsertPrincipalKeepsNames(db, t, id, externalId);
  }

  lemma InsertRoleIsSafe(db: Db, t: Id, id: Id, name: string, issued: set<Id>)
    requires Sound(db, issued) && id !in issued && InsertRole(db, t, id, name).Ok?
    ensures Safe(db, InsertRole(db, t, id, name).value, issued, issued + {id})
  {
    hide NamesUnique, SlugsUnique, RowsChecked;
    SameModelRows(db, InsertRole(db, t, id, name).value);
    InsertRoleKeepsNames(db, t, id, name);
  }

  lemma InsertPermissionIsSafe(db: Db, t: Id, id: Id, resource: string, action: string,
                               specificity: Option<string>, issued: set<Id>)
    requires Sound(db, issued) && id !in issued
    requires InsertPermission(db, t, id, resource, action, specificity).Ok?
    ensures Safe(db, InsertPermission(db, t, id, resource, action, specificity).value, issued, issued + {id})
  {
    hide GeneratedSlug, WellFormed, SlugsUnique, RowsChecked, TenantsExist, JunctionsStayInTenant, NamesUnique;
    SameNamedRows(db, InsertPermission(db, t, id, resource, action, specificity).value);
    InsertedPermissionMeetsConstraints(db, t, id, resource, action, specificity);
    InsertedPermissionKeepsLinks(db, t, id, resource, action, specificity);
  }

  lemma InsertedPermissionKeepsLinks(db: Db, t: Id, id: Id, resource: string, action: string,
                                     specificity: Option<string>)
    requires TenantsExist(db) && JunctionsStayInTenant(db)
    requires InsertPermission(db, t, id, resource, action, specificity).Ok?
    ensures var db' := InsertPermission(db, t, id, resource, action, specificity).value;
            TenantsExist(db') && JunctionsStayInTenant(db')
  {
    hide GeneratedSlug, WellFormed;
  }

  lemma InsertedPermissionMeetsConstraints(db: Db, t: Id, id: Id, resource: string, action: string,
                                           specificity: Option<string>)
    requires SlugsUnique(db) && RowsChecked(db)
    requires InsertPermission(db, t, id, resource, action, specificity).Ok?
    ensures var db' := InsertPermission(db, t, id, resource, action, specificity).value;
            SlugsUnique(db') && RowsChecked(db')
  {
    hide GeneratedSlug, WellFormed;
  }

  lemma InsertPolicyIsSafe(db: Db, t: Id, id: Id, call: Call, issued: set<Id>)
    requires Sound(db, issued) && call.CreatePolicy? && InsertFor(db, t, call, id).Ok?
    ensures Safe(db, InsertFor(db, t, call, id).value, issued, issued + {id})
  {
    hide SlugsUnique, RowsChecked, TenantsExist, JunctionsStayInTenant, NamesUnique;
    InsertedPolicyMeetsConstraints(db, t, id, call);
    InsertPolicyKeepsNames(db, t, id, call.policyName, call.required, call.strategy, CURRENT_CONTEXT_VERSION);
  }

  lemma InsertedPolicyMeetsConstraints(db: Db, t: Id, id: Id, call: Call)
    requires TenantsExist(db) && JunctionsStayInTenant(db) && SlugsUnique(db) && RowsChecked(db)
    requires call.CreatePolicy? && InsertFor(db, t, call, id).Ok?
    ensures var db' := InsertFor(db, t, call, id).value;
            TenantsExist(db') && JunctionsStayInTenant(db') && SlugsUnique(db') && RowsChecked(db')
  {
    hide GeneratedSlug, WellFormed;
  }

  lemma InsertsAreSafe(db: Db, t: Id, id: Id, call: Call, issued: set<Id>)
    requires Sound(db, issued) && id !in issued && !Assigns(call) && InsertFor(db, t, call, id).Ok?
    ensures Safe(db, InsertFor(db, t, call, id).value, issued, issued + {id})
  {
    hide Safe, Sound, InsertRole, InsertPermission, InsertPolicy;
    match call
    case CreateRole(name) => InsertRoleIsSafe(db, t, id, name, issued);
    case CreatePermission(r, a, s) => InsertPermissionIsSafe(db, t, id, r, a, s, issued);
    case CreatePolicy(_, _, _) => InsertPolicyIsSafe(db, t, id, call, issued);
  }

  /** The unguarded junction insert is safe only because of what its caller saw. */
  lemma InsertRolePermissionIsSafe(db: Db, t: Id, r: Id, q: Id, issued: set<Id>)
    requires Sound(db, issued) && InsertRolePermission(db, r, q).Ok?
    requires HasRole(db, t, r) && HasPermission(db, t, q)
    ensures Safe(db, InsertRolePermission(db, r, q).value, issued, issued)
  {
    hide NamesUnique, SlugsUnique, RowsChecked, TenantsExist, JunctionsStayInTenant;
    SameModelRows(db, InsertRolePermission(db, r, q).value);
    SameNamedRows(db, InsertRolePermission(db, r, q).value);
    SameRowsSameTenants(db, InsertRolePermission(db, r, q).value);
    LinkStaysInTenant(db, t, r, q);
  }

  lemma LinkStaysInTenant(db: Db, t: Id, r: Id, q: Id)
    requires JunctionsStayInTenant(db) && HasRole(db, t, r) && HasPermission(db, t, q)
    ensures JunctionsStayInTenant(InsertRolePermission(db, r, q).value)
  {
  }

  lemma InsertPrincipalRoleIsSafe(db: Db, t: Id, p: Id, r: Id, issued: set<Id>)
    requires Sound(db, issued)
    ensures Safe(db, InsertPrincipalRole(db, t, p, r), issued, issued)
  {
    hide NamesUnique, SlugsUnique, RowsChecked, TenantsExist;
    SameModelRows(db, InsertPrincipalRole(db, t, p, r));
    SameNamedRows(db, InsertPrincipalRole(db, t, p, r));
    assert TenantsExist(InsertPrincipalRole(db, t, p, r)) by {
      SameRowsSameTenants(db, InsertPrincipalRole(db, t, p, r));
    }
  }

  lemma SameRowsSameTenants(db: Db, db': Db)
    requires db' == db.(rolePermissions := db'.rolePermissions, principalRoles := db'.principalRoles)
    ensures TenantsExist(db) ==> TenantsExist(db')
  {
  }

  /** Dropping rows is safe when no remaining row refers to a dropped one. */
  lemma DroppingRowsIsSafe(db: Db, db': Db, issued: set<Id>)
    requires Sound(db, issued) && TenantsExist(db')
    requires forall t :: t in db'.tenants ==> t in db.tenants && db'.tenants[t] == db.tenants[t]
    requires forall p :: p in db'.principals ==> p in db.principals && db'.principals[p] == db.principals[p]
    requires forall r :: r in db'.roles ==> r in db.roles && db'.roles[r] == db.roles[r]
    requires forall q :: q in db'.permissions ==> q in db.permissions && db'.permissions[q] == db.permissions[q]
    requires forall y :: y in db'.policies ==> y in db.policies && db'.policies[y] == db.policies[y]
    requires forall r, q :: (r, q) in db'.rolePermissions ==>
               (r, q) in db.rolePermissions && r in db'.roles && q in db'.permissions
    requires forall p, r :: (p, r) in db'.principalRoles ==>
               (p, r) in db.principalRoles && p in db'.principals && r in db'.roles
    ensures Safe(db, db', issued, issued)
  {
    hide NamesUnique, SlugsUnique, RowsChecked, TenantsExist;
    FewerModelRows(db, db');
    FewerRowsKeepNames(db, db');
  }

  lemma DeletePrincipalIsSafe(db: Db, t: Id, x: Id, issued: set<Id>)
    requires Sound(db, issued)
    ensures Safe(db, DeletePrincipal(db, t, x), issued, issued)
  {
    hide NamesUnique, SlugsUnique, RowsChecked, KeysIssued, Safe;
    DroppingRowsIsSafe(db, DeletePrincipal(db, t, x), issued);
  }

  lemma DeleteRoleIsSafe(db: Db, t: Id, x: Id, issued: set<Id>)
    requires Sound(db, issued)
    ensures Safe(db, DeleteRole(db, t, x), issued, issued)
  {
    hide NamesUnique, SlugsUnique, RowsChecked, KeysIssued, Safe;
    DroppingRowsIsSafe(db, DeleteRole(db, t, x), issued);
  }

  lemma DeletePermissionIsSafe(db: Db, t: Id, x: Id, issued: set<Id>)
    requires Sound(db, issued)
    ensures Safe(db, DeletePermission(db, t, x), issued, issued)
  {
    hide NamesUnique, SlugsUnique, RowsChecked, KeysIssued, Safe;
    DroppingRowsIsSafe(db, DeletePermission(db, t, x), issued);
  }

  lemma DeletePolicyIsSafe(db: Db, t: Id, x: Id, issued: set<Id>)
    requires Sound(db, issued)
    ensures Safe(db, DeletePolicy(db, t, x), issued, issued)
  {
    hide NamesUnique, SlugsUnique, RowsChecked, KeysIssued, Safe;
    DroppingRowsIsSafe(db, DeletePolicy(db, t, x), issued);
  }

  lemma DeleteTenantIsSafe(db: Db, t: Id, issued: set<Id>)
    requires Sound(db, issued)
    ensures Safe(db, DeleteTenant(db, t), issued, issued)
  {
    hide NamesUnique, SlugsUnique, RowsChecked, KeysIssued, Safe;
    DroppingRowsIsSafe(db, DeleteTenant(db, t), issued);
  }

  // ---------------------------------------------------------------------------
  // What a call in flight may rely on
  // ---------------------------------------------------------------------------

  /** A row was seen in tenant t: it still is there with that tenant, or it is gone
      for good. */
  ghost predicate SawRole(s: State, t: Id, r: Id) {
    t in s.issued && r in s.issued && (r in s.db.roles ==> s.db.roles[r].tenant == t)
  }

  ghost predicate SawPermission(s: State, t: Id, q: Id) {
    t in s.issued && q in s.issued && (q in s.db.permissions ==> s.db.permissions[q].tenant == t)
  }

  ghost predicate SawPrincipal(s: State, t: Id, p: Id) {
    t in s.issued && p in s.issued && (p in s.db.principals ==> s.db.principals[p].tenant == t)
  }

  /** The call is past its write. */
  predicate Wrote(op: Op) {
    !op.policyDebt.NoDebt? || !op.principalDebt.NoDebt? || op.stage.Bumping? || op.stage.Done?
  }

  predicate PassedFirst(op: Op) {
    (op.stage.Checking? && op.stage.first.Found?) || op.stage.Rechecking? || op.stage.Writing? || Wrote(op)
  }

  predicate PassedSecond(op: Op) {
    (op.stage.Checking? && op.stage.second.Found?) || op.stage.Rechecking? || op.stage.Writing? || Wrote(op)
  }

  ghost predicate Knows(s: State, t: Id, op: Op) {
    match op.call
    case AssignPermissionToRole(r, q) =>
      (PassedFirst(op) ==> SawRole(s, t, r)) && (PassedSecond(op) ==> SawPermission(s, t, q))
    case AssignRoleToPrincipal(p, r) =>
      (PassedFirst(op) ==> SawPrincipal(s, t, p)) && (PassedSecond(op) ==> SawRole(s, t, r))
    case _ => Wrote(op) ==> t in s.issued
  }

  ghost predicate Inv(s: State) {
    Sound(s.db, s.issued) && forall o :: o in s.ops ==> Knows(s, o.tenant, s.ops[o])
  }

  /** What a call knows stays true while others run. */
  lemma KnowledgeLasts(s: State, s': State, t: Id, op: Op)
    requires Knows(s, t, op)
    requires Evolves(s.db, s'.db, s.issued) && s.issued <= s'.issued
    ensures Knows(s', t, op)
  {
  }

  /** One step of a call: safe for the tables, and the call knows what it needs next. */
  lemma StepIsSafe(s: State, t: Id, op: Op, a: Action, issued': set<Id>)
    requires Sound(s.db, s.issued) && Knows(s, t, op)
    requires a.Insert? ==> a.id !in s.issued
    requires issued' == s.issued + if a.Insert? then {a.id} else {}
    ensures Safe(s.db, StepOp(s.db, t, op, a).0, s.issued, issued')
    ensures Knows(s, t, StepOp(s.db, t, op, a).1)
  {
    hide Safe, Integrity, InsertRole, InsertPermission, InsertPolicy;
    NothingIsSafe(s.db, s.issued, issued');
    assert !a.Insert? ==> issued' == s.issued;
    match a
    case LookupFirst => LookupsTeach(s, t, op);
    case LookupSecond => LookupsTeach(s, t, op);
    case Recheck =>
    case Insert(id) =>
      if !Assigns(op.call) && op.stage.Writing? && InsertFor(s.db, t, op.call, id).Ok? {
        InsertsAreSafe(s.db, t, id, op.call, s.issued);
        InsertNeedsTenant(s.db, t, op.call, id);
      }
    case Link =>
      if op.call.AssignPermissionToRole? && op.stage.Writing? && LinkFor(s.db, t, op.call).Ok? {
        InsertRolePermissionIsSafe(s.db, t, op.call.role, op.call.permission, s.issued);
      } else if op.call.AssignRoleToPrincipal? && op.stage.Writing? {
        InsertPrincipalRoleIsSafe(s.db, t, op.call.principal, op.call.roleOf, s.issued);
      }
    case BumpPolicy => CountersAreSafe(s.db, t, s.issued);
    case BumpPrincipal =>
      if op.call.AssignRoleToPrincipal? && IncrementPrincipalVersion(s.db, t, op.call.principal).Ok? {
        PrincipalCounterIsSafe(s.db, t, op.call.principal, s.issued);
      }
    case Crash =>
  }

  lemma InsertNeedsTenant(db: Db, t: Id, call: Call, id: Id)
    requires !Assigns(call) && InsertFor(db, t, call, id).Ok?
    ensures t in db.tenants
  {
  }

  /** A lookup that finds a row teaches the call its tenant. */
  lemma LookupsTeach(s: State, t: Id, op: Op)
    requires Sound(s.db, s.issued) && Knows(s, t, op)
    ensures Knows(s, t, StepOp(s.db, t, op, LookupFirst).1)
    ensures Knows(s, t, StepOp(s.db, t, op, LookupSecond).1)
  {
    hide NamesUnique, SlugsUnique, RowsChecked, JunctionsStayInTenant;
  }

  // ---------------------------------------------------------------------------
  // Every event keeps the invariant
  // ---------------------------------------------------------------------------

  lemma {:induction false} EventKeepsInv(s: State, e: Event)
    requires Inv(s)
    ensures Inv(Apply(s, e))
    ensures Evolves(s.db, Apply(s, e).db, s.issued)
  {
    if NewIds(e) !! s.issued {
      TablesStaySafe(s, e);
      OthersStillKnow(s, e);
    }
  }

  lemma TablesStaySafe(s: State, e: Event)
    requires Inv(s) && NewIds(e) !! s.issued
    ensures Safe(s.db, Apply(s, e).db, s.issued, Apply(s, e).issued)
  {
    hide Safe, Integrity, StepOp, Knows, InsertTenant, InsertPrincipal, DeleteTenant, DeletePrincipal,
         DeleteRole, DeletePermission, DeletePolicy, IncrementKeyVersion;
    var issued' := s.issued + NewIds(e);
    NothingIsSafe(s.db, s.issued, issued');
    assert NewIds(e) == {} ==> issued' == s.issued;
    match e
    case RegisterTenant(id, slug, key) =>
      if InsertTenant(s.db, id, slug, key).Ok? {
        InsertTenantIsSafe(s.db, id, slug, key, s.issued);
      }
    case RotateKey(t) => CountersAreSafe(s.db, t, s.issued);
    case CreatePrincipal(t, id, externalId) =>
      assert id in NewIds(e);
      if InsertPrincipal(s.db, t, id, externalId).Ok? {
        InsertPrincipalIsSafe(s.db, t, id, externalId, s.issued);
      }
    case Invoke(_, _) =>
    case Step(o, a) =>
      if o in s.ops {
        assert a.Insert? ==> a.id in NewIds(e);
        StepIsSafe(s, o.tenant, s.ops[o], a, issued');
      }
    case RemoveTenant(t) => DeleteTenantIsSafe(s.db, t, s.issued);
    case RemovePrincipal(t, x) => DeletePrincipalIsSafe(s.db, t, x, s.issued);
    case RemoveRole(t, x) => DeleteRoleIsSafe(s.db, t, x, s.issued);
    case RemovePermission(t, x) => DeletePermissionIsSafe(s.db, t, x, s.issued);
    case RemovePolicy(t, x) => DeletePolicyIsSafe(s.db, t, x, s.issued);
  }

  lemma OthersStillKnow(s: State, e: Event)
    requires Inv(s) && NewIds(e) !! s.issued
    requires Evolves(s.db, Apply(s, e).db, s.issued)
    ensures forall o :: o in Apply(s, e).ops ==> Knows(Apply(s, e), o.tenant, Apply(s, e).ops[o])
  {
    hide Evolves, Integrity, StepOp, Knows;
    var s' := Apply(s, e);
    forall o | o in s'.ops ensures Knows(s', o.tenant, s'.ops[o]) {
      if o !in s.ops {
        NewCallKnowsNothing(s', o.tenant, s'.ops[o]);
      } else {
        if e.Step? && e.op == o {
          assert e.action.Insert? ==> e.action.id in NewIds(e);
          StepIsSafe(s, o.tenant, s.ops[o], e.action, s.issued + NewIds(e));
        }
        KnowledgeLasts(s, s', o.tenant, s'.ops[o]);
      }
    }
  }

  lemma NewCallKnowsNothing(s: State, t: Id, op: Op)
    requires op == Op(op.call, FirstStage(op.call), NoDebt, NoDebt)
    ensures Knows(s, t, op)
  {
  }

  /** In every reachable state of every interleaving the constraints hold and each
      junction row joins two rows of one tenant. */
  lemma {:induction false} EveryRunKeepsInv(s: State, events: seq<Event>)
    requires Inv(s)
    ensures Inv(Run(s, events))
    decreases |events|
  {
    if events == [] {
    } else {
      EventKeepsInv(s, events[0]);
      EveryRunKeepsInv(Apply(s, events[0]), events[1..]);
    }
  }

  lemma ReachableStatesKeepTenancy(events: seq<Event>, t: Id, p: Id)
    ensures Integrity(Run(Initial, events).db)
    ensures var db := Run(Initial, events).db;
            p in db.principals && db.principals[p].tenant != t ==> FlatSlugs(db, t, p) == {}
  {
    EveryRunKeepsInv(Initial, events);
    var db := Run(Initial, events).db;
    if p in db.principals && db.principals[p].tenant != t {
      OtherTenantsPrincipalHoldsNothing(db, t, p);
    }
  }
}
