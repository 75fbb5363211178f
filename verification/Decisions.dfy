/** Decisions over whole runs: keeping access once granted, maintaining the
    projection write by write, and losing access when a permission is deleted. */
module Decisions {
  import PermissionSlug
  import opened PolicyEngine
  import opened Store
  import opened Machine
  import opened SingleCalls
  import opened Tenancy
  import opened Isolation
  import opened Caching

  // ---------------------------------------------------------------------------
  // Access is monotone
  // ---------------------------------------------------------------------------

  /** Rows only appear; those that exist keep what decisions read. */
  ghost predicate Grows(db: Db, db': Db) {
    (forall r :: r in db.roles ==> r in db'.roles && db'.roles[r] == db.roles[r]) &&
    (forall q :: q in db.permissions ==> q in db'.permissions && db'.permissions[q] == db.permissions[q]) &&
    (forall y :: y in db.policies ==> y in db'.policies && db'.policies[y] == db.policies[y]) &&
    db.rolePermissions <= db'.rolePermissions && db.principalRoles <= db'.principalRoles
  }

  lemma CountersDoNotShrink(db: Db, db': Db)
    requires db' == db.(tenants := db'.tenants, principals := db'.principals)
    ensures Grows(db, db')
  {
  }

  lemma StepsGrow(db: Db, t: Id, op: Op, a: Action)
    ensures Grows(db, StepOp(db, t, op, a).0)
  {
    hide Grows, InsertFor, LinkFor;
    CountersDoNotShrink(db, db);
    WritesGrow(db, t, op.call, a);
    if IncrementPolicyVersion(db, t).Ok? {
      CountersDoNotShrink(db, IncrementPolicyVersion(db, t).value);
    }
    if op.call.AssignRoleToPrincipal? && IncrementPrincipalVersion(db, t, op.call.principal).Ok? {
      CountersDoNotShrink(db, IncrementPrincipalVersion(db, t, op.call.principal).value);
    }
  }

  lemma ServiceEventsGrow(s: State, e: Event)
    requires ByServices(e)
    ensures Grows(s.db, Apply(s, e).db)
  {
    hide Grows, SlugTaken, ExternalIdTaken, StepOp;
    CountersDoNotShrink(s.db, s.db);
    if e.Step? && e.op in s.ops {
      StepsGrow(s.db, e.op.tenant, s.ops[e.op], e.action);
    } else {
      CountersDoNotShrink(s.db, Apply(s, e).db);
    }
  }

  lemma WritesGrow(db: Db, t: Id, call: Call, a: Action)
    ensures a.Insert? && !Assigns(call) && InsertFor(db, t, call, a.id).Ok? ==>
              Grows(db, InsertFor(db, t, call, a.id).value)
    ensures Assigns(call) && LinkFor(db, t, call).Ok? ==> Grows(db, LinkFor(db, t, call).value)
  {
  }

  lemma FlatSlugsGrow(db: Db, db': Db, t: Id, p: Id)
    requires Grows(db, db')
    ensures FlatSlugs(db, t, p) <= FlatSlugs(db', t, p)
  {
    forall s | s in FlatSlugs(db, t, p) ensures s in FlatSlugs(db', t, p) {
      FlatSlugsContain(db, t, p, s);
      FlatSlugsContain(db', t, p, s);
      var q :| Holds(db, t, p, q) && db.permissions[q].Slug() == s;
      assert Holds(db', t, p, q);
    }
  }

  /** An event that deletes nothing of the tenant's takes nothing from it. */
  lemma AllowedStaysAllowed(s: State, e: Event, t: Id, p: Id, y: Id)
    requires Inv(s) && (TenantOf(e) == t ==> ByServices(e))
    requires HasPolicy(s.db, t, y) && Allows(s.db.policies[y], FlatSlugs(s.db, t, p))
    ensures var db' := Apply(s, e).db;
            HasPolicy(db', t, y) && db'.policies[y] == s.db.policies[y] &&
            Allows(db'.policies[y], FlatSlugs(db', t, p))
  {
    var s' := Apply(s, e);
    if TenantOf(e) == t {
      ServiceEventsGrow(s, e);
      FlatSlugsGrow(s.db, s'.db, t, p);
      hide Apply, FlatSlugs, Allows, Inv;
      AllowsIsMonotone(s.db.policies[y], FlatSlugs(s.db, t, p), FlatSlugs(s'.db, t, p));
    } else {
      OthersAreInvisible(s, e, t);
      hide Apply, FlatSlugs, Allows, Inv, OwnPolicies, OwnTenant, OwnPrincipals, OwnRoles, OwnPermissions,
           GrantsOf, HoldersOf;
      FlatSlugsSeeTheSlice(s.db, t, p);
      FlatSlugsSeeTheSlice(s'.db, t, p);
      OwnPolicy(s.db, t, y);
      OwnPolicy(s'.db, t, y);
    }
  }

  /** Once a stored policy allows a principal, it allows it in every later state of
      a run in which nothing of the tenant is deleted. */
  lemma {:induction false} AccessIsMonotone(s: State, events: seq<Event>, t: Id, p: Id, y: Id)
    requires Inv(s)
    requires forall e :: e in events && TenantOf(e) == t ==> ByServices(e)
    requires HasPolicy(s.db, t, y) && Allows(s.db.policies[y], FlatSlugs(s.db, t, p))
    ensures var db' := Run(s, events).db;
            HasPolicy(db', t, y) && db'.policies[y] == s.db.policies[y] &&
            Allows(db'.policies[y], FlatSlugs(db', t, p))
    decreases |events|
  {
    hide Apply, FlatSlugs, Allows, ByServices, Inv;
    if events == [] {
    } else {
      assert events[0] in events && forall e :: e in events[1..] ==> e in events;
      EventKeepsInv(s, events[0]);
      AllowedStaysAllowed(s, events[0], t, p, y);
      AccessIsMonotone(Apply(s, events[0]), events[1..], t, p, y);
    }
  }

  // ---------------------------------------------------------------------------
  // The projection, write by write
  // ---------------------------------------------------------------------------

  /** No event changes a flat set of a tenant but its own deletions and the link steps
      of its own assignments. */
  lemma OnlyLinksChangeFlatSets(s: State, e: Event, t: Id, p: Id)
    requires Inv(s) && (TenantOf(e) == t ==> ByServices(e) && !(e.Step? && e.action.Link?))
    ensures FlatSlugs(Apply(s, e).db, t, p) == FlatSlugs(s.db, t, p)
  {
    if TenantOf(e) == t {
      ServiceEventsGrow(s, e);
      OnlyLinksWriteJunctions(s, e);
      hide Apply, FlatSlugs, Integrity;
      CreatingChangesNoFlatSet(s.db, Apply(s, e).db, t, p);
    } else {
      OthersAreInvisible(s, e, t);
      hide Apply, FlatSlugs, Inv, Restrict;
      FlatSlugsSeeTheSlice(s.db, t, p);
      FlatSlugsSeeTheSlice(Apply(s, e).db, t, p);
    }
  }

  lemma OnlyLinksWriteJunctions(s: State, e: Event)
    requires ByServices(e) && !(e.Step? && e.action.Link?)
    ensures Apply(s, e).db.rolePermissions == s.db.rolePermissions
    ensures Apply(s, e).db.principalRoles == s.db.principalRoles
  {
    hide SlugTaken, ExternalIdTaken, StepOp;
    if e.Step? && e.op in s.ops {
      OnlyLinkStepsWriteJunctions(s.db, e.op.tenant, s.ops[e.op], e.action);
    }
  }

  lemma OnlyLinkStepsWriteJunctions(db: Db, t: Id, op: Op, a: Action)
    requires !a.Link?
    ensures StepOp(db, t, op, a).0.rolePermissions == db.rolePermissions
    ensures StepOp(db, t, op, a).0.principalRoles == db.principalRoles
  {
    hide RoleNameTaken, PermissionSlugTaken, PolicyNameTaken, PermissionSlug.WellFormed;
  }

  /** What the link step of call op adds to the flat set of p' in tenant t'. */
  ghost predicate LinkAdds(db: Db, t: Id, call: Call, t': Id, p': Id, slug: string) {
    match call
    case AssignPermissionToRole(r, q) =>
      HasRole(db, t, r) && HasPermission(db, t, q) && t' == t &&
      (p', r) in db.principalRoles && slug == db.permissions[q].Slug()
    case AssignRoleToPrincipal(p, r) =>
      HasPrincipal(db, t, p) && HasRole(db, t, r) && t' == t && p' == p && RoleGrants(db, t, r, slug)
    case _ => false
  }

  /** Recomputing the join after a link step is adding exactly what it adds. */
  lemma LinksMaintainFlatSets(s: State, o: OpId, t': Id, p': Id, slug: string)
    requires Inv(s) && o in s.ops && s.ops[o].stage.Writing?
    ensures slug in FlatSlugs(Apply(s, Step(o, Link)).db, t', p') <==>
            slug in FlatSlugs(s.db, t', p') || LinkAdds(s.db, o.tenant, s.ops[o].call, t', p', slug)
  {
    hide FlatSlugs, RoleGrants, Integrity;
    var t, call := o.tenant, s.ops[o].call;
    assert Knows(s, t, s.ops[o]);
    match call
    case AssignPermissionToRole(r, q) =>
      if HasRole(s.db, t, r) && HasPermission(s.db, t, q) {
        AssigningPermissionAddsItsSlug(s.db, t, r, q, t', p', slug);
      }
    case AssignRoleToPrincipal(p, r) =>
      if HasPrincipal(s.db, t, p) && HasRole(s.db, t, r) {
        AssigningRoleAddsItsSlugs(s.db, t, p, r, t', p', slug);
      }
    case _ =>
  }

  /** The role is given whether or not it grants anything yet: giving it before or
      after the permission is granted ends in the same links and the same flat sets,
      and the principal holds the permission. */
  lemma GivingAndGrantingCommute(db: Db, t: Id, p: Id, r: Id, q: Id, principalFirst: bool, t': Id, p': Id)
    requires HasPrincipal(db, t, p) && HasRole(db, t, r) && HasPermission(db, t, q)
    ensures var give, grant := AssignRoleToPrincipal(p, r), AssignPermissionToRole(r, q);
            var a := Alone(Alone(db, t, give, "", principalFirst).0, t, grant, "", false).0;
            var b := Alone(Alone(db, t, grant, "", false).0, t, give, "", principalFirst).0;
            a.rolePermissions == b.rolePermissions == db.rolePermissions + {(r, q)} &&
            a.principalRoles == b.principalRoles == db.principalRoles + {(p, r)} &&
            FlatSlugs(a, t', p') == FlatSlugs(b, t', p') && db.permissions[q].Slug() in FlatSlugs(a, t, p)
  {
    hide Alone, FlatSlugs, IncrementPolicyVersion, IncrementPrincipalVersion;
    var give, grant := AssignRoleToPrincipal(p, r), AssignPermissionToRole(r, q);
    var given, granted := Alone(db, t, give, "", principalFirst).0, Alone(db, t, grant, "", false).0;
    GivingLinks(db, t, p, r, principalFirst);
    GrantingLinks(given, t, r, q);
    GrantingLinks(db, t, r, q);
    GivingLinks(granted, t, p, r, principalFirst);
    var a := Alone(given, t, grant, "", false).0;
    var b := Alone(granted, t, give, "", principalFirst).0;
    FlatSlugsIgnoreCounters(a, b, t', p');
    FlatSlugsContain(a, t, p, db.permissions[q].Slug());
    assert Holds(a, t, p, q);
  }

  lemma GivingLinks(db: Db, t: Id, p: Id, r: Id, principalFirst: bool)
    requires HasPrincipal(db, t, p) && HasRole(db, t, r)
    ensures var after := Alone(db, t, AssignRoleToPrincipal(p, r), "", principalFirst).0;
            after == db.(tenants := after.tenants, principals := after.principals,
                         principalRoles := db.principalRoles + {(p, r)}) &&
            HasPrincipal(after, t, p)
  {
    RoleAssignmentAlone(db, t, p, r, "", principalFirst);
    hide Alone;
  }

  lemma GrantingLinks(db: Db, t: Id, r: Id, q: Id)
    requires HasRole(db, t, r) && HasPermission(db, t, q)
    ensures var after := Alone(db, t, AssignPermissionToRole(r, q), "", false).0;
            after == db.(tenants := after.tenants, rolePermissions := db.rolePermissions + {(r, q)})
  {
    PermissionAssignmentAlone(db, t, r, q, "", false);
    hide Alone;
  }

  // ---------------------------------------------------------------------------
  // Deleting a permission
  // ---------------------------------------------------------------------------

  ghost predicate NoRowFor(db: Db, t: Id, slug: string) {
    forall q :: HasPermission(db, t, q) ==> db.permissions[q].Slug() != slug
  }

  /** The event is the insert step of a createPermission call of tenant t for this
      slug, and the insert succeeds. */
  ghost predicate Recreates(s: State, e: Event, t: Id, slug: string) {
    e.Step? && e.action.Insert? && e.op in s.ops && e.op.tenant == t &&
    var call := s.ops[e.op].call;
    call.CreatePermission? && Permission(t, call.resource, call.action, call.specificity).Slug() == slug &&
    s.ops[e.op].stage.Writing? && InsertFor(s.db, t, call, e.action.id).Ok?
  }

  lemma RowsAppearOnlyByRecreation(s: State, e: Event, t: Id, slug: string)
    requires NoRowFor(s.db, t, slug) && !Recreates(s, e, t, slug)
    ensures NoRowFor(Apply(s, e).db, t, slug)
  {
    hide SlugTaken, ExternalIdTaken, StepOp, PermissionSlug.GeneratedSlug;
    if e.Step? && e.op in s.ops {
      RowsAppearOnlyByInsert(s.db, e.op.tenant, s.ops[e.op], e.action, t, slug);
    }
  }

  lemma RowsAppearOnlyByInsert(db: Db, u: Id, op: Op, a: Action, t: Id, slug: string)
    requires NoRowFor(db, t, slug)
    requires a.Insert? && u == t && op.call.CreatePermission? && op.stage.Writing? &&
             InsertFor(db, t, op.call, a.id).Ok? ==>
               Permission(t, op.call.resource, op.call.action, op.call.specificity).Slug() != slug
    ensures NoRowFor(StepOp(db, u, op, a).0, t, slug)
  {
    hide RoleNameTaken, PermissionSlugTaken, PolicyNameTaken, PermissionSlug.GeneratedSlug, PermissionSlug.WellFormed;
  }

  /** After a permission is deleted its slug is in no flat set of the tenant, and every
      ALL policy requiring it denies, until an event creates that permission again. */
  lemma {:induction false} DeletedPermissionDenies(s: State, events: seq<Event>, t: Id, slug: string,
                                                   p: Id, policy: Policy)
    requires NoRowFor(s.db, t, slug)
    requires forall k :: 0 <= k < |events| ==> !Recreates(Run(s, events[..k]), events[k], t, slug)
    ensures slug !in FlatSlugs(Run(s, events).db, t, p)
    ensures policy.strategy == ALL && slug in policy.required ==>
              !Allows(policy, FlatSlugs(Run(s, events).db, t, p))
    decreases |events|
  {
    hide Apply, Recreates;
    if events == [] {
      FlatSlugsContain(s.db, t, p, slug);
    } else {
      assert events[..0] == [];
      RowsAppearOnlyByRecreation(s, events[0], t, slug);
      forall k | 0 <= k < |events[1..]|
        ensures !Recreates(Run(Apply(s, events[0]), events[1..][..k]), events[1..][k], t, slug)
      {
        assert events[..k + 1][1..] == events[1..][..k];
        assert Run(s, events[..k + 1]) == Run(Apply(s, events[0]), events[1..][..k]);
      }
      DeletedPermissionDenies(Apply(s, events[0]), events[1..], t, slug, p, policy);
    }
  }

  /** Deleting the row is enough: slugs are unique within the tenant. */
  lemma DeletingLeavesNoRow(s: State, t: Id, q: Id)
    requires Inv(s) && HasPermission(s.db, t, q)
    ensures NoRowFor(Apply(s, RemovePermission(t, q)).db, t, s.db.permissions[q].Slug())
  {
    hide PermissionSlug.GeneratedSlug;
  }

  lemma DeletionTakesItsRow(db: Db, t: Id, q: Id, p: Id, x: Id)
    requires HasPermission(db, t, q)
    ensures Holds(DeletePermission(db, t, q), t, p, x) <==> Holds(db, t, p, x) && x != q
  {
    if Holds(db, t, p, x) && x != q {
      var r :| HasRole(db, t, r) && (p, r) in db.principalRoles && (r, x) in db.rolePermissions;
      assert (r, x) in DeletePermission(db, t, q).rolePermissions;
    }
  }

  /** Under unique slugs, the deletion of one permission takes exactly its slug. */
  lemma DeletionTakesItsSlug(db: Db, t: Id, q: Id, p: Id)
    requires SlugsUnique(db) && HasPermission(db, t, q)
    ensures FlatSlugs(DeletePermission(db, t, q), t, p) == FlatSlugs(db, t, p) - {db.permissions[q].Slug()}
  {
    var db' := DeletePermission(db, t, q);
    forall slug ensures slug in FlatSlugs(db', t, p) <==> slug in FlatSlugs(db, t, p) - {db.permissions[q].Slug()} {
      FlatSlugsContain(db, t, p, slug);
      FlatSlugsContain(db', t, p, slug);
      SlugTakenIff(db, t, q, p, slug);
      hide FlatSlugs, HoldsSlug, SlugsUnique;
    }
    hide *;
  }

  lemma SlugTakenIff(db: Db, t: Id, q: Id, p: Id, slug: string)
    requires SlugsUnique(db) && HasPermission(db, t, q)
    ensures HoldsSlug(DeletePermission(db, t, q), t, p, slug) <==>
            HoldsSlug(db, t, p, slug) && slug != db.permissions[q].Slug()
  {
    var db' := DeletePermission(db, t, q);
    if HoldsSlug(db', t, p, slug) {
      var x :| Holds(db', t, p, x) && db'.permissions[x].Slug() == slug;
      DeletionTakesItsRow(db, t, q, p, x);
    }
    if HoldsSlug(db, t, p, slug) && slug != db.permissions[q].Slug() {
      var x :| Holds(db, t, p, x) && db.permissions[x].Slug() == slug;
      DeletionTakesItsRow(db, t, q, p, x);
    }
  }

  /** The cascades advance no version: deleting a permission changes the model and
      takes the slug out of every flat set that held it, while every counter stays, so
      a decision cached under the versions outlives the permission. */
  lemma DeletionsAdvanceNoVersion(s: State, t: Id, q: Id, p: Id)
    requires Inv(s) && HasPermission(s.db, t, q)
    ensures var s' := Apply(s, RemovePermission(t, q));
            s'.db.tenants == s.db.tenants && s'.db.principals == s.db.principals && s'.ops == s.ops &&
            ModelOf(s'.db, t) != ModelOf(s.db, t) &&
            FlatSlugs(s'.db, t, p) == FlatSlugs(s.db, t, p) - {s.db.permissions[q].Slug()}
  {
    DeletionTakesItsSlug(s.db, t, q, p);
    assert q in ModelOf(s.db, t).permissions && q !in ModelOf(DeletePermission(s.db, t, q), t).permissions;
    hide PermissionSlug.GeneratedSlug, FlatSlugs, Inv, ModelOf;
  }
}
