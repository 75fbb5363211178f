/** Caching decisions by policy version: when two states of a run at one version
    decide alike, and what goes unnoticed when they do not. */
module Caching {
  import opened PolicyEngine
  import opened Store
  import opened Machine
  import opened Tenancy
  import opened Counters
  import opened Isolation

  /** What decisions about tenant t depend on: its roles, permissions, policies and
      junction rows, but no counter and no key. */
  ghost function ModelOf(db: Db, t: Id): Db {
    Restrict(db, t).(tenants := map[], principals := map[])
  }

  lemma DecisionsDependOnModel(db: Db, db': Db, t: Id, p: Id)
    requires ModelOf(db, t) == ModelOf(db', t)
    ensures FlatSlugs(db, t, p) == FlatSlugs(db', t, p)
    ensures OwnPolicies(db.policies, t) == OwnPolicies(db'.policies, t)
  {
    FlatSlugsSeeTheSlice(db, t, p);
    FlatSlugsSeeTheSlice(db', t, p);
    FlatSlugsIgnoreCounters(Restrict(db, t), Restrict(db', t), t, p);
    hide Restrict, FlatSlugs;
    assert ModelOf(db, t).policies == ModelOf(db', t).policies;
    assert Restrict(db, t).policies == Restrict(db', t).policies;
  }

  lemma FlatSlugsIgnoreCounters(db: Db, db': Db, t: Id, p: Id)
    requires db' == db.(tenants := db'.tenants, principals := db'.principals)
    ensures FlatSlugs(db, t, p) == FlatSlugs(db', t, p)
  {
    forall q ensures Holds(db, t, p, q) <==> Holds(db', t, p, q) {
    }
    assert ReachablePermissions(db, t, p) == ReachablePermissions(db', t, p);
  }

  // ---------------------------------------------------------------------------
  // Caching by policy version
  // ---------------------------------------------------------------------------

  /** A step that completes no write changes at most counters. */
  lemma OnlyCommitsChangeRows(db: Db, t: Id, op: Op, a: Action)
    requires DebtsFollowWrites(op)
    ensures var db' := StepOp(db, t, op, a).0;
            !Commits(db, t, op, a) ==> db' == db.(tenants := db'.tenants, principals := db'.principals)
  {
    hide InsertFor, LinkFor;
  }

  /** Every event but a deletion of the tenant's own either leaves its model alone or
      is recorded as a write for it. */
  lemma ModelChangesAreRecorded(s: State, e: Event, t: Id)
    requires Accounted(s) && (TenantOf(e) == t ==> ByServices(e))
    ensures s.log[ModelWrite(t)] <= Apply(s, e).log[ModelWrite(t)]
    ensures ModelOf(Apply(s, e).db, t) != ModelOf(s.db, t) ==>
              s.log[ModelWrite(t)] < Apply(s, e).log[ModelWrite(t)]
  {
    LogGrows(s, e, t);
    if TenantOf(e) != t {
      OthersAreInvisible(s, e, t);
      hide Apply, Restrict, Inv;
    } else {
      OwnModelChangesAreRecorded(s, e, t);
    }
  }

  lemma LogGrows(s: State, e: Event, t: Id)
    ensures s.log[ModelWrite(t)] <= Apply(s, e).log[ModelWrite(t)]
  {
    hide StepOp;
  }

  lemma OwnModelChangesAreRecorded(s: State, e: Event, t: Id)
    requires Accounted(s) && ByServices(e) && TenantOf(e) == t
    ensures ModelOf(Apply(s, e).db, t) != ModelOf(s.db, t) ==>
              s.log[ModelWrite(t)] < Apply(s, e).log[ModelWrite(t)]
  {
    hide StepOp, Inv, OwnTenant, OwnPrincipals, OwnRoles, OwnPermissions, OwnPolicies, GrantsOf, HoldersOf,
         SlugTaken, ExternalIdTaken, Records, Commits;
    if e.Step? && e.op in s.ops {
      OnlyCommitsChangeRows(s.db, t, s.ops[e.op], e.action);
      RecordCounts(t, s.ops[e.op].call, t);
    }
  }

  lemma {:induction false} RunKeepsModelOrRecords(s: State, events: seq<Event>, t: Id, x: Id)
    requires Accounted(s) && PolicyBalanced(s, x) && PrincipalBalanced(s, x)
    requires forall e :: e in events && TenantOf(e) == t ==> ByServices(e)
    ensures var s' := Run(s, events);
            s.log[ModelWrite(t)] <= s'.log[ModelWrite(t)] &&
            (ModelOf(s'.db, t) != ModelOf(s.db, t) ==> s.log[ModelWrite(t)] < s'.log[ModelWrite(t)])
    decreases |events|
  {
    hide Accounted, PolicyBalanced, PrincipalBalanced, Apply, ModelOf, ByServices;
    if events == [] {
    } else {
      assert events[0] in events && forall e :: e in events[1..] ==> e in events;
      ModelChangesAreRecorded(s, events[0], t);
      EventKeepsAccounts(s, events[0], x);
      RunKeepsModelOrRecords(Apply(s, events[0]), events[1..], t, x);
    }
  }

  ghost predicate SameVersion(s1: State, s2: State, t: Id) {
    t in s1.db.tenants && t in s2.db.tenants &&
    s1.db.tenants[t].policyVersion == s2.db.tenants[t].policyVersion
  }

  /** At one policy version, a write went unnoticed between two states of a run exactly
      when more is owed in the later one. */
  lemma UnnoticedWritesIff(before: seq<Event>, after: seq<Event>, t: Id)
    requires SameVersion(Run(Initial, before), Run(Initial, before + after), t)
    ensures var s1, s2 := Run(Initial, before), Run(Initial, before + after);
            s1.log[ModelWrite(t)] < s2.log[ModelWrite(t)] <==>
            |PolicyDebtors(s1.ops, t)| < |PolicyDebtors(s2.ops, t)|
  {
    CountersAreConserved(before, t, t);
    CountersAreConserved(before + after, t, t);
    hide Run;
  }

  /** If the model of a tenant differs between two states of a run at one policy
      version, then in the later state more calls are between their write and their
      increment than in the earlier one. Other tenants may do anything, and delete. */
  lemma EqualVersionsDifferOnlyInFlight(before: seq<Event>, after: seq<Event>, t: Id)
    requires forall e :: e in after && TenantOf(e) == t ==> ByServices(e)
    requires SameVersion(Run(Initial, before), Run(Initial, before + after), t)
    ensures var s1, s2 := Run(Initial, before), Run(Initial, before + after);
            ModelOf(s1.db, t) != ModelOf(s2.db, t) ==>
              |PolicyDebtors(s1.ops, t)| < |PolicyDebtors(s2.ops, t)|
  {
    RunConcat(Initial, before, after);
    EveryRunKeepsAccounts(Initial, before, t);
    RunKeepsModelOrRecords(Run(Initial, before), after, t, t);
    UnnoticedWritesIff(before, after, t);
    hide Run, Accounted, ModelOf, PolicyDebtors;
  }

  lemma OwnPolicy(db: Db, t: Id, y: Id)
    ensures y in OwnPolicies(db.policies, t) <==> HasPolicy(db, t, y)
    ensures HasPolicy(db, t, y) ==> OwnPolicies(db.policies, t)[y] == db.policies[y]
  {
  }

  /** What a decision for p under y reads is the same in both databases. */
  ghost predicate DecidesAlike(db: Db, db': Db, t: Id, p: Id, y: Id) {
    FlatSlugs(db, t, p) == FlatSlugs(db', t, p) &&
    (HasPolicy(db, t, y) <==> HasPolicy(db', t, y)) &&
    (HasPolicy(db, t, y) ==>
       db.policies[y] == db'.policies[y] &&
       (Allows(db.policies[y], FlatSlugs(db, t, p)) <==> Allows(db'.policies[y], FlatSlugs(db', t, p))))
  }

  /** A decision cached under a policy version stays right: whenever the version is
      the same and no more increments are owed than were, the tenant's policies, the
      flat set of every principal and every decision are the same. */
  lemma VersionKeyedCachingIsSound(before: seq<Event>, after: seq<Event>, t: Id, p: Id, y: Id)
    requires forall e :: e in after && TenantOf(e) == t ==> ByServices(e)
    requires SameVersion(Run(Initial, before), Run(Initial, before + after), t)
    requires |PolicyDebtors(Run(Initial, before + after).ops, t)| <= |PolicyDebtors(Run(Initial, before).ops, t)|
    ensures DecidesAlike(Run(Initial, before).db, Run(Initial, before + after).db, t, p, y)
  {
    var s1, s2 := Run(Initial, before), Run(Initial, before + after);
    EqualVersionsDifferOnlyInFlight(before, after, t);
    DecisionsDependOnModel(s1.db, s2.db, t, p);
    OwnPolicy(s1.db, t, y);
    OwnPolicy(s2.db, t, y);
    hide Run, ModelOf, FlatSlugs, OwnPolicies, Allows;
  }

  /** So in a run without crashes the cache is right at rest, as long as the version
      column is not exhausted. */
  lemma CachingIsSoundAtRest(before: seq<Event>, after: seq<Event>, t: Id, p: Id, y: Id)
    requires forall e :: e in after && TenantOf(e) == t ==> ByServices(e)
    requires forall e :: e in before + after ==> !IsCrash(e)
    requires SameVersion(Run(Initial, before), Run(Initial, before + after), t)
    requires Run(Initial, before).db.tenants[t].policyVersion < MAX_INTEGER
    requires Quiescent(Run(Initial, before + after), t)
    ensures DecidesAlike(Run(Initial, before).db, Run(Initial, before + after).db, t, p, y)
  {
    hide Run, DecidesAlike, ByServices, IsCrash;
    QuiescentIffNothingOwed(before + after, t);
    VersionKeyedCachingIsSound(before, after, t, p, y);
  }

  // ---------------------------------------------------------------------------
  // Increments that never come
  // ---------------------------------------------------------------------------

  /** What is owed matters: an assignment that crashes after
      its write changes a flat set under an unchanged policy version. */
  lemma AbandonedAssignmentGoesUnnoticed(s: State, o: OpId, p: Id, r: Id, slug: string)
    requires o in s.ops && s.ops[o] == Op(AssignRoleToPrincipal(p, r), Writing, NoDebt, NoDebt)
    requires HasPrincipal(s.db, o.tenant, p) && HasRole(s.db, o.tenant, r)
    requires RoleGrants(s.db, o.tenant, r, slug) && slug !in FlatSlugs(s.db, o.tenant, p)
    ensures var s' := Run(s, [Step(o, Link), Step(o, Crash)]);
            s'.db.tenants == s.db.tenants && s'.db.principals == s.db.principals &&
            slug in FlatSlugs(s'.db, o.tenant, p) &&
            o in PolicyDebtors(s'.ops, o.tenant) && o in PrincipalDebtors(s'.ops, p)
  {
    TwoSteps(s, o, Link, Crash);
    hide FlatSlugs, RoleGrants, HasPrincipal, HasRole, Run;
    AssigningRoleAddsItsSlugs(s.db, o.tenant, p, r, o.tenant, p, slug);
  }

  lemma TwoSteps(s: State, o: OpId, a: Action, b: Action)
    requires o in s.ops && !a.Insert? && !b.Insert?
    ensures var s' := Run(s, [Step(o, a), Step(o, b)]);
            var (db1, op1) := StepOp(s.db, o.tenant, s.ops[o], a);
            var (db2, op2) := StepOp(db1, o.tenant, op1, b);
            s'.db == db2 && o in s'.ops && s'.ops[o] == op2
  {
    hide StepOp, Run, Apply;
    var s1 := Apply(s, Step(o, a));
    AStepActsAlone(s, o, a);
    AStepActsAlone(s1, o, b);
    assert [Step(o, a), Step(o, b)] == [Step(o, a)] + ([Step(o, b)] + []);
    RunFirst(s, Step(o, a), [Step(o, b)] + []);
    RunFirst(s1, Step(o, b), []);
    RunNothing(Apply(s1, Step(o, b)));
  }

  /** The two increments of an assignment are separate statements: a crash between
      them advances the policy version alone. */
  lemma IncrementsAreNotAtomic(s: State, o: OpId, p: Id, r: Id)
    requires o in s.ops && s.ops[o] == Op(AssignRoleToPrincipal(p, r), Bumping, Due, Due)
    requires IncrementPolicyVersion(s.db, o.tenant).Ok?
    ensures var s' := Run(s, [Step(o, BumpPolicy), Step(o, Crash)]);
            s'.db == IncrementPolicyVersion(s.db, o.tenant).value &&
            s'.db.principals == s.db.principals &&
            o !in PolicyDebtors(s'.ops, o.tenant) && o in PrincipalDebtors(s'.ops, p)
  {
    TwoSteps(s, o, BumpPolicy, Crash);
    hide Run;
  }

  /** An increment that was lost is owed in every later state. */
  lemma {:induction false} LostIncrementsStayOwed(s: State, events: seq<Event>, o: OpId)
    requires o in s.ops && DebtsFollowWrites(s.ops[o])
    ensures var ops := Run(s, events).ops;
            o in ops && ops[o].call == s.ops[o].call && DebtsFollowWrites(ops[o]) &&
            (s.ops[o].policyDebt.Lost? ==> ops[o].policyDebt.Lost?) &&
            (s.ops[o].principalDebt.Lost? ==> ops[o].principalDebt.Lost?)
    decreases |events|
  {
    hide DebtsFollowWrites;
    if events == [] {
    } else {
      LostStaysLost(s, events[0], o);
      hide Apply;
      LostIncrementsStayOwed(Apply(s, events[0]), events[1..], o);
    }
  }

  lemma LostStaysLost(s: State, e: Event, o: OpId)
    requires o in s.ops && DebtsFollowWrites(s.ops[o])
    ensures var ops := Apply(s, e).ops;
            o in ops && ops[o].call == s.ops[o].call && DebtsFollowWrites(ops[o]) &&
            (s.ops[o].policyDebt.Lost? ==> ops[o].policyDebt.Lost?) &&
            (s.ops[o].principalDebt.Lost? ==> ops[o].principalDebt.Lost?)
  {
    hide InsertTenant, InsertPrincipal, IncrementKeyVersion, DeleteTenant, DeletePrincipal, DeleteRole,
         DeletePermission, DeletePolicy, StepOp, DebtsFollowWrites;
    if e.Step? && e.op == o {
      LostStaysLostInAStep(s.db, o.tenant, s.ops[o], e.action);
    }
  }

  lemma LostStaysLostInAStep(db: Db, t: Id, op: Op, a: Action)
    requires DebtsFollowWrites(op)
    ensures var op' := StepOp(db, t, op, a).1;
            op'.call == op.call && DebtsFollowWrites(op') &&
            (op.policyDebt.Lost? ==> op'.policyDebt.Lost?) && (op.principalDebt.Lost? ==> op'.principalDebt.Lost?)
  {
    hide InsertFor, LinkFor, IncrementPolicyVersion, IncrementPrincipalVersion;
  }
}
