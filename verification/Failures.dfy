/** Runs from the empty system in which the promises about versions fail: one crash
    between a write and its increment, one crash between two increments, one exhausted
    column, one deletion. */
module Failures {
  import opened Outcomes
  import PermissionSlug
  import opened PolicyEngine
  import opened Store
  import opened Machine
  import opened SingleCalls
  import opened Tenancy
  import opened Counters
  import opened Isolation
  import opened Caching
  import opened Decisions

  const T: Id := "ten"
  const P: Id := "pri"
  const R: Id := "rol"
  const Q: Id := "per"

  /** One tenant, principal, role and permission, with the role granting the
      permission; the versions and who holds the role vary. */
  function Tables(policyVersion: nat, version: nat, held: set<(Id, Id)>): Db {
    Db(map[T := Tenant("acme", "key", 1, policyVersion)], map[P := Principal(T, "ext", version)],
       map[R := Role(T, "reader")], map[Q := Permission(T, "doc", "read", None)], map[], {(R, Q)}, held)
  }

  const GrantRead := AssignPermissionToRole(R, Q)
  const GiveRole := AssignRoleToPrincipal(P, R)

  /** A call of the tenant that runs alone. */
  function Call(serial: nat, call: Call, id: Id): seq<Event> {
    Calling(OpId(T, serial), call, id, false)
  }

  function Arrivals(): seq<Event> {
    [RegisterTenant(T, "acme", "key"), CreatePrincipal(T, P, "ext")]
  }

  /** The run that sets the tables up. */
  function Founding(): seq<Event> {
    Arrivals() + Call(0, CreateRole("reader"), R) + Call(1, CreatePermission("doc", "read", None), Q) +
    Call(2, GrantRead, "")
  }

  /** Granting the same permission again and again: no change but the version. */
  function Regrants(n: nat): seq<Event> {
    if n == 0 then [] else Regrants(n - 1) + Call(2 + n, GrantRead, "")
  }

  /** Every call has answered success; serials from n on are free. */
  ghost predicate AtRest(s: State, n: nat) {
    forall o :: o in s.ops ==>
      o.serial < n && s.ops[o].stage.Done? && s.ops[o].policyDebt.NoDebt? && s.ops[o].principalDebt.NoDebt?
  }

  predicate Peaceful(e: Event) {
    !IsCrash(e) && ByServices(e)
  }

  lemma CallsArePeaceful(serial: nat, call: Call, id: Id)
    ensures forall e :: e in Call(serial, call, id) ==> Peaceful(e)
  {
  }

  lemma {:induction false} RegrantsArePeaceful(n: nat)
    ensures forall e :: e in Regrants(n) ==> Peaceful(e)
  {
    if n == 0 {
    } else {
      RegrantsArePeaceful(n - 1);
      CallsArePeaceful(2 + n, GrantRead, "");
      hide Call, Peaceful;
    }
  }

  lemma FoundingIsPeaceful()
    ensures forall e :: e in Founding() ==> Peaceful(e)
  {
    CallsArePeaceful(0, CreateRole("reader"), R);
    CallsArePeaceful(1, CreatePermission("doc", "read", None), Q);
    CallsArePeaceful(2, GrantRead, "");
    assert forall e :: e in Arrivals() ==> Peaceful(e);
    hide Call, Peaceful, Arrivals;
  }

  // ---------------------------------------------------------------------------
  // The states these runs reach
  // ---------------------------------------------------------------------------

  lemma ACallMovesOn(s: State, n: nat, call: Call, id: Id, after: Db)
    requires AtRest(s, n) && (Assigns(call) || id !in s.issued)
    requires Alone(s.db, T, call, id, false) == (after, Op(call, Done, NoDebt, NoDebt))
    ensures var s' := Run(s, Call(n, call, id));
            s'.db == after && AtRest(s', n + 1) && s'.issued == s.issued + if Assigns(call) then {} else {id}
  {
    hide Alone, Run, Calling;
    assert OpId(T, n) !in s.ops;
    AloneIsARun(s, OpId(T, n), call, id, false);
  }

  lemma ArrivalsReach()
    ensures var s := Run(Initial, Arrivals());
            s.db == EmptyDb.(tenants := map[T := Tenant("acme", "key", 1, 1)],
                             principals := map[P := Principal(T, "ext", 1)]) &&
            AtRest(s, 0) && s.issued == {T, P}
  {
    var e, f := RegisterTenant(T, "acme", "key"), CreatePrincipal(T, P, "ext");
    assert Arrivals() == [e] + ([f] + []);
    RunFirst(Initial, e, [f] + []);
    RunFirst(Apply(Initial, e), f, []);
    assert IsTenantSlug("acme");
  }

  lemma RoleIsCreated(db: Db)
    requires T in db.tenants && db.tenants[T].policyVersion < MAX_INTEGER && db.roles == map[]
    ensures Alone(db, T, CreateRole("reader"), R, false) ==
            (db.(tenants := db.tenants[T := db.tenants[T].(policyVersion := db.tenants[T].policyVersion + 1)],
                 roles := map[R := Role(T, "reader")]),
             Op(CreateRole("reader"), Done, NoDebt, NoDebt))
  {
    CreationAlone(db, T, CreateRole("reader"), R, false);
    hide Alone;
  }

  lemma PermissionIsCreated(db: Db)
    requires T in db.tenants && db.tenants[T].policyVersion < MAX_INTEGER && db.permissions == map[]
    ensures Alone(db, T, CreatePermission("doc", "read", None), Q, false) ==
            (db.(tenants := db.tenants[T := db.tenants[T].(policyVersion := db.tenants[T].policyVersion + 1)],
                 permissions := map[Q := Permission(T, "doc", "read", None)]),
             Op(CreatePermission("doc", "read", None), Done, NoDebt, NoDebt))
  {
    assert PermissionSlug.WellFormed("doc", "read", None);
    hide PermissionSlug.WellFormed;
    CreationAlone(db, T, CreatePermission("doc", "read", None), Q, false);
    hide Alone;
  }

  lemma VersionsOfTables(v: nat, w: nat, held: set<(Id, Id)>)
    ensures IncrementPolicyVersion(Tables(v, w, held), T) ==
            if v >= MAX_INTEGER then Err(OutOfRange) else Ok(Tables(v + 1, w, held))
    ensures IncrementPrincipalVersion(Tables(v, w, held), T, P) ==
            if w >= MAX_INTEGER then Err(OutOfRange) else Ok(Tables(v, w + 1, held))
  {
    assert map[T := Tenant("acme", "key", 1, v)][T := Tenant("acme", "key", 1, v + 1)] ==
           map[T := Tenant("acme", "key", 1, v + 1)];
    assert map[P := Principal(T, "ext", w)][P := Principal(T, "ext", w + 1)] == map[P := Principal(T, "ext", w + 1)];
  }

  lemma RoleIsLinked(v: nat, w: nat)
    ensures InsertPrincipalRole(Tables(v, w, {}), T, P, R) == Tables(v, w, {(P, R)})
  {
    assert {} + {(P, R)} == {(P, R)};
  }

  lemma PermissionIsGranted(v: nat, granted: set<(Id, Id)>)
    requires v < MAX_INTEGER && granted <= {(R, Q)}
    ensures Alone(Tables(v, 1, {}).(rolePermissions := granted), T, GrantRead, "", false) ==
            (Tables(v + 1, 1, {}), Op(GrantRead, Done, NoDebt, NoDebt))
  {
    var db := Tables(v, 1, {}).(rolePermissions := granted);
    PermissionAssignmentAlone(db, T, R, Q, "", false);
    hide Alone;
    assert granted + {(R, Q)} == {(R, Q)};
    VersionsOfTables(v, 1, {});
    assert db.(rolePermissions := granted + {(R, Q)}) == Tables(v, 1, {});
  }

  lemma FoundingReaches()
    ensures Run(Initial, Founding()).db == Tables(4, 1, {}) && AtRest(Run(Initial, Founding()), 3)
  {
    hide Run, Alone, AtRest, Call;
    var e0, e1, e2 := Arrivals(), Call(0, CreateRole("reader"), R), Call(1, CreatePermission("doc", "read", None), Q);
    ArrivalsReach();
    var s0 := Run(Initial, e0);
    RoleIsCreated(s0.db);
    ACallMovesOn(s0, 0, CreateRole("reader"), R, Alone(s0.db, T, CreateRole("reader"), R, false).0);
    RunConcat(Initial, e0, e1);
    var s1 := Run(Initial, e0 + e1);
    PermissionIsCreated(s1.db);
    ACallMovesOn(s1, 1, CreatePermission("doc", "read", None), Q,
                 Alone(s1.db, T, CreatePermission("doc", "read", None), Q, false).0);
    RunConcat(Initial, e0 + e1, e2);
    var s2 := Run(Initial, e0 + e1 + e2);
    assert s2.db == Tables(3, 1, {}).(rolePermissions := {});
    PermissionIsGranted(3, {});
    ACallMovesOn(s2, 2, GrantRead, "", Tables(4, 1, {}));
    RunConcat(Initial, e0 + e1 + e2, Call(2, GrantRead, ""));
  }

  lemma {:induction false} RegrantsReach(n: nat)
    requires 4 + n <= MAX_INTEGER
    ensures var s := Run(Initial, Founding() + Regrants(n));
            s.db == Tables(4 + n, 1, {}) && AtRest(s, 3 + n)
  {
    hide Run, Alone, AtRest, Call, Founding;
    if n == 0 {
      FoundingReaches();
      assert Founding() + [] == Founding();
    } else {
      RegrantsReach(n - 1);
      var s := Run(Initial, Founding() + Regrants(n - 1));
      assert s.db == Tables(3 + n, 1, {}).(rolePermissions := {(R, Q)});
      PermissionIsGranted(3 + n, {(R, Q)});
      ACallMovesOn(s, 2 + n, GrantRead, "", Tables(4 + n, 1, {}));
      RunConcat(Initial, Founding() + Regrants(n - 1), Call(2 + n, GrantRead, ""));
      assert Founding() + Regrants(n) == Founding() + Regrants(n - 1) + Call(2 + n, GrantRead, "");
    }
  }

  lemma FlatSetsOfTables(v: nat, w: nat)
    ensures FlatSlugs(Tables(v, w, {}), T, P) == {}
    ensures FlatSlugs(Tables(v, w, {(P, R)}), T, P) == {"doc:read"}
    ensures ModelOf(Tables(v, w, {}), T) != ModelOf(Tables(v, w, {(P, R)}), T)
  {
    var none, one := Tables(v, w, {}), Tables(v, w, {(P, R)});
    assert Holds(one, T, P, Q) by {
      assert HasRole(one, T, R);
    }
    assert Permission(T, "doc", "read", None).Slug() == "doc:read";
    assert ReachablePermissions(none, T, P) == {};
    assert ReachablePermissions(one, T, P) == {Q};
    assert (P, R) in ModelOf(one, T).principalRoles && (P, R) !in ModelOf(none, T).principalRoles;
  }

  // ---------------------------------------------------------------------------
  // The failures
  // ---------------------------------------------------------------------------

  /** The assignment in flight, just before its write. */
  lemma ReadyToLink(s: State, n: nat)
    requires AtRest(s, n) && s.db == Tables(4, 1, {})
    ensures var o := OpId(T, n); var s' := Run(s, Checks(o, GiveRole));
            s'.db == s.db && o in s'.ops && s'.ops == s.ops[o := Op(GiveRole, Writing, NoDebt, NoDebt)]
  {
    hide Run, Checks;
    assert OpId(T, n) !in s.ops;
    ChecksRunAlone(s, OpId(T, n), GiveRole);
  }

  lemma AfterLinking(s: State, n: nat)
    requires AtRest(s, n) && s.db == Tables(4, 1, {})
    ensures var o := OpId(T, n); var s' := Run(s, Checks(o, GiveRole) + [Step(o, Link)]);
            s'.db == Tables(4, 1, {(P, R)}) && s'.ops == s.ops[o := Op(GiveRole, Bumping, Due, Due)]
  {
    hide Run, Checks, Apply, StepOp;
    var o := OpId(T, n);
    ReadyToLink(s, n);
    var s1 := Run(s, Checks(o, GiveRole));
    AStepActsAlone(s1, o, Link);
    RunOneMore(s, Checks(o, GiveRole), Step(o, Link));
    LinkGivesRole(s1.db);
  }

  lemma LinkGivesRole(db: Db)
    requires db == Tables(4, 1, {})
    ensures StepOp(db, T, Op(GiveRole, Writing, NoDebt, NoDebt), Link) ==
            (Tables(4, 1, {(P, R)}), Op(GiveRole, Bumping, Due, Due))
  {
    RoleIsLinked(4, 1);
    hide InsertPrincipalRole;
  }

  /** The write of an assignment, then a crash. */
  function CrashAfterWrite(): seq<Event> {
    var o := OpId(T, 3);
    Checks(o, GiveRole) + [Step(o, Link)] + [Step(o, Crash)]
  }

  lemma CrashReaches()
    ensures Run(Initial, Founding()).db == Tables(4, 1, {})
    ensures Run(Initial, Founding() + CrashAfterWrite()).db == Tables(4, 1, {(P, R)})
  {
    var o, s := OpId(T, 3), Run(Initial, Founding());
    var front := Checks(o, GiveRole) + [Step(o, Link)];
    hide Run, Founding, Checks, Apply, StepOp, AtRest;
    FoundingReaches();
    AfterLinking(s, 3);
    RunConcat(Initial, Founding(), CrashAfterWrite());
    CrashesWriteNothing(s, front, o);
  }

  /** A crash after the write: both versions are as they were, the flat set is not. */
  lemma CrashHidesAssignment()
    ensures forall e :: e in CrashAfterWrite() ==> ByServices(e)
    ensures var s1, s2 := Run(Initial, Founding()), Run(Initial, Founding() + CrashAfterWrite());
            s1.db == Tables(4, 1, {}) && s2.db == Tables(4, 1, {(P, R)}) && SameVersion(s1, s2, T) &&
            FlatSlugs(s1.db, T, P) == {} && FlatSlugs(s2.db, T, P) == {"doc:read"} &&
            ModelOf(s1.db, T) != ModelOf(s2.db, T)
  {
    assert forall e :: e in CrashAfterWrite() ==> ByServices(e);
    hide Run, Founding, CrashAfterWrite, ModelOf, FlatSlugs;
    CrashReaches();
    FlatSetsOfTables(4, 1);
  }

  lemma CrashesWriteNothing(s: State, front: seq<Event>, o: OpId)
    ensures Run(s, front + [Step(o, Crash)]).db == Run(s, front).db
  {
    hide Run;
    RunOneMore(s, front, Step(o, Crash));
  }

  /** The first increment of an assignment, then a crash. */
  function CrashBetweenIncrements(): seq<Event> {
    var o := OpId(T, 3);
    Checks(o, GiveRole) + [Step(o, Link)] + [Step(o, BumpPolicy), Step(o, Crash)]
  }

  /** A crash between the increments: one version advances and the other never does. */
  lemma CrashSplitsVersions()
    ensures Run(Initial, Founding()).db == Tables(4, 1, {})
    ensures Run(Initial, Founding() + CrashBetweenIncrements()).db == Tables(5, 1, {(P, R)})
    ensures OpId(T, 3) in PrincipalDebtors(Run(Initial, Founding() + CrashBetweenIncrements()).ops, P)
  {
    var o, s := OpId(T, 3), Run(Initial, Founding());
    var front := Checks(o, GiveRole) + [Step(o, Link)];
    hide Run, Founding, Checks, StepOp, AtRest;
    FoundingReaches();
    AfterLinking(s, 3);
    RunConcat(Initial, Founding(), CrashBetweenIncrements());
    RunConcat(s, front, [Step(o, BumpPolicy), Step(o, Crash)]);
    IncrementsAreNotAtomic(Run(s, front), o, P, R);
  }

  /** Grants until the version column is exhausted. */
  function Exhausting(): seq<Event> {
    Founding() + Regrants(MAX_INTEGER - 4)
  }

  function LastAssignment(): seq<Event> {
    Call(MAX_INTEGER - 1, GiveRole, "")
  }

  lemma ExhaustionReaches()
    ensures var s1, s2 := Run(Initial, Exhausting()), Run(Initial, Exhausting() + LastAssignment());
            s1.db == Tables(MAX_INTEGER, 1, {}) && s2.db == Tables(MAX_INTEGER, 2, {(P, R)}) &&
            Quiescent(s1, T) && Quiescent(s2, T)
  {
    hide Run, Founding, Regrants, Call, Alone;
    var n := MAX_INTEGER - 1;
    RegrantsReach(MAX_INTEGER - 4);
    var s1 := Run(Initial, Exhausting());
    RunConcat(Initial, Exhausting(), LastAssignment());
    assert OpId(T, n) !in s1.ops;
    AloneIsARun(s1, OpId(T, n), GiveRole, "", false);
    CallIsCalling(n, GiveRole, "");
    RoleIsGivenAtLimit();
  }

  lemma RoleIsGivenAtLimit()
    ensures Alone(Tables(MAX_INTEGER, 1, {}), T, GiveRole, "", false) ==
            (Tables(MAX_INTEGER, 2, {(P, R)}), Op(GiveRole, Failed(OutOfRange), Lost, NoDebt))
  {
    RoleAssignmentAlone(Tables(MAX_INTEGER, 1, {}), T, P, R, "", false);
    RoleIsLinked(MAX_INTEGER, 1);
    VersionsOfTables(MAX_INTEGER, 1, {(P, R)});
    hide Alone, IncrementPolicyVersion, IncrementPrincipalVersion, InsertPrincipalRole;
  }

  /** No crash at all, and both states at rest: with the policy version at its limit an
      assignment changes the flat set under an unchanged policy version, and advances
      the principal's version alone. */
  lemma ExhaustedColumnHidesAssignment()
    ensures forall e :: e in Exhausting() + LastAssignment() ==> !IsCrash(e) && ByServices(e)
    ensures var s1, s2 := Run(Initial, Exhausting()), Run(Initial, Exhausting() + LastAssignment());
            s1.db == Tables(MAX_INTEGER, 1, {}) && s2.db == Tables(MAX_INTEGER, 2, {(P, R)}) &&
            SameVersion(s1, s2, T) && Quiescent(s1, T) && Quiescent(s2, T) &&
            FlatSlugs(s1.db, T, P) == {} && FlatSlugs(s2.db, T, P) == {"doc:read"} &&
            ModelOf(s1.db, T) != ModelOf(s2.db, T)
  {
    ExhaustionIsPeaceful();
    hide Run, Exhausting, LastAssignment, ModelOf, FlatSlugs, Quiescent, IsCrash, ByServices;
    ExhaustionReaches();
    FlatSetsOfTables(MAX_INTEGER, 1);
    FlatSetsOfTables(MAX_INTEGER, 2);
    ModelsIgnoreVersions(MAX_INTEGER, 1, 2, {});
  }

  lemma ExhaustionIsPeaceful()
    ensures forall e :: e in Exhausting() + LastAssignment() ==> !IsCrash(e) && ByServices(e)
  {
    FoundingIsPeaceful();
    RegrantsArePeaceful(MAX_INTEGER - 4);
    CallsArePeaceful(MAX_INTEGER - 1, GiveRole, "");
    hide Founding, Regrants, Call, IsCrash, ByServices;
  }

  lemma CallIsCalling(serial: nat, call: Call, id: Id)
    ensures Call(serial, call, id) == Calling(OpId(T, serial), call, id, false)
  {
  }

  lemma ModelsIgnoreVersions(v: nat, w: nat, w': nat, held: set<(Id, Id)>)
    ensures ModelOf(Tables(v, w, held), T) == ModelOf(Tables(v, w', held), T)
  {
  }

  /** The role is given, and then the permission deleted: every version is as it was
      before the deletion, the flat set is not. */
  lemma DeletionHidesLoss()
    ensures var before := Founding() + Call(3, GiveRole, "");
            var s1, s2 := Run(Initial, before), Run(Initial, before + [RemovePermission(T, Q)]);
            s1.db == Tables(5, 2, {(P, R)}) && AtRest(s1, 4) && s2.ops == s1.ops &&
            s2.db.tenants == s1.db.tenants && s2.db.principals == s1.db.principals &&
            FlatSlugs(s1.db, T, P) == {"doc:read"} && FlatSlugs(s2.db, T, P) == {} &&
            ModelOf(s1.db, T) != ModelOf(s2.db, T)
  {
    hide Run, Founding, Call, Alone, AtRest, ModelOf, FlatSlugs, Inv;
    var before := Founding() + Call(3, GiveRole, "");
    var s := Run(Initial, Founding());
    FoundingReaches();
    RoleIsGiven();
    ACallMovesOn(s, 3, GiveRole, "", Tables(5, 2, {(P, R)}));
    RunConcat(Initial, Founding(), Call(3, GiveRole, ""));
    var s1, e := Run(Initial, before), RemovePermission(T, Q);
    RunOneMore(Initial, before, e);
    InitialIsSound();
    EveryRunKeepsInv(Initial, before);
    DeletionsAdvanceNoVersion(s1, T, Q, P);
    FlatSetsOfTables(5, 2);
    assert Permission(T, "doc", "read", None).Slug() == "doc:read";
  }

  lemma InitialIsSound()
    ensures Inv(Initial)
  {
  }

  lemma RoleIsGiven()
    ensures Alone(Tables(4, 1, {}), T, GiveRole, "", false) ==
            (Tables(5, 2, {(P, R)}), Op(GiveRole, Done, NoDebt, NoDebt))
  {
    RoleAssignmentAlone(Tables(4, 1, {}), T, P, R, "", false);
    RoleIsLinked(4, 1);
    VersionsOfTables(4, 1, {(P, R)});
    hide Alone, IncrementPolicyVersion, IncrementPrincipalVersion, InsertPrincipalRole;
  }
}
