/** Conservation of the version counters over every interleaving: a counter and
    the increments still owed to it add up to the writes it stands for. */
module Counters {
  import opened Store
  import opened Machine
  import opened Tenancy

  /** Calls that wrote for tenant t and have not incremented its policy version. */
  ghost function PolicyDebtors(ops: map<OpId, Op>, t: Id): set<OpId> {
    set o | o in ops && o.tenant == t && !ops[o].policyDebt.NoDebt?
  }

  predicate OwesPrincipal(op: Op, p: Id) {
    op.call.AssignRoleToPrincipal? && op.call.principal == p && !op.principalDebt.NoDebt?
  }

  ghost function PrincipalDebtors(ops: map<OpId, Op>, p: Id): set<OpId> {
    set o | o in ops && OwesPrincipal(ops[o], p)
  }

  /** Nothing is owed before the write, and only role assignments owe a principal. */
  predicate DebtsFollowWrites(op: Op) {
    (op.stage.Checking? || op.stage.Rechecking? || op.stage.Writing? ==>
       op.policyDebt.NoDebt? && op.principalDebt.NoDebt?) &&
    (!op.call.AssignRoleToPrincipal? ==> op.principalDebt.NoDebt?) &&
    (Assigns(op.call) || !op.stage.Checking?)
  }

  ghost predicate PolicyBalanced(s: State, t: Id) {
    (t in s.db.tenants ==>
       s.db.tenants[t].policyVersion + |PolicyDebtors(s.ops, t)| == 1 + s.log[ModelWrite(t)]) &&
    (t !in s.issued ==> PolicyDebtors(s.ops, t) == {} && s.log[ModelWrite(t)] == 0)
  }

  ghost predicate PrincipalBalanced(s: State, p: Id) {
    (p in s.db.principals ==>
       s.db.principals[p].version + |PrincipalDebtors(s.ops, p)| == 1 + s.log[RoleAssigned(p)]) &&
    (p !in s.issued ==> PrincipalDebtors(s.ops, p) == {} && s.log[RoleAssigned(p)] == 0)
  }

  ghost predicate Accounted(s: State) {
    Inv(s) && forall o :: o in s.ops ==> DebtsFollowWrites(s.ops[o])
  }

  // ---------------------------------------------------------------------------
  // The account of one step
  // ---------------------------------------------------------------------------

  function One(b: bool): int {
    if b then 1 else 0
  }

  /** A step changes no tenant row but its own counter, and the counter, the debt
      and the completed write balance. */
  lemma StepPolicyAccount(db: Db, t: Id, op: Op, a: Action)
    requires DebtsFollowWrites(op)
    ensures var (db', op') := StepOp(db, t, op, a);
            DebtsFollowWrites(op') && db'.tenants.Keys == db.tenants.Keys &&
            (forall u :: u in db.tenants && u != t ==> db'.tenants[u] == db.tenants[u]) &&
            (t in db.tenants ==>
               db'.tenants[t].policyVersion + One(!op'.policyDebt.NoDebt?) ==
               db.tenants[t].policyVersion + One(!op.policyDebt.NoDebt?) + One(Commits(db, t, op, a))) &&
            (t !in db.tenants ==>
               One(!op'.policyDebt.NoDebt?) == One(!op.policyDebt.NoDebt?) + One(Commits(db, t, op, a)))
  {
    if a.Insert? && !Assigns(op.call) && op.stage.Writing? {
      InsertsTouchNoCounter(db, t, op.call, a.id);
    }
  }

  lemma InsertsTouchNoCounter(db: Db, t: Id, call: Call, id: Id)
    requires !Assigns(call)
    ensures var r := InsertFor(db, t, call, id);
            r.Ok? ==> r.value.tenants == db.tenants && r.value.principals == db.principals
  {
  }

  lemma StepPrincipalAccount(db: Db, t: Id, op: Op, a: Action, p: Id)
    requires DebtsFollowWrites(op)
    ensures var (db', op') := StepOp(db, t, op, a);
            var assigns := Commits(db, t, op, a) && op.call.AssignRoleToPrincipal? && op.call.principal == p;
            op'.call == op.call && db'.principals.Keys == db.principals.Keys &&
            (p in db.principals ==>
               db'.principals[p].version + One(OwesPrincipal(op', p)) ==
               db.principals[p].version + One(OwesPrincipal(op, p)) + One(assigns)) &&
            (p !in db.principals ==>
               One(OwesPrincipal(op', p)) == One(OwesPrincipal(op, p)) + One(assigns))
  {
    if a.Insert? && !Assigns(op.call) && op.stage.Writing? {
      InsertsTouchNoCounter(db, t, op.call, a.id);
    }
  }

  // ---------------------------------------------------------------------------
  // The account of the whole system
  // ---------------------------------------------------------------------------

  lemma ReplaceInCount(before: set<OpId>, after: set<OpId>, o: OpId)
    requires forall x :: x != o ==> (x in after <==> x in before)
    ensures |after| + One(o in before) == |before| + One(o in after)
  {
    assert before == (before - {o}) + if o in before then {o} else {};
    assert after == (before - {o}) + if o in after then {o} else {};
  }

  lemma PolicyDebtorCount(ops: map<OpId, Op>, o: OpId, op': Op, t: Id)
    requires o in ops
    ensures |PolicyDebtors(ops[o := op'], t)| ==
            |PolicyDebtors(ops, t)| +
            if o.tenant == t then One(!op'.policyDebt.NoDebt?) - One(!ops[o].policyDebt.NoDebt?) else 0
  {
    ReplaceInCount(PolicyDebtors(ops, t), PolicyDebtors(ops[o := op'], t), o);
  }

  lemma PrincipalDebtorCount(ops: map<OpId, Op>, o: OpId, op': Op, p: Id)
    requires o in ops
    ensures |PrincipalDebtors(ops[o := op'], p)| ==
            |PrincipalDebtors(ops, p)| + One(OwesPrincipal(op', p)) - One(OwesPrincipal(ops[o], p))
  {
    ReplaceInCount(PrincipalDebtors(ops, p), PrincipalDebtors(ops[o := op'], p), o);
  }

  lemma RecordCounts(t: Id, call: Call, x: Id)
    ensures Records(t, call)[ModelWrite(x)] == One(x == t)
    ensures Records(t, call)[RoleAssigned(x)] == One(call.AssignRoleToPrincipal? && call.principal == x)
  {
  }

  lemma StepRecords(s: State, o: OpId, a: Action)
    requires o in s.ops && (a.Insert? ==> a.id !in s.issued)
    ensures var s' := Apply(s, Step(o, a));
            var (db', op') := StepOp(s.db, o.tenant, s.ops[o], a);
            s'.db == db' && s'.ops == s.ops[o := op'] &&
            s'.issued == s.issued + (if a.Insert? then {a.id} else {}) &&
            s'.log == s.log +
              if Commits(s.db, o.tenant, s.ops[o], a) then Records(o.tenant, s.ops[o].call) else multiset{}
  {
    hide StepOp, Commits, Records;
    assert NewIds(Step(o, a)) == if a.Insert? then {a.id} else {};
  }

  lemma StepKeepsPolicyBalance(s: State, o: OpId, a: Action, t: Id)
    requires Accounted(s) && PolicyBalanced(s, t) && o in s.ops
    requires a.Insert? ==> a.id !in s.issued
    ensures PolicyBalanced(Apply(s, Step(o, a)), t)
  {
    hide Inv, StepOp, PolicyDebtors, Records, Commits;
    var s' := Apply(s, Step(o, a));
    StepRecords(s, o, a);
    hide Apply;
    StepPolicyAccount(s.db, o.tenant, s.ops[o], a);
    PolicyDebtorCount(s.ops, o, s'.ops[o], t);
    RecordCounts(o.tenant, s.ops[o].call, t);
    if t !in s'.issued && o.tenant == t {
      WritersAreIssued(s, o, a);
      CommittersWrote(s.db, o.tenant, s.ops[o], a);
    }
  }

  /** A completed write is where the increments fall due. */
  lemma CommittersWrote(db: Db, t: Id, op: Op, a: Action)
    ensures Commits(db, t, op, a) ==> Wrote(StepOp(db, t, op, a).1)
  {
  }

  /** Only a call of a known tenant, for a known principal, gets to write. */
  lemma WritersAreIssued(s: State, o: OpId, a: Action)
    requires Inv(s) && o in s.ops && (a.Insert? ==> a.id !in s.issued)
    ensures var op' := StepOp(s.db, o.tenant, s.ops[o], a).1;
            Wrote(op') ==> o.tenant in s.issued &&
                           (op'.call.AssignRoleToPrincipal? ==> op'.call.principal in s.issued)
  {
    hide StepOp, Safe, Integrity;
    StepIsSafe(s, o.tenant, s.ops[o], a, s.issued + if a.Insert? then {a.id} else {});
  }

  lemma StepKeepsPrincipalBalance(s: State, o: OpId, a: Action, p: Id)
    requires Accounted(s) && PrincipalBalanced(s, p) && o in s.ops
    requires a.Insert? ==> a.id !in s.issued
    ensures PrincipalBalanced(Apply(s, Step(o, a)), p)
  {
    hide Inv, StepOp, PrincipalDebtors, OwesPrincipal, Records, Commits;
    var s' := Apply(s, Step(o, a));
    StepRecords(s, o, a);
    hide Apply;
    StepPrincipalAccount(s.db, o.tenant, s.ops[o], a, p);
    PrincipalDebtorCount(s.ops, o, s'.ops[o], p);
    RecordCounts(o.tenant, s.ops[o].call, p);
    if p !in s'.issued {
      WritersAreIssued(s, o, a);
      CommittersWrote(s.db, o.tenant, s.ops[o], a);
      OwersWrote(s'.ops[o], p);
    }
  }

  lemma OwersWrote(op: Op, p: Id)
    ensures OwesPrincipal(op, p) ==> Wrote(op) && op.call.AssignRoleToPrincipal? && op.call.principal == p
  {
  }

  /** Apart from call steps, no event writes, owes or increments a counter. */
  lemma OtherEventsOweNothing(s: State, e: Event, x: Id)
    requires !e.Step?
    ensures Apply(s, e).log == s.log
    ensures PolicyDebtors(Apply(s, e).ops, x) == PolicyDebtors(s.ops, x)
    ensures PrincipalDebtors(Apply(s, e).ops, x) == PrincipalDebtors(s.ops, x)
  {
    hide InsertTenant, InsertPrincipal, IncrementKeyVersion, DeleteTenant, DeletePrincipal, DeleteRole,
         DeletePermission, DeletePolicy;
  }

  lemma OtherEventsKeepCounters(s: State, e: Event, x: Id)
    requires !e.Step? && NewIds(e) !! s.issued && KeysIssued(s.db, s.issued)
    ensures var s' := Apply(s, e);
            (x in s'.db.tenants ==>
               if x in s.issued
               then x in s.db.tenants && s'.db.tenants[x].policyVersion == s.db.tenants[x].policyVersion
               else s'.db.tenants[x].policyVersion == 1) &&
            (x in s'.db.principals ==>
               if x in s.issued
               then x in s.db.principals && s'.db.principals[x].version == s.db.principals[x].version
               else s'.db.principals[x].version == 1)
  {
    assert e.RegisterTenant? ==> e.id in NewIds(e);
    assert e.CreatePrincipal? ==> e.id in NewIds(e);
  }

  lemma OtherEventsKeepBalance(s: State, e: Event, x: Id)
    requires !e.Step? && NewIds(e) !! s.issued
    requires KeysIssued(s.db, s.issued) && PolicyBalanced(s, x) && PrincipalBalanced(s, x)
    ensures PolicyBalanced(Apply(s, e), x) && PrincipalBalanced(Apply(s, e), x)
  {
    OtherEventsOweNothing(s, e, x);
    OtherEventsKeepCounters(s, e, x);
    assert s.issued <= Apply(s, e).issued;
    hide Apply, PolicyDebtors, PrincipalDebtors;
  }

  lemma EventKeepsAccounts(s: State, e: Event, x: Id)
    requires Accounted(s) && PolicyBalanced(s, x) && PrincipalBalanced(s, x)
    ensures Accounted(Apply(s, e)) && PolicyBalanced(Apply(s, e), x) && PrincipalBalanced(Apply(s, e), x)
  {
    hide PolicyBalanced, PrincipalBalanced, Integrity, Knows, StepOp;
    EventKeepsInv(s, e);
    if NewIds(e) !! s.issued {
      if e.Step? {
        if e.op in s.ops {
          assert e.action.Insert? ==> e.action.id in NewIds(e);
          StepPolicyAccount(s.db, e.op.tenant, s.ops[e.op], e.action);
          StepKeepsPolicyBalance(s, e.op, e.action, x);
          StepKeepsPrincipalBalance(s, e.op, e.action, x);
        } else {
          IdleStepKeepsBalance(s, e, x);
        }
      } else {
        OtherEventsKeepBalance(s, e, x);
      }
    }
  }

  lemma IdleStepKeepsBalance(s: State, e: Event, x: Id)
    requires e.Step? && e.op !in s.ops && PolicyBalanced(s, x) && PrincipalBalanced(s, x)
    ensures PolicyBalanced(Apply(s, e), x) && PrincipalBalanced(Apply(s, e), x)
  {
    assert PolicyDebtors(Apply(s, e).ops, x) == PolicyDebtors(s.ops, x);
    assert PrincipalDebtors(Apply(s, e).ops, x) == PrincipalDebtors(s.ops, x);
  }

  lemma {:induction false} EveryRunKeepsAccounts(s: State, events: seq<Event>, x: Id)
    requires Accounted(s) && PolicyBalanced(s, x) && PrincipalBalanced(s, x)
    ensures var s' := Run(s, events);
            Accounted(s') && PolicyBalanced(s', x) && PrincipalBalanced(s', x)
    decreases |events|
  {
    hide Accounted, PolicyBalanced, PrincipalBalanced, Apply;
    if events == [] {
    } else {
      EventKeepsAccounts(s, events[0], x);
      EveryRunKeepsAccounts(Apply(s, events[0]), events[1..], x);
    }
  }

  /** In every reachable state each counter plus the increments owed to it is one
      more than the number of completed writes it stands for. */
  lemma CountersAreConserved(events: seq<Event>, t: Id, p: Id)
    ensures var s := Run(Initial, events);
            (t in s.db.tenants ==>
               s.db.tenants[t].policyVersion + |PolicyDebtors(s.ops, t)| == 1 + s.log[ModelWrite(t)]) &&
            (p in s.db.principals ==>
               s.db.principals[p].version + |PrincipalDebtors(s.ops, p)| == 1 + s.log[RoleAssigned(p)])
  {
    EveryRunKeepsAccounts(Initial, events, t);
    EveryRunKeepsAccounts(Initial, events, p);
  }

  // ---------------------------------------------------------------------------
  // What an answer says about the increments
  // ---------------------------------------------------------------------------

  /** A call that answered success owes nothing; one that is still incrementing owes
      something and has lost nothing; one that failed while incrementing lost something. */
  predicate AnswersHonestly(op: Op) {
    (op.stage.Done? ==> op.policyDebt.NoDebt? && op.principalDebt.NoDebt?) &&
    (op.stage.Bumping? ==> (op.policyDebt.Due? || op.principalDebt.Due?) &&
                           !op.policyDebt.Lost? && !op.principalDebt.Lost?) &&
    (op.stage.Failed? && (op.policyDebt.Due? || op.principalDebt.Due?) ==>
       op.policyDebt.Lost? || op.principalDebt.Lost?)
  }

  lemma StepsAnswerHonestly(db: Db, t: Id, op: Op, a: Action)
    requires AnswersHonestly(op) && DebtsFollowWrites(op)
    ensures AnswersHonestly(StepOp(db, t, op, a).1)
  {
    hide InsertFor, LinkFor, IncrementPolicyVersion, IncrementPrincipalVersion;
  }

  /** A call gets past its write in exactly the step whose statement succeeds. */
  lemma PastTheWriteIffCommitted(db: Db, t: Id, op: Op, a: Action)
    requires DebtsFollowWrites(op) && AnswersHonestly(op)
    ensures Wrote(StepOp(db, t, op, a).1) <==> Wrote(op) || Commits(db, t, op, a)
  {
    hide IncrementPolicyVersion, IncrementPrincipalVersion, InsertFor, LinkFor;
  }

  /** A crash is final: whatever the call was about to do, it does nothing more. */
  lemma CrashedCallsStop(db: Db, t: Id, op: Op, a: Action)
    requires DebtsFollowWrites(op) && AnswersHonestly(op)
    ensures var (db', op') := StepOp(db, t, op, Crash);
            db' == db && StepOp(db', t, op', a) == (db', op') &&
            (op'.stage.Done? <==> op.stage.Done?) && Wrote(op') == Wrote(op)
  {
  }

  ghost predicate AllAnswerHonestly(s: State) {
    forall o :: o in s.ops ==> AnswersHonestly(s.ops[o]) && DebtsFollowWrites(s.ops[o])
  }

  lemma EventsAnswerHonestly(s: State, e: Event)
    requires AllAnswerHonestly(s)
    ensures AllAnswerHonestly(Apply(s, e))
  {
    hide StepOp, AnswersHonestly, DebtsFollowWrites, InsertTenant, InsertPrincipal, IncrementKeyVersion,
         DeleteTenant, DeletePrincipal, DeleteRole, DeletePermission, DeletePolicy;
    if e.Step? && e.op in s.ops {
      StepsAnswerHonestly(s.db, e.op.tenant, s.ops[e.op], e.action);
      StepPolicyAccount(s.db, e.op.tenant, s.ops[e.op], e.action);
    } else if e.Invoke? {
      NewCallsAnswerHonestly(e.call);
    }
  }

  lemma NewCallsAnswerHonestly(call: Call)
    ensures AnswersHonestly(Op(call, FirstStage(call), NoDebt, NoDebt))
    ensures DebtsFollowWrites(Op(call, FirstStage(call), NoDebt, NoDebt))
  {
  }

  lemma {:induction false} RunsAnswerHonestly(s: State, events: seq<Event>)
    requires AllAnswerHonestly(s)
    ensures AllAnswerHonestly(Run(s, events))
    decreases |events|
  {
    if events == [] {
    } else {
      EventsAnswerHonestly(s, events[0]);
      hide AllAnswerHonestly, Apply;
      RunsAnswerHonestly(Apply(s, events[0]), events[1..]);
    }
  }

  /** In every reachable state a call past its write has made every increment it
      stands for exactly when it answered success. */
  lemma SuccessMeansEveryIncrement(events: seq<Event>, o: OpId)
    requires o in Run(Initial, events).ops && Wrote(Run(Initial, events).ops[o])
    ensures var op := Run(Initial, events).ops[o];
            op.stage.Done? <==> op.policyDebt.NoDebt? && op.principalDebt.NoDebt?
  {
    RunsAnswerHonestly(Initial, events);
    assert AnswersHonestly(Run(Initial, events).ops[o]);
    hide Run;
  }

  // ---------------------------------------------------------------------------
  // When increments are lost
  // ---------------------------------------------------------------------------

  predicate IsCrash(e: Event) {
    e.Step? && e.action.Crash?
  }

  /** Without crashes only an exhausted column loses an increment. */
  ghost predicate LostOnlyAtLimit(s: State, t: Id) {
    forall o :: o in s.ops && o.tenant == t && s.ops[o].policyDebt.Lost? ==>
      t in s.issued && (t in s.db.tenants ==> s.db.tenants[t].policyVersion >= MAX_INTEGER)
  }

  lemma StepLosesOnlyAtLimit(db: Db, t: Id, op: Op, a: Action)
    requires !a.Crash?
    ensures StepOp(db, t, op, a).1.policyDebt.Lost? && !op.policyDebt.Lost? ==>
              op.policyDebt.Due? && StepOp(db, t, op, a).0 == db &&
              (t in db.tenants ==> db.tenants[t].policyVersion >= MAX_INTEGER)
  {
    hide InsertFor, LinkFor, IncrementPrincipalVersion;
  }

  lemma StepVersionsDoNotShrink(db: Db, u: Id, op: Op, a: Action, t: Id)
    ensures var db' := StepOp(db, u, op, a).0;
            db'.tenants.Keys == db.tenants.Keys &&
            (t in db.tenants ==> db.tenants[t].policyVersion <= db'.tenants[t].policyVersion)
  {
    hide RoleNameTaken, PermissionSlugTaken, PolicyNameTaken;
  }

  lemma VersionsDoNotShrink(s: State, e: Event, t: Id)
    requires KeysIssued(s.db, s.issued) && t in s.issued
    ensures t in Apply(s, e).db.tenants ==>
              t in s.db.tenants && s.db.tenants[t].policyVersion <= Apply(s, e).db.tenants[t].policyVersion
  {
    if NewIds(e) !! s.issued {
      if e.Step? {
        if e.op in s.ops {
          StepVersionsDoNotShrink(s.db, e.op.tenant, s.ops[e.op], e.action, t);
          hide StepOp;
        }
      } else {
        OtherEventsKeepCounters(s, e, t);
        hide Apply;
      }
    }
  }

  lemma EventLosesOnlyAtLimit(s: State, e: Event, t: Id)
    requires Accounted(s) && LostOnlyAtLimit(s, t) && !IsCrash(e)
    ensures LostOnlyAtLimit(Apply(s, e), t)
  {
    hide StepOp, DebtsFollowWrites, Knows, Integrity, InsertTenant, InsertPrincipal, IncrementKeyVersion, DeleteTenant,
         DeletePrincipal, DeleteRole, DeletePermission, DeletePolicy;
    var s' := Apply(s, e);
    forall o | o in s'.ops && o.tenant == t && s'.ops[o].policyDebt.Lost?
      ensures t in s'.issued && (t in s'.db.tenants ==> s'.db.tenants[t].policyVersion >= MAX_INTEGER)
    {
      if o in s.ops && s.ops[o].policyDebt.Lost? {
        VersionsDoNotShrink(s, e, t);
      } else {
        StepLosesOnlyAtLimit(s.db, t, s.ops[o], e.action);
        DebtorsAreKnown(s, o);
      }
    }
  }

  lemma DebtorsAreKnown(s: State, o: OpId)
    requires Inv(s) && o in s.ops && s.ops[o].policyDebt.Due?
    ensures o.tenant in s.issued
  {
    hide Integrity;
    assert Knows(s, o.tenant, s.ops[o]);
  }

  lemma {:induction false} RunLosesOnlyAtLimit(s: State, events: seq<Event>, t: Id)
    requires Accounted(s) && PolicyBalanced(s, t) && PrincipalBalanced(s, t) && LostOnlyAtLimit(s, t)
    requires forall e :: e in events ==> !IsCrash(e)
    ensures LostOnlyAtLimit(Run(s, events), t)
    decreases |events|
  {
    hide Accounted, PolicyBalanced, PrincipalBalanced, LostOnlyAtLimit, Apply, IsCrash;
    if events == [] {
    } else {
      assert events[0] in events && forall e :: e in events[1..] ==> e in events;
      EventKeepsAccounts(s, events[0], t);
      EventLosesOnlyAtLimit(s, events[0], t);
      RunLosesOnlyAtLimit(Apply(s, events[0]), events[1..], t);
    }
  }

  /** No call of the tenant has its increment still to make. */
  ghost predicate Quiescent(s: State, t: Id) {
    forall o :: o in s.ops && o.tenant == t ==> !s.ops[o].policyDebt.Due?
  }

  /** Without crashes, and below the limit of the column, being owed nothing is being
      at rest. */
  lemma QuiescentIffNothingOwed(events: seq<Event>, t: Id)
    requires forall e :: e in events ==> !IsCrash(e)
    requires var db := Run(Initial, events).db;
             t in db.tenants && db.tenants[t].policyVersion < MAX_INTEGER
    ensures Quiescent(Run(Initial, events), t) <==> PolicyDebtors(Run(Initial, events).ops, t) == {}
  {
    RunLosesOnlyAtLimit(Initial, events, t);
    var s := Run(Initial, events);
    assert forall o :: o in s.ops && o.tenant == t ==> !s.ops[o].policyDebt.Lost?;
    hide Run;
    if PolicyDebtors(s.ops, t) == {} {
      forall o | o in s.ops && o.tenant == t ensures !s.ops[o].policyDebt.Due? {
        assert o !in PolicyDebtors(s.ops, t);
      }
    }
  }

  // ---------------------------------------------------------------------------
  // Key versions
  // ---------------------------------------------------------------------------

  function Rotations(events: seq<Event>, t: Id): nat {
    if events == [] then 0 else One(events[0] == RotateKey(t)) + Rotations(events[1..], t)
  }

  /** A key version counts rotations and nothing else, up to the column's limit;
      no run changes a tenant's key or slug. */
  lemma {:induction false} KeyVersionCountsRotations(s: State, events: seq<Event>, t: Id)
    requires t in s.db.tenants && s.db.tenants[t].keyVersion <= MAX_INTEGER
    requires RemoveTenant(t) !in events
    ensures t in Run(s, events).db.tenants
    ensures var before, now := s.db.tenants[t], Run(s, events).db.tenants[t];
            now.slug == before.slug && now.publicKey == before.publicKey &&
            now.keyVersion == if before.keyVersion + Rotations(events, t) <= MAX_INTEGER
                              then before.keyVersion + Rotations(events, t) else MAX_INTEGER
    decreases |events|
  {
    if events == [] {
    } else {
      assert RemoveTenant(t) !in events[1..];
      EventCountsRotation(s, events[0], t);
      hide Apply;
      KeyVersionCountsRotations(Apply(s, events[0]), events[1..], t);
    }
  }

  lemma EventCountsRotation(s: State, e: Event, t: Id)
    requires t in s.db.tenants && e != RemoveTenant(t)
    ensures t in Apply(s, e).db.tenants
    ensures var before, now := s.db.tenants[t], Apply(s, e).db.tenants[t];
            now == before.(policyVersion := now.policyVersion,
                           keyVersion := if e == RotateKey(t) && before.keyVersion < MAX_INTEGER
                                         then before.keyVersion + 1 else before.keyVersion)
  {
    hide StepOp, SlugTaken, ExternalIdTaken;
    if e.Step? && e.op in s.ops {
      StepKeepsKeys(s.db, e.op.tenant, s.ops[e.op], e.action, t);
    }
  }

  lemma StepKeepsKeys(db: Db, u: Id, op: Op, a: Action, t: Id)
    requires t in db.tenants
    ensures var db' := StepOp(db, u, op, a).0;
            t in db'.tenants && db'.tenants[t] == db.tenants[t].(policyVersion := db'.tenants[t].policyVersion)
  {
    hide RoleNameTaken, PermissionSlugTaken, PolicyNameTaken;
  }
}
