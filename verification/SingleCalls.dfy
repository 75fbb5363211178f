/** A service call that runs with nothing in between, as one run of the
    interleaved system. */
module SingleCalls {
  import opened Outcomes
  import opened Store
  import opened Machine

  /** A call run alone, step after step; steps it does not need do nothing. The
      increments of a role assignment are started together, so either may settle first. */
  function Alone(db: Db, t: Id, call: Call, id: Id, principalFirst: bool): (Db, Op) {
    var (db', op) := AloneUpToWrite(db, t, call);
    AloneFromWrite(db', t, op, id, principalFirst)
  }

  function AloneUpToWrite(db: Db, t: Id, call: Call): (Db, Op) {
    var (db1, op1) := StepOp(db, t, Op(call, FirstStage(call), NoDebt, NoDebt), LookupFirst);
    var (db2, op2) := StepOp(db1, t, op1, LookupSecond);
    StepOp(db2, t, op2, Recheck)
  }

  function AloneFromWrite(db: Db, t: Id, op: Op, id: Id, principalFirst: bool): (Db, Op) {
    var (db1, op1) := StepOp(db, t, op, Write(op.call, id));
    var (db2, op2) := StepOp(db1, t, op1, if principalFirst then BumpPrincipal else BumpPolicy);
    StepOp(db2, t, op2, if principalFirst then BumpPolicy else BumpPrincipal)
  }

  /** Only a creation draws an id. */
  function Write(call: Call, id: Id): Action {
    if Assigns(call) then Link else Insert(id)
  }

  function Checks(o: OpId, call: Call): seq<Event> {
    [Invoke(o, call), Step(o, LookupFirst), Step(o, LookupSecond), Step(o, Recheck)]
  }

  function Writes(o: OpId, call: Call, id: Id, principalFirst: bool): seq<Event> {
    [Step(o, Write(call, id)),
     Step(o, if principalFirst then BumpPrincipal else BumpPolicy),
     Step(o, if principalFirst then BumpPolicy else BumpPrincipal)]
  }

  /** The events of a call that runs alone. */
  function Calling(o: OpId, call: Call, id: Id, principalFirst: bool): seq<Event> {
    Checks(o, call) + Writes(o, call, id, principalFirst)
  }

  lemma RunOfThree(s: State, a: Event, b: Event, c: Event)
    ensures Run(s, [a, b, c]) == Apply(Apply(Apply(s, a), b), c)
  {
    hide Apply;
    assert [a, b, c] == [a] + ([b] + ([c] + []));
    RunFirst(s, a, [b] + ([c] + []));
    RunFirst(Apply(s, a), b, [c] + []);
    RunFirst(Apply(Apply(s, a), b), c, []);
  }

  lemma ChecksRunAlone(s: State, o: OpId, call: Call)
    requires o !in s.ops
    ensures var s' := Run(s, Checks(o, call));
            o in s'.ops && (s'.db, s'.ops[o]) == AloneUpToWrite(s.db, o.tenant, call) &&
            s'.ops == s.ops[o := s'.ops[o]] && s'.issued == s.issued && s'.ops[o].call == call
  {
    hide StepOp, Run;
    var s0 := Apply(s, Invoke(o, call));
    assert Checks(o, call) == [Invoke(o, call)] + Checks(o, call)[1..];
    RunFirst(s, Invoke(o, call), Checks(o, call)[1..]);
    RunOfThree(s0, Step(o, LookupFirst), Step(o, LookupSecond), Step(o, Recheck));
    hide Apply;
    AStepActsAlone(s0, o, LookupFirst);
    var s1 := Apply(s0, Step(o, LookupFirst));
    AStepActsAlone(s1, o, LookupSecond);
    AStepActsAlone(Apply(s1, Step(o, LookupSecond)), o, Recheck);
    StepsKeepTheCall(s0.db, o.tenant, s0.ops[o], LookupFirst);
    StepsKeepTheCall(s1.db, o.tenant, s1.ops[o], LookupSecond);
    var s2 := Apply(s1, Step(o, LookupSecond));
    StepsKeepTheCall(s2.db, o.tenant, s2.ops[o], Recheck);
  }

  lemma StepsKeepTheCall(db: Db, t: Id, op: Op, a: Action)
    ensures StepOp(db, t, op, a).1.call == op.call
  {
    hide InsertFor, LinkFor, IncrementPolicyVersion, IncrementPrincipalVersion;
  }

  lemma WritesRunAlone(s: State, o: OpId, id: Id, principalFirst: bool)
    requires o in s.ops && (Assigns(s.ops[o].call) || id !in s.issued)
    ensures var call := s.ops[o].call;
            var s' := Run(s, Writes(o, call, id, principalFirst));
            o in s'.ops && (s'.db, s'.ops[o]) == AloneFromWrite(s.db, o.tenant, s.ops[o], id, principalFirst) &&
            s'.ops == s.ops[o := s'.ops[o]] && s'.issued == s.issued + if Assigns(call) then {} else {id}
  {
    hide StepOp, Run, Apply;
    var write := Write(s.ops[o].call, id);
    var first := if principalFirst then BumpPrincipal else BumpPolicy;
    var second := if principalFirst then BumpPolicy else BumpPrincipal;
    RunOfThree(s, Step(o, write), Step(o, first), Step(o, second));
    AStepActsAlone(s, o, write);
    var s1 := Apply(s, Step(o, write));
    AStepActsAlone(s1, o, first);
    AStepActsAlone(Apply(s1, Step(o, first)), o, second);
  }

  /** Running a call alone is one run of the interleaved system. */
  lemma AloneIsARun(s: State, o: OpId, call: Call, id: Id, principalFirst: bool)
    requires o !in s.ops && (Assigns(call) || id !in s.issued)
    ensures var s' := Run(s, Calling(o, call, id, principalFirst));
            o in s'.ops && (s'.db, s'.ops[o]) == Alone(s.db, o.tenant, call, id, principalFirst) &&
            s'.ops == s.ops[o := s'.ops[o]] && s'.issued == s.issued + if Assigns(call) then {} else {id}
  {
    hide StepOp, Run, Apply;
    ChecksRunAlone(s, o, call);
    WritesRunAlone(Run(s, Checks(o, call)), o, id, principalFirst);
    RunConcat(s, Checks(o, call), Writes(o, call, id, principalFirst));
  }

  /** The two lookups of an assignment may settle in either order. */
  lemma LookupsSettleInAnyOrder(db: Db, t: Id, op: Op)
    requires Assigns(op.call) && op.stage == Checking(Awaited, Awaited)
    ensures var (_, op1) := StepOp(db, t, op, LookupFirst);
            var (_, op2) := StepOp(db, t, op, LookupSecond);
            StepOp(db, t, op1, LookupSecond) == StepOp(db, t, op2, LookupFirst) &&
            StepOp(db, t, op1, LookupSecond).0 == db
  {
  }

  /** A role that was seen and is gone again stops the assignment before its write. */
  lemma RecheckRefuses(db: Db, t: Id, op: Op)
    requires op.call.AssignPermissionToRole? && op.stage.Rechecking?
    ensures var (db', op') := StepOp(db, t, op, Recheck);
            db' == db && op' == op.(stage := op'.stage) &&
            op'.stage == if op.call.role in db.roles && db.roles[op.call.role].tenant == t then Writing
                         else Failed(RowNotFound)
  {
  }

  // ---------------------------------------------------------------------------
  // What a call alone comes to
  // ---------------------------------------------------------------------------

  function FirstFailure(first: Result<Db, Error>, second: Result<Db, Error>): Stage {
    if first.Err? then Failed(first.error) else if second.Err? then Failed(second.error) else Done
  }

  function Remaining(increment: Result<Db, Error>): Debt {
    if increment.Ok? then NoDebt else Lost
  }

  /** The tables and the call after its write, with one increment to make. */
  function WithIncrement(call: Call, t: Id, written: Db): (Db, Op) {
    var v := IncrementPolicyVersion(written, t);
    (if v.Ok? then v.value else written, Op(call, FirstFailure(v, v), Remaining(v), NoDebt))
  }

  lemma CreationAlone(db: Db, t: Id, call: Call, id: Id, principalFirst: bool)
    requires !Assigns(call)
    ensures Alone(db, t, call, id, principalFirst) ==
            match InsertFor(db, t, call, id)
            case Err(e) => (db, Op(call, Failed(e), NoDebt, NoDebt))
            case Ok(written) => WithIncrement(call, t, written)
  {
    hide InsertFor;
  }

  /** The junction insert is not guarded by the tenant; the lookups before it are. */
  lemma PermissionAssignmentAlone(db: Db, t: Id, r: Id, q: Id, id: Id, principalFirst: bool)
    ensures var call := AssignPermissionToRole(r, q);
            Alone(db, t, call, id, principalFirst) ==
            if HasRole(db, t, r) && HasPermission(db, t, q)
            then WithIncrement(call, t, db.(rolePermissions := db.rolePermissions + {(r, q)}))
            else (db, Op(call, Failed(NotFound), NoDebt, NoDebt))
  {
  }

  /** Each increment goes through or fails on its own; the order they settle in
      shows only in which error is reported. */
  lemma RoleAssignmentAlone(db: Db, t: Id, p: Id, r: Id, id: Id, principalFirst: bool)
    ensures var (after, op) := Alone(db, t, AssignRoleToPrincipal(p, r), id, principalFirst);
            if HasPrincipal(db, t, p) && HasRole(db, t, r) then
              var linked := db.(principalRoles := db.principalRoles + {(p, r)});
              var v, w := IncrementPolicyVersion(linked, t), IncrementPrincipalVersion(linked, t, p);
              after == linked.(tenants := if v.Ok? then v.value.tenants else db.tenants,
                               principals := if w.Ok? then w.value.principals else db.principals) &&
              op == Op(AssignRoleToPrincipal(p, r),
                       if principalFirst then FirstFailure(w, v) else FirstFailure(v, w), Remaining(v), Remaining(w))
            else
              after == db && op == Op(AssignRoleToPrincipal(p, r), Failed(NotFound), NoDebt, NoDebt)
  {
  }

  /** The versions an assignment stands for advance together, or not at all, except
      when exactly one of the two columns is exhausted. */
  lemma VersionsAdvanceTogetherIff(db: Db, t: Id, p: Id, r: Id, id: Id, principalFirst: bool)
    requires t in db.tenants && p in db.principals
    ensures var after := Alone(db, t, AssignRoleToPrincipal(p, r), id, principalFirst).0;
            t in after.tenants && p in after.principals &&
            ((after.tenants[t].policyVersion == db.tenants[t].policyVersion + 1 <==>
              after.principals[p].version == db.principals[p].version + 1)
             <==>
             (HasPrincipal(db, t, p) && HasRole(db, t, r) ==>
                (db.tenants[t].policyVersion < MAX_INTEGER <==> db.principals[p].version < MAX_INTEGER)))
  {
    RoleAssignmentAlone(db, t, p, r, id, principalFirst);
    hide Alone;
  }
}
