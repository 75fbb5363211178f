/** The write model as an interleaving of service calls. Each call is a short
    program whose steps are the atomic SQL statements; any number of calls may be
    between two steps at once. */
module Machine {
  import opened Outcomes
  import opened PolicyEngine
  import opened Store

  /** What a caller asks of AccessControlService or PolicyRegistryService. */
  datatype Call =
    | CreateRole(name: string)
    | CreatePermission(resource: string, action: string, specificity: Option<string>)
    | CreatePolicy(policyName: string, required: seq<string>, strategy: MatchStrategy)
    | AssignPermissionToRole(role: Id, permission: Id)
    | AssignRoleToPrincipal(principal: Id, roleOf: Id)

  datatype Answer = Awaited | Found | Missing

  /** Where a call stands. The two lookups of an assignment run concurrently, and so
      do the two counter increments of a role assignment. */
  datatype Stage =
    | Checking(first: Answer, second: Answer)
    | Rechecking
    | Writing
    | Bumping
    | Done
    | Failed(error: Error)

  /** A counter increment a call has yet to make: not before its write, lost when
      the call crashed or the increment itself failed. */
  datatype Debt = NoDebt | Due | Lost

  datatype Op = Op(call: Call, stage: Stage, policyDebt: Debt, principalDebt: Debt)

  datatype OpId = OpId(tenant: Id, serial: nat)

  datatype Action =
    | LookupFirst | LookupSecond | Recheck
    | Insert(id: Id) | Link
    | BumpPolicy | BumpPrincipal
    | Crash

  datatype Event =
    | RegisterTenant(id: Id, slug: string, publicKey: string)
    | RotateKey(tenant: Id)
    | CreatePrincipal(tenant: Id, id: Id, externalId: string)
    | Invoke(op: OpId, call: Call)
    | Step(op: OpId, action: Action)
    | RemoveTenant(tenant: Id)
    | RemovePrincipal(tenant: Id, id: Id)
    | RemoveRole(tenant: Id, id: Id)
    | RemovePermission(tenant: Id, id: Id)
    | RemovePolicy(tenant: Id, id: Id)

  /** One entry of the history of completed writes. */
  datatype Written = ModelWrite(tenant: Id) | RoleAssigned(principal: Id)

  /** The database, the calls in flight or finished, the ids handed out so far, and
      the history of completed writes. */
  datatype State = State(db: Db, ops: map<OpId, Op>, issued: set<Id>, log: multiset<Written>)

  const Initial := State(EmptyDb, map[], {}, multiset{})

  // ---------------------------------------------------------------------------
  // One step of one call
  // ---------------------------------------------------------------------------

  predicate Assigns(call: Call) {
    call.AssignPermissionToRole? || call.AssignRoleToPrincipal?
  }

  function FirstStage(call: Call): Stage {
    if Assigns(call) then Checking(Awaited, Awaited) else Writing
  }

  function Ask(found: bool): Answer {
    if found then Found else Missing
  }

  function FirstAnswer(db: Db, t: Id, call: Call): Answer
    requires Assigns(call)
  {
    match call
    case AssignPermissionToRole(r, _) => Ask(HasRole(db, t, r))
    case AssignRoleToPrincipal(p, _) => Ask(HasPrincipal(db, t, p))
  }

  function SecondAnswer(db: Db, t: Id, call: Call): Answer
    requires Assigns(call)
  {
    match call
    case AssignPermissionToRole(_, q) => Ask(HasPermission(db, t, q))
    case AssignRoleToPrincipal(_, r) => Ask(HasRole(db, t, r))
  }

  /** The continuation once both lookups have settled. */
  function AfterLookups(call: Call, first: Answer, second: Answer): Stage {
    if first.Awaited? || second.Awaited? then Checking(first, second)
    else if first.Missing? || second.Missing? then Failed(NotFound)
    else if call.AssignPermissionToRole? then Rechecking
    else Writing
  }

  function InsertFor(db: Db, t: Id, call: Call, id: Id): Result<Db, Error>
    requires !Assigns(call)
  {
    match call
    case CreateRole(name) => InsertRole(db, t, id, name)
    case CreatePermission(resource, action, specificity) => InsertPermission(db, t, id, resource, action, specificity)
    case CreatePolicy(name, required, strategy) => InsertPolicy(db, t, id, name, required, strategy, CURRENT_CONTEXT_VERSION)
  }

  function LinkFor(db: Db, t: Id, call: Call): Result<Db, Error>
    requires Assigns(call)
  {
    match call
    case AssignPermissionToRole(r, q) => InsertRolePermission(db, r, q)
    case AssignRoleToPrincipal(p, r) => Ok(InsertPrincipalRole(db, t, p, r))
  }

  /** The write settled: on success the increments fall due. */
  function AfterWrite(db: Db, op: Op, written: Result<Db, Error>): (Db, Op) {
    match written
    case Err(e) => (db, op.(stage := Failed(e)))
    case Ok(db') =>
      (db', op.(stage := Bumping, policyDebt := Due,
                principalDebt := if op.call.AssignRoleToPrincipal? then Due else NoDebt))
  }

  /** Done once nothing is due any more, unless an increment failed. */
  function Settled(op: Op): Op {
    if op.stage.Bumping? && !op.policyDebt.Due? && !op.principalDebt.Due? then op.(stage := Done) else op
  }

  /** A call that already failed keeps its first error. */
  function FailedWith(stage: Stage, e: Error): Stage {
    if stage.Failed? then stage else Failed(e)
  }

  function AfterPolicyBump(db: Db, op: Op, bumped: Result<Db, Error>): (Db, Op) {
    match bumped
    case Err(e) => (db, op.(stage := FailedWith(op.stage, e), policyDebt := Lost))
    case Ok(db') => (db', Settled(op.(policyDebt := NoDebt)))
  }

  function AfterPrincipalBump(db: Db, op: Op, bumped: Result<Db, Error>): (Db, Op) {
    match bumped
    case Err(e) => (db, op.(stage := FailedWith(op.stage, e), principalDebt := Lost))
    case Ok(db') => (db', Settled(op.(principalDebt := NoDebt)))
  }

  function Abandon(debt: Debt): Debt {
    if debt.Due? then Lost else debt
  }

  /** One step of a call of tenant t; a step the call is not ready for does nothing. */
  function StepOp(db: Db, t: Id, op: Op, a: Action): (Db, Op) {
    match a
    case LookupFirst =>
      if Assigns(op.call) && op.stage.Checking? && op.stage.first.Awaited?
      then (db, op.(stage := AfterLookups(op.call, FirstAnswer(db, t, op.call), op.stage.second)))
      else (db, op)
    case LookupSecond =>
      if Assigns(op.call) && op.stage.Checking? && op.stage.second.Awaited?
      then (db, op.(stage := AfterLookups(op.call, op.stage.first, SecondAnswer(db, t, op.call))))
      else (db, op)
    case Recheck =>
      if op.call.AssignPermissionToRole? && op.stage.Rechecking?
      then (db, op.(stage := if HasRole(db, t, op.call.role) then Writing else Failed(RowNotFound)))
      else (db, op)
    case Insert(id) =>
      if !Assigns(op.call) && op.stage.Writing? then AfterWrite(db, op, InsertFor(db, t, op.call, id)) else (db, op)
    case Link =>
      if Assigns(op.call) && op.stage.Writing? then AfterWrite(db, op, LinkFor(db, t, op.call)) else (db, op)
    case BumpPolicy =>
      if op.policyDebt.Due? then AfterPolicyBump(db, op, IncrementPolicyVersion(db, t)) else (db, op)
    case BumpPrincipal =>
      if op.call.AssignRoleToPrincipal? && op.principalDebt.Due?
      then AfterPrincipalBump(db, op, IncrementPrincipalVersion(db, t, op.call.principal)) else (db, op)
    case Crash =>
      if op.stage.Done? || (op.stage.Failed? && !op.policyDebt.Due? && !op.principalDebt.Due?) then (db, op)
      else (db, op.(stage := FailedWith(op.stage, Crashed),
                    policyDebt := Abandon(op.policyDebt), principalDebt := Abandon(op.principalDebt)))
  }

  // ---------------------------------------------------------------------------
  // The whole system
  // ---------------------------------------------------------------------------

  /** The step is the call's write and the statement succeeds. */
  predicate Commits(db: Db, t: Id, op: Op, a: Action) {
    op.stage.Writing? &&
    ((a.Insert? && !Assigns(op.call) && InsertFor(db, t, op.call, a.id).Ok?) ||
     (a.Link? && Assigns(op.call) && LinkFor(db, t, op.call).Ok?))
  }

  function Records(t: Id, call: Call): multiset<Written> {
    multiset{ModelWrite(t)} +
    if call.AssignRoleToPrincipal? then multiset{RoleAssigned(call.principal)} else multiset{}
  }

  function NewIds(e: Event): set<Id> {
    match e
    case RegisterTenant(id, _, _) => {id}
    case CreatePrincipal(_, id, _) => {id}
    case Step(_, Insert(id)) => {id}
    case _ => {}
  }

  function Try(s: State, attempt: Result<Db, Error>): State {
    if attempt.Ok? then s.(db := attempt.value) else s
  }

  function ApplyStep(s: State, o: OpId, a: Action): State {
    if o !in s.ops then s
    else
      var op := s.ops[o];
      var (db', op') := StepOp(s.db, o.tenant, op, a);
      s.(db := db', ops := s.ops[o := op'],
         log := s.log + if Commits(s.db, o.tenant, op, a) then Records(o.tenant, op.call) else multiset{})
  }

  /** The effect of one event. The id generator never repeats itself, so an event
      that would hand out a used id does not happen. */
  function Apply(s: State, e: Event): State {
    if !(NewIds(e) !! s.issued) then s
    else
      var s' := s.(issued := s.issued + NewIds(e));
      match e
      case RegisterTenant(id, slug, key) => Try(s', InsertTenant(s.db, id, slug, key))
      case RotateKey(t) => Try(s', IncrementKeyVersion(s.db, t))
      case CreatePrincipal(t, id, externalId) => Try(s', InsertPrincipal(s.db, t, id, externalId))
      case Invoke(o, call) =>
        if o in s.ops then s' else s'.(ops := s.ops[o := Op(call, FirstStage(call), NoDebt, NoDebt)])
      case Step(o, a) => ApplyStep(s', o, a)
      case RemoveTenant(t) => s'.(db := DeleteTenant(s.db, t))
      case RemovePrincipal(t, p) => s'.(db := DeletePrincipal(s.db, t, p))
      case RemoveRole(t, r) => s'.(db := DeleteRole(s.db, t, r))
      case RemovePermission(t, q) => s'.(db := DeletePermission(s.db, t, q))
      case RemovePolicy(t, y) => s'.(db := DeletePolicy(s.db, t, y))
  }

  function Run(s: State, events: seq<Event>): State
    decreases |events|
  {
    if events == [] then s else Run(Apply(s, events[0]), events[1..])
  }

  /** What the services do; they delete nothing. */
  predicate ByServices(e: Event) {
    !e.RemoveTenant? && !e.RemovePrincipal? && !e.RemoveRole? && !e.RemovePermission? && !e.RemovePolicy?
  }

  lemma AStepActsAlone(s: State, o: OpId, a: Action)
    requires o in s.ops && NewIds(Step(o, a)) !! s.issued
    ensures var s' := Apply(s, Step(o, a));
            o in s'.ops && (s'.db, s'.ops[o]) == StepOp(s.db, o.tenant, s.ops[o], a) &&
            s'.ops == s.ops[o := s'.ops[o]] && s'.issued == s.issued + NewIds(Step(o, a))
  {
    hide StepOp;
  }

  lemma RunFirst(s: State, e: Event, rest: seq<Event>)
    ensures Run(s, [e] + rest) == Run(Apply(s, e), rest)
  {
    assert ([e] + rest)[1..] == rest;
  }

  lemma RunNothing(s: State)
    ensures Run(s, []) == s
  {
  }

  lemma {:induction false} RunConcat(s: State, a: seq<Event>, b: seq<Event>)
    ensures Run(s, a + b) == Run(Run(s, a), b)
    decreases |a|
  {
    if a == [] {
      assert a + b == b;
    } else {
      assert (a + b)[1..] == a[1..] + b;
      RunConcat(Apply(s, a[0]), a[1..], b);
    }
  }

  lemma RunOneMore(s: State, events: seq<Event>, e: Event)
    ensures Run(s, events + [e]) == Apply(Run(s, events), e)
  {
    hide Apply, Run;
    RunConcat(s, events, [e]);
    assert [e] == [e] + [];
    RunFirst(Run(s, events), e, []);
    RunNothing(Apply(Run(s, events), e));
  }
}
