/** Resolving a token to an identity through a shared key cache: any number of
    resolves interleaved at their awaits with key changes, cache deletes and expiry. */
module Identity {
  import opened Outcomes
  import opened Text
  import PermissionSlug
  import opened Store
  import opened Machine

  datatype KeyEntry = KeyEntry(publicKey: string, keyVersion: nat)

  datatype Claims = Claims(tenant: Id, principal: Id)

  datatype IdentityContext = IdentityContext(tenant: Id, principal: Id, keyVersion: nat, principalVersion: nat)

  datatype Denial =
    | MalformedToken | MissingTenantClaim | TenantNotFound | InvalidToken
    | TenantMismatch | PrincipalNotFound | Unavailable

  /** What the service is handed: the decoder of a payload segment (absent when it is
      not JSON, and then a tenantId claim that may be absent or not a string), the
      token validator at a given time, and the expected audience. */
  datatype Ports = Ports(payload: string -> Option<Option<string>>,
                         validate: (nat, string, string, string) -> Option<Claims>,
                         audience: string)

  function TenantKeyCacheKey(t: Id): string {
    "publicKey:" + t
  }

  lemma CacheKeysAreDistinct(t: Id, u: Id)
    requires TenantKeyCacheKey(t) == TenantKeyCacheKey(u)
    ensures t == u
  {
    assert t == TenantKeyCacheKey(t)[|"publicKey:"|..] == TenantKeyCacheKey(u)[|"publicKey:"|..] == u;
  }

  /** The tenant named by the unverified payload. */
  function DecodeTenant(ports: Ports, token: string): Result<Id, Denial> {
    var parts := Split(token, '.');
    if |parts| != 3 || parts[1] == "" then Err(MalformedToken)
    else
      match ports.payload(parts[1])
      case None => Err(MalformedToken)
      case Some(None) => Err(MissingTenantClaim)
      case Some(Some(t)) => if t == "" then Err(MissingTenantClaim) else Ok(t)
  }

  /** On three dot-free segments the payload segment alone decides. */
  lemma PayloadDecides(ports: Ports, header: string, payload: string, signature: string)
    requires '.' !in header && '.' !in payload && '.' !in signature && payload != ""
    ensures var outcome := DecodeTenant(ports, header + "." + payload + "." + signature);
            (ports.payload(payload) == None ==> outcome == Err(MalformedToken)) &&
            (ports.payload(payload) == Some(None) ==> outcome == Err(MissingTenantClaim)) &&
            (ports.payload(payload) == Some(Some("")) ==> outcome == Err(MissingTenantClaim)) &&
            (forall t :: t != "" && ports.payload(payload) == Some(Some(t)) ==> outcome == Ok(t))
  {
    ThreeSegmentsSplit(header, payload, signature);
  }

  lemma ThreeSegmentsSplit(header: string, payload: string, signature: string)
    requires '.' !in header && '.' !in payload && '.' !in signature
    ensures Split(header + "." + payload + "." + signature, '.') == [header, payload, signature]
  {
    assert header + "." + payload + "." + signature == header + ['.'] + (payload + ['.'] + signature);
    SplitOfPiece(signature, '.');
    SplitOfPrefixed(payload, signature, '.');
    SplitOfPrefixed(header, payload + ['.'] + signature, '.');
  }

  /** Three dot-free segments of which the second is not empty. */
  ghost predicate IsToken(token: string) {
    exists h, p, s :: '.' !in h && '.' !in p && '.' !in s && p != "" && token == h + "." + p + "." + s
  }

  /** Everything else is malformed, whatever the decoder would make of it. */
  lemma OtherTokensAreMalformed(ports: Ports, token: string)
    ensures !IsToken(token) ==> DecodeTenant(ports, token) == Err(MalformedToken)
  {
    var parts := Split(token, '.');
    if |parts| == 3 && parts[1] != "" {
      SplitPiecesAvoidSeparator(token, '.');
      JoinUndoesSplit(token, '.');
      JoinOfThree(parts[0], parts[1], parts[2], ".");
      assert parts == [parts[0], parts[1], parts[2]];
      assert IsToken(token);
    }
  }

  function RowOf(db: Db, t: Id): Option<KeyEntry> {
    if t in db.tenants then Some(KeyEntry(db.tenants[t].publicKey, db.tenants[t].keyVersion)) else None
  }

  // ---------------------------------------------------------------------------
  // One resolve, split at its awaits
  // ---------------------------------------------------------------------------

  type Cache = map<string, KeyEntry>

  datatype Phase =
    | AwaitCache(tenant: Id)
    | AwaitTenant(tenant: Id)
    | AwaitStore(tenant: Id, entry: KeyEntry)
    | AwaitValidation(tenant: Id, entry: KeyEntry)
    | AwaitPrincipal(tenant: Id, entry: KeyEntry, claims: Claims)
    | Resolved(context: IdentityContext)
    | Denied(why: Denial)

  datatype Session = Session(token: string, phase: Phase)

  datatype Await = CacheGet | TenantGet | CacheSet | Validate(now: nat) | PrincipalGet | Fail

  function Begun(ports: Ports, token: string): Session {
    Session(token, match DecodeTenant(ports, token) case Ok(t) => AwaitCache(t) case Err(e) => Denied(e))
  }

  /** One awaited operation settles; one the resolve is not waiting for does nothing. */
  function Settle(ports: Ports, db: Db, cache: Cache, s: Session, a: Await): (Cache, Session) {
    match (a, s.phase)
    case (CacheGet, AwaitCache(t)) =>
      var key := TenantKeyCacheKey(t);
      (cache, s.(phase := if key in cache then AwaitValidation(t, cache[key]) else AwaitTenant(t)))
    case (TenantGet, AwaitTenant(t)) =>
      (cache, s.(phase := match RowOf(db, t) case None => Denied(TenantNotFound) case Some(e) => AwaitStore(t, e)))
    case (CacheSet, AwaitStore(t, e)) =>
      (cache[TenantKeyCacheKey(t) := e], s.(phase := AwaitValidation(t, e)))
    case (Validate(now), AwaitValidation(t, e)) =>
      (cache, s.(phase := match ports.validate(now, s.token, e.publicKey, ports.audience)
                          case None => Denied(InvalidToken)
                          case Some(c) => if c.tenant != t then Denied(TenantMismatch) else AwaitPrincipal(t, e, c)))
    case (PrincipalGet, AwaitPrincipal(t, e, c)) =>
      (cache, s.(phase := if !HasPrincipal(db, t, c.principal) then Denied(PrincipalNotFound)
                          else Resolved(IdentityContext(c.tenant, c.principal, e.keyVersion,
                                                        db.principals[c.principal].version))))
    case (Fail, _) =>
      (cache, if s.phase.Resolved? || s.phase.Denied? then s else s.(phase := Denied(Unavailable)))
    case _ => (cache, s)
  }

  /** A resolve that failed denies, and does nothing more. */
  lemma FailedResolvesDeny(ports: Ports, db: Db, cache: Cache, s: Session, a: Await)
    ensures var (cache', s') := Settle(ports, db, cache, s, Fail);
            cache' == cache && (s.phase.Resolved? ==> s' == s) && (!s.phase.Resolved? ==> s'.phase.Denied?) &&
            Settle(ports, db, cache', s', a) == (cache', s')
  {
  }

  // ---------------------------------------------------------------------------
  // Resolves in parallel
  // ---------------------------------------------------------------------------

  datatype World = World(db: Db, cache: Cache, sessions: map<nat, Session>)

  datatype Happening =
    | Begin(session: nat, token: string)
    | Await(who: nat, what: Await)
    | Evict(key: string)
    | Change(db: Db)

  /** How the rest of the system may change the tables: tenants stay, and a key
      version never goes back. */
  ghost predicate KeysAdvance(db: Db, db': Db) {
    forall t :: t in db.tenants ==>
      t in db'.tenants && db.tenants[t].keyVersion <= db'.tenants[t].keyVersion
  }

  ghost function Happens(ports: Ports, w: World, h: Happening): World {
    match h
    case Begin(i, token) => if i in w.sessions then w else w.(sessions := w.sessions[i := Begun(ports, token)])
    case Await(i, a) =>
      if i !in w.sessions then w
      else
        var (cache', s') := Settle(ports, w.db, w.cache, w.sessions[i], a);
        w.(cache := cache', sessions := w.sessions[i := s'])
    case Evict(key) => w.(cache := w.cache - {key})
    case Change(db') => if KeysAdvance(w.db, db') then w.(db := db') else w
  }

  /** The world after the first happenings. */
  ghost function After(ports: Ports, start: World, hs: seq<Happening>): World {
    if hs == [] then start
    else Happens(ports, After(ports, start, hs[..|hs| - 1]), hs[|hs| - 1])
  }

  /** What the services do to the tables is such a change. */
  lemma ServicesAdvanceKeys(s: State, e: Event)
    requires ByServices(e)
    ensures KeysAdvance(s.db, Apply(s, e).db)
  {
    hide SlugTaken, ExternalIdTaken, StepOp;
    if e.Step? && e.op in s.ops {
      StepsAdvanceKeys(s.db, e.op.tenant, s.ops[e.op], e.action);
    }
  }

  lemma StepsAdvanceKeys(db: Db, t: Id, op: Op, a: Action)
    ensures KeysAdvance(db, StepOp(db, t, op, a).0)
  {
    hide RoleNameTaken, PermissionSlugTaken, PolicyNameTaken, PermissionSlug.WellFormed;
  }

  // ---------------------------------------------------------------------------
  // Provenance
  // ---------------------------------------------------------------------------

  /** The pair was the tenant's row at one moment so far. */
  ghost predicate WasRow(ports: Ports, start: World, hs: seq<Happening>, t: Id, e: KeyEntry) {
    exists k :: 0 <= k <= |hs| &&
      var tenants := After(ports, start, hs[..k]).db.tenants;
      t in tenants && e == KeyEntry(tenants[t].publicKey, tenants[t].keyVersion)
  }

  ghost predicate WasValid(ports: Ports, token: string, e: KeyEntry, c: Claims) {
    exists now :: ports.validate(now, token, e.publicKey, ports.audience) == Some(c)
  }

  ghost predicate WasPrincipal(ports: Ports, start: World, hs: seq<Happening>, x: IdentityContext) {
    exists k :: 0 <= k <= |hs| &&
      var db := After(ports, start, hs[..k]).db;
      HasPrincipal(db, x.tenant, x.principal) && db.principals[x.principal].version == x.principalVersion
  }

  /** A resolved identity rests on one key row the tenant had, under which the token
      was valid for exactly the decoded tenant, and on a principal of that tenant. */
  ghost predicate Justified(ports: Ports, start: World, hs: seq<Happening>, token: string, x: IdentityContext) {
    DecodeTenant(ports, token) == Ok(x.tenant) &&
    (exists e: KeyEntry :: WasRow(ports, start, hs, x.tenant, e) && e.keyVersion == x.keyVersion &&
                           WasValid(ports, token, e, Claims(x.tenant, x.principal))) &&
    WasPrincipal(ports, start, hs, x)
  }

  ghost predicate Traced(ports: Ports, start: World, hs: seq<Happening>, s: Session) {
    match s.phase
    case AwaitCache(t) => DecodeTenant(ports, s.token) == Ok(t)
    case AwaitTenant(t) => DecodeTenant(ports, s.token) == Ok(t)
    case AwaitStore(t, e) => DecodeTenant(ports, s.token) == Ok(t) && WasRow(ports, start, hs, t, e)
    case AwaitValidation(t, e) => DecodeTenant(ports, s.token) == Ok(t) && WasRow(ports, start, hs, t, e)
    case AwaitPrincipal(t, e, c) =>
      DecodeTenant(ports, s.token) == Ok(t) && WasRow(ports, start, hs, t, e) &&
      c.tenant == t && WasValid(ports, s.token, e, c)
    case Resolved(x) => Justified(ports, start, hs, s.token, x)
    case Denied(_) => true
  }

  ghost predicate CacheTraced(ports: Ports, start: World, hs: seq<Happening>, cache: Cache) {
    forall t :: TenantKeyCacheKey(t) in cache ==> WasRow(ports, start, hs, t, cache[TenantKeyCacheKey(t)])
  }

  ghost predicate AllTraced(ports: Ports, start: World, hs: seq<Happening>) {
    var w := After(ports, start, hs);
    CacheTraced(ports, start, hs, w.cache) &&
    forall i :: i in w.sessions ==> Traced(ports, start, hs, w.sessions[i])
  }

  /** Moments stay moments of a longer history. */
  lemma MomentsStay(ports: Ports, start: World, hs: seq<Happening>, h: Happening, t: Id, e: KeyEntry, x: IdentityContext)
    ensures WasRow(ports, start, hs, t, e) ==> WasRow(ports, start, hs + [h], t, e)
    ensures WasPrincipal(ports, start, hs, x) ==> WasPrincipal(ports, start, hs + [h], x)
  {
    hide After;
    forall k | 0 <= k <= |hs| ensures (hs + [h])[..k] == hs[..k] {
    }
  }

  lemma NowIsAMoment(ports: Ports, start: World, hs: seq<Happening>, t: Id, x: IdentityContext)
    ensures var db := After(ports, start, hs).db;
            (RowOf(db, t).Some? ==> WasRow(ports, start, hs, t, RowOf(db, t).value)) &&
            (HasPrincipal(db, x.tenant, x.principal) && db.principals[x.principal].version == x.principalVersion ==>
               WasPrincipal(ports, start, hs, x))
  {
    hide After;
    assert hs[..|hs|] == hs;
  }

  lemma TraceStays(ports: Ports, start: World, hs: seq<Happening>, h: Happening, s: Session)
    requires Traced(ports, start, hs, s)
    ensures Traced(ports, start, hs + [h], s)
  {
    hide WasRow, WasPrincipal, WasValid, DecodeTenant;
    match s.phase
    case AwaitStore(t, e) => MomentsStay(ports, start, hs, h, t, e, IdentityContext(t, t, 0, 0));
    case AwaitValidation(t, e) => MomentsStay(ports, start, hs, h, t, e, IdentityContext(t, t, 0, 0));
    case AwaitPrincipal(t, e, _) => MomentsStay(ports, start, hs, h, t, e, IdentityContext(t, t, 0, 0));
    case Resolved(x) =>
      var e :| WasRow(ports, start, hs, x.tenant, e) && e.keyVersion == x.keyVersion &&
               WasValid(ports, s.token, e, Claims(x.tenant, x.principal));
      MomentsStay(ports, start, hs, h, x.tenant, e, x);
    case _ =>
  }

  lemma CacheTraceStays(ports: Ports, start: World, hs: seq<Happening>, h: Happening, cache: Cache)
    requires CacheTraced(ports, start, hs, cache)
    ensures CacheTraced(ports, start, hs + [h], cache)
  {
    hide WasRow;
    forall t | TenantKeyCacheKey(t) in cache
      ensures WasRow(ports, start, hs + [h], t, cache[TenantKeyCacheKey(t)])
    {
      MomentsStay(ports, start, hs, h, t, cache[TenantKeyCacheKey(t)], IdentityContext(t, t, 0, 0));
    }
  }

  /** Settling an await reads only traced things and writes only traced things. */
  lemma SettlingIsTraced(ports: Ports, start: World, hs: seq<Happening>, s: Session, a: Await)
    requires var w := After(ports, start, hs);
             CacheTraced(ports, start, hs, w.cache) && Traced(ports, start, hs, s)
    ensures var w := After(ports, start, hs);
            var (cache', s') := Settle(ports, w.db, w.cache, s, a);
            CacheTraced(ports, start, hs, cache') && Traced(ports, start, hs, s')
  {
    hide WasRow, WasPrincipal, DecodeTenant, After, RowOf, TenantKeyCacheKey;
    var w := After(ports, start, hs);
    match (a, s.phase)
    case (TenantGet, AwaitTenant(t)) => NowIsAMoment(ports, start, hs, t, IdentityContext(t, t, 0, 0));
    case (CacheSet, AwaitStore(t, e)) =>
      forall u | TenantKeyCacheKey(u) == TenantKeyCacheKey(t) ensures u == t {
        CacheKeysAreDistinct(u, t);
      }
    case (Validate(now), AwaitValidation(t, e)) =>
      var answer := ports.validate(now, s.token, e.publicKey, ports.audience);
      assert answer.Some? ==> WasValid(ports, s.token, e, answer.value);
    case (PrincipalGet, AwaitPrincipal(t, e, c)) =>
      if HasPrincipal(w.db, t, c.principal) {
        var x := IdentityContext(c.tenant, c.principal, e.keyVersion, w.db.principals[c.principal].version);
        NowIsAMoment(ports, start, hs, t, x);
        assert Claims(x.tenant, x.principal) == c;
      }
    case _ =>
  }

  lemma {:induction false} HappeningIsTraced(ports: Ports, start: World, hs: seq<Happening>, h: Happening)
    requires AllTraced(ports, start, hs)
    ensures AllTraced(ports, start, hs + [h])
  {
    hide Traced, CacheTraced, KeysAdvance, Settle, Begun;
    var w, all := After(ports, start, hs), hs + [h];
    assert all[..|all| - 1] == hs;
    var w' := After(ports, start, all);
    assert w' == Happens(ports, w, h);
    CacheTraceStays(ports, start, hs, h, w.cache);
    match h {
      case Begin(i, token) => BegunIsTraced(ports, start, all, token);
      case Await(i, a) =>
        if i in w.sessions {
          SettlingIsTraced(ports, start, hs, w.sessions[i], a);
          CacheTraceStays(ports, start, hs, h, w'.cache);
          TraceStays(ports, start, hs, h, w'.sessions[i]);
        }
      case Evict(key) => EvictingIsTraced(ports, start, all, w.cache, key);
      case Change(_) =>
    }
    forall i | i in w'.sessions ensures Traced(ports, start, all, w'.sessions[i]) {
      if i in w.sessions && w'.sessions[i] == w.sessions[i] {
        TraceStays(ports, start, hs, h, w.sessions[i]);
      }
    }
  }

  lemma BegunIsTraced(ports: Ports, start: World, hs: seq<Happening>, token: string)
    ensures Traced(ports, start, hs, Begun(ports, token))
  {
  }

  lemma EvictingIsTraced(ports: Ports, start: World, hs: seq<Happening>, cache: Cache, key: string)
    requires CacheTraced(ports, start, hs, cache)
    ensures CacheTraced(ports, start, hs, cache - {key})
  {
    hide WasRow;
  }

  lemma {:induction false} EveryHistoryIsTraced(ports: Ports, start: World, hs: seq<Happening>)
    requires start.cache == map[] && start.sessions == map[]
    ensures AllTraced(ports, start, hs)
    decreases |hs|
  {
    if hs == [] {
    } else {
      hide AllTraced;
      var front := hs[..|hs| - 1];
      assert hs == front + [hs[|hs| - 1]];
      EveryHistoryIsTraced(ports, start, front);
      HappeningIsTraced(ports, start, front, hs[|hs| - 1]);
    }
  }

  /** Every cached pair was the tenant's row at one earlier moment. */
  lemma {:induction false} CachedKeysWereRows(ports: Ports, start: World, hs: seq<Happening>, t: Id)
    requires start.cache == map[] && start.sessions == map[]
    requires TenantKeyCacheKey(t) in After(ports, start, hs).cache
    ensures WasRow(ports, start, hs, t, After(ports, start, hs).cache[TenantKeyCacheKey(t)])
  {
    EveryHistoryIsTraced(ports, start, hs);
  }

  /** Every resolved identity is justified by rows the tables really had. */
  lemma {:induction false} ResolvedIdentitiesAreJustified(ports: Ports, start: World, hs: seq<Happening>, i: nat)
    requires start.cache == map[] && start.sessions == map[]
    requires i in After(ports, start, hs).sessions && After(ports, start, hs).sessions[i].phase.Resolved?
    ensures var s := After(ports, start, hs).sessions[i];
            Justified(ports, start, hs, s.token, s.phase.context)
  {
    hide Justified;
    EveryHistoryIsTraced(ports, start, hs);
    assert Traced(ports, start, hs, After(ports, start, hs).sessions[i]);
  }

  lemma {:induction false} RowsOnlyAdvance(ports: Ports, start: World, hs: seq<Happening>, k: nat, t: Id)
    requires k <= |hs| && t in After(ports, start, hs[..k]).db.tenants
    ensures var before, now := After(ports, start, hs[..k]).db, After(ports, start, hs).db;
            t in now.tenants && before.tenants[t].keyVersion <= now.tenants[t].keyVersion
    decreases |hs|
  {
    if k == |hs| {
      assert hs[..k] == hs;
    } else {
      var front := hs[..|hs| - 1];
      assert front[..k] == hs[..k];
      RowsOnlyAdvance(ports, start, front, k, t);
      HappeningsAdvance(ports, After(ports, start, front), hs[|hs| - 1]);
    }
  }

  lemma HappeningsAdvance(ports: Ports, w: World, h: Happening)
    ensures KeysAdvance(w.db, Happens(ports, w, h).db)
  {
    hide Settle;
  }

  /** No cached key version is ahead of the stored one. */
  lemma CachedVersionsAreNotAhead(ports: Ports, start: World, hs: seq<Happening>, t: Id)
    requires start.cache == map[] && start.sessions == map[]
    requires TenantKeyCacheKey(t) in After(ports, start, hs).cache
    ensures var w := After(ports, start, hs);
            t in w.db.tenants &&
            w.cache[TenantKeyCacheKey(t)].keyVersion <= w.db.tenants[t].keyVersion
  {
    CachedKeysWereRows(ports, start, hs, t);
    var e := After(ports, start, hs).cache[TenantKeyCacheKey(t)];
    var k :| 0 <= k <= |hs| &&
             var tenants := After(ports, start, hs[..k]).db.tenants;
             t in tenants && e == KeyEntry(tenants[t].publicKey, tenants[t].keyVersion);
    RowsOnlyAdvance(ports, start, hs, k, t);
  }

  // ---------------------------------------------------------------------------
  // One resolve alone, against a resolve that never caches
  // ---------------------------------------------------------------------------

  /** A resolve with nothing in between: the cache it leaves and where it ends. */
  function ResolveAlone(ports: Ports, db: Db, cache: Cache, token: string, now: nat): (Cache, Session) {
    var (c1, s1) := Settle(ports, db, cache, Begun(ports, token), CacheGet);
    var (c2, s2) := Settle(ports, db, c1, s1, TenantGet);
    var (c3, s3) := Settle(ports, db, c2, s2, CacheSet);
    var (c4, s4) := Settle(ports, db, c3, s3, Validate(now));
    Settle(ports, db, c4, s4, PrincipalGet)
  }

  function Verdict(s: Session): Result<IdentityContext, Denial> {
    match s.phase
    case Resolved(x) => Ok(x)
    case Denied(e) => Err(e)
    case _ => Err(Unavailable)
  }

  /** What a key entry, once chosen, makes of the token. */
  function Judge(ports: Ports, db: Db, t: Id, e: KeyEntry, token: string, now: nat): Result<IdentityContext, Denial> {
    match ports.validate(now, token, e.publicKey, ports.audience)
    case None => Err(InvalidToken)
    case Some(c) =>
      if c.tenant != t then Err(TenantMismatch)
      else if !HasPrincipal(db, t, c.principal) then Err(PrincipalNotFound)
      else Ok(IdentityContext(t, c.principal, e.keyVersion, db.principals[c.principal].version))
  }

  /** Resolving straight from the tenant row. */
  function Uncached(ports: Ports, db: Db, token: string, now: nat): Result<IdentityContext, Denial> {
    match DecodeTenant(ports, token)
    case Err(e) => Err(e)
    case Ok(t) =>
      match RowOf(db, t)
      case None => Err(TenantNotFound)
      case Some(e) => Judge(ports, db, t, e, token, now)
  }

  lemma AloneJudges(ports: Ports, db: Db, cache: Cache, token: string, now: nat)
    ensures var key := (t: Id) => TenantKeyCacheKey(t);
            Verdict(ResolveAlone(ports, db, cache, token, now).1) ==
            match DecodeTenant(ports, token)
            case Err(e) => Err(e)
            case Ok(t) =>
              if key(t) in cache then Judge(ports, db, t, cache[key(t)], token, now)
              else Uncached(ports, db, token, now)
  {
    hide DecodeTenant, TenantKeyCacheKey, HasPrincipal;
  }

  /** A resolve fills its own tenant's missing entry from the row, and touches nothing else. */
  lemma AloneFillsOnlyItsEntry(ports: Ports, db: Db, cache: Cache, token: string, now: nat)
    ensures ResolveAlone(ports, db, cache, token, now).0 ==
            match DecodeTenant(ports, token)
            case Err(_) => cache
            case Ok(t) =>
              if TenantKeyCacheKey(t) in cache || RowOf(db, t).None? then cache
              else cache[TenantKeyCacheKey(t) := RowOf(db, t).value]
  {
    hide DecodeTenant, TenantKeyCacheKey, HasPrincipal;
  }

  /** Whether a tenant's cache entry, as it stands, can be told from the row. */
  ghost predicate Transparent(db: Db, cache: Cache, t: Id) {
    var key := TenantKeyCacheKey(t);
    key !in cache ||
    (t in db.tenants && cache[key].publicKey == db.tenants[t].publicKey &&
     (cache[key].keyVersion == db.tenants[t].keyVersion || forall p :: !HasPrincipal(db, t, p)))
  }

  lemma TransparentRefines(ports: Ports, db: Db, cache: Cache, t: Id, token: string, now: nat)
    requires DecodeTenant(ports, token) == Ok(t) && Transparent(db, cache, t)
    ensures Verdict(ResolveAlone(ports, db, cache, token, now).1) == Uncached(ports, db, token, now)
  {
    hide DecodeTenant, TenantKeyCacheKey, ResolveAlone;
    AloneJudges(ports, db, cache, token, now);
  }

  /** Ports under which the payload p alone decodes, to t, and validates only under one key. */
  ghost function Witness(t: Id, publicKey: string, claims: Claims): Ports {
    Ports((s: string) => if s == "p" then Some(Some(t)) else None,
          (now: nat, token: string, key: string, audience: string) =>
            if key == publicKey then Some(claims) else None,
          "")
  }

  lemma WitnessDecodes(t: Id, publicKey: string, claims: Claims)
    requires t != ""
    ensures DecodeTenant(Witness(t, publicKey, claims), "h.p.s") == Ok(t)
  {
    assert "h.p.s" == "h" + "." + "p" + "." + "s";
    PayloadDecides(Witness(t, publicKey, claims), "h", "p", "s");
  }

  /** An entry that is not transparent shows: some validator tells the two apart. */
  lemma OpaqueEntryShows(db: Db, cache: Cache, t: Id) returns (ports: Ports)
    requires t != "" && !Transparent(db, cache, t)
    ensures DecodeTenant(ports, "h.p.s") == Ok(t)
    ensures Verdict(ResolveAlone(ports, db, cache, "h.p.s", 0).1) != Uncached(ports, db, "h.p.s", 0)
  {
    hide DecodeTenant, ResolveAlone, TenantKeyCacheKey;
    var e := cache[TenantKeyCacheKey(t)];
    var stranger := Claims(t + "x", t);
    assert stranger.tenant != t by {
      assert |stranger.tenant| != |t|;
    }
    if t in db.tenants && e.publicKey == db.tenants[t].publicKey {
      var p :| HasPrincipal(db, t, p);
      ports := Witness(t, e.publicKey, Claims(t, p));
      WitnessDecodes(t, e.publicKey, Claims(t, p));
    } else {
      ports := Witness(t, e.publicKey, stranger);
      WitnessDecodes(t, e.publicKey, stranger);
    }
    AloneJudges(ports, db, cache, "h.p.s", 0);
  }

  /** The cached resolve answers as the uncached one for every decoder, validator,
      token and time exactly when the entry is absent, equals the row, or differs
      only in a version no principal could be given. */
  lemma CachedRefinesUncachedIff(db: Db, cache: Cache, t: Id)
    requires t != ""
    ensures Transparent(db, cache, t) <==>
            forall ports: Ports, token: string, now: nat :: DecodeTenant(ports, token) == Ok(t) ==>
              Verdict(ResolveAlone(ports, db, cache, token, now).1) == Uncached(ports, db, token, now)
  {
    hide DecodeTenant, ResolveAlone, Transparent, Uncached, Verdict;
    if Transparent(db, cache, t) {
      forall ports: Ports, token: string, now: nat | DecodeTenant(ports, token) == Ok(t)
        ensures Verdict(ResolveAlone(ports, db, cache, token, now).1) == Uncached(ports, db, token, now)
      {
        TransparentRefines(ports, db, cache, t, token, now);
      }
    } else {
      var ports := OpaqueEntryShows(db, cache, t);
    }
  }

  /** A resolve succeeds exactly with the context of the tenant its payload names, whose
      cached entry, or failing that whose row, verified the token, with claims naming
      that same tenant, and of an existing principal of it; the versions are those of
      the entry or row and of the principal. */
  lemma SuccessNamesOneTenant(ports: Ports, db: Db, cache: Cache, header: string, payload: string, signature: string,
                              now: nat, x: IdentityContext)
    requires '.' !in header && '.' !in payload && '.' !in signature && payload != ""
    ensures var token, key := header + "." + payload + "." + signature, "publicKey:" + x.tenant;
            Verdict(ResolveAlone(ports, db, cache, token, now).1) == Ok(x) <==>
            ports.payload(payload) == Some(Some(x.tenant)) && x.tenant != "" &&
            (key in cache || x.tenant in db.tenants) &&
            x.keyVersion == (if key in cache then cache[key].keyVersion else db.tenants[x.tenant].keyVersion) &&
            ports.validate(now, token, if key in cache then cache[key].publicKey else db.tenants[x.tenant].publicKey,
                           ports.audience) == Some(Claims(x.tenant, x.principal)) &&
            x.principal in db.principals && db.principals[x.principal].tenant == x.tenant &&
            db.principals[x.principal].version == x.principalVersion
  {
    hide DecodeTenant, ResolveAlone;
    var token := header + "." + payload + "." + signature;
    PayloadDecides(ports, header, payload, signature);
    DecodedOutcomes(ports.payload(payload));
    AloneJudges(ports, db, cache, token, now);
  }

  lemma DecodedOutcomes(p: Option<Option<string>>)
    ensures p == None || p == Some(None) || p == Some(Some("")) || exists t :: t != "" && p == Some(Some(t))
  {
    if p.Some? && p.value.Some? && p.value.value != "" {
      assert p == Some(Some(p.value.value));
    }
  }

  /** Anything that is not three segments with a payload succeeds with nothing. */
  lemma NoTokenNoSuccess(ports: Ports, db: Db, cache: Cache, token: string, now: nat)
    requires !IsToken(token)
    ensures ResolveAlone(ports, db, cache, token, now).0 == cache
    ensures Verdict(ResolveAlone(ports, db, cache, token, now).1) == Err(MalformedToken)
  {
    hide DecodeTenant, ResolveAlone, IsToken;
    OtherTokensAreMalformed(ports, token);
    AloneJudges(ports, db, cache, token, now);
    AloneFillsOnlyItsEntry(ports, db, cache, token, now);
  }

  /** Once the payload names a tenant, the first check that fails is the denial. */
  lemma DenialNamesFirstFailure(ports: Ports, db: Db, cache: Cache, header: string, payload: string, signature: string,
                                now: nat, t: Id)
    requires '.' !in header && '.' !in payload && '.' !in signature && payload != ""
    requires t != "" && ports.payload(payload) == Some(Some(t))
    ensures var token := header + "." + payload + "." + signature;
            var verdict := Verdict(ResolveAlone(ports, db, cache, token, now).1);
            var cached := "publicKey:" + t in cache;
            if !cached && t !in db.tenants then verdict == Err(TenantNotFound)
            else
              var publicKey := if cached then cache["publicKey:" + t].publicKey else db.tenants[t].publicKey;
              match ports.validate(now, token, publicKey, ports.audience)
              case None => verdict == Err(InvalidToken)
              case Some(c) =>
                (c.tenant != t ==> verdict == Err(TenantMismatch)) &&
                (c.tenant == t && (c.principal !in db.principals || db.principals[c.principal].tenant != t) ==>
                   verdict == Err(PrincipalNotFound)) &&
                (c.tenant == t && c.principal in db.principals && db.principals[c.principal].tenant == t ==> verdict.Ok?)
  {
    hide DecodeTenant, ResolveAlone;
    var token := header + "." + payload + "." + signature;
    PayloadDecides(ports, header, payload, signature);
    AloneJudges(ports, db, cache, token, now);
  }
}
