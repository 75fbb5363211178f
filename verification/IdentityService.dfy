/** The identity service as an object over its cache, with nothing interfering. */
module IdentityServices {
  import opened Outcomes
  import opened Text
  import opened Store
  import opened Services
  import opened Identity

  class IdentityService {
    const ports: Ports
    const db: Database
    var cache: Cache

    constructor (ports: Ports, db: Database)
      ensures this.ports == ports && this.db == db && cache == map[]
    {
      this.ports, this.db, cache := ports, db, map[];
    }

    method Resolve(token: string, now: nat) returns (r: Result<IdentityContext, Denial>)
      modifies this`cache
      ensures cache == ResolveAlone(ports, db.Rows(), old(cache), token, now).0
      ensures r == Verdict(ResolveAlone(ports, db.Rows(), old(cache), token, now).1)
    {
      hide Split, TenantKeyCacheKey;
      var parts := Split(token, '.');
      if |parts| != 3 || parts[1] == "" {
        return Err(MalformedToken);
      }
      var payload := ports.payload(parts[1]);
      if payload.None? {
        return Err(MalformedToken);
      }
      if payload.value.None? || payload.value.value == "" {
        return Err(MissingTenantClaim);
      }
      var t := payload.value.value;
      var entry := FetchTenantKey(t);
      if entry.Err? {
        return Err(entry.error);
      }
      var claims := ports.validate(now, token, entry.value.publicKey, ports.audience);
      if claims.None? {
        return Err(InvalidToken);
      }
      if claims.value.tenant != t {
        return Err(TenantMismatch);
      }
      var p := claims.value.principal;
      if p !in db.principals || db.principals[p].tenant != t {
        return Err(PrincipalNotFound);
      }
      r := Ok(IdentityContext(claims.value.tenant, p, entry.value.keyVersion, db.principals[p].version));
    }

    /** Cache first, then the tenant row, which is written to the cache. */
    method FetchTenantKey(t: Id) returns (r: Result<KeyEntry, Denial>)
      modifies this`cache
      ensures TenantKeyCacheKey(t) in old(cache) ==> cache == old(cache) && r == Ok(cache[TenantKeyCacheKey(t)])
      ensures TenantKeyCacheKey(t) !in old(cache) && t !in db.tenants ==>
                cache == old(cache) && r == Err(TenantNotFound)
      ensures TenantKeyCacheKey(t) !in old(cache) && t in db.tenants ==>
                r == Ok(KeyEntry(db.tenants[t].publicKey, db.tenants[t].keyVersion)) &&
                cache == old(cache)[TenantKeyCacheKey(t) := r.value]
    {
      var key := TenantKeyCacheKey(t);
      if key in cache {
        return Ok(cache[key]);
      }
      if t !in db.tenants {
        return Err(TenantNotFound);
      }
      var entry := KeyEntry(db.tenants[t].publicKey, db.tenants[t].keyVersion);
      cache := cache[key := entry];
      r := Ok(entry);
    }
  }
}
