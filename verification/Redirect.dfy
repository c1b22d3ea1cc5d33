/** The redirect path: cache first, table on a miss, backfill either way. */
module Redirect {
  import opened Domain
  import opened LinkTable
  import opened Cache
  import opened Repository

  // Which of the outside calls answer: the cache read, the table read, the cache write.
  datatype Faults = Faults(cacheRead: bool, dbRead: bool, cacheWrite: bool)

  function CheckActive(l: Link, now: Time): Result<Link> {
    if l.IsActive(now) then Ok(l) else Err(Gone)
  }

  // A lookup that never consults the cache.
  ghost function DbOnly(t: Table, code: string, now: Time): Result<Link> {
    match ByCode(t, code)
    case Some(l) => CheckActive(l, now)
    case None => Err(NotFound)
  }

  // The entry a reader writes after reading `row`.
  function EntryFor(row: Option<Link>): Entry {
    match row
    case Some(l) => Positive(FromDomain(l))
    case None => Negative
  }

  function ExpiryFor(row: Option<Link>, now: Time, ttl: Time, negTTL: Time): Time {
    now + if row.Some? then ttl else negTTL
  }

  ghost function FromDb(t: Table, m: Store, code: string, now: Time, up: Faults, ttl: Time, negTTL: Time):
    (Store, Result<Link>)
  {
    if !up.dbRead then (m, Err(Backend))
    else
      var row := ByCode(t, code);
      (if up.cacheWrite then Put(m, code, EntryFor(row), ExpiryFor(row, now, ttl, negTTL)) else m,
       DbOnly(t, code, now))
  }

  ghost function Resolve(t: Table, m: Store, code: string, now: Time, up: Faults, ttl: Time, negTTL: Time):
    (Store, Result<Link>)
  {
    match Look(m, code, now, up.cacheRead)
    case Known(Some(l)) => (m, CheckActive(l, now))
    case Known(None) => (m, Err(NotFound))
    case Miss => FromDb(t, m, code, now, up, ttl, negTTL)
    case Failed => FromDb(t, m, code, now, up, ttl, negTTL)
  }

  class RedirectService {
    const db: Postgres
    const cache: LinkCache
    var hits: nat
    var misses: nat

    constructor (db: Postgres, cache: LinkCache)
      ensures this.db == db && this.cache == cache && hits == misses == 0
    {
      this.db, this.cache, hits, misses := db, cache, 0, 0;
    }

    method ResolveCode(code: string, now: Time, up: Faults) returns (r: Result<Link>)
      requires db.Consistent() && cache.Valid()
      modifies `hits, `misses, cache
      ensures cache.Valid()
      ensures (cache.view, r) == Resolve(db.rows, old(cache.view), code, now, up, cache.ttl, cache.negTTL)
      ensures !up.dbRead && !Look(old(cache.view), code, now, up.cacheRead).Known? ==>
        r == Err(Backend) && cache.view == old(cache.view)
      ensures r == Err(Backend) ==> !up.dbRead
      ensures hits + misses == old(hits + misses) + 1
      ensures hits > old(hits) <==> Look(old(cache.view), code, now, up.cacheRead).Known?
    {
      var found := cache.Get(code, now, up.cacheRead);
      match found
      case Known(Some(l)) =>
        hits := hits + 1;
        r := CheckActive(l, now);
      case Known(None) =>
        hits := hits + 1;
        r := Err(NotFound);
      case Miss =>
        misses := misses + 1;
        r := LoadFromDb(code, now, up);
      case Failed =>
        // A broken cache is logged and bypassed.
        misses := misses + 1;
        r := LoadFromDb(code, now, up);
    }

    method LoadFromDb(code: string, now: Time, up: Faults) returns (r: Result<Link>)
      requires db.Consistent() && cache.Valid()
      modifies cache
      ensures cache.Valid()
      ensures (cache.view, r) == FromDb(db.rows, old(cache.view), code, now, up, cache.ttl, cache.negTTL)
    {
      if !up.dbRead {
        return Err(Backend);
      }
      db.IndexIsScan(code);
      var loaded := db.GetByCode(code);
      match loaded
      case Err(_) =>
        var _ := cache.SetNegative(code, now, up.cacheWrite);
        return Err(NotFound);
      case Ok(l) =>
        assert l.code == code;
        var _ := cache.Set(l, now, up.cacheWrite);
        return CheckActive(l, now);
    }
  }
}
