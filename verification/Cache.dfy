/** The Redis link cache: snapshots and "not found" markers, each with an expiry. */
module Cache {
  import opened Domain

  datatype CachedLink = CachedLink(
    id: Id,
    tenant: Id,
    code: string,
    target: string,
    redirectType: int,
    expiresAt: Option<Time>,
    maxClicks: Option<int>,
    clickCount: int)

  datatype Entry = Negative | Positive(link: CachedLink)

  datatype Stored = Stored(entry: Entry, expireAt: Time)

  type Store = map<string, Stored>

  function FromDomain(l: Link): CachedLink {
    CachedLink(l.id, l.tenant, l.code, l.target, l.redirectType, l.expiresAt, l.maxClicks, l.clickCount)
  }

  function ToDomain(c: CachedLink): Link {
    Link(c.id, c.tenant, c.code, c.target, c.redirectType, c.expiresAt, c.maxClicks, c.clickCount, 0, 0, None)
  }

  // The snapshot loses only timestamps, and for a live link answers IsActive as the row would.
  lemma SnapshotRoundTrip(l: Link, now: Time)
    ensures ToDomain(FromDomain(l)) == l.(createdAt := 0, updatedAt := 0, deletedAt := None)
    ensures FromDomain(ToDomain(FromDomain(l))) == FromDomain(l)
    ensures l.deletedAt.None? ==> (ToDomain(FromDomain(l)).IsActive(now) <==> l.IsActive(now))
  {
  }

  // What a reader sees: a key past its expiry is gone.
  function Visible(m: Store, code: string, now: Time): Option<Entry> {
    if code in m && now < m[code].expireAt then Some(m[code].entry) else None
  }

  function Put(m: Store, code: string, e: Entry, expireAt: Time): Store {
    m[code := Stored(e, expireAt)]
  }

  function Drop(m: Store, code: string): Store {
    map k | k in m && k != code :: m[k]
  }

  /** What Get reports: a miss, an error, or an authoritative answer (None: known to be missing). */
  datatype Lookup = Miss | Failed | Known(link: Option<Link>)

  function Look(m: Store, code: string, now: Time, up: bool): Lookup {
    if !up then Failed
    else match Visible(m, code, now)
      case None => Miss
      case Some(Negative) => Known(None)
      case Some(Positive(c)) => Known(Some(ToDomain(c)))
  }

  /** What one code's reader sees of a write: a snapshot comes back until its expiry and is a miss from
      then on, a marker likewise is known to be missing, a deleted code is a miss; other codes and, when
      Redis is down, all of them are unaffected. */
  lemma ReadAfterWrite(m: Store, code: string, l: Link, expireAt: Time, now: Time, other: string)
    ensures Look(Put(m, code, Positive(FromDomain(l)), expireAt), code, now, true) ==
            if now < expireAt then Known(Some(ToDomain(FromDomain(l)))) else Miss
    ensures Look(Put(m, code, Negative, expireAt), code, now, true) == if now < expireAt then Known(None) else Miss
    ensures Look(Drop(m, code), code, now, true) == Miss
    ensures other != code ==>
      && Look(Put(m, code, Positive(FromDomain(l)), expireAt), other, now, true) == Look(m, other, now, true)
      && Look(Put(m, code, Negative, expireAt), other, now, true) == Look(m, other, now, true)
      && Look(Drop(m, code), other, now, true) == Look(m, other, now, true)
    ensures Look(m, code, now, false) == Failed
  {
  }

  // Keys carry a fixed prefix.
  function CacheKey(code: string): string {
    "link:" + code
  }

  lemma CacheKeyInjective(code: string)
    ensures forall c :: CacheKey(c) == CacheKey(code) ==> c == code
  {
    forall c | CacheKey(c) == CacheKey(code)
      ensures c == code
    {
      assert CacheKey(c)[5..] == c && CacheKey(code)[5..] == code;
    }
  }

  /** The keyed store itself. `up` says whether Redis answered the command. `view` is the raw
      keyspace read back by code. */
  class LinkCache {
    var raw: map<string, Stored>
    const ttl: Time
    const negTTL: Time
    ghost var view: Store

    ghost predicate Valid()
      reads this
    {
      && (forall code :: code in view <==> CacheKey(code) in raw)
      && (forall code :: code in view ==> raw[CacheKey(code)] == view[code])
    }

    constructor (ttl: Time, negTTL: Time)
      ensures Valid() && view == map[] && this.ttl == ttl && this.negTTL == negTTL
    {
      this.raw, this.ttl, this.negTTL, this.view := map[], ttl, negTTL, map[];
    }

    method Get(code: string, now: Time, up: bool) returns (r: Lookup)
      requires Valid()
      ensures r == Look(view, code, now, up)
    {
      if !up {
        return Failed;
      }
      var key := CacheKey(code);
      if key !in raw || raw[key].expireAt <= now {
        return Miss;
      }
      match raw[key].entry
      case Negative => return Known(None);
      case Positive(c) => return Known(Some(ToDomain(c)));
    }

    method Set(l: Link, now: Time, up: bool) returns (ok: bool)
      requires Valid()
      modifies this
      ensures Valid() && ok == up
      ensures view == if up then Put(old(view), l.code, Positive(FromDomain(l)), now + ttl) else old(view)
    {
      if up {
        Write(l.code, Stored(Positive(FromDomain(l)), now + ttl));
      }
      return up;
    }

    method SetNegative(code: string, now: Time, up: bool) returns (ok: bool)
      requires Valid()
      modifies this
      ensures Valid() && ok == up
      ensures view == if up then Put(old(view), code, Negative, now + negTTL) else old(view)
    {
      if up {
        Write(code, Stored(Negative, now + negTTL));
      }
      return up;
    }

    method Invalidate(code: string, up: bool) returns (ok: bool)
      requires Valid()
      modifies this
      ensures Valid() && ok == up
      ensures view == if up then Drop(old(view), code) else old(view)
    {
      if up {
        var key := CacheKey(code);
        raw := map k | k in raw && k != key :: raw[k];
        view := Drop(view, code);
        CacheKeyInjective(code);
      }
      return up;
    }

    method Write(code: string, e: Stored)
      requires Valid()
      modifies this
      ensures Valid() && view == old(view)[code := e]
    {
      var key := CacheKey(code);
      CacheKeyInjective(code);
      raw, view := raw[key := e], view[code := e];
    }
  }
}
