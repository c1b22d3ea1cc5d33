/** Link creation, update and deletion: validation, code allocation, the demo cap, invalidation. */
module Service {
  import opened Domain
  import opened LinkTable
  import opened Cache
  import opened Repository
  import Shortcode

  // A zero demoMaxTTL turns the demo cap off.
  datatype Policy = Policy(maxCollision: nat, demoTenant: Id, demoMaxTTL: int)

  // `wellFormed` is the verdict of the URL validator.
  datatype Url = Url(raw: string, wellFormed: bool)

  // What one call of the code generator returns.
  datatype Draw = GenFailed | Drew(code: string)

  datatype CreateInput = CreateInput(
    target: Url,
    alias: string,
    redirectType: int,
    expiresAt: Option<Time>,
    maxClicks: Option<int>)

  datatype UpdateInput = UpdateInput(
    target: Option<Url>,
    redirectType: Option<int>,
    expiresAt: Option<Time>,
    clearExpiresAt: bool,
    maxClicks: Option<int>,
    clearMaxClicks: bool)

  predicate Capped(p: Policy, tenant: Id) {
    p.demoMaxTTL > 0 && tenant == p.demoTenant
  }

  function ClampDemoExpiry(p: Policy, tenant: Id, requested: Option<Time>, now: Time): Option<Time> {
    if !Capped(p, tenant) then requested
    else
      var capAt := now + p.demoMaxTTL;
      if requested.Some? && requested.value < capAt then requested else Some(capAt)
  }

  predicate ValidRedirectType(rt: int) {
    rt == 0 || rt == REDIRECT_FOUND || rt == REDIRECT_PERMANENT
  }

  function NormalizeRedirectType(rt: int): int {
    if rt == REDIRECT_PERMANENT then REDIRECT_PERMANENT else REDIRECT_FOUND
  }

  predicate ValidExpiry(t: Option<Time>, now: Time) {
    t.Some? ==> now < t.value
  }

  predicate ValidMaxClicks(m: Option<int>) {
    m.Some? ==> m.value >= 1
  }

  predicate ValidCreate(req: CreateInput, now: Time) {
    && req.target.wellFormed
    && ValidRedirectType(req.redirectType)
    && ValidExpiry(req.expiresAt, now)
    && ValidMaxClicks(req.maxClicks)
  }

  function DraftOf(p: Policy, tenant: Id, req: CreateInput, now: Time): Draft {
    Draft(tenant, req.alias, req.target.raw, NormalizeRedirectType(req.redirectType),
          ClampDemoExpiry(p, tenant, req.expiresAt, now), req.maxClicks)
  }

  // --- code allocation ---

  // Try draws k, k + 1, ... below max. A draw past the end of the list is a generator failure.
  ghost function Allocate(t: Table, id: Id, d: Draft, draws: seq<Draw>, k: nat, max: nat, now: Time):
    (Table, Result<Link>)
    decreases max - k
  {
    if k >= max then (t, Err(CodeExhausted))
    else if k >= |draws| || draws[k].GenFailed? then (t, Err(Backend))
    else if Taken(t, draws[k].code) then Allocate(t, id, d, draws, k + 1, max, now)
    else Insert(t, id, d.(code := draws[k].code), now)
  }

  predicate DrawnAt(draws: seq<Draw>, k: nat) {
    k < |draws| && draws[k].Drew?
  }

  ghost predicate Collides(t: Table, draws: seq<Draw>, k: nat) {
    DrawnAt(draws, k) && Taken(t, draws[k].code)
  }

  lemma {:induction false} AllocateFrom(t: Table, id: Id, d: Draft, draws: seq<Draw>, k: nat, n: nat, max: nat, now: Time)
    requires k <= n <= max
    requires forall i :: k <= i < n ==> Collides(t, draws, i)
    ensures Allocate(t, id, d, draws, k, max, now) == Allocate(t, id, d, draws, n, max, now)
    decreases n - k
  {
    if k < n {
      assert Collides(t, draws, k);
      AllocateFrom(t, id, d, draws, k + 1, n, max, now);
    }
  }

  // Either every one of the first max draws collides, or there is a first that does not.
  lemma {:induction false} FirstClear(t: Table, draws: seq<Draw>, max: nat) returns (n: nat)
    ensures n <= max
    ensures forall i :: 0 <= i < n ==> Collides(t, draws, i)
    ensures n < max ==> !Collides(t, draws, n)
  {
    if max == 0 {
      return 0;
    }
    n := FirstClear(t, draws, max - 1);
    if n == max - 1 && Collides(t, draws, n) {
      n := n + 1;
    }
  }

  /** Allocation inserts the first free code among at most max draws; it gives up as exhausted
      exactly when all of them collide, and any failure leaves the table alone. */
  lemma AllocationOutcome(t: Table, id: Id, d: Draft, draws: seq<Draw>, max: nat, now: Time)
    ensures Allocate(t, id, d, draws, 0, max, now).1 == Err(CodeExhausted) <==>
            forall k :: 0 <= k < max ==> Collides(t, draws, k)
    ensures Allocate(t, id, d, draws, 0, max, now).1.Err? ==>
            Allocate(t, id, d, draws, 0, max, now).0 == t
    ensures Allocate(t, id, d, draws, 0, max, now).1.Ok? <==>
            exists k :: 0 <= k < max && DrawnAt(draws, k) && !Collides(t, draws, k) &&
                        forall i :: 0 <= i < k ==> Collides(t, draws, i)
    ensures forall k :: 0 <= k < max && DrawnAt(draws, k) && !Collides(t, draws, k) &&
                        (forall i :: 0 <= i < k ==> Collides(t, draws, i)) ==>
            Allocate(t, id, d, draws, 0, max, now) == Insert(t, id, d.(code := draws[k].code), now)
  {
    var n := FirstClear(t, draws, max);
    AllocateFrom(t, id, d, draws, 0, n, max, now);
    assert n < max ==> !Collides(t, draws, n);
  }

  // --- the operations on the links table ---

  ghost function Create(p: Policy, t: Table, tenant: Id, id: Id, req: CreateInput, draws: seq<Draw>, now: Time):
    (Table, Result<Link>)
  {
    if !ValidCreate(req, now) then (t, Err(Invalid))
    else if req.alias != "" then
      if !Shortcode.ValidAlias(req.alias) then (t, Err(Invalid))
      else Insert(t, id, DraftOf(p, tenant, req, now), now)
    else Allocate(t, id, DraftOf(p, tenant, req, now), draws, 0, if p.maxCollision < 1 then 1 else p.maxCollision, now)
  }

  function PatchLink(p: Policy, l: Link, req: UpdateInput, now: Time): Result<Link> {
    if req.target.Some? && !req.target.value.wellFormed then Err(Invalid)
    else if req.redirectType.Some? && !ValidRedirectType(req.redirectType.value) then Err(Invalid)
    else if !req.clearExpiresAt && !ValidExpiry(req.expiresAt, now) then Err(Invalid)
    else if !req.clearMaxClicks && !ValidMaxClicks(req.maxClicks) then Err(Invalid)
    else
      var expiry := if req.clearExpiresAt then None else if req.expiresAt.Some? then req.expiresAt else l.expiresAt;
      Ok(l.(
           target := if req.target.Some? then req.target.value.raw else l.target,
           redirectType := if req.redirectType.Some? then NormalizeRedirectType(req.redirectType.value) else l.redirectType,
           expiresAt := ClampDemoExpiry(p, l.tenant, expiry, now),
           maxClicks := if req.clearMaxClicks then None else if req.maxClicks.Some? then req.maxClicks else l.maxClicks))
  }

  ghost function Update(p: Policy, t: Table, tenant: Id, id: Id, req: UpdateInput, now: Time): (Table, Result<Link>) {
    if !Owned(t, tenant, id) then (t, Err(NotFound))
    else
      match PatchLink(p, t[id], req, now)
      case Err(e) => (t, Err(e))
      case Ok(l) => Overwrite(t, l, now)
  }

  // On a valid table a patch never conflicts: the code it writes back is the row's own.
  lemma UpdateRewritesOneRow(p: Policy, t: Table, tenant: Id, id: Id, req: UpdateInput, now: Time)
    requires Valid(t) && Owned(t, tenant, id) && PatchLink(p, t[id], req, now).Ok?
    ensures Update(p, t, tenant, id, req, now).1 == Ok(Patched(t[id], PatchLink(p, t[id], req, now).value, now))
    ensures Update(p, t, tenant, id, req, now).0 == t[id := Patched(t[id], PatchLink(p, t[id], req, now).value, now)]
  {
    assert Holds(t, id, t[id].code);
  }

  const NO_CHANGE := UpdateInput(None, None, None, false, None, false)

  // What redirects rely on in a row: a redirect status and, if any, a limit of at least one click.
  predicate Servable(l: Link) {
    (l.redirectType == REDIRECT_FOUND || l.redirectType == REDIRECT_PERMANENT) && ValidMaxClicks(l.maxClicks)
  }

  // Every field supplied, and not overruled by a clear, is one the source accepts.
  predicate PatchIsValid(req: UpdateInput, now: Time) {
    && (req.target.Some? ==> req.target.value.wellFormed)
    && (req.redirectType.Some? ==> req.redirectType.value in {0, 301, 302})
    && (req.expiresAt.Some? && !req.clearExpiresAt ==> now < req.expiresAt.value)
    && (req.maxClicks.Some? && !req.clearMaxClicks ==> 1 <= req.maxClicks.value)
  }

  // The four columns after a patch: what was asked for is stored, what was not stays.
  predicate AsPatched(p: Policy, l: Link, req: UpdateInput, now: Time, n: Link) {
    && n.target == (match req.target case Some(url) => url.raw case None => l.target)
    && n.redirectType == (match req.redirectType case Some(rt) => AskedStatus(rt) case None => l.redirectType)
    && n.maxClicks == (if req.clearMaxClicks then None else if req.maxClicks == None then l.maxClicks else req.maxClicks)
    && CappedExpiry(p, l.tenant, if req.clearExpiresAt then None else if req.expiresAt == None then l.expiresAt else req.expiresAt,
                    now, n.expiresAt)
  }

  // 301 only when it is asked for.
  function AskedStatus(rt: int): int {
    if rt == 301 then 301 else 302
  }

  // The expiry stored for the one wanted: that one, or for the demo tenant the earlier of it and the cap.
  predicate CappedExpiry(p: Policy, tenant: Id, wanted: Option<Time>, now: Time, stored: Option<Time>) {
    if p.demoMaxTTL <= 0 || tenant != p.demoTenant then stored == wanted
    else
      && stored.Some? && stored.value <= now + p.demoMaxTTL
      && (wanted.Some? ==> stored.value <= wanted.value)
      && (stored == wanted || stored.value == now + p.demoMaxTTL)
  }

  /** A patch succeeds iff each field it supplies is valid, and stores exactly what it supplies. It is
      partial and repeatable: asking for nothing changes nothing outside the demo cap, asking
      twice at one instant is asking once, no column but the four patchable ones moves, clearing leaves
      no expiry or limit outside the cap, and a servable row stays servable. */
  lemma PatchLaws(p: Policy, l: Link, req: UpdateInput, now: Time)
    ensures PatchLink(p, l, req, now) == Err(Invalid) || PatchLink(p, l, req, now).Ok?
    ensures PatchLink(p, l, req, now).Ok? <==> PatchIsValid(req, now)
    ensures PatchLink(p, l, req, now).Ok? ==> AsPatched(p, l, req, now, PatchLink(p, l, req, now).value)
    ensures !Capped(p, l.tenant) ==> PatchLink(p, l, NO_CHANGE, now) == Ok(l)
    ensures PatchLink(p, l, req, now).Ok? ==>
      var n := PatchLink(p, l, req, now).value;
      && PatchLink(p, n, req, now) == Ok(n)
      && n.(target := l.target, redirectType := l.redirectType, expiresAt := l.expiresAt, maxClicks := l.maxClicks) == l
      && (req.target.None? ==> n.target == l.target) && (req.redirectType.None? ==> n.redirectType == l.redirectType)
      && (req.clearExpiresAt ==> n.expiresAt.Some? ==> Capped(p, l.tenant)) && (req.clearMaxClicks ==> n.maxClicks.None?)
      && (Servable(l) ==> Servable(n))
  {
  }

  /** The service over the repository and the cache. Notifications go to `announced`. */
  class LinkService {
    const p: Policy
    const db: Postgres
    const cache: LinkCache
    var announced: seq<Link>

    constructor (p: Policy, db: Postgres, cache: LinkCache)
      ensures this.p == p && this.db == db && this.cache == cache && announced == []
    {
      this.p, this.db, this.cache, this.announced := p, db, cache, [];
    }

    method CreateLink(tenant: Id, id: Id, req: CreateInput, draws: seq<Draw>, now: Time) returns (r: Result<Link>)
      requires db.Consistent() && id !in db.rows
      modifies this, db`rows, db`codes
      ensures db.Consistent()
      ensures (db.rows, r) == Create(p, old(db.rows), tenant, id, req, draws, now)
      ensures if r.Ok? then db.rows == old(db.rows)[id := r.value] && AsRequested(p, tenant, id, req, draws, now, r.value)
              else db.rows == old(db.rows)
      ensures announced == old(announced) + if r.Ok? then [r.value] else []
    {
      db.IndexIsScan("");
      CreateAddsOneRow(p, db.rows, tenant, id, req, draws, now);
      if !ValidCreate(req, now) {
        return Err(Invalid);
      }
      var draft := DraftOf(p, tenant, req, now);
      if req.alias != "" {
        if !Shortcode.ValidAlias(req.alias) {
          return Err(Invalid);
        }
        r := db.Create(id, draft, now);
      } else {
        r := AllocateGeneratedCode(id, draft, draws, now);
      }
      if r.Ok? {
        announced := announced + [r.value];
      }
    }

    method AllocateGeneratedCode(id: Id, draft: Draft, draws: seq<Draw>, now: Time) returns (r: Result<Link>)
      requires db.Consistent() && id !in db.rows
      modifies db`rows, db`codes
      ensures db.Consistent()
      ensures (db.rows, r) == Allocate(old(db.rows), id, draft, draws, 0, if p.maxCollision < 1 then 1 else p.maxCollision, now)
    {
      var max := if p.maxCollision < 1 then 1 else p.maxCollision;
      for attempt := 0 to max
        invariant db.Consistent() && db.rows == old(db.rows)
        invariant Allocate(db.rows, id, draft, draws, 0, max, now) == Allocate(db.rows, id, draft, draws, attempt, max, now)
      {
        if attempt >= |draws| || draws[attempt].GenFailed? {
          return Err(Backend);
        }
        r := db.Create(id, draft.(code := draws[attempt].code), now);
        if r != Err(Conflict) {
          return;
        }
      }
      return Err(CodeExhausted);
    }

    method UpdateLink(tenant: Id, id: Id, req: UpdateInput, now: Time, up: bool) returns (r: Result<Link>)
      requires db.Consistent() && cache.Valid()
      modifies db`rows, db`codes, cache
      ensures db.Consistent() && cache.Valid()
      ensures (db.rows, r) == Update(p, old(db.rows), tenant, id, req, now)
      ensures var owned := id in old(db.rows) && old(db.rows)[id].tenant == tenant && old(db.rows)[id].deletedAt == None;
              && (r.Ok? <==> owned && PatchIsValid(req, now))
              && (r == Err(NotFound) <==> !owned)
              && (r.Err? ==> db.rows == old(db.rows))
              && (r.Ok? ==>
                    && db.rows == old(db.rows)[id := r.value] && AsPatched(p, old(db.rows)[id], req, now, r.value)
                    && r.value.code == old(db.rows)[id].code && r.value.clickCount == old(db.rows)[id].clickCount)
      ensures cache.view == if r.Ok? && up then Drop(old(cache.view), r.value.code) else old(cache.view)
    {
      var link := db.GetByIDForTenant(tenant, id);
      if link.Err? {
        return link;
      }
      var oldCode := link.value.code;
      var patched := PatchLink(p, link.value, req, now);
      PatchLaws(p, link.value, req, now);
      db.IndexIsScan(oldCode);
      if patched.Ok? {
        UpdateRewritesOneRow(p, db.rows, tenant, id, req, now);
      }
      if patched.Err? {
        return patched;
      }
      r := db.Update(patched.value, now);
      if r.Err? {
        return;
      }
      var _ := cache.Invalidate(oldCode, up);
      if r.value.code != oldCode {
        assert false;  // a patch never changes the code
      }
    }

    method DeleteLink(tenant: Id, id: Id, now: Time, up: bool) returns (r: Result<()>)
      requires db.Consistent() && cache.Valid()
      modifies db`rows, db`codes, cache
      ensures db.Consistent() && cache.Valid()
      ensures (db.rows, r) == MarkDeleted(old(db.rows), tenant, id, now)
      ensures if id in old(db.rows) && old(db.rows)[id].tenant == tenant && old(db.rows)[id].deletedAt == None then
                && r == Ok(())
                && db.rows == old(db.rows)[id := old(db.rows)[id].(deletedAt := Some(now), updatedAt := now)]
                && !Taken(db.rows, old(db.rows)[id].code)
              else
                r == Err(NotFound) && db.rows == old(db.rows)
      ensures cache.view == if r.Ok? && up then Drop(old(cache.view), old(db.rows)[id].code) else old(cache.view)
    {
      var link := db.GetByIDForTenant(tenant, id);
      if link.Err? {
        return Err(NotFound);
      }
      r := db.SoftDelete(tenant, id, now);
      if r.Ok? {
        var _ := cache.Invalidate(link.value.code, up);
      }
    }
  }

  // --- what every operation keeps ---

  lemma {:induction false} AllocateKeeps(t: Table, id: Id, d: Draft, draws: seq<Draw>, k: nat, max: nat, now: Time)
    requires Valid(t) && id !in t
    ensures Valid(Allocate(t, id, d, draws, k, max, now).0)
    ensures var (u, r) := Allocate(t, id, d, draws, k, max, now);
            if r.Ok? then !Taken(t, r.value.code) && u == t[id := r.value] &&
                          r.value == NewLink(id, d.(code := r.value.code), now)
            else u == t
    decreases max - k
  {
    if k < max && k < |draws| && draws[k].Drew? {
      if Taken(t, draws[k].code) {
        AllocateKeeps(t, id, d, draws, k + 1, max, now);
      } else {
        InsertKeepsValid(t, id, d.(code := draws[k].code), now);
      }
    }
  }

  // The request the source accepts.
  predicate CreateIsValid(req: CreateInput, now: Time) {
    && req.target.wellFormed
    && req.redirectType in {0, 301, 302}
    && (req.expiresAt == None || now < req.expiresAt.value)
    && (req.maxClicks == None || 1 <= req.maxClicks.value)
  }

  // The row a create stores, column by column.
  predicate AsRequested(p: Policy, tenant: Id, id: Id, req: CreateInput, draws: seq<Draw>, now: Time, l: Link) {
    && l.id == id && l.tenant == tenant
    && l.target == req.target.raw && l.redirectType == AskedStatus(req.redirectType)
    && CappedExpiry(p, tenant, req.expiresAt, now, l.expiresAt) && l.maxClicks == req.maxClicks
    && (if req.alias != "" then l.code == req.alias else Drew(l.code) in draws)
    && l.clickCount == 0 && l.createdAt == l.updatedAt == now && l.deletedAt == None
  }

  /** A create adds one fresh live row, stored as requested, under a code that was free, or changes
      nothing. It is refused as invalid iff the request or a given alias is; a valid alias conflicts iff
      some live row has it; without an alias the first max(1, maxCollision) draws are tried. */
  lemma CreateAddsOneRow(p: Policy, t: Table, tenant: Id, id: Id, req: CreateInput, draws: seq<Draw>, now: Time)
    requires Valid(t) && id !in t
    ensures Valid(Create(p, t, tenant, id, req, draws, now).0)
    ensures var (u, r) := Create(p, t, tenant, id, req, draws, now);
            if r.Ok? then !Taken(t, r.value.code) && u == t[id := r.value] && AsRequested(p, tenant, id, req, draws, now, r.value)
            else u == t
    ensures Create(p, t, tenant, id, req, draws, now).1 == Err(Invalid) <==>
            !CreateIsValid(req, now) || (req.alias != "" && !Shortcode.ValidAlias(req.alias))
    ensures req.alias != "" ==>
      var r := Create(p, t, tenant, id, req, draws, now).1;
      && (r.Ok? <==> CreateIsValid(req, now) && Shortcode.ValidAlias(req.alias) && !Taken(t, req.alias))
      && (r == Err(Conflict) <==> CreateIsValid(req, now) && Shortcode.ValidAlias(req.alias) && Taken(t, req.alias))
    ensures req.alias == "" && CreateIsValid(req, now) ==>
      (Create(p, t, tenant, id, req, draws, now).1 == Err(CodeExhausted) <==>
         forall k :: 0 <= k < p.maxCollision || k == 0 ==> Collides(t, draws, k))
  {
    CreateOutcome(p, t, tenant, id, req, draws, now);
    var max := if p.maxCollision < 1 then 1 else p.maxCollision;
    AllocationOutcome(t, id, DraftOf(p, tenant, req, now), draws, max, now);
    AllocatedWasDrawn(t, id, DraftOf(p, tenant, req, now), draws, 0, max, now);
    ClampIsCapped(p, tenant, req.expiresAt, now);
  }

  lemma {:induction false} AllocatedWasDrawn(t: Table, id: Id, d: Draft, draws: seq<Draw>, k: nat, max: nat, now: Time)
    ensures var r := Allocate(t, id, d, draws, k, max, now).1;
            (r.Ok? ==> Drew(r.value.code) in draws) && r != Err(Invalid)
    decreases max - k
  {
    if k < max && DrawnAt(draws, k) {
      if Taken(t, draws[k].code) {
        AllocatedWasDrawn(t, id, d, draws, k + 1, max, now);
      } else {
        assert draws[k] == Drew(draws[k].code);
      }
    }
  }

  lemma ClampIsCapped(p: Policy, tenant: Id, wanted: Option<Time>, now: Time)
    ensures CappedExpiry(p, tenant, wanted, now, ClampDemoExpiry(p, tenant, wanted, now))
  {
  }

  // The same in terms of the draft.
  lemma CreateOutcome(p: Policy, t: Table, tenant: Id, id: Id, req: CreateInput, draws: seq<Draw>, now: Time)
    requires Valid(t) && id !in t
    ensures Valid(Create(p, t, tenant, id, req, draws, now).0)
    ensures var (u, r) := Create(p, t, tenant, id, req, draws, now);
            if r.Ok? then !Taken(t, r.value.code) && u == t[id := r.value] &&
                          r.value == NewLink(id, DraftOf(p, tenant, req, now).(code := r.value.code), now)
            else u == t
  {
    if ValidCreate(req, now) {
      var d := DraftOf(p, tenant, req, now);
      AllocateKeeps(t, id, d, draws, 0, if p.maxCollision < 1 then 1 else p.maxCollision, now);
      InsertKeepsValid(t, id, d, now);
    }
  }

  lemma UpdateKeepsValid(p: Policy, t: Table, tenant: Id, id: Id, req: UpdateInput, now: Time)
    requires Valid(t)
    ensures Valid(Update(p, t, tenant, id, req, now).0)
  {
    if Owned(t, tenant, id) && PatchLink(p, t[id], req, now).Ok? {
      OverwriteKeepsValid(t, PatchLink(p, t[id], req, now).value, now);
    }
  }
}
