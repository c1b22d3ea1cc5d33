/** The links table: tenant-scoped rows, and one live row per code at most. */
module LinkTable {
  import opened Domain

  type Table = map<Id, Link>

  // The columns an INSERT supplies.
  datatype Draft = Draft(
    tenant: Id,
    code: string,
    target: string,
    redirectType: int,
    expiresAt: Option<Time>,
    maxClicks: Option<int>)

  predicate Holds(t: Table, id: Id, code: string) {
    id in t && t[id].deletedAt.None? && t[id].code == code
  }

  ghost predicate Taken(t: Table, code: string) {
    exists id :: Holds(t, id, code)
  }

  ghost predicate Valid(t: Table) {
    && (forall id :: id in t ==> t[id].id == id)
    && (forall i, j, c :: Holds(t, i, c) && Holds(t, j, c) ==> i == j)
  }

  // A scan of the live rows for a code.
  ghost function ByCode(t: Table, code: string): Option<Link> {
    if Taken(t, code) then
      var id :| Holds(t, id, code);
      Some(t[id])
    else
      None
  }

  lemma ByCodeIs(t: Table, id: Id, code: string)
    requires Valid(t) && Holds(t, id, code)
    ensures ByCode(t, code) == Some(t[id])
  {
  }

  predicate Owned(t: Table, tenant: Id, id: Id) {
    id in t && t[id].tenant == tenant && t[id].deletedAt.None?
  }

  function GetOwned(t: Table, tenant: Id, id: Id): Result<Link> {
    if Owned(t, tenant, id) then Ok(t[id]) else Err(NotFound)
  }

  function NewLink(id: Id, d: Draft, now: Time): Link {
    Link(id, d.tenant, d.code, d.target, d.redirectType, d.expiresAt, d.maxClicks, 0, now, now, None)
  }

  ghost function Insert(t: Table, id: Id, d: Draft, now: Time): (Table, Result<Link>) {
    if Taken(t, d.code) then (t, Err(Conflict))
    else (t[id := NewLink(id, d, now)], Ok(NewLink(id, d, now)))
  }

  function Patched(row: Link, l: Link, now: Time): Link {
    row.(code := l.code, target := l.target, redirectType := l.redirectType,
         expiresAt := l.expiresAt, maxClicks := l.maxClicks, updatedAt := now)
  }

  ghost function Overwrite(t: Table, l: Link, now: Time): (Table, Result<Link>) {
    if !Owned(t, l.tenant, l.id) then (t, Err(NotFound))
    else if exists other :: other != l.id && Holds(t, other, l.code) then (t, Err(Conflict))
    else (t[l.id := Patched(t[l.id], l, now)], Ok(Patched(t[l.id], l, now)))
  }

  function MarkDeleted(t: Table, tenant: Id, id: Id, now: Time): (Table, Result<()>) {
    if Owned(t, tenant, id) then (t[id := t[id].(deletedAt := Some(now), updatedAt := now)], Ok(()))
    else (t, Err(NotFound))
  }

  // SQL comparison with NULL is never true.
  predicate Before(x: Option<Time>, cutoff: Time) {
    x.Some? && x.value < cutoff
  }

  predicate Purgeable(l: Link, tenant: Id, cutoff: Time) {
    l.tenant == tenant && (Before(l.expiresAt, cutoff) || Before(l.deletedAt, cutoff))
  }

  function Purge(t: Table, tenant: Id, cutoff: Time): Table {
    map id | id in t && !Purgeable(t[id], tenant, cutoff) :: t[id]
  }

  // What each statement keeps, on values.

  lemma InsertKeepsValid(t: Table, id: Id, d: Draft, now: Time)
    requires Valid(t) && id !in t
    ensures Valid(Insert(t, id, d, now).0)
  {
    var u := Insert(t, id, d, now).0;
    forall i, j, c | Holds(u, i, c) && Holds(u, j, c)
      ensures i == j
    {
      assert i != id ==> Holds(t, i, c);
      assert j != id ==> Holds(t, j, c);
    }
  }

  lemma OverwriteKeepsValid(t: Table, l: Link, now: Time)
    requires Valid(t)
    ensures Valid(Overwrite(t, l, now).0)
  {
    var u := Overwrite(t, l, now).0;
    forall i, j, c | Holds(u, i, c) && Holds(u, j, c)
      ensures i == j
    {
      assert i != l.id ==> Holds(t, i, c);
      assert j != l.id ==> Holds(t, j, c);
    }
  }

  // Taking rows away, or live status away from rows, keeps the table valid.
  lemma FewerLiveRowsKeepValid(t: Table, u: Table)
    requires Valid(t)
    requires forall id :: id in u ==> u[id].id == id
    requires forall id, c :: Holds(u, id, c) ==> Holds(t, id, c)
    ensures Valid(u)
  {
  }
}
