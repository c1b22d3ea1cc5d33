/** The repositories over Postgres: links with their index of live codes, and clicks. */
module Repository {
  import opened Domain
  import opened LinkTable
  import opened ClickLog

  // How many clicks of the batch each link has, links without any left out.
  method Tally(batch: seq<Click>) returns (counts: map<Id, nat>)
    ensures forall id :: id in counts ==> counts[id] == CountFor(batch, id) > 0
    ensures forall id :: id !in counts ==> CountFor(batch, id) == 0
  {
    counts := map[];
    for i := 0 to |batch|
      invariant forall id :: id in counts ==> counts[id] == CountFor(batch[..i], id) > 0
      invariant forall id :: id !in counts ==> CountFor(batch[..i], id) == 0
    {
      var id := batch[i].link;
      assert batch[..i + 1] == batch[..i] + [batch[i]];
      forall other {
        CountAppend(batch[..i], batch[i], other);
      }
      counts := counts[id := (if id in counts then counts[id] else 0) + 1];
    }
    assert batch[..|batch|] == batch;
  }

  // The UPDATE ... RETURNING loop, in whatever order the counts map is walked. `ids` names the
  // link behind each code returned.
  method Increment(db: Db, batch: seq<Click>, counts: map<Id, nat>, now: Time)
    returns (rows: Table, exhausted: seq<string>, ids: seq<Id>)
    requires AllKnown(db.links, batch)
    requires forall id :: id in counts ==> counts[id] == CountFor(batch, id) > 0
    requires forall id :: id !in counts ==> CountFor(batch, id) == 0
    ensures rows == Recorded(db, batch, now).links
    ensures Reports(db, batch, exhausted, ids)
  {
    var todo := counts.Keys;
    rows, exhausted, ids := db.links, [], [];
    while todo != {}
      invariant todo <= counts.Keys
      invariant rows.Keys == db.links.Keys
      invariant forall id :: id in rows ==>
        rows[id] == Bumped(db.links[id], if id in todo then 0 else CountFor(batch, id), now)
      invariant ReportsBut(db, batch, todo, exhausted, ids)
      decreases todo
    {
      var id :| id in todo;
      CountPositive(batch, id);
      if id !in rows {
        assert false;  // the no-rows branch: the foreign key already refused such a batch
      }
      var row := Bumped(rows[id], counts[id], now);
      rows := rows[id := row];
      ReportOne(db, batch, todo, exhausted, ids, id);
      if row.IsExhausted() {
        exhausted, ids := exhausted + [row.code], ids + [id];
      }
      todo := todo - {id};
    }
  }

  // One code for each link the batch exhausted, and no other.
  ghost predicate Reports(db: Db, batch: seq<Click>, exhausted: seq<string>, ids: seq<Id>) {
    ReportsBut(db, batch, {}, exhausted, ids)
  }

  // The same while the links in `todo` are still to be visited.
  ghost predicate ReportsBut(db: Db, batch: seq<Click>, todo: set<Id>, exhausted: seq<string>, ids: seq<Id>) {
    && |ids| == |exhausted|
    && (forall i, j :: 0 <= i < j < |ids| ==> ids[i] != ids[j])
    && (forall id :: id in ids <==> id !in todo && id in ExhaustedBy(db, batch))
    && (forall k :: 0 <= k < |ids| ==> ids[k] in db.links && exhausted[k] == db.links[ids[k]].code)
  }

  lemma ReportOne(db: Db, batch: seq<Click>, todo: set<Id>, exhausted: seq<string>, ids: seq<Id>, id: Id)
    requires ReportsBut(db, batch, todo, exhausted, ids) && id in todo && id in db.links
    ensures id !in ExhaustedBy(db, batch) ==> ReportsBut(db, batch, todo - {id}, exhausted, ids)
    ensures id in ExhaustedBy(db, batch) ==>
            ReportsBut(db, batch, todo - {id}, exhausted + [db.links[id].code], ids + [id])
  {
  }

  // The codes, and no others, of links with clicks in the batch that have used up their limit.
  ghost predicate ReportsExhausted(rows: Table, batch: seq<Click>, codes: seq<string>) {
    forall code :: code in codes <==>
      exists id :: id in rows && CountFor(batch, id) > 0 && rows[id].code == code && rows[id].IsExhausted()
  }

  // Every link's counter is higher by its clicks in the batch; no other column but updated_at moves.
  ghost predicate Raised(before: Table, after: Table, batch: seq<Click>, now: Time) {
    && after.Keys == before.Keys
    && forall id :: id in after ==>
         after[id] == if CountFor(batch, id) > 0
                      then before[id].(clickCount := before[id].clickCount + CountFor(batch, id), updatedAt := now)
                      else before[id]
  }

  lemma EmptyBatch(db: Db, now: Time)
    ensures Recorded(db, [], now) == db && Reports(db, [], [], [])
    ensures Raised(db.links, db.links, [], now) && ReportsExhausted(db.links, [], [])
  {
    assert Recorded(db, [], now).links == db.links;
    assert db.clicks + [] == db.clicks;
  }

  lemma RecordedRaises(db: Db, batch: seq<Click>, now: Time)
    ensures Raised(db.links, Recorded(db, batch, now).links, batch, now)
  {
  }

  lemma ReportsAreExhausted(db: Db, batch: seq<Click>, now: Time, exhausted: seq<string>, ids: seq<Id>)
    requires Reports(db, batch, exhausted, ids)
    ensures ReportsExhausted(Recorded(db, batch, now).links, batch, exhausted)
  {
    var rows := Recorded(db, batch, now).links;
    forall code
      ensures code in exhausted <==>
              exists id :: id in rows && CountFor(batch, id) > 0 && rows[id].code == code && rows[id].IsExhausted()
    {
      if code in exhausted {
        var k :| 0 <= k < |exhausted| && exhausted[k] == code;
        assert ids[k] in ExhaustedBy(db, batch);
        assert rows[ids[k]].code == code;
      }
      if id :| id in rows && CountFor(batch, id) > 0 && rows[id].code == code && rows[id].IsExhausted() {
        assert id in ids;
        var k :| 0 <= k < |ids| && ids[k] == id;
        assert exhausted[k] == code;
      }
    }
  }

  // The index lists exactly what a scan of the live rows would find.
  ghost predicate Indexes(codes: map<string, Id>, rows: Table) {
    && (forall id :: id in rows ==> rows[id].id == id)
    && (forall c :: c in codes ==> Holds(rows, codes[c], c))
    && (forall id :: id in rows && rows[id].deletedAt.None? ==> rows[id].code in codes && codes[rows[id].code] == id)
  }

  lemma IndexAfterBatch(codes: map<string, Id>, before: Table, after: Table, batch: seq<Click>, now: Time)
    requires Indexes(codes, before) && Raised(before, after, batch, now)
    ensures Indexes(codes, after)
  {
  }

  lemma IndexAfterPurge(codes: map<string, Id>, before: Table, after: Table, tenant: Id, cutoff: Time)
    requires Indexes(codes, before) && WithoutOverdue(before, after, tenant, cutoff)
    ensures Indexes(map c | c in codes && codes[c] in after :: codes[c], after)
  {
  }

  // The rows but the tenant's that expired or were deleted before the cutoff, unchanged.
  ghost predicate WithoutOverdue(before: Table, after: Table, tenant: Id, cutoff: Time) {
    && (forall id :: id in after ==> id in before && after[id] == before[id])
    && (forall id :: id in before ==>
          var l := before[id];
          (id !in after <==> l.tenant == tenant && ((l.expiresAt.Some? && l.expiresAt.value < cutoff) ||
                                                    (l.deletedAt.Some? && l.deletedAt.value < cutoff))))
  }

  lemma PurgeLeaves(t: Table, tenant: Id, cutoff: Time)
    ensures WithoutOverdue(t, Purge(t, tenant, cutoff), tenant, cutoff)
  {
  }

  // How many rows a deletion removed.
  function Fewer(before: Table, after: Table): (n: nat)
    requires after.Keys <= before.Keys
    ensures n == |before| - |after|
  {
    var gone := before.Keys - after.Keys;
    assert before.Keys == after.Keys + gone;
    assert |before| == |before.Keys| && |after| == |after.Keys|;
    |gone|
  }

  /** `codes` is the partial unique index on the codes of live rows: conflicts and by-code reads
      go through it, never through a scan. */
  class Postgres {
    var rows: Table
    var codes: map<string, Id>
    var clicks: seq<Click>

    function Contents(): Db
      reads this
    {
      Db(rows, clicks)
    }

    ghost predicate Consistent()
      reads this
    {
      Indexes(codes, rows)
    }

    lemma IndexIsScan(code: string)
      requires Consistent()
      ensures Valid(rows)
      ensures code in codes <==> Taken(rows, code)
      ensures code in codes ==> codes[code] in rows && ByCode(rows, code) == Some(rows[codes[code]])
    {
      forall i, j, c | Holds(rows, i, c) && Holds(rows, j, c)
        ensures i == j
      {
        assert codes[c] == i && codes[c] == j;
      }
      if code in codes {
        assert Holds(rows, codes[code], code);
      }
    }

    constructor ()
      ensures Consistent() && Contents() == Db(map[], [])
    {
      rows, codes, clicks := map[], map[], [];
    }

    method Create(id: Id, d: Draft, now: Time) returns (r: Result<Link>)
      requires Consistent() && id !in rows
      modifies `rows, `codes
      ensures Consistent()
      ensures (rows, r) == Insert(old(rows), id, d, now)
      ensures r.Ok? <==> forall other :: other in old(rows) && old(rows)[other].code == d.code ==> old(rows)[other].deletedAt.Some?
      ensures r.Ok? ==>
        && rows == old(rows)[id := r.value]
        && r.value == Link(id, d.tenant, d.code, d.target, d.redirectType, d.expiresAt, d.maxClicks, 0, now, now, None)
      ensures r.Err? ==> r == Err(Conflict) && rows == old(rows)
    {
      IndexIsScan(d.code);
      if d.code in codes {
        assert Holds(rows, codes[d.code], d.code);
        return Err(Conflict);
      }
      assert forall other :: other in rows && rows[other].code == d.code ==> !Holds(rows, other, d.code);
      var created := NewLink(id, d, now);
      rows := rows[id := created];
      codes := codes[d.code := id];
      return Ok(created);
    }

    method GetByIDForTenant(tenant: Id, id: Id) returns (r: Result<Link>)
      ensures r == GetOwned(rows, tenant, id)
      ensures r.Ok? <==> id in rows && rows[id].tenant == tenant && rows[id].deletedAt == None
      ensures r == if r.Ok? then Ok(rows[id]) else Err(NotFound)
    {
      if id in rows && rows[id].tenant == tenant && rows[id].deletedAt.None? {
        return Ok(rows[id]);
      }
      return Err(NotFound);
    }

    method GetByCode(code: string) returns (r: Result<Link>)
      requires Consistent()
      ensures r == match ByCode(rows, code) case Some(l) => Ok(l) case None => Err(NotFound)
      ensures r.Ok? <==> exists id :: id in rows && rows[id].code == code && rows[id].deletedAt == None
      ensures r.Ok? ==> r.value.id in rows && rows[r.value.id] == r.value && r.value.code == code && r.value.deletedAt == None
    {
      IndexIsScan(code);
      if code in codes {
        assert Holds(rows, codes[code], code);
        return Ok(rows[codes[code]]);
      }
      assert forall id :: id in rows && rows[id].code == code && rows[id].deletedAt == None ==> Holds(rows, id, code);
      return Err(NotFound);
    }

    method Update(l: Link, now: Time) returns (r: Result<Link>)
      requires Consistent()
      modifies `rows, `codes
      ensures Consistent()
      ensures (rows, r) == Overwrite(old(rows), l, now)
      ensures r == Err(NotFound) <==>
              !(l.id in old(rows) && old(rows)[l.id].tenant == l.tenant && old(rows)[l.id].deletedAt == None)
      ensures r == Err(Conflict) <==>
              && r != Err(NotFound)
              && exists other :: other != l.id && other in old(rows) && old(rows)[other].code == l.code && old(rows)[other].deletedAt == None
      ensures r.Err? ==> rows == old(rows) && (r == Err(NotFound) || r == Err(Conflict))
      ensures r.Ok? ==>
        && rows == old(rows)[l.id := r.value]
        && r.value == old(rows)[l.id].(code := l.code, target := l.target, redirectType := l.redirectType,
                                       expiresAt := l.expiresAt, maxClicks := l.maxClicks, updatedAt := now)
    {
      if !Owned(rows, l.tenant, l.id) {
        return Err(NotFound);
      }
      if l.code in codes && codes[l.code] != l.id {
        assert Holds(rows, codes[l.code], l.code);
        return Err(Conflict);
      }
      var row := rows[l.id];
      var updated := Patched(row, l, now);
      rows := rows[l.id := updated];
      codes := (codes - {row.code})[l.code := l.id];
      return Ok(updated);
    }

    method SoftDelete(tenant: Id, id: Id, now: Time) returns (r: Result<()>)
      requires Consistent()
      modifies `rows, `codes
      ensures Consistent()
      ensures (rows, r) == MarkDeleted(old(rows), tenant, id, now)
      ensures if id in old(rows) && old(rows)[id].tenant == tenant && old(rows)[id].deletedAt == None then
                && r == Ok(())
                && rows == old(rows)[id := old(rows)[id].(deletedAt := Some(now), updatedAt := now)]
                && old(rows)[id].code !in codes && !Taken(rows, old(rows)[id].code)
              else
                r == Err(NotFound) && rows == old(rows)
    {
      if !Owned(rows, tenant, id) {
        return Err(NotFound);
      }
      var row := rows[id];
      rows := rows[id := row.(deletedAt := Some(now), updatedAt := now)];
      codes := codes - {row.code};
      return Ok(());
    }

    method PurgeExpired(tenant: Id, cutoff: Time) returns (n: nat)
      requires Consistent()
      modifies this
      ensures Consistent()
      ensures Contents() == PurgeDb(old(Contents()), tenant, cutoff)
      ensures n == |old(rows)| - |rows|
      ensures WithoutOverdue(old(rows), rows, tenant, cutoff)
      ensures forall c :: multiset(clicks)[c] == if c.link in rows then multiset(old(clicks))[c] else 0
    {
      var kept := Purge(rows, tenant, cutoff);
      PurgeLeaves(rows, tenant, cutoff);
      IndexAfterPurge(codes, rows, kept, tenant, cutoff);
      CascadeKeeps(clicks, kept);
      n := Fewer(rows, kept);
      codes := map c | c in codes && codes[c] in kept :: codes[c];
      rows := kept;
      clicks := Cascade(clicks, kept);
    }

    /** One transaction: COPY the clicks, add each link's share to its counter, commit. `began`,
        `copied` and `committed` say whether Postgres accepted those statements. */
    method RecordBatch(batch: seq<Click>, now: Time, began: bool, copied: bool, committed: bool)
      returns (r: Result<seq<string>>, ghost ids: seq<Id>)
      requires Consistent()
      modifies `rows, `clicks
      ensures Consistent()
      ensures Contents() == AfterBatch(old(Contents()), batch, r.Err?, now)
      ensures r.Err? <==> batch != [] && !(began && copied && committed && AllKnown(old(rows), batch))
      ensures r.Ok? ==> Reports(old(Contents()), batch, r.value, ids)
      ensures clicks == old(clicks) + if r.Ok? then batch else []
      ensures if r.Ok? then Raised(old(rows), rows, batch, now) && ReportsExhausted(rows, batch, r.value) else rows == old(rows)
    {
      ids := [];
      if batch == [] {
        EmptyBatch(Contents(), now);
        return Ok([]), [];
      }
      if !began {
        return Err(Backend), [];
      }
      var counts := Tally(batch);
      if !copied || !AllKnown(rows, batch) {
        return Err(Backend), [];
      }
      var work, exhausted, named := Increment(Contents(), batch, counts, now);
      if !committed {
        return Err(Backend), [];
      }
      ReportsAreExhausted(Contents(), batch, now, exhausted, named);
      RecordedRaises(Contents(), batch, now);
      IndexAfterBatch(codes, rows, work, batch, now);
      rows, clicks := work, clicks + batch;
      return Ok(exhausted), named;
    }
  }
}
