/** Every transaction that changes the tables, and the cache keys its writer then invalidates. */
module Writes {
  import opened Domain
  import opened LinkTable
  import opened ClickLog
  import opened Service

  datatype Commit =
    | MakeLink(tenant: Id, id: Id, create: CreateInput, draws: seq<Draw>)
    | ChangeLink(tenant: Id, id: Id, update: UpdateInput)
    | RemoveLink(tenant: Id, id: Id)
    | Flush(batch: seq<Click>, fault: bool)
    | Sweep(tenant: Id, retention: nat)

  ghost function Apply(p: Policy, db: Db, c: Commit, now: Time): Db {
    match c
    case MakeLink(tenant, id, create, draws) => db.(links := Create(p, db.links, tenant, id, create, draws, now).0)
    case ChangeLink(tenant, id, update) => db.(links := Update(p, db.links, tenant, id, update, now).0)
    case RemoveLink(tenant, id) => db.(links := MarkDeleted(db.links, tenant, id, now).0)
    case Flush(batch, fault) => AfterBatch(db, batch, fault, now)
    case Sweep(tenant, retention) => PurgeDb(db, tenant, now - retention)
  }

  // Neither creation nor the purge touches the cache.
  ghost function Owed(p: Policy, db: Db, c: Commit, now: Time): set<string> {
    match c
    case MakeLink(_, _, _, _) => {}
    case ChangeLink(tenant, id, update) =>
      var r := Update(p, db.links, tenant, id, update, now).1;
      if r.Ok? then {r.value.code} else {}
    case RemoveLink(tenant, id) => if Owned(db.links, tenant, id) then {db.links[id].code} else {}
    case Flush(batch, fault) => if BatchWrites(db, batch, fault) then CodesOf(db.links, ExhaustedBy(db, batch)) else {}
    case Sweep(_, _) => {}
  }

  predicate FreshId(db: Db, c: Commit) {
    c.MakeLink? ==> c.id !in db.links
  }

  ghost predicate Sound(db: Db) {
    Valid(db.links) && CountsMatch(db)
  }

  /** Live codes stay unique, click_count stays the number of rows, through every commit. */
  lemma ApplyKeepsSound(p: Policy, db: Db, c: Commit, now: Time)
    requires Sound(db) && FreshId(db, c)
    ensures Sound(Apply(p, db, c, now))
  {
    var after := Apply(p, db, c, now);
    match c
    case MakeLink(tenant, id, create, draws) =>
      CreateOutcome(p, db.links, tenant, id, create, draws, now);
      var r := Create(p, db.links, tenant, id, create, draws, now).1;
      if r.Ok? {
        InsertKeepsCounts(db, id, DraftOf(p, tenant, create, now).(code := r.value.code), now);
      }
    case ChangeLink(tenant, id, update) =>
      UpdateKeepsValid(p, db.links, tenant, id, update, now);
      if Owned(db.links, tenant, id) && PatchLink(p, db.links[id], update, now).Ok? {
        OverwriteKeepsCounts(db, PatchLink(p, db.links[id], update, now).value, now);
      }
    case RemoveLink(tenant, id) =>
      forall i, code | Holds(after.links, i, code) ensures Holds(db.links, i, code) {}
      FewerLiveRowsKeepValid(db.links, after.links);
      MarkDeletedKeepsCounts(db, tenant, id, now);
    case Flush(batch, fault) =>
      BatchKeepsValid(db, batch, fault, now);
      BatchKeepsCounts(db, batch, fault, now);
    case Sweep(tenant, retention) =>
      forall i, code | Holds(after.links, i, code) ensures Holds(db.links, i, code) {}
      FewerLiveRowsKeepValid(db.links, after.links);
      PurgeKeepsCounts(db, tenant, now - retention);
  }

  // What any commit does to one row that was there before and still is.
  lemma RowAfter(p: Policy, db: Db, c: Commit, now: Time, id: Id)
    requires Sound(db) && FreshId(db, c)
    requires id in db.links && id in Apply(p, db, c, now).links
    ensures var row, after := db.links[id], Apply(p, db, c, now).links[id];
            && after.id == row.id && after.tenant == row.tenant && after.code == row.code
            && after.createdAt == row.createdAt
            && (after.deletedAt.None? ==> row.deletedAt.None?)
            && after.clickCount >= row.clickCount
  {
    match c
    case MakeLink(tenant, new_, create, draws) =>
      CreateOutcome(p, db.links, tenant, new_, create, draws, now);
    case ChangeLink(tenant, i, update) =>
      if Owned(db.links, tenant, i) && PatchLink(p, db.links[i], update, now).Ok? {
        UpdateRewritesOneRow(p, db.links, tenant, i, update, now);
      }
    case RemoveLink(_, _) =>
    case Flush(_, _) =>
    case Sweep(_, _) =>
  }

  /** Every row of the table stays servable: a 301 or a 302, with no limit or one of at least one. */
  lemma ApplyKeepsServable(p: Policy, db: Db, c: Commit, now: Time)
    requires Sound(db) && FreshId(db, c) && forall id :: id in db.links ==> Servable(db.links[id])
    ensures forall id :: id in Apply(p, db, c, now).links ==> Servable(Apply(p, db, c, now).links[id])
  {
    match c
    case MakeLink(tenant, new_, create, draws) =>
      CreateOutcome(p, db.links, tenant, new_, create, draws, now);
    case ChangeLink(tenant, i, update) =>
      if Owned(db.links, tenant, i) && PatchLink(p, db.links[i], update, now).Ok? {
        UpdateRewritesOneRow(p, db.links, tenant, i, update, now);
        PatchLaws(p, db.links[i], update, now);
      }
    case RemoveLink(_, _) =>
    case Flush(_, _) =>
    case Sweep(_, _) =>
  }
}
