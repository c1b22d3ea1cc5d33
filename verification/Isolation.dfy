/** Tenants do not interfere: take all of one tenant's calls out of a run and nobody else can tell,
    as long as the codes that tenant tries are not the ones the others try. */
module Isolation {
  import opened Domain
  import opened LinkTable
  import opened Service

  datatype Op =
    | Make(id: Id, create: CreateInput, draws: seq<Draw>)
    | Fetch(id: Id)
    | List(limit: int, offset: int)
    | Change(id: Id, update: UpdateInput)
    | Remove(id: Id)
    | Sweep(cutoff: Time)

  datatype Call = Call(tenant: Id, now: Time, op: Op)

  datatype Response = OneLink(r: Result<Link>) | Page(links: seq<Link>) | Removed(r0: Result<()>) | Purged(n: nat)

  // --- a tenant's page of links, newest first ---

  function LiveOf(t: Table, tenant: Id): Table {
    map id | id in t && Owned(t, tenant, id) :: t[id]
  }

  ghost predicate IsNewest(rows: Table, id: Id) {
    id in rows && forall j :: j in rows ==> rows[j].createdAt <= rows[id].createdAt
  }

  lemma {:induction false} NewestExists(rows: Table)
    requires rows != map[]
    ensures exists id :: IsNewest(rows, id)
  {
    var id :| id in rows;
    var rest := rows - {id};
    assert forall j :: j in rows ==> j == id || j in rest;
    if rest == map[] {
      assert IsNewest(rows, id);
    } else {
      NewestExists(rest);
      var n :| IsNewest(rest, n);
      assert IsNewest(rows, if rows[id].createdAt >= rest[n].createdAt then id else n);
    }
  }

  // Ties are broken in some fixed way.
  ghost function NewestFirst(rows: Table): seq<Link>
    decreases |rows|
  {
    if rows == map[] then []
    else
      NewestExists(rows);
      var id :| IsNewest(rows, id);
      assert (rows - {id}).Keys == rows.Keys - {id};
      [rows[id]] + NewestFirst(rows - {id})
  }

  ghost predicate Ordered(links: seq<Link>) {
    forall i, j :: 0 <= i < j < |links| ==> links[j].createdAt <= links[i].createdAt
  }

  // Every row once, never an older one before a newer one.
  lemma {:induction false} NewestFirstIsOrdered(rows: Table)
    ensures |NewestFirst(rows)| == |rows|
    ensures forall id :: id in rows ==> rows[id] in NewestFirst(rows)
    ensures forall l :: l in NewestFirst(rows) ==> exists id :: id in rows && rows[id] == l
    ensures Ordered(NewestFirst(rows))
    decreases |rows|
  {
    if rows != map[] {
      NewestExists(rows);
      var id :| IsNewest(rows, id) && NewestFirst(rows) == [rows[id]] + NewestFirst(rows - {id});
      var rest := rows - {id};
      assert rest.Keys == rows.Keys - {id};
      assert |rest| == |rest.Keys| == |rows| - 1;
      NewestFirstIsOrdered(rest);
      forall k | k in rows
        ensures rows[k] in NewestFirst(rows)
      {
        assert k != id ==> k in rest && rest[k] == rows[k];
      }
      NewestThenOrdered(rows[id], NewestFirst(rest));
    }
  }

  lemma NewestThenOrdered(l: Link, links: seq<Link>)
    requires Ordered(links) && forall k :: k in links ==> k.createdAt <= l.createdAt
    ensures Ordered([l] + links)
  {
  }

  function Slice(links: seq<Link>, limit: nat, offset: nat): seq<Link> {
    if offset >= |links| then []
    else if offset + limit >= |links| then links[offset..]
    else links[offset..offset + limit]
  }

  ghost function ListPage(t: Table, tenant: Id, limit: int, offset: int): seq<Link> {
    Slice(NewestFirst(LiveOf(t, tenant)),
          if limit <= 0 || limit > 100 then 50 else limit,
          if offset < 0 then 0 else offset)
  }

  /** A page: the tenant's own live rows, newest first, as many as are left up to the limit, which is 50
      unless it lies in 1 to 100. */
  lemma PageIs(t: Table, tenant: Id, limit: int, offset: int)
    ensures var page := ListPage(t, tenant, limit, offset);
            var most := if 1 <= limit <= 100 then limit else 50;
            var left := |LiveIds(t, tenant)| - if offset < 0 then 0 else offset;
            && |page| == (if left < 0 then 0 else if left < most then left else most)
            && Ordered(page)
            && forall l :: l in page ==> exists id :: id in LiveIds(t, tenant) && t[id] == l
  {
    AllLive(t, tenant);
    SliceIs(NewestFirst(LiveOf(t, tenant)), if limit <= 0 || limit > 100 then 50 else limit, if offset < 0 then 0 else offset);
    PageRows(t, tenant, limit, offset);
  }

  // One page starts where the one before it stopped.
  lemma PagesContinue(t: Table, tenant: Id, limit: int, offset: int)
    requires 1 <= limit <= 50 && offset >= 0
    ensures ListPage(t, tenant, limit, offset) + ListPage(t, tenant, limit, offset + limit) == ListPage(t, tenant, 2 * limit, offset)
  {
    SliceIs(NewestFirst(LiveOf(t, tenant)), limit, offset);
  }

  lemma AllLive(t: Table, tenant: Id)
    ensures |NewestFirst(LiveOf(t, tenant))| == |LiveIds(t, tenant)| && Ordered(NewestFirst(LiveOf(t, tenant)))
  {
    var rows := LiveOf(t, tenant);
    NewestFirstIsOrdered(rows);
    assert rows.Keys == LiveIds(t, tenant);
    assert |rows| == |rows.Keys|;
  }

  lemma SliceIs(links: seq<Link>, limit: nat, offset: nat)
    ensures var left := |links| - offset;
            |Slice(links, limit, offset)| == if left < 0 then 0 else if left < limit then left else limit
    ensures Ordered(links) ==> Ordered(Slice(links, limit, offset))
    ensures Slice(links, limit, offset) + Slice(links, limit, offset + limit) == Slice(links, 2 * limit, offset)
  {
  }

  lemma PageRows(t: Table, tenant: Id, limit: int, offset: int)
    ensures forall l :: l in ListPage(t, tenant, limit, offset) ==> exists id :: id in LiveIds(t, tenant) && t[id] == l
  {
    var rows := LiveOf(t, tenant);
    NewestFirstIsOrdered(rows);
    forall l | l in ListPage(t, tenant, limit, offset)
      ensures exists id :: id in LiveIds(t, tenant) && t[id] == l
    {
      assert l in NewestFirst(rows);
      var id :| id in rows && rows[id] == l;
      assert id in LiveIds(t, tenant);
    }
  }

  function LiveIds(t: Table, tenant: Id): set<Id> {
    set id | id in t && t[id].tenant == tenant && t[id].deletedAt == None
  }

  // --- calls ---

  ghost function Exec(p: Policy, t: Table, c: Call): (Table, Response) {
    match c.op
    case Make(id, create, draws) =>
      var (u, r) := Create(p, t, c.tenant, id, create, draws, c.now);
      (u, OneLink(r))
    case Fetch(id) => (t, OneLink(GetOwned(t, c.tenant, id)))
    case List(limit, offset) => (t, Page(ListPage(t, c.tenant, limit, offset)))
    case Change(id, update) =>
      var (u, r) := Update(p, t, c.tenant, id, update, c.now);
      (u, OneLink(r))
    case Remove(id) =>
      var (u, r) := MarkDeleted(t, c.tenant, id, c.now);
      (u, Removed(r))
    case Sweep(cutoff) => (Purge(t, c.tenant, cutoff), Purged(|PurgedOf(t, c.tenant, cutoff)|))
  }

  function PurgedOf(t: Table, tenant: Id, cutoff: Time): set<Id> {
    set id | id in t && Purgeable(t[id], tenant, cutoff)
  }

  // The codes a call may try to take.
  function Tried(c: Call): set<string> {
    if !c.op.Make? then {}
    else if c.op.create.alias != "" then {c.op.create.alias}
    else set d | d in c.op.draws && d.Drew? :: d.code
  }

  predicate Fresh(t: Table, c: Call) {
    c.op.Make? ==> c.op.id !in t
  }

  ghost predicate Runs(p: Policy, t: Table, calls: seq<Call>)
    decreases |calls|
  {
    calls != [] ==> Fresh(t, calls[0]) && Runs(p, Exec(p, t, calls[0]).0, calls[1..])
  }

  ghost function FinalTable(p: Policy, t: Table, calls: seq<Call>): Table
    decreases |calls|
  {
    if calls == [] then t else FinalTable(p, Exec(p, t, calls[0]).0, calls[1..])
  }

  // The responses to everyone but the tenant a.
  ghost function Heard(p: Policy, t: Table, calls: seq<Call>, a: Id): seq<Response>
    decreases |calls|
  {
    if calls == [] then []
    else
      var (u, r) := Exec(p, t, calls[0]);
      (if calls[0].tenant == a then [] else [r]) + Heard(p, u, calls[1..], a)
  }

  function WithoutTenant(calls: seq<Call>, a: Id): seq<Call> {
    if calls == [] then []
    else (if calls[0].tenant == a then [] else [calls[0]]) + WithoutTenant(calls[1..], a)
  }

  // --- the simulation ---

  function Others(t: Table, a: Id): Table {
    map id | id in t && t[id].tenant != a :: t[id]
  }

  // Tenant a's rows carry codes from `mine`, everyone else's do not.
  ghost predicate Apart(t: Table, a: Id, mine: set<string>) {
    forall id :: id in t ==> (t[id].tenant == a <==> t[id].code in mine)
  }

  predicate KeepsApart(c: Call, a: Id, mine: set<string>) {
    if c.tenant == a then Tried(c) <= mine else Tried(c) !! mine
  }

  lemma OthersKeepCodes(t: Table, a: Id, mine: set<string>, code: string)
    requires Apart(t, a, mine) && code !in mine
    ensures Taken(t, code) <==> Taken(Others(t, a), code)
  {
    if Taken(t, code) {
      var id :| Holds(t, id, code);
      assert Holds(Others(t, a), id, code);
    }
    if Taken(Others(t, a), code) {
      var id :| Holds(Others(t, a), id, code);
      assert Holds(t, id, code);
    }
  }

  lemma OthersKeepValid(t: Table, a: Id)
    requires Valid(t)
    ensures Valid(Others(t, a))
  {
    forall id, c | Holds(Others(t, a), id, c) ensures Holds(t, id, c) {}
    FewerLiveRowsKeepValid(t, Others(t, a));
  }

  lemma {:induction false} AllocateAlike(t: Table, a: Id, mine: set<string>, id: Id, d: Draft, draws: seq<Draw>, k: nat, max: nat, now: Time)
    requires Apart(t, a, mine)
    requires forall i :: 0 <= i < |draws| && draws[i].Drew? ==> draws[i].code !in mine
    ensures Allocate(t, id, d, draws, k, max, now).1 == Allocate(Others(t, a), id, d, draws, k, max, now).1
    decreases max - k
  {
    if k < max && DrawnAt(draws, k) {
      OthersKeepCodes(t, a, mine, draws[k].code);
      AllocateAlike(t, a, mine, id, d, draws, k + 1, max, now);
    }
  }

  lemma MakeAlike(p: Policy, t: Table, a: Id, mine: set<string>, c: Call)
    requires Valid(t) && Apart(t, a, mine) && c.op.Make? && c.tenant != a && Fresh(t, c) && KeepsApart(c, a, mine)
    ensures Exec(p, t, c).1 == Exec(p, Others(t, a), c).1
    ensures Others(Exec(p, t, c).0, a) == Exec(p, Others(t, a), c).0
  {
    OthersKeepValid(t, a);
    CreateOutcome(p, t, c.tenant, c.op.id, c.op.create, c.op.draws, c.now);
    CreateOutcome(p, Others(t, a), c.tenant, c.op.id, c.op.create, c.op.draws, c.now);
    var d := DraftOf(p, c.tenant, c.op.create, c.now);
    if c.op.create.alias != "" {
      OthersKeepCodes(t, a, mine, c.op.create.alias);
    } else {
      forall i | 0 <= i < |c.op.draws| && c.op.draws[i].Drew?
        ensures c.op.draws[i].code !in mine
      {
        assert c.op.draws[i].code in Tried(c);
      }
      AllocateAlike(t, a, mine, c.op.id, d, c.op.draws, 0, if p.maxCollision < 1 then 1 else p.maxCollision, c.now);
    }
  }

  lemma ChangeAlike(p: Policy, t: Table, a: Id, c: Call)
    requires Valid(t) && c.op.Change? && c.tenant != a
    ensures Exec(p, t, c).1 == Exec(p, Others(t, a), c).1
    ensures Others(Exec(p, t, c).0, a) == Exec(p, Others(t, a), c).0
  {
    OthersKeepValid(t, a);
    if Owned(t, c.tenant, c.op.id) && PatchLink(p, t[c.op.id], c.op.update, c.now).Ok? {
      UpdateRewritesOneRow(p, t, c.tenant, c.op.id, c.op.update, c.now);
      UpdateRewritesOneRow(p, Others(t, a), c.tenant, c.op.id, c.op.update, c.now);
    }
  }

  // Anyone else's call answers the same, and does the same, with or without a's rows.
  lemma OthersCall(p: Policy, t: Table, a: Id, mine: set<string>, c: Call)
    requires Valid(t) && Apart(t, a, mine) && c.tenant != a && Fresh(t, c) && KeepsApart(c, a, mine)
    ensures Exec(p, t, c).1 == Exec(p, Others(t, a), c).1
    ensures Others(Exec(p, t, c).0, a) == Exec(p, Others(t, a), c).0
  {
    match c.op
    case Make(_, _, _) => MakeAlike(p, t, a, mine, c);
    case Fetch(_) =>
    case List(_, _) => assert LiveOf(t, c.tenant) == LiveOf(Others(t, a), c.tenant);
    case Change(_, _) => ChangeAlike(p, t, a, c);
    case Remove(_) =>
    case Sweep(cutoff) => assert PurgedOf(t, c.tenant, cutoff) == PurgedOf(Others(t, a), c.tenant, cutoff);
  }

  // Tenant a's calls leave everyone else's rows alone.
  lemma OwnCall(p: Policy, t: Table, a: Id, c: Call)
    requires Valid(t) && c.tenant == a && Fresh(t, c)
    ensures Others(Exec(p, t, c).0, a) == Others(t, a)
  {
    match c.op
    case Make(id, create, draws) => CreateOutcome(p, t, a, id, create, draws, c.now);
    case Change(id, update) =>
      if Owned(t, a, id) && PatchLink(p, t[id], update, c.now).Ok? {
        UpdateRewritesOneRow(p, t, a, id, update, c.now);
      }
    case _ =>
  }

  lemma StepKeeps(p: Policy, t: Table, a: Id, mine: set<string>, c: Call)
    requires Valid(t) && Apart(t, a, mine) && Fresh(t, c) && KeepsApart(c, a, mine)
    ensures Valid(Exec(p, t, c).0) && Apart(Exec(p, t, c).0, a, mine)
  {
    var u := Exec(p, t, c).0;
    match c.op
    case Make(id, create, draws) =>
      CreateOutcome(p, t, c.tenant, id, create, draws, c.now);
      AllocatedWasDrawn(t, id, DraftOf(p, c.tenant, create, c.now), draws, 0, if p.maxCollision < 1 then 1 else p.maxCollision, c.now);
    case Change(id, update) =>
      UpdateKeepsValid(p, t, c.tenant, id, update, c.now);
      if Owned(t, c.tenant, id) && PatchLink(p, t[id], update, c.now).Ok? {
        UpdateRewritesOneRow(p, t, c.tenant, id, update, c.now);
      }
    case _ =>
      forall i, code | Holds(u, i, code) ensures Holds(t, i, code) {}
      FewerLiveRowsKeepValid(t, u);
  }

  /** Noninterference over two runs. Delete all of tenant a's calls from any run in which a tries
      codes from `mine` and everyone else tries others: every response to everyone else is the same,
      and so is every row they own at the end. */
  lemma {:induction false} Noninterference(p: Policy, t: Table, calls: seq<Call>, a: Id, mine: set<string>)
    requires Valid(t) && Apart(t, a, mine) && Runs(p, t, calls)
    requires forall i :: 0 <= i < |calls| ==> KeepsApart(calls[i], a, mine)
    ensures Runs(p, Others(t, a), WithoutTenant(calls, a))
    ensures Heard(p, Others(t, a), WithoutTenant(calls, a), a) == Heard(p, t, calls, a)
    ensures FinalTable(p, Others(t, a), WithoutTenant(calls, a)) == Others(FinalTable(p, t, calls), a)
    decreases |calls|
  {
    if calls != [] {
      var c, rest := calls[0], calls[1..];
      var u := Exec(p, t, c).0;
      StepKeeps(p, t, a, mine, c);
      Noninterference(p, u, rest, a, mine);
      if c.tenant == a {
        OwnCall(p, t, a, c);
        assert WithoutTenant(calls, a) == WithoutTenant(rest, a);
      } else {
        OthersCall(p, t, a, mine, c);
        assert WithoutTenant(calls, a)[1..] == WithoutTenant(rest, a);
      }
    }
  }
}
