/** The clicks table beside the links table, and what one batch does to both. */
module ClickLog {
  import opened Domain
  import opened LinkTable

  datatype Db = Db(links: Table, clicks: seq<Click>)

  function CountFor(cs: seq<Click>, id: Id): nat {
    if cs == [] then 0
    else CountFor(cs[..|cs| - 1], id) + if cs[|cs| - 1].link == id then 1 else 0
  }

  lemma CountAppend(cs: seq<Click>, c: Click, id: Id)
    ensures CountFor(cs + [c], id) == CountFor(cs, id) + if c.link == id then 1 else 0
  {
    assert (cs + [c])[..|cs|] == cs;
  }

  lemma {:induction false} CountConcat(a: seq<Click>, b: seq<Click>, id: Id)
    ensures CountFor(a + b, id) == CountFor(a, id) + CountFor(b, id)
  {
    if b == [] {
      assert a + b == a;
    } else {
      var front, c := b[..|b| - 1], b[|b| - 1];
      assert a + b == (a + front) + [c] && b == front + [c];
      CountConcat(a, front, id);
      CountAppend(a + front, c, id);
      CountAppend(front, c, id);
    }
  }

  lemma {:induction false} CountPositive(cs: seq<Click>, id: Id)
    ensures CountFor(cs, id) > 0 <==> exists c :: c in cs && c.link == id
    ensures CountFor(cs, id) <= |cs|
  {
    if cs != [] {
      var front, last := cs[..|cs| - 1], cs[|cs| - 1];
      assert cs == front + [last];
      CountPositive(front, id);
      assert forall c :: c in cs <==> c in front || c == last;
    }
  }

  lemma CountWithout(cs: seq<Click>, k: nat, id: Id)
    requires k < |cs|
    ensures CountFor(cs, id) == CountFor(cs[..k] + cs[k + 1..], id) + if cs[k].link == id then 1 else 0
    ensures multiset(cs[..k] + cs[k + 1..]) == multiset(cs) - multiset{cs[k]}
  {
    assert cs == cs[..k] + [cs[k]] + cs[k + 1..];
    CountConcat(cs[..k] + [cs[k]], cs[k + 1..], id);
    CountConcat(cs[..k], cs[k + 1..], id);
    CountAppend(cs[..k], cs[k], id);
  }

  // Counting does not depend on order.
  lemma {:induction false} CountPermutation(a: seq<Click>, b: seq<Click>, id: Id)
    requires multiset(a) == multiset(b)
    ensures CountFor(a, id) == CountFor(b, id)
  {
    if a == [] {
      assert |multiset(b)| == 0;
    } else {
      var front, last := a[..|a| - 1], a[|a| - 1];
      assert a == front + [last];
      assert last in b by {
        assert last in multiset(b);
      }
      var k :| 0 <= k < |b| && b[k] == last;
      CountWithout(b, k, id);
      CountPermutation(front, b[..k] + b[k + 1..], id);
    }
  }

  // The positions of a link's clicks.
  function Positions(cs: seq<Click>, id: Id): set<nat> {
    set i: nat | i < |cs| && cs[i].link == id
  }

  lemma {:induction false} CountIsPositions(cs: seq<Click>, id: Id)
    ensures CountFor(cs, id) == |Positions(cs, id)|
  {
    if cs != [] {
      var n := |cs| - 1;
      CountIsPositions(cs[..n], id);
      assert Positions(cs, id) == Positions(cs[..n], id) + if cs[n].link == id then {n} else {};
    }
  }

  // ON DELETE CASCADE: the clicks whose link row is still there.
  function Cascade(cs: seq<Click>, links: Table): seq<Click> {
    if cs == [] then []
    else Cascade(cs[..|cs| - 1], links) + if cs[|cs| - 1].link in links then [cs[|cs| - 1]] else []
  }

  lemma {:induction false} CascadeCounts(cs: seq<Click>, links: Table, id: Id)
    ensures CountFor(Cascade(cs, links), id) == if id in links then CountFor(cs, id) else 0
    ensures forall c :: c in Cascade(cs, links) <==> c in cs && c.link in links
  {
    if cs != [] {
      var front, last := cs[..|cs| - 1], cs[|cs| - 1];
      assert cs == front + [last];
      CascadeCounts(front, links, id);
      CountAppend(Cascade(front, links), last, id);
      assert Cascade(front, links) + [] == Cascade(front, links);
    }
  }

  lemma {:induction false} CascadeKeeps(cs: seq<Click>, links: Table)
    ensures forall c :: multiset(Cascade(cs, links))[c] == if c.link in links then multiset(cs)[c] else 0
  {
    if cs != [] {
      var front, last := cs[..|cs| - 1], cs[|cs| - 1];
      assert cs == front + [last];
      CascadeKeeps(front, links);
    }
  }

  function PurgeDb(db: Db, tenant: Id, cutoff: Time): Db {
    var links := Purge(db.links, tenant, cutoff);
    Db(links, Cascade(db.clicks, links))
  }

  // The foreign key of clicks.link_id, for a batch about to be copied in.
  predicate AllKnown(links: Table, batch: seq<Click>) {
    forall c :: c in batch ==> c.link in links
  }

  function Bumped(l: Link, n: nat, now: Time): Link {
    if n == 0 then l else l.(clickCount := l.clickCount + n, updatedAt := now)
  }

  function Recorded(db: Db, batch: seq<Click>, now: Time): Db {
    Db(map id | id in db.links :: Bumped(db.links[id], CountFor(batch, id), now), db.clicks + batch)
  }

  // The links of the batch whose count, after the batch, has reached their limit.
  function ExhaustedBy(db: Db, batch: seq<Click>): set<Id> {
    set id | id in db.links && CountFor(batch, id) > 0 &&
             db.links[id].maxClicks.Some? && db.links[id].clickCount + CountFor(batch, id) >= db.links[id].maxClicks.value
  }

  function CodesOf(links: Table, ids: set<Id>): set<string> {
    set id | id in ids && id in links :: links[id].code
  }

  // One RecordBatch: all of it or none of it. `fault` is a failed transaction for any other reason.
  function BatchWrites(db: Db, batch: seq<Click>, fault: bool): bool {
    !fault && AllKnown(db.links, batch)
  }

  function AfterBatch(db: Db, batch: seq<Click>, fault: bool, now: Time): Db {
    if BatchWrites(db, batch, fault) then Recorded(db, batch, now) else db
  }

  // --- click_count is the number of rows ---

  ghost predicate CountsMatch(db: Db) {
    && (forall id :: id in db.links ==> db.links[id].clickCount == CountFor(db.clicks, id))
    && AllKnown(db.links, db.clicks)
  }

  lemma InsertKeepsCounts(db: Db, id: Id, d: Draft, now: Time)
    requires CountsMatch(db) && id !in db.links
    ensures CountsMatch(db.(links := Insert(db.links, id, d, now).0))
  {
    CountPositive(db.clicks, id);
  }

  lemma OverwriteKeepsCounts(db: Db, l: Link, now: Time)
    requires CountsMatch(db)
    ensures CountsMatch(db.(links := Overwrite(db.links, l, now).0))
  {
  }

  lemma MarkDeletedKeepsCounts(db: Db, tenant: Id, id: Id, now: Time)
    requires CountsMatch(db)
    ensures CountsMatch(db.(links := MarkDeleted(db.links, tenant, id, now).0))
  {
  }

  lemma PurgeKeepsCounts(db: Db, tenant: Id, cutoff: Time)
    requires CountsMatch(db)
    ensures CountsMatch(PurgeDb(db, tenant, cutoff))
  {
    var links := Purge(db.links, tenant, cutoff);
    forall id | id in links
      ensures links[id].clickCount == CountFor(Cascade(db.clicks, links), id)
    {
      CascadeCounts(db.clicks, links, id);
    }
    CascadeCounts(db.clicks, links, 0);
  }

  lemma BatchKeepsCounts(db: Db, batch: seq<Click>, fault: bool, now: Time)
    requires CountsMatch(db)
    ensures CountsMatch(AfterBatch(db, batch, fault, now))
  {
    forall id | id in db.links
      ensures CountFor(db.clicks + batch, id) == CountFor(db.clicks, id) + CountFor(batch, id)
    {
      CountConcat(db.clicks, batch, id);
    }
  }

  lemma BatchKeepsValid(db: Db, batch: seq<Click>, fault: bool, now: Time)
    requires Valid(db.links)
    ensures Valid(AfterBatch(db, batch, fault, now).links)
  {
    var u := AfterBatch(db, batch, fault, now).links;
    forall i, j, c | Holds(u, i, c) && Holds(u, j, c)
      ensures i == j
    {
      assert Holds(db.links, i, c) && Holds(db.links, j, c);
    }
  }

  // After a batch that wrote, the links it reports are its links that are exhausted now.
  lemma ExhaustedByIsExhausted(db: Db, batch: seq<Click>, now: Time, id: Id)
    requires id in db.links
    ensures id in ExhaustedBy(db, batch) <==>
            CountFor(batch, id) > 0 && Recorded(db, batch, now).links[id].IsExhausted()
  {
  }
}
