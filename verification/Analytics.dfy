/** The click pipeline's own operations: offering a click, and flushing one batch to the tables, the
    webhook hook and the redirect cache. */
module Analytics {
  import opened Domain
  import opened ClickLog
  import opened Cache
  import opened Repository
  import Coarse
  import Ingest
  import Notifier

  class Pipeline {
    const bufferSize: nat
    const db: Postgres
    const cache: LinkCache
    var quit: bool
    var input: seq<Click>
    var enqueued: nat
    var dropped: nat
    var flushed: nat
    var hooked: seq<Notifier.Clicked>

    constructor (bufferSize: nat, db: Postgres, cache: LinkCache)
      ensures this.bufferSize == bufferSize && this.db == db && this.cache == cache
      ensures !quit && input == [] && enqueued == dropped == flushed == 0 && hooked == []
    {
      this.bufferSize, this.db, this.cache := bufferSize, db, cache;
      quit, input, enqueued, dropped, flushed, hooked := false, [], 0, 0, 0, [];
    }

    /** Never blocks. `p` is the pool as the interleavings see it, with no other sender in flight. */
    method Enqueue(c: Click, cfg: Ingest.Config, ghost p: Ingest.State) returns (ok: bool)
      requires cfg.cap == bufferSize && p.queue == input && p.quit == quit && p.pending == []
      modifies `input, `enqueued, `dropped
      ensures ok <==> !quit && |old(input)| < bufferSize
      ensures input == old(input) + if ok then [c] else []
      ensures enqueued == old(enqueued) + if ok then 1 else 0
      ensures dropped == old(dropped) + if !ok && !quit then 1 else 0
      ensures var n := Ingest.Enqueued(cfg, p, c);
              n.queue == input && n.pending == [] &&
              |n.sent| - |p.sent| == enqueued - old(enqueued) && |n.dropped| - |p.dropped| == dropped - old(dropped)
    {
      if quit {
        return false;
      }
      if |input| < bufferSize {
        input := input + [c];
        enqueued := enqueued + 1;
        return true;
      }
      dropped := dropped + 1;
      return false;
    }

    // Did the batch commit? `up` stands for the transaction's own statements.
    ghost predicate Wrote(batch: seq<Click>, up: bool)
      reads db
    {
      batch == [] || BatchWrites(db.Contents(), batch, !up)
    }

    /** One batch: the transaction, then the hook, then an invalidation for each link it exhausted;
        `down` are the codes whose invalidation Redis refuses. The tables and the cache end up as the
        Flush commit says, up to those codes; after a failed batch nothing has changed. */
    method Flush(batch: seq<Click>, now: Time, up: bool, down: set<string>)
      requires db.Consistent() && cache.Valid()
      modifies `flushed, `hooked, db`rows, db`clicks, cache
      ensures db.Consistent() && cache.Valid()
      ensures db.Contents() == AfterBatch(old(db.Contents()), batch, !old(Wrote(batch, up)), now)
      ensures flushed == old(flushed) + if old(Wrote(batch, up)) then |batch| else 0
      ensures cache.view ==
              if old(Wrote(batch, up)) then
                Coarse.DropAll(old(cache.view), CodesOf(old(db.rows), ExhaustedBy(old(db.Contents()), batch)) - down)
              else old(cache.view)
      ensures if old(Wrote(batch, up)) then Announces(old(hooked), hooked, batch) else hooked == old(hooked)
    {
      var exhausted, ids := db.RecordBatch(batch, now, up, up, up);
      if exhausted.Err? {
        return;
      }
      flushed := flushed + |batch|;
      var events := Notifier.ClicksFlushed(batch);
      hooked := hooked + events;
      assert hooked[|old(hooked)|..] == events;
      Codes(old(db.Contents()), batch, exhausted.value, ids);
      InvalidateAll(exhausted.value, down);
    }

    method InvalidateAll(codes: seq<string>, down: set<string>)
      requires cache.Valid()
      modifies cache
      ensures cache.Valid()
      ensures cache.view == Coarse.DropAll(old(cache.view), Reached(codes, down))
    {
      assert Coarse.DropAll(cache.view, {}) == cache.view;
      assert Reached(codes[..0], down) == {};
      for i := 0 to |codes|
        invariant cache.Valid()
        invariant cache.view == Coarse.DropAll(old(cache.view), Reached(codes[..i], down))
      {
        var _ := cache.Invalidate(codes[i], codes[i] !in down);
        ReachOne(codes, i, down);
        DropOneMore(old(cache.view), Reached(codes[..i], down), codes[i]);
      }
      assert codes[..|codes|] == codes;
    }
  }

  // The codes whose invalidation goes through.
  function Reached(codes: seq<string>, down: set<string>): set<string> {
    set c | c in codes && c !in down
  }

  lemma ReachOne(codes: seq<string>, i: nat, down: set<string>)
    requires i < |codes|
    ensures Reached(codes[..i + 1], down) == Reached(codes[..i], down) + if codes[i] in down then {} else {codes[i]}
  {
    assert codes[..i + 1] == codes[..i] + [codes[i]];
  }

  lemma DropOneMore(m: Store, codes: set<string>, c: string)
    ensures Drop(Coarse.DropAll(m, codes), c) == Coarse.DropAll(m, codes + {c})
  {
  }

  // After `before` come events, one per link of the batch, with the clicks the batch adds to it.
  ghost predicate Announces(before: seq<Notifier.Clicked>, after: seq<Notifier.Clicked>, batch: seq<Click>) {
    && before <= after
    && var events := after[|before|..];
    && (forall i, j :: 0 <= i < j < |events| ==> events[i].link != events[j].link)
    && (forall i :: 0 <= i < |events| ==>
          events[i].count == CountFor(batch, events[i].link) > 0 &&
          Notifier.FirstTenant(batch, events[i].link) == Some(events[i].tenant))
    && (forall id :: CountFor(batch, id) > 0 ==> exists i :: 0 <= i < |events| && events[i].link == id)
  }

  // The codes reported are the codes of the links exhausted.
  lemma Codes(db: Db, batch: seq<Click>, exhausted: seq<string>, ids: seq<Id>)
    requires Reports(db, batch, exhausted, ids)
    ensures forall down :: Reached(exhausted, down) == CodesOf(db.links, ExhaustedBy(db, batch)) - down
  {
    forall c
      ensures c in exhausted <==> c in CodesOf(db.links, ExhaustedBy(db, batch))
    {
      if c in exhausted {
        var k :| 0 <= k < |exhausted| && exhausted[k] == c;
        assert ids[k] in ExhaustedBy(db, batch);
      }
      if c in CodesOf(db.links, ExhaustedBy(db, batch)) {
        var id :| id in ExhaustedBy(db, batch) && db.links[id].code == c;
        assert id in ids;
        var k :| 0 <= k < |ids| && ids[k] == id;
        assert exhausted[k] == c;
      }
    }
  }
}
