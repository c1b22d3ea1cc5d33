/** How far past its limit a link really is served: runs that attain the bound, and runs that pass any
    bound while a refused invalidation is outstanding. */
module Excess {
  import opened Domain
  import opened LinkTable
  import opened ClickLog
  import opened Cache
  import opened Redirect
  import opened Service
  import opened Writes
  import Coarse
  import Ingest
  import Pipeline
  import Shortcode
  import opened Overshoot

  const AllUp := Faults(true, true, true)

  const ALIAS := "abc"

  function ClickOn(id: Id): Click {
    Click(id, 0, 0, "", "", "")
  }

  ghost predicate Reaches(cfg: Config, start: Time, acts: seq<Action>, s: State) {
    Runs(cfg, Init(cfg, start), acts) && Run(cfg, Init(cfg, start), acts) == s
  }

  lemma {:induction false} RunExtend(cfg: Config, s: State, acts: seq<Action>, a: Action)
    requires Runs(cfg, s, acts) && Enabled(cfg, Run(cfg, s, acts), a)
    ensures Runs(cfg, s, acts + [a]) && Run(cfg, s, acts + [a]) == Next(cfg, Run(cfg, s, acts), a)
    decreases |acts|
  {
    if acts == [] {
      assert [] + [a] == [a] && [a][1..] == [];
    } else {
      assert (acts + [a])[1..] == acts[1..] + [a];
      RunExtend(cfg, Next(cfg, s, acts[0]), acts[1..], a);
    }
  }

  // --- the pool while nothing is refused, dropped or lost ---

  // Workers below w hold all they can, w holds k, the others nothing.
  ghost predicate Loads(cfg: Ingest.Config, p: Ingest.State, w: nat, k: nat) {
    && |p.workers| == cfg.workers
    && forall i :: 0 <= i < |p.workers| ==>
         p.workers[i].mode == Ingest.Running &&
         |p.workers[i].batch| == if i < w then cfg.size - 1 else if i == w then k else 0
  }

  ghost predicate Open(p: Ingest.State, id: Id) {
    && !p.quit && p.pending == [] && p.dropped == [] && p.rejected == []
    && Ingest.Outcome(p.calls, false) == []
    && (forall c :: c in p.queue ==> c.link == id)
  }

  // One row in the table, and a snapshot of it that serves.
  ghost predicate Hot(s: Coarse.State, code: string, id: Id, limit: int) {
    && s.db.links.Keys == {id} && s.db.links[id].code == code && s.db.links[id].maxClicks == Some(limit)
    && code in s.cache && s.now < s.cache[code].expireAt
    && match s.cache[code].entry
       case Negative => false
       case Positive(c) => c.id == id && c.maxClicks == Some(limit) && ToDomain(c).IsActive(s.now)
  }

  lemma HotAnswers(cfg: Config, s: State, code: string, id: Id, limit: int)
    requires Hot(s.core, code, id, limit)
    ensures Answer(cfg, s, code, AllUp).Ok?
    ensures Answer(cfg, s, code, AllUp).value.id == id && Answer(cfg, s, code, AllUp).value.maxClicks == Some(limit)
  {
  }

  lemma ServeStep(cfg: Config, s: State, code: string, id: Id, limit: int)
    requires Hot(s.core, code, id, limit) && Open(s.pipe, id) && |s.pipe.queue| < cfg.pool.cap
    ensures var a := Serve(code, AllUp, ClickOn(id));
            Enabled(cfg, s, a) &&
            var n := Next(cfg, s, a);
            && n.core == s.core && Open(n.pipe, id) && n.late == Late(s, code, ClickOn(id))
            && n.pipe == s.pipe.(queue := s.pipe.queue + [ClickOn(id)], offered := s.pipe.offered + [ClickOn(id)],
                                 sent := s.pipe.sent + [ClickOn(id)])
  {
    HotAnswers(cfg, s, code, id, limit);
    var checked := Ingest.Next(cfg.pool, s.pipe, Ingest.Check(ClickOn(id)));
    assert Ingest.Without(checked.pending, 0) == [];
  }

  // A worker with room takes a click without flushing.
  lemma TakeStep(cfg: Config, s: State, w: nat, k: nat, id: Id)
    requires Open(s.pipe, id) && Loads(cfg.pool, s.pipe, w, k) && w < cfg.pool.workers
    requires k + 1 < cfg.pool.size && s.pipe.queue != []
    ensures var a := Work(Ingest.Take(w, true), false, {});
            Enabled(cfg, s, a) &&
            var n := Next(cfg, s, a);
            && n.core == s.core && n.late == s.late && Open(n.pipe, id) && Loads(cfg.pool, n.pipe, w, k + 1)
            && n.pipe.queue == s.pipe.queue[1..] && n.pipe.offered == s.pipe.offered && n.pipe.calls == s.pipe.calls
            && n.pipe.workers[w].batch == s.pipe.workers[w].batch + [s.pipe.queue[0]]
  {
    assert s.pipe.queue == [s.pipe.queue[0]] + s.pipe.queue[1..];
    assert s.pipe.calls + [] == s.pipe.calls;
  }

  // A batch of one click leaves the snapshot where it is if it does not exhaust the link or if Redis
  // refuses the invalidation.
  lemma FlushCore(cfg: Coarse.Config, s: Coarse.State, code: string, id: Id, limit: int, c: Click, down: set<string>)
    requires Hot(s, code, id, limit) && c.link == id
    requires code in down || s.db.links[id].clickCount + 1 < limit
    ensures BatchWrites(s.db, [c], false)
    ensures var n := Coarse.Next(cfg, s, Coarse.Write(Flush([c], false), down));
            && Hot(n, code, id, limit)
            && n.db.links[id].clickCount == s.db.links[id].clickCount + 1
            && (code !in down ==> n.refused == s.refused)
            && (s.db.links[id].deletedAt.None? ==> n.db.links[id].deletedAt.None?)
            && (s.db.links[id].clickCount + 1 >= limit || code in s.refused ==> code in down ==> code in n.refused)
  {
    CountAppend([], c, id);
    assert [] + [c] == [c];
    assert CountFor([c], id) == 1;
    var owed := Owed(cfg.policy, s.db, Flush([c], false), s.now);
    assert owed <= {code};
    assert code in down || owed == {};
    assert owed - down == {};
  }

  // What one written click changes.
  ghost predicate WroteOne(s: State, n: State, code: string, id: Id, limit: int, down: set<string>) {
    && Hot(n.core, code, id, limit) && Open(n.pipe, id)
    && id in s.core.db.links && n.core.db.links[id].clickCount == s.core.db.links[id].clickCount + 1
    && (code !in down ==> n.core.refused == s.core.refused)
    && (s.core.db.links[id].clickCount + 1 >= limit || code in s.core.refused ==> code in down ==> code in n.core.refused)
    && n.pipe.offered == s.pipe.offered && n.late == s.late
    && s.pipe.queue != [] && n.pipe.queue == s.pipe.queue[1..]
  }

  lemma TakeAndWrite(cfg: Config, s: State, code: string, id: Id, limit: int, down: set<string>)
    requires Hot(s.core, code, id, limit) && Open(s.pipe, id) && Loads(cfg.pool, s.pipe, 0, 0)
    requires s.pipe.queue != [] && cfg.pool.workers >= 1 && cfg.pool.size == 1
    requires code in down || s.core.db.links[id].clickCount + 1 < limit
    ensures var a := Work(Ingest.Take(0, true), false, down);
            Enabled(cfg, s, a) &&
            WroteOne(s, Next(cfg, s, a), code, id, limit, down) && Loads(cfg.pool, Next(cfg, s, a).pipe, 0, 0)
  {
    var c := s.pipe.queue[0];
    assert s.pipe.queue == [c] + s.pipe.queue[1..];
    assert [] + [c] == [c];
    FlushCore(cfg.core, s.core, code, id, limit, c, down);
    Ingest.OutcomeAppend(s.pipe.calls, Pipeline.Call([c], true), false);
  }

  lemma TickAndWrite(cfg: Config, s: State, code: string, id: Id, limit: int, down: set<string>)
    requires Hot(s.core, code, id, limit) && Open(s.pipe, id) && Loads(cfg.pool, s.pipe, 0, 1)
    requires cfg.pool.workers >= 1 && s.pipe.workers[0].batch[0].link == id
    requires code in down || s.core.db.links[id].clickCount + 1 < limit
    ensures var a := Work(Ingest.Tick(0, true), false, down);
            Enabled(cfg, s, a) &&
            var n := Next(cfg, s, a);
            && n.core == Coarse.Next(cfg.core, s.core, Coarse.Write(Flush(s.pipe.workers[0].batch, false), down))
            && Hot(n.core, code, id, limit) && Open(n.pipe, id) && Loads(cfg.pool, n.pipe, 0, 0)
            && n.pipe.offered == s.pipe.offered && n.late == s.late && n.pipe.queue == s.pipe.queue
  {
    var c := s.pipe.workers[0].batch[0];
    assert s.pipe.workers[0].batch == [c];
    FlushCore(cfg.core, s.core, code, id, limit, c, down);
    Ingest.OutcomeAppend(s.pipe.calls, Pipeline.Call([c], true), false);
  }

  // One click from the queue into the table.
  lemma WriteOne(cfg: Config, start: Time, acts: seq<Action>, s: State, code: string, id: Id, limit: int, down: set<string>)
    returns (more: seq<Action>, n: State)
    requires Reaches(cfg, start, acts, s) && Ingest.ValidConfig(cfg.pool)
    requires Hot(s.core, code, id, limit) && Open(s.pipe, id) && Loads(cfg.pool, s.pipe, 0, 0) && s.pipe.queue != []
    requires code in down || s.core.db.links[id].clickCount + 1 < limit
    ensures Reaches(cfg, start, more, n) && WroteOne(s, n, code, id, limit, down) && Loads(cfg.pool, n.pipe, 0, 0)
  {
    if cfg.pool.size == 1 {
      TakeAndWrite(cfg, s, code, id, limit, down);
      RunExtend(cfg, Init(cfg, start), acts, Work(Ingest.Take(0, true), false, down));
      more, n := acts + [Work(Ingest.Take(0, true), false, down)], Next(cfg, s, Work(Ingest.Take(0, true), false, down));
    } else {
      TakeStep(cfg, s, 0, 0, id);
      RunExtend(cfg, Init(cfg, start), acts, Work(Ingest.Take(0, true), false, {}));
      var taken := Next(cfg, s, Work(Ingest.Take(0, true), false, {}));
      var c := s.pipe.queue[0];
      assert taken.pipe.workers[0].batch == [c];
      TickAndWrite(cfg, taken, code, id, limit, down);
      FlushCore(cfg.core, s.core, code, id, limit, c, down);
      var tick := Work(Ingest.Tick(0, true), false, down);
      RunExtend(cfg, Init(cfg, start), acts + [Work(Ingest.Take(0, true), false, {})], tick);
      more, n := acts + [Work(Ingest.Take(0, true), false, {})] + [tick], Next(cfg, taken, tick);
    }
  }

  // --- the runs ---

  // The link has been served so often; `clean` says that nothing was ever refused.
  ghost predicate Steady(cfg: Config, s: State, code: string, id: Id, limit: int, w: nat, k: nat, served: nat, clean: bool) {
    && Hot(s.core, code, id, limit) && Open(s.pipe, id) && Loads(cfg.pool, s.pipe, w, k)
    && CountFor(s.pipe.offered, id) == served
    && (clean ==> s.core.refused == map[] && s.late == [])
  }

  lemma ServeSteady(cfg: Config, start: Time, acts: seq<Action>, s: State, code: string, id: Id, limit: int, w: nat, k: nat,
                    served: nat, clean: bool)
    returns (more: seq<Action>, n: State)
    requires Reaches(cfg, start, acts, s) && Steady(cfg, s, code, id, limit, w, k, served, clean)
    requires |s.pipe.queue| < cfg.pool.cap
    ensures Reaches(cfg, start, more, n) && Steady(cfg, n, code, id, limit, w, k, served + 1, clean)
    ensures n.core == s.core && |n.pipe.queue| == |s.pipe.queue| + 1
  {
    var a := Serve(code, AllUp, ClickOn(id));
    ServeStep(cfg, s, code, id, limit);
    RunExtend(cfg, Init(cfg, start), acts, a);
    CountAppend(s.pipe.offered, ClickOn(id), id);
    more, n := acts + [a], Next(cfg, s, a);
  }

  // k clicks written, each followed by another serve.
  lemma {:induction false} WriteMany(cfg: Config, start: Time, acts: seq<Action>, s: State, code: string, id: Id, limit: int,
                                     served: nat, down: set<string>, k: nat)
    returns (more: seq<Action>, n: State)
    requires Ingest.ValidConfig(cfg.pool) && Reaches(cfg, start, acts, s)
    requires Steady(cfg, s, code, id, limit, 0, 0, served, down == {}) && |s.pipe.queue| == 1
    requires down == {code} || (down == {} && s.core.db.links[id].clickCount + k < limit)
    ensures Reaches(cfg, start, more, n)
    ensures Steady(cfg, n, code, id, limit, 0, 0, served + k, down == {}) && |n.pipe.queue| == 1
    ensures id in s.core.db.links && id in n.core.db.links
    ensures n.core.db.links[id].clickCount == s.core.db.links[id].clickCount + k
    decreases k
  {
    if k == 0 {
      return acts, s;
    }
    var acts1, s1 := WriteOne(cfg, start, acts, s, code, id, limit, down);
    var acts2, s2 := ServeSteady(cfg, start, acts1, s1, code, id, limit, 0, 0, served, down == {});
    more, n := WriteMany(cfg, start, acts2, s2, code, id, limit, served + 1, down, k - 1);
  }

  // Worker w filled up to size - 1.
  lemma {:induction false} FillWorker(cfg: Config, start: Time, acts: seq<Action>, s: State, code: string, id: Id, limit: int,
                                      w: nat, k: nat, served: nat)
    returns (more: seq<Action>, n: State)
    requires Ingest.ValidConfig(cfg.pool) && Reaches(cfg, start, acts, s) && w < cfg.pool.workers && k < cfg.pool.size
    requires Steady(cfg, s, code, id, limit, w, k, served, true) && |s.pipe.queue| == 1
    ensures Reaches(cfg, start, more, n)
    ensures Steady(cfg, n, code, id, limit, w, cfg.pool.size - 1, served + (cfg.pool.size - 1 - k), true)
    ensures |n.pipe.queue| == 1
    decreases cfg.pool.size - k
  {
    if k == cfg.pool.size - 1 {
      return acts, s;
    }
    var take := Work(Ingest.Take(w, true), false, {});
    TakeStep(cfg, s, w, k, id);
    RunExtend(cfg, Init(cfg, start), acts, take);
    var acts2, s2 := ServeSteady(cfg, start, acts + [take], Next(cfg, s, take), code, id, limit, w, k + 1, served, true);
    more, n := FillWorker(cfg, start, acts2, s2, code, id, limit, w, k + 1, served + 1);
  }

  // What n workers can hold.
  function Room(n: nat, each: nat): nat {
    if n == 0 then 0 else Room(n - 1, each) + each
  }

  lemma {:induction false} RoomIsProduct(n: nat, each: nat)
    ensures Room(n, each) == n * each
  {
    if n > 0 {
      RoomIsProduct(n - 1, each);
    }
  }

  lemma {:induction false} FillWorkers(cfg: Config, start: Time, acts: seq<Action>, s: State, code: string, id: Id, limit: int,
                                       w: nat, served: nat)
    returns (more: seq<Action>, n: State)
    requires Ingest.ValidConfig(cfg.pool) && Reaches(cfg, start, acts, s) && w <= cfg.pool.workers
    requires Steady(cfg, s, code, id, limit, w, 0, served, true) && |s.pipe.queue| == 1
    ensures Reaches(cfg, start, more, n) && |n.pipe.queue| == 1
    ensures Steady(cfg, n, code, id, limit, cfg.pool.workers, 0, served + Room(cfg.pool.workers - w, cfg.pool.size - 1), true)
    decreases cfg.pool.workers - w
  {
    if w == cfg.pool.workers {
      return acts, s;
    }
    var acts1, s1 := FillWorker(cfg, start, acts, s, code, id, limit, w, 0, served);
    NextWorker(cfg.pool, s1.pipe, w);
    more, n := FillWorkers(cfg, start, acts1, s1, code, id, limit, w + 1, served + (cfg.pool.size - 1));
  }

  lemma NextWorker(cfg: Ingest.Config, p: Ingest.State, w: nat)
    requires cfg.size >= 1 && Loads(cfg, p, w, cfg.size - 1)
    ensures Loads(cfg, p, w + 1, 0)
  {
  }

  lemma {:induction false} FillQueue(cfg: Config, start: Time, acts: seq<Action>, s: State, code: string, id: Id, limit: int,
                                     w: nat, served: nat)
    returns (more: seq<Action>, n: State)
    requires Reaches(cfg, start, acts, s) && Steady(cfg, s, code, id, limit, w, 0, served, true)
    requires |s.pipe.queue| <= cfg.pool.cap
    ensures Reaches(cfg, start, more, n)
    ensures Steady(cfg, n, code, id, limit, w, 0, served + (cfg.pool.cap - |s.pipe.queue|), true)
    decreases cfg.pool.cap - |s.pipe.queue|
  {
    if |s.pipe.queue| == cfg.pool.cap {
      return acts, s;
    }
    var acts1, s1 := ServeSteady(cfg, start, acts, s, code, id, limit, w, 0, served, true);
    more, n := FillQueue(cfg, start, acts1, s1, code, id, limit, w, served + 1);
  }

  function Wanted(limit: int): CreateInput {
    CreateInput(Url("", true), ALIAS, 0, None, Some(limit))
  }

  // The link of the runs: outside the demo cap, no expiry.
  function Row(p: Policy, start: Time, limit: int): Link {
    Link(0, p.demoTenant + 1, ALIAS, "", REDIRECT_FOUND, None, Some(limit), 0, start, start, None)
  }

  lemma LinkMade(cfg: Coarse.Config, start: Time, limit: int)
    requires limit >= 1
    ensures var make := Coarse.Write(MakeLink(cfg.policy.demoTenant + 1, 0, Wanted(limit), []), {});
            Coarse.Next(cfg, Coarse.Init(start), make) ==
            Coarse.State(Db(map[0 := Row(cfg.policy, start, limit)], []), map[], start, map[], map[])
  {
    assert Shortcode.ValidAlias(ALIAS);
    assert !Taken(map[], ALIAS);
  }

  lemma FirstLookup(cfg: Coarse.Config, start: Time, limit: int)
    requires limit >= 1
    ensures var row := Row(cfg.policy, start, limit);
            var s := Coarse.State(Db(map[0 := row], []), map[], start, map[], map[]);
            && Resolve(s.db.links, s.cache, ALIAS, s.now, AllUp, cfg.ttl, cfg.negTTL).1 == Ok(row)
            && Coarse.Next(cfg, s, Coarse.Lookup(ALIAS, AllUp)) ==
               s.(cache := map[ALIAS := Stored(Positive(FromDomain(row)), start + cfg.ttl)])
  {
    var links := map[0 := Row(cfg.policy, start, limit)];
    assert Holds(links, 0, ALIAS);
    ByCodeIs(links, 0, ALIAS);
  }

  // An empty system, one link with that limit, and its first serve.
  lemma FirstServe(cfg: Config, start: Time, limit: int) returns (acts: seq<Action>, s: State)
    requires Ingest.ValidConfig(cfg.pool) && cfg.core.ttl > 0 && limit >= 1
    ensures Reaches(cfg, start, acts, s) && |s.pipe.queue| == 1
    ensures Steady(cfg, s, ALIAS, 0, limit, 0, 0, 1, true)
    ensures 0 in s.core.db.links && s.core.db.links[0].clickCount == 0
  {
    var make := Other(Coarse.Write(MakeLink(cfg.core.policy.demoTenant + 1, 0, Wanted(limit), []), {}));
    var serve := Serve(ALIAS, AllUp, ClickOn(0));
    var s0 := Init(cfg, start);
    LinkMade(cfg.core, start, limit);
    RunExtend(cfg, s0, [], make);
    assert [] + [make] == [make];
    ServedFirst(cfg, start, limit, Next(cfg, s0, make));
    RunExtend(cfg, s0, [make], serve);
    acts, s := [make] + [serve], Next(cfg, Next(cfg, s0, make), serve);
  }

  lemma ServedFirst(cfg: Config, start: Time, limit: int, s: State)
    requires Ingest.ValidConfig(cfg.pool) && cfg.core.ttl > 0 && limit >= 1
    requires s == State(Coarse.State(Db(map[0 := Row(cfg.core.policy, start, limit)], []), map[], start, map[], map[]),
                        Ingest.Init(cfg.pool), [])
    ensures var serve := Serve(ALIAS, AllUp, ClickOn(0));
            Enabled(cfg, s, serve) &&
            var n := Next(cfg, s, serve);
            && Steady(cfg, n, ALIAS, 0, limit, 0, 0, 1, true) && |n.pipe.queue| == 1
            && n.core.db == s.core.db
  {
    FirstLookup(cfg.core, start, limit);
    FirstClick(cfg.pool, s.pipe);
  }

  lemma FirstClick(cfg: Ingest.Config, p: Ingest.State)
    requires p == Ingest.Init(cfg) && cfg.cap >= 1
    ensures Ingest.Enqueued(cfg, p, ClickOn(0)) == p.(queue := [ClickOn(0)], offered := [ClickOn(0)], sent := [ClickOn(0)])
    ensures CountFor([ClickOn(0)], 0) == 1
  {
    var checked := Ingest.Next(cfg, p, Ingest.Check(ClickOn(0)));
    assert Ingest.Without(checked.pending, 0) == [];
    CountAppend([], ClickOn(0), 0);
    assert [] + [ClickOn(0)] == [ClickOn(0)];
  }

  // --- the results ---

  // After the run the link is served once more: how many serves that makes, under its limit.
  ghost predicate ServesAgain(cfg: Config, s: State, limit: int, serves: int) {
    && Answer(cfg, s, ALIAS, AllUp).Ok?
    && Answer(cfg, s, ALIAS, AllUp).value.id == 0 && Answer(cfg, s, ALIAS, AllUp).value.maxClicks == Some(limit)
    && CountFor(s.pipe.offered + [ClickOn(0)], 0) == serves
    && Uncounted(s.pipe, 0) == 0
  }

  /** The bound is attained: for every limit and every valid pool a run with nothing dropped, lost or
      refused serves the link exactly limit plus what the pool can hold times. */
  lemma BoundIsAttained(cfg: Config, start: Time, limit: int) returns (acts: seq<Action>, s: State)
    requires Ingest.ValidConfig(cfg.pool) && cfg.core.ttl > 0 && limit >= 1
    ensures Reaches(cfg, start, acts, s)
    ensures ServesAgain(cfg, s, limit, limit + Capacity(cfg.pool)) && Late(s, ALIAS, ClickOn(0)) == []
  {
    var acts1, s1 := FirstServe(cfg, start, limit);
    var acts2, s2 := WriteMany(cfg, start, acts1, s1, ALIAS, 0, limit, 1, {}, limit - 1);
    acts, s := FillPool(cfg, start, acts2, s2, limit);
  }

  lemma FillPool(cfg: Config, start: Time, acts: seq<Action>, s: State, limit: int) returns (more: seq<Action>, n: State)
    requires Ingest.ValidConfig(cfg.pool) && limit >= 1 && Reaches(cfg, start, acts, s)
    requires Steady(cfg, s, ALIAS, 0, limit, 0, 0, limit, true) && |s.pipe.queue| == 1
    ensures Reaches(cfg, start, more, n)
    ensures ServesAgain(cfg, n, limit, limit + Capacity(cfg.pool)) && Late(n, ALIAS, ClickOn(0)) == []
  {
    var acts1, s1 := FillWorkers(cfg, start, acts, s, ALIAS, 0, limit, 0, limit);
    RoomIsProduct(cfg.pool.workers, cfg.pool.size - 1);
    var served := limit + Room(cfg.pool.workers, cfg.pool.size - 1);
    more, n := FillQueue(cfg, start, acts1, s1, ALIAS, 0, limit, cfg.pool.workers, served);
    LastServe(cfg, n, limit, cfg.pool.workers, served + (cfg.pool.cap - 1), true);
  }

  lemma LastServe(cfg: Config, s: State, limit: int, w: nat, served: nat, clean: bool)
    requires Steady(cfg, s, ALIAS, 0, limit, w, 0, served, clean)
    ensures ServesAgain(cfg, s, limit, served + 1)
    ensures clean ==> Late(s, ALIAS, ClickOn(0)) == []
  {
    HotAnswers(cfg, s, ALIAS, 0, limit);
    CountAppend(s.pipe.offered, ClickOn(0), 0);
  }

  /** Without the clicks served while a refused invalidation is outstanding there is no bound at all:
      for every limit and every number some run, with nothing dropped or lost, serves the link more
      often than that. */
  lemma NoBoundOnceRefused(cfg: Config, start: Time, limit: int, serves: nat) returns (acts: seq<Action>, s: State)
    requires Ingest.ValidConfig(cfg.pool) && cfg.core.ttl > 0 && limit >= 1
    ensures Reaches(cfg, start, acts, s)
    ensures ServesAgain(cfg, s, limit, serves + 2)
  {
    var acts1, s1 := FirstServe(cfg, start, limit);
    assert Steady(cfg, s1, ALIAS, 0, limit, 0, 0, 1, false);
    acts, s := WriteMany(cfg, start, acts1, s1, ALIAS, 0, limit, 1, {ALIAS}, serves);
    LastServe(cfg, s, limit, 0, 1 + serves, false);
  }
}
