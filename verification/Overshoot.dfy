/** Redirects, cache, table and click pipeline together: how far past max_clicks can a link be
    served? A redirect and its Enqueue are one step, a batch and its invalidations are one step; any of
    those invalidations may be refused. */
module Overshoot {
  import opened Domain
  import opened LinkTable
  import opened ClickLog
  import opened Cache
  import opened Redirect
  import opened Service
  import opened Writes
  import Pipeline
  import Coarse
  import Ingest

  datatype Config = Config(core: Coarse.Config, pool: Ingest.Config)

  // `late` logs the clicks served on a code while a refused invalidation of it was outstanding.
  datatype State = State(core: Coarse.State, pipe: Ingest.State, late: seq<Click>)

  datatype Action =
    | Serve(code: string, up: Faults, click: Click)
    | Work(step: Ingest.Action, fault: bool, down: set<string>)
    | Other(act: Coarse.Action)
    | Close

  function Init(cfg: Config, start: Time): State {
    State(Coarse.Init(start), Ingest.Init(cfg.pool), [])
  }

  ghost function Answer(cfg: Config, s: State, code: string, up: Faults): Result<Link> {
    Resolve(s.core.db.links, s.core.cache, code, s.core.now, up, cfg.core.ttl, cfg.core.negTTL).1
  }

  // The log of late clicks once c is served on the code.
  function Late(s: State, code: string, c: Click): seq<Click> {
    if code in s.core.refused then s.late + [c] else s.late
  }

  // The batch a worker step hands to RecordBatch, if it does.
  function Handed(cfg: Ingest.Config, p: Ingest.State, a: Ingest.Action): Option<Pipeline.Call>
    requires Ingest.Enabled(p, a)
  {
    var calls := Ingest.Next(cfg, p, a).calls;
    if |calls| > |p.calls| then Some(calls[|calls| - 1]) else None
  }

  // A served click names the link it was served for; a batch call succeeds exactly when the tables
  // take the batch; only the pipeline writes clicks.
  ghost predicate Enabled(cfg: Config, s: State, a: Action) {
    match a
    case Serve(code, up, c) =>
      s.pipe.pending == [] && (Answer(cfg, s, code, up).Ok? ==> c.link == Answer(cfg, s, code, up).value.id)
    case Work(step, fault, down) =>
      && (step.Take? || step.Tick? || step.Notice? || step.Leave?)
      && Ingest.Enabled(s.pipe, step)
      && var call := Handed(cfg.pool, s.pipe, step);
         call.Some? ==> call.value.ok == BatchWrites(s.core.db, call.value.batch, fault)
    case Other(act) =>
      Coarse.Enabled(s.core, act) && !act.Lookup? && (act.Write? ==> !act.commit.Flush?)
    case Close => true
  }

  ghost function Next(cfg: Config, s: State, a: Action): State
    requires Enabled(cfg, s, a)
  {
    match a
    case Serve(code, up, c) =>
      State(Coarse.Next(cfg.core, s.core, Coarse.Lookup(code, up)),
            if Answer(cfg, s, code, up).Ok? then Ingest.Enqueued(cfg.pool, s.pipe, c) else s.pipe,
            if Answer(cfg, s, code, up).Ok? then Late(s, code, c) else s.late)
    case Work(step, fault, down) =>
      var call := Handed(cfg.pool, s.pipe, step);
      s.(core := if call.Some? then Coarse.Next(cfg.core, s.core, Coarse.Write(Flush(call.value.batch, fault), down)) else s.core,
         pipe := Ingest.Next(cfg.pool, s.pipe, step))
    case Other(act) => s.(core := Coarse.Next(cfg.core, s.core, act))
    case Close => s.(pipe := Ingest.Next(cfg.pool, s.pipe, Ingest.Close))
  }

  ghost predicate Runs(cfg: Config, s: State, acts: seq<Action>)
    decreases |acts|
  {
    acts != [] ==> Enabled(cfg, s, acts[0]) && Runs(cfg, Next(cfg, s, acts[0]), acts[1..])
  }

  ghost function Run(cfg: Config, s: State, acts: seq<Action>): State
    requires Runs(cfg, s, acts)
    decreases |acts|
  {
    if acts == [] then s else Run(cfg, Next(cfg, s, acts[0]), acts[1..])
  }

  // --- what ties the two halves together ---

  function WrittenFor(p: Ingest.State, id: Id): nat {
    CountFor(Ingest.Outcome(p.calls, true), id)
  }

  function LostFor(p: Ingest.State, id: Id): nat {
    CountFor(Ingest.Outcome(p.calls, false), id)
  }

  ghost predicate PipeInv(cfg: Ingest.Config, p: Ingest.State) {
    Ingest.ValidConfig(cfg) && Ingest.Bounded(cfg, p) && Ingest.Conserved(p) && p.pending == []
  }

  // A link's counter is what the pipeline has written for it, and ids of served links are spent.
  ghost predicate Tied(s: State) {
    && (forall id :: id in s.core.db.links ==> s.core.db.links[id].clickCount == WrittenFor(s.pipe, id))
    && (forall c :: c in s.pipe.offered ==> c.link in s.core.db.links || c.link in s.core.purged)
  }

  // What the pool can hold without any of it being written.
  function Capacity(cfg: Ingest.Config): int {
    cfg.cap + cfg.workers * (cfg.size - 1)
  }

  // A link's clicks that were served but never counted.
  function Uncounted(p: Ingest.State, id: Id): nat {
    LostFor(p, id) + CountFor(p.dropped, id) + CountFor(p.rejected, id)
  }

  // A snapshot that would still serve its link: how often the link has been served, at most.
  ghost predicate Covers(cfg: Ingest.Config, s: State, c: CachedLink) {
    c.maxClicks.Some? && c.clickCount < c.maxClicks.value ==>
      CountFor(s.pipe.offered, c.id) <=
      c.maxClicks.value + Capacity(cfg) + Uncounted(s.pipe, c.id) + CountFor(s.late, c.id)
  }

  ghost predicate Accounted(cfg: Ingest.Config, s: State) {
    forall code :: code in s.core.cache && s.core.cache[code].entry.Positive? ==>
      Covers(cfg, s, s.core.cache[code].entry.link)
  }

  ghost predicate Inv(cfg: Config, s: State) {
    Coarse.Inv(cfg.core, s.core) && PipeInv(cfg.pool, s.pipe) && Tied(s) && Accounted(cfg.pool, s)
  }

  // Written clicks were sent, sent clicks were offered.
  lemma WrittenWasOffered(s: State, c: Click)
    requires Ingest.Conserved(s.pipe) && c in Ingest.Outcome(s.pipe.calls, true)
    ensures c in s.pipe.offered
  {
    assert c in multiset(Ingest.Outcome(s.pipe.calls, true));
    assert c in multiset(s.pipe.sent);
    assert c in multiset(s.pipe.offered);
  }

  lemma ServeKeeps(cfg: Config, s: State, a: Action)
    requires Inv(cfg, s) && Enabled(cfg, s, a) && a.Serve?
    ensures Inv(cfg, Next(cfg, s, a))
  {
    Coarse.StepKeeps(cfg.core, s.core, Coarse.Lookup(a.code, a.up));
    if Answer(cfg, s, a.code, a.up).Ok? {
      EnqueueKeeps(cfg.pool, s.pipe, a.click);
      ServedIdIsSpent(cfg, s, a.code, a.up);
    }
    ServeAccounted(cfg, s, a);
  }

  // Also an outlived snapshot names a row that is there or was purged.
  lemma ServedIdIsSpent(cfg: Config, s: State, code: string, up: Faults)
    requires Coarse.Inv(cfg.core, s.core) && Answer(cfg, s, code, up).Ok?
    ensures var id := Answer(cfg, s, code, up).value.id; id in s.core.db.links || id in s.core.purged
  {
    if up.cacheRead && Coarse.StaleRefused(s.core, code) {
      assert Coarse.Backed(cfg.core, s.core, code, s.core.cache[code]);
    } else {
      ServedIsInTable(cfg, s, code, up);
    }
  }

  lemma ServeAccounted(cfg: Config, s: State, a: Action)
    requires Inv(cfg, s) && Enabled(cfg, s, a) && a.Serve?
    ensures Accounted(cfg.pool, Next(cfg, s, a))
  {
    var n := Next(cfg, s, a);
    forall code | code in n.core.cache && n.core.cache[code].entry.Positive?
      ensures Covers(cfg.pool, n, n.core.cache[code].entry.link)
    {
      if code in s.core.cache && n.core.cache[code] == s.core.cache[code] {
        KeptEntryCovers(cfg, s, a, code);
      } else {
        FreshEntryCovers(cfg, s, a);
      }
    }
  }

  // A snapshot just taken counts every click written for the link.
  lemma FreshEntryCovers(cfg: Config, s: State, a: Action)
    requires Inv(cfg, s) && Enabled(cfg, s, a) && a.Serve?
    requires Taken(s.core.db.links, a.code)
    ensures Covers(cfg.pool, Next(cfg, s, a), FromDomain(ByCode(s.core.db.links, a.code).value))
  {
    var row := ByCode(s.core.db.links, a.code).value;
    ServesAccounted(cfg.pool, s.pipe, row.id);
    OneMoreServe(cfg, s, a, row.id);
  }

  // What a serve adds to a link's counts.
  lemma OneMoreServe(cfg: Config, s: State, a: Action, id: Id)
    requires PipeInv(cfg.pool, s.pipe) && Enabled(cfg, s, a) && a.Serve?
    ensures var n := Next(cfg, s, a);
            var served := if Answer(cfg, s, a.code, a.up).Ok? && Answer(cfg, s, a.code, a.up).value.id == id then 1 else 0;
            && CountFor(n.pipe.offered, id) == CountFor(s.pipe.offered, id) + served
            && CountFor(n.late, id) == CountFor(s.late, id) + (if a.code in s.core.refused then served else 0)
            && Uncounted(n.pipe, id) >= Uncounted(s.pipe, id)
  {
    if Answer(cfg, s, a.code, a.up).Ok? {
      EnqueueFields(cfg.pool, s.pipe, a.click);
      CountAppend(s.pipe.offered, a.click, id);
      CountAppend(s.pipe.dropped, a.click, id);
      CountAppend(s.pipe.rejected, a.click, id);
      CountAppend(s.late, a.click, id);
    }
  }

  // A snapshot already there: a serve of its link is late, or the link's row follows the snapshot.
  lemma KeptEntryCovers(cfg: Config, s: State, a: Action, code: string)
    requires Inv(cfg, s) && Enabled(cfg, s, a) && a.Serve?
    requires code in s.core.cache && s.core.cache[code].entry.Positive?
    ensures Covers(cfg.pool, Next(cfg, s, a), s.core.cache[code].entry.link)
  {
    var c := s.core.cache[code].entry.link;
    assert Covers(cfg.pool, s, c) && Coarse.Backed(cfg.core, s.core, code, s.core.cache[code]);
    OneMoreServe(cfg, s, a, c.id);
    var r := Answer(cfg, s, a.code, a.up);
    if r.Ok? && r.value.id == c.id && a.code !in s.core.refused {
      ServedIsInTable(cfg, s, a.code, a.up);
      assert Coarse.Follows(c, s.core.db.links);
      ServesAccounted(cfg.pool, s.pipe, c.id);
    }
  }

  // Entries, kept or taken away, stay accounted while nothing is served.
  lemma AccountedFrame(cfg: Ingest.Config, s: State, n: State)
    requires Accounted(cfg, s) && n.late == s.late && n.pipe.offered == s.pipe.offered
    requires forall id :: Uncounted(n.pipe, id) >= Uncounted(s.pipe, id)
    requires forall code :: code in n.core.cache ==> code in s.core.cache && n.core.cache[code] == s.core.cache[code]
    ensures Accounted(cfg, n)
  {
    forall code | code in n.core.cache && n.core.cache[code].entry.Positive?
      ensures Covers(cfg, n, n.core.cache[code].entry.link)
    {
      assert Covers(cfg, s, s.core.cache[code].entry.link);
    }
  }

  lemma EnqueueKeeps(cfg: Ingest.Config, p: Ingest.State, c: Click)
    requires PipeInv(cfg, p)
    ensures PipeInv(cfg, Ingest.Enqueued(cfg, p, c))
    ensures Ingest.Enqueued(cfg, p, c).offered == p.offered + [c] && Ingest.Enqueued(cfg, p, c).calls == p.calls
  {
    EnqueueFields(cfg, p, c);
    var checked := Ingest.Next(cfg, p, Ingest.Check(c));
    PoolStep(cfg, p, Ingest.Check(c));
    if !p.quit {
      PoolStep(cfg, checked, Ingest.Send(0));
    }
  }

  lemma EnqueueFields(cfg: Ingest.Config, p: Ingest.State, c: Click)
    requires p.pending == []
    ensures Ingest.Enqueued(cfg, p, c).offered == p.offered + [c]
    ensures Ingest.Enqueued(cfg, p, c).calls == p.calls && Ingest.Enqueued(cfg, p, c).pending == []
    ensures Ingest.Enqueued(cfg, p, c).dropped in {p.dropped, p.dropped + [c]}
    ensures Ingest.Enqueued(cfg, p, c).rejected in {p.rejected, p.rejected + [c]}
  {
  }

  lemma PoolStep(cfg: Ingest.Config, p: Ingest.State, a: Ingest.Action)
    requires Ingest.ValidConfig(cfg) && Ingest.Bounded(cfg, p) && Ingest.Conserved(p) && Ingest.Enabled(p, a)
    ensures Ingest.Bounded(cfg, Ingest.Next(cfg, p, a)) && Ingest.Conserved(Ingest.Next(cfg, p, a))
  {
    Ingest.BoundedStep(cfg, p, a);
    Ingest.ConservedStep(cfg, p, a);
  }

  /** A served link's row is in the table, live under that code, active, with the same limit, unless it
      was served from a snapshot left behind by a refused invalidation; then that was less than ttl ago. */
  lemma ServedIsInTable(cfg: Config, s: State, code: string, up: Faults)
    requires Coarse.Inv(cfg.core, s.core) && Answer(cfg, s, code, up).Ok?
    ensures var l := Answer(cfg, s, code, up).value;
            if up.cacheRead && Coarse.StaleRefused(s.core, code) then
              l == ToDomain(s.core.cache[code].entry.link) && s.core.now < s.core.refused[code] + cfg.core.ttl
            else
              && Holds(s.core.db.links, l.id, code) && s.core.db.links[l.id].IsActive(s.core.now)
              && s.core.db.links[l.id].maxClicks == l.maxClicks
  {
    var always := up.(dbRead := true);
    assert Answer(cfg, s, code, up) == Answer(cfg, s, code, always);
    Coarse.ResolveRefines(cfg.core, s.core, code, always);
    if !(up.cacheRead && Coarse.StaleRefused(s.core, code)) {
      var id :| Holds(s.core.db.links, id, code);
      ByCodeIs(s.core.db.links, id, code);
    }
  }

  lemma WorkKeeps(cfg: Config, s: State, a: Action)
    requires Inv(cfg, s) && Enabled(cfg, s, a) && a.Work?
    ensures Inv(cfg, Next(cfg, s, a))
  {
    PoolStep(cfg.pool, s.pipe, a.step);
    CallsUnlessHanded(cfg.pool, s.pipe, a.step);
    var call := Handed(cfg.pool, s.pipe, a.step);
    if call.Some? {
      FlushKeeps(cfg.core, s.core, call.value.batch, a.fault, a.down);
      FlushTied(s, call.value, a.fault, Next(cfg, s, a));
    }
    WorkAccounted(cfg, s, a);
  }

  lemma WorkAccounted(cfg: Config, s: State, a: Action)
    requires Accounted(cfg.pool, s) && Enabled(cfg, s, a) && a.Work?
    ensures Accounted(cfg.pool, Next(cfg, s, a))
  {
    CallsUnlessHanded(cfg.pool, s.pipe, a.step);
    forall id
      ensures Uncounted(Next(cfg, s, a).pipe, id) >= Uncounted(s.pipe, id)
    {
      WorkUncounted(cfg.pool, s.pipe, a.step, id);
    }
    AccountedFrame(cfg.pool, s, Next(cfg, s, a));
  }

  lemma WorkUncounted(cfg: Ingest.Config, p: Ingest.State, a: Ingest.Action, id: Id)
    requires Ingest.Enabled(p, a) && (a.Take? || a.Tick? || a.Notice? || a.Leave?)
    ensures Uncounted(Ingest.Next(cfg, p, a), id) >= Uncounted(p, id)
  {
    CallsUnlessHanded(cfg, p, a);
    var call := Handed(cfg, p, a);
    if call.Some? {
      Ingest.OutcomeAppend(p.calls, call.value, false);
      CountConcat(Ingest.Outcome(p.calls, false), if call.value.ok then [] else call.value.batch, id);
    }
  }

  lemma FlushKeeps(cfg: Coarse.Config, s: Coarse.State, batch: seq<Click>, fault: bool, down: set<string>)
    requires Coarse.Inv(cfg, s)
    ensures var n := Coarse.Next(cfg, s, Coarse.Write(Flush(batch, fault), down));
            && Coarse.Inv(cfg, n) && n.db == AfterBatch(s.db, batch, fault, s.now)
            && forall id :: id in s.purged ==> id in n.purged
  {
    Coarse.StepKeeps(cfg, s, Coarse.Write(Flush(batch, fault), down));
  }

  // A batch adds the same clicks to the counters and to what the pipeline has written.
  lemma FlushTied(s: State, call: Pipeline.Call, fault: bool, n: State)
    requires Tied(s) && call.ok == BatchWrites(s.core.db, call.batch, fault)
    requires n.pipe.calls == s.pipe.calls + [call] && n.pipe.offered == s.pipe.offered
    requires n.core.db == AfterBatch(s.core.db, call.batch, fault, s.core.now)
    requires forall id :: id in s.core.purged ==> id in n.core.purged
    ensures Tied(n)
  {
    var written := Ingest.Outcome(s.pipe.calls, true);
    Ingest.OutcomeAppend(s.pipe.calls, call, true);
    assert written + [] == written;
    forall id | id in n.core.db.links
      ensures n.core.db.links[id].clickCount == WrittenFor(n.pipe, id)
    {
      CountConcat(written, call.batch, id);
    }
  }

  lemma CallsUnlessHanded(cfg: Ingest.Config, p: Ingest.State, a: Ingest.Action)
    requires Ingest.Enabled(p, a) && (a.Take? || a.Tick? || a.Notice? || a.Leave?)
    ensures var n := Ingest.Next(cfg, p, a);
            && n.offered == p.offered && n.pending == p.pending && n.dropped == p.dropped && n.rejected == p.rejected
            && match Handed(cfg, p, a)
               case None => n.calls == p.calls
               case Some(call) => n.calls == p.calls + [call]
  {
  }

  lemma OtherKeeps(cfg: Config, s: State, a: Action)
    requires Inv(cfg, s) && Enabled(cfg, s, a) && a.Other?
    ensures Inv(cfg, Next(cfg, s, a))
  {
    var n := Next(cfg, s, a);
    Coarse.StepKeeps(cfg.core, s.core, a.act);
    AccountedFrame(cfg.pool, s, n);
    if a.act.Write? {
      var c := a.act.commit;
      forall id | id in n.core.db.links
        ensures n.core.db.links[id].clickCount == WrittenFor(s.pipe, id)
      {
        CommitKeepsCounter(cfg.core, s.core, c, id);
        if id !in s.core.db.links {
          NeverServed(cfg, s, id);
        }
      }
    }
  }

  // Outside the pipeline no commit touches a counter, and a new row starts at zero.
  lemma CommitKeepsCounter(cfg: Coarse.Config, s: Coarse.State, c: Commit, id: Id)
    requires Sound(s.db) && FreshId(s.db, c) && !c.Flush?
    requires id in Apply(cfg.policy, s.db, c, s.now).links
    ensures var row := Apply(cfg.policy, s.db, c, s.now).links[id];
            if id in s.db.links then row.clickCount == s.db.links[id].clickCount
            else c.MakeLink? && c.id == id && row.clickCount == 0
  {
    match c
    case MakeLink(tenant, i, create, draws) =>
      Service.CreateOutcome(cfg.policy, s.db.links, tenant, i, create, draws, s.now);
    case ChangeLink(tenant, i, update) =>
      if Owned(s.db.links, tenant, i) && Service.PatchLink(cfg.policy, s.db.links[i], update, s.now).Ok? {
        Service.UpdateRewritesOneRow(cfg.policy, s.db.links, tenant, i, update, s.now);
      }
    case RemoveLink(_, _) =>
    case Sweep(_, _) =>
  }

  lemma NeverServed(cfg: Config, s: State, id: Id)
    requires Inv(cfg, s) && id !in s.core.db.links && id !in s.core.purged
    ensures WrittenFor(s.pipe, id) == 0
  {
    CountPositive(Ingest.Outcome(s.pipe.calls, true), id);
    forall c | c in Ingest.Outcome(s.pipe.calls, true)
      ensures c.link != id
    {
      WrittenWasOffered(s, c);
    }
  }

  lemma StepKeeps(cfg: Config, s: State, a: Action)
    requires Inv(cfg, s) && Enabled(cfg, s, a)
    ensures Inv(cfg, Next(cfg, s, a))
  {
    match a
    case Serve(_, _, _) => ServeKeeps(cfg, s, a);
    case Work(_, _, _) => WorkKeeps(cfg, s, a);
    case Other(_) => OtherKeeps(cfg, s, a);
    case Close =>
      Ingest.BoundedStep(cfg.pool, s.pipe, Ingest.Close);
      Ingest.ConservedStep(cfg.pool, s.pipe, Ingest.Close);
  }

  lemma {:induction false} RunKeeps(cfg: Config, s: State, acts: seq<Action>)
    requires Inv(cfg, s) && Runs(cfg, s, acts)
    ensures Inv(cfg, Run(cfg, s, acts))
    decreases |acts|
  {
    if acts != [] {
      StepKeeps(cfg, s, acts[0]);
      RunKeeps(cfg, Next(cfg, s, acts[0]), acts[1..]);
    }
  }

  // --- the bound ---

  lemma {:induction false} FlattenSize(bs: seq<seq<Click>>, most: nat)
    requires forall i :: 0 <= i < |bs| ==> |bs[i]| <= most
    ensures |Pipeline.Flatten(bs)| <= |bs| * most
  {
    if bs != [] {
      FlattenSize(bs[..|bs| - 1], most);
      assert |bs| * most == (|bs| - 1) * most + most;
    }
  }

  lemma OfferedCount(p: Ingest.State, id: Id)
    requires Ingest.Conserved(p) && p.pending == []
    ensures CountFor(p.offered, id) == CountFor(p.sent, id) + CountFor(p.dropped, id) + CountFor(p.rejected, id)
  {
    CountPermutation(p.offered, p.sent + p.dropped + p.rejected, id);
    CountConcat(p.sent + p.dropped, p.rejected, id);
    CountConcat(p.sent, p.dropped, id);
  }

  lemma SentCount(p: Ingest.State, id: Id)
    requires Ingest.Conserved(p)
    ensures CountFor(p.sent, id) ==
            CountFor(p.queue, id) + CountFor(Pipeline.Flatten(Ingest.Batches(p.workers)), id) + WrittenFor(p, id) + LostFor(p, id)
  {
    var batches := Pipeline.Flatten(Ingest.Batches(p.workers));
    var written, lost := Ingest.Outcome(p.calls, true), Ingest.Outcome(p.calls, false);
    var inside := p.queue + (batches + (written + lost));
    assert multiset(p.sent) == multiset(inside);
    CountPermutation(p.sent, inside, id);
    CountConcat(p.queue, batches + (written + lost), id);
    CountConcat(batches, written + lost, id);
    CountConcat(written, lost, id);
  }

  // Every serve of a link ended up somewhere; what is still inside the pipeline is bounded.
  lemma ServesAccounted(cfg: Ingest.Config, p: Ingest.State, id: Id)
    requires PipeInv(cfg, p)
    ensures CountFor(p.offered, id) <= WrittenFor(p, id) + Capacity(cfg) + Uncounted(p, id)
  {
    var batches := Ingest.Batches(p.workers);
    OfferedCount(p, id);
    SentCount(p, id);
    CountPositive(p.queue, id);
    CountPositive(Pipeline.Flatten(batches), id);
    FlattenSize(batches, cfg.size - 1);
  }

  // The bound, for the serve of `l` on the code that is about to be counted as click `c`.
  ghost predicate WithinBound(cfg: Config, s: State, code: string, l: Link, c: Click) {
    l.maxClicks.Some? ==>
      CountFor(s.pipe.offered + [c], l.id) <=
      l.maxClicks.value + Capacity(cfg.pool) + Uncounted(s.pipe, l.id) + CountFor(Late(s, code, c), l.id)
  }

  lemma ServeWithinBound(cfg: Config, s: State, code: string, up: Faults, c: Click)
    requires Inv(cfg, s) && Answer(cfg, s, code, up).Ok?
    ensures WithinBound(cfg, s, code, Answer(cfg, s, code, up).value, c)
  {
    ServedIsInTable(cfg, s, code, up);
    if up.cacheRead && Coarse.StaleRefused(s.core, code) {
      LateWithinBound(cfg, s, code, s.core.cache[code].entry.link, c);
    } else {
      RowWithinBound(cfg, s, code, Answer(cfg, s, code, up).value, c);
    }
  }

  lemma LateWithinBound(cfg: Config, s: State, code: string, snap: CachedLink, c: Click)
    requires Accounted(cfg.pool, s) && code in s.core.refused && code in s.core.cache
    requires s.core.cache[code].entry == Positive(snap) && ToDomain(snap).IsActive(s.core.now)
    ensures WithinBound(cfg, s, code, ToDomain(snap), c)
  {
    assert Covers(cfg.pool, s, snap);
    CountAppend(s.pipe.offered, c, snap.id);
    CountAppend(s.late, c, snap.id);
  }

  lemma RowWithinBound(cfg: Config, s: State, code: string, l: Link, c: Click)
    requires PipeInv(cfg.pool, s.pipe) && Tied(s)
    requires l.id in s.core.db.links && s.core.db.links[l.id].IsActive(s.core.now)
    requires s.core.db.links[l.id].maxClicks == l.maxClicks
    ensures WithinBound(cfg, s, code, l, c)
  {
    ServesAccounted(cfg.pool, s.pipe, l.id);
    CountAppend(s.pipe.offered, c, l.id);
  }

  /** At the instant a link limited to M is served, its serves so far, this one included, number at
      most M, plus what the pipeline can hold, plus the link's clicks that were dropped, rejected or
      lost to failed batches, plus those served while a refused invalidation was outstanding. */
  lemma ClickLimitOvershoot(cfg: Config, start: Time, acts: seq<Action>, code: string, up: Faults, c: Click)
    requires Ingest.ValidConfig(cfg.pool) && Runs(cfg, Init(cfg, start), acts)
    requires Answer(cfg, Run(cfg, Init(cfg, start), acts), code, up).Ok?
    ensures var s := Run(cfg, Init(cfg, start), acts);
            WithinBound(cfg, s, code, Answer(cfg, s, code, up).value, c)
  {
    Ingest.FlattenEmpty(Ingest.Batches(Ingest.Init(cfg.pool).workers));
    RunKeeps(cfg, Init(cfg, start), acts);
    ServeWithinBound(cfg, Run(cfg, Init(cfg, start), acts), code, up, c);
  }
}
