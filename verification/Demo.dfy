/** The demo tenant's guardrails: capped lifetimes at every service write, and the janitor. */
module Demo {
  import opened Domain
  import opened LinkTable
  import opened ClickLog
  import opened Repository
  import opened Service
  import opened Writes

  // One turn of the janitor: when it fired and whether the purge went through.
  datatype Turn = Turn(now: Time, ok: bool)

  function Swept(db: Db, tenant: Id, retention: nat, turns: seq<Turn>): Db {
    if turns == [] then db
    else
      var before := Swept(db, tenant, retention, turns[..|turns| - 1]);
      var last := turns[|turns| - 1];
      if last.ok then PurgeDb(before, tenant, last.now - retention) else before
  }

  /** What a janitor's turns leave: exactly the rows no successful turn found expired or deleted before
      its cutoff, unchanged. */
  lemma {:induction false} SweptIs(db: Db, tenant: Id, retention: nat, turns: seq<Turn>, id: Id)
    ensures var after := Swept(db, tenant, retention, turns).links;
            && (id in after ==> id in db.links && after[id] == db.links[id])
            && (id in after <==> id in db.links && forall k :: 0 <= k < |turns| && turns[k].ok ==>
                                   !Overdue(db.links[id], tenant, turns[k].now - retention))
  {
    if turns != [] {
      var front := turns[..|turns| - 1];
      SweptIs(db, tenant, retention, front, id);
      assert forall k :: 0 <= k < |front| ==> turns[k] == front[k];
    }
  }

  predicate Overdue(l: Link, tenant: Id, cutoff: Time) {
    l.tenant == tenant && ((l.expiresAt.Some? && l.expiresAt.value < cutoff) || (l.deletedAt.Some? && l.deletedAt.value < cutoff))
  }

  class LinkJanitor {
    const db: Postgres
    const tenant: Id
    const retention: nat

    constructor (db: Postgres, tenant: Id, retention: nat)
      ensures this.db == db && this.tenant == tenant && this.retention == retention
    {
      this.db, this.tenant, this.retention := db, tenant, retention;
    }

    method SweepOnce(turn: Turn)
      requires db.Consistent()
      modifies db
      ensures db.Consistent()
      ensures db.Contents() == if turn.ok then PurgeDb(old(db.Contents()), tenant, turn.now - retention) else old(db.Contents())
    {
      var cutoff := turn.now - retention;
      if turn.ok {
        var _ := db.PurgeExpired(tenant, cutoff);
      }
    }

    // Sweep at once, then on every tick until cancelled; a failed sweep is retried on the next tick.
    method Run(first: Turn, ticks: seq<Turn>)
      requires db.Consistent()
      modifies db
      ensures db.Consistent()
      ensures db.Contents() == Swept(old(db.Contents()), tenant, retention, [first] + ticks)
    {
      SweepOnce(first);
      assert ([first] + ticks)[..1] == [first];
      for i := 0 to |ticks|
        invariant db.Consistent()
        invariant db.Contents() == Swept(old(db.Contents()), tenant, retention, ([first] + ticks)[..i + 1])
      {
        assert ([first] + ticks)[..i + 2][..i + 1] == ([first] + ticks)[..i + 1];
        SweepOnce(ticks[i]);
      }
      assert ([first] + ticks)[..|ticks| + 1] == [first] + ticks;
    }
  }

  // --- lifetimes over any run ---

  // `written` is when each row was last created or patched by the service.
  datatype State = State(db: Db, written: map<Id, Time>, now: Time)

  datatype Action = Do(c: Commit) | Tick(d: nat)

  // The row a commit writes through the service, if it does.
  ghost function WrittenBy(p: Policy, s: State, c: Commit): set<Id> {
    match c
    case MakeLink(tenant, id, create, draws) =>
      if Create(p, s.db.links, tenant, id, create, draws, s.now).1.Ok? then {id} else {}
    case ChangeLink(tenant, id, update) =>
      if Update(p, s.db.links, tenant, id, update, s.now).1.Ok? then {id} else {}
    case _ => {}
  }

  ghost function Next(p: Policy, s: State, a: Action): State {
    match a
    case Do(c) =>
      s.(db := Apply(p, s.db, c, s.now), written := s.written + map id | id in WrittenBy(p, s, c) :: s.now)
    case Tick(d) => s.(now := s.now + d)
  }

  predicate Enabled(s: State, a: Action) {
    a.Do? ==> FreshId(s.db, a.c)
  }

  ghost predicate Runs(p: Policy, s: State, acts: seq<Action>)
    decreases |acts|
  {
    acts != [] ==> Enabled(s, acts[0]) && Runs(p, Next(p, s, acts[0]), acts[1..])
  }

  ghost function Run(p: Policy, s: State, acts: seq<Action>): State
    decreases |acts|
  {
    if acts == [] then s else Run(p, Next(p, s, acts[0]), acts[1..])
  }

  // Every capped row expires within the cap of its last service write.
  ghost predicate LifetimesCapped(p: Policy, s: State) {
    forall id :: id in s.db.links && Capped(p, s.db.links[id].tenant) ==>
      && id in s.written && s.written[id] <= s.now
      && s.db.links[id].expiresAt.Some? && s.db.links[id].expiresAt.value <= s.written[id] + p.demoMaxTTL
  }

  lemma MakeKeeps(p: Policy, s: State, c: Commit)
    requires Sound(s.db) && LifetimesCapped(p, s) && FreshId(s.db, c) && c.MakeLink?
    ensures LifetimesCapped(p, Next(p, s, Do(c)))
  {
    CreateOutcome(p, s.db.links, c.tenant, c.id, c.create, c.draws, s.now);
  }

  lemma ChangeKeeps(p: Policy, s: State, c: Commit)
    requires Sound(s.db) && LifetimesCapped(p, s) && c.ChangeLink?
    ensures LifetimesCapped(p, Next(p, s, Do(c)))
  {
    if Owned(s.db.links, c.tenant, c.id) && PatchLink(p, s.db.links[c.id], c.update, s.now).Ok? {
      UpdateRewritesOneRow(p, s.db.links, c.tenant, c.id, c.update, s.now);
    }
  }

  // The other commits write no expiry.
  lemma OthersKeep(p: Policy, s: State, c: Commit)
    requires LifetimesCapped(p, s) && !c.MakeLink? && !c.ChangeLink?
    ensures LifetimesCapped(p, Next(p, s, Do(c)))
  {
    assert WrittenBy(p, s, c) == {};
  }

  lemma StepKeeps(p: Policy, s: State, a: Action)
    requires Sound(s.db) && LifetimesCapped(p, s) && Enabled(s, a)
    ensures Sound(Next(p, s, a).db) && LifetimesCapped(p, Next(p, s, a))
  {
    if a.Do? {
      ApplyKeepsSound(p, s.db, a.c, s.now);
      if a.c.MakeLink? {
        MakeKeeps(p, s, a.c);
      } else if a.c.ChangeLink? {
        ChangeKeeps(p, s, a.c);
      } else {
        OthersKeep(p, s, a.c);
      }
    }
  }

  lemma {:induction false} RunKeeps(p: Policy, s: State, acts: seq<Action>)
    requires Sound(s.db) && LifetimesCapped(p, s) && Runs(p, s, acts)
    ensures Sound(Run(p, s, acts).db) && LifetimesCapped(p, Run(p, s, acts))
    decreases |acts|
  {
    if acts != [] {
      StepKeeps(p, s, acts[0]);
      RunKeeps(p, Next(p, s, acts[0]), acts[1..]);
    }
  }

  /** With the policy on from the start: every demo link expires within maxTTL of its last service
      write; after a sweep every surviving demo row was written within retention + maxTTL; the sweep
      removes exactly the demo rows that expired or were deleted before its cutoff. */
  lemma DemoStaysBounded(p: Policy, start: Time, acts: seq<Action>, retention: nat, id: Id)
    requires p.demoMaxTTL > 0
    requires Runs(p, State(Db(map[], []), map[], start), acts)
    ensures var s := Run(p, State(Db(map[], []), map[], start), acts);
            LifetimesCapped(p, s)
    ensures var s := Run(p, State(Db(map[], []), map[], start), acts);
            var swept := Next(p, s, Do(Sweep(p.demoTenant, retention)));
            && (id in swept.db.links && swept.db.links[id].tenant == p.demoTenant ==>
                  s.now - retention - p.demoMaxTTL <= s.written[id])
            && (id in s.db.links && id !in swept.db.links <==>
                  id in s.db.links && s.db.links[id].tenant == p.demoTenant &&
                  (Before(s.db.links[id].expiresAt, s.now - retention) || Before(s.db.links[id].deletedAt, s.now - retention)))
            && (id in swept.db.links ==> swept.db.links[id] == s.db.links[id])
  {
    RunKeeps(p, State(Db(map[], []), map[], start), acts);
  }

  // What the cap does to a request.
  lemma ClampIsEarliest(p: Policy, tenant: Id, requested: Option<Time>, now: Time)
    ensures Capped(p, tenant) ==>
      && ClampDemoExpiry(p, tenant, requested, now).Some?
      && ClampDemoExpiry(p, tenant, requested, now).value <= now + p.demoMaxTTL
      && (requested.Some? ==> ClampDemoExpiry(p, tenant, requested, now).value <= requested.value)
      && (ClampDemoExpiry(p, tenant, requested, now) == requested || ClampDemoExpiry(p, tenant, requested, now).value == now + p.demoMaxTTL)
  {
  }
}
