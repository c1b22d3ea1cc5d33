/** The redirect cache over the links table, each operation one step: what a cached answer may
    differ in from a lookup that goes to the table. */
module Coarse {
  import opened Domain
  import opened LinkTable
  import opened ClickLog
  import opened Cache
  import opened Redirect
  import opened Service
  import opened Writes

  datatype Config = Config(policy: Policy, ttl: Time, negTTL: Time)

  // `purged` remembers when each hard-deleted id went away, `refused` for each cached entry when an
  // invalidation of it first failed to reach Redis.
  datatype State = State(db: Db, cache: Store, now: Time, purged: map<Id, Time>, refused: map<string, Time>)

  // `down` are the codes whose invalidation Redis refuses on this write.
  datatype Action =
    | Lookup(code: string, up: Faults)
    | Write(commit: Commit, down: set<string>)
    | Evict(code: string)
    | Tick(d: nat)

  function Init(now: Time): State {
    State(Db(map[], []), map[], now, map[], map[])
  }

  // Row ids are generated fresh: never one in use, never one used before.
  predicate Enabled(s: State, a: Action) {
    a.Write? ==> FreshId(s.db, a.commit) && (a.commit.MakeLink? ==> a.commit.id !in s.purged)
  }

  function DropAll(m: Store, codes: set<string>): Store {
    map k | k in m && k !in codes :: m[k]
  }

  // Does the lookup write the cache?
  predicate Fills(s: State, code: string, up: Faults) {
    !Look(s.cache, code, s.now, up.cacheRead).Known? && up.dbRead && up.cacheWrite
  }

  // A failed invalidation is logged and forgotten: the entry stays, and stays marked until replaced.
  function Refuse(s: State, codes: set<string>): map<string, Time> {
    map code | code in s.refused.Keys + (s.cache.Keys * codes) ::
      if code in s.refused then s.refused[code] else s.now
  }

  ghost function Next(cfg: Config, s: State, a: Action): State {
    match a
    case Lookup(code, up) =>
      s.(cache := Resolve(s.db.links, s.cache, code, s.now, up, cfg.ttl, cfg.negTTL).0,
         refused := if Fills(s, code, up) then s.refused - {code} else s.refused)
    case Write(c, down) =>
      var db := Apply(cfg.policy, s.db, c, s.now);
      var owed := Owed(cfg.policy, s.db, c, s.now);
      s.(db := db,
         cache := DropAll(s.cache, owed - down),
         refused := Refuse(s, owed * down) - (owed - down),
         purged := s.purged + map id | id in s.db.links && id !in db.links :: s.now)
    case Evict(code) => s.(cache := Drop(s.cache, code), refused := s.refused - {code})
    case Tick(d) => s.(now := s.now + d)
  }

  ghost predicate Runs(cfg: Config, s: State, acts: seq<Action>)
    decreases |acts|
  {
    acts != [] ==> Enabled(s, acts[0]) && Runs(cfg, Next(cfg, s, acts[0]), acts[1..])
  }

  ghost function Run(cfg: Config, s: State, acts: seq<Action>): State
    decreases |acts|
  {
    if acts == [] then s else Run(cfg, Next(cfg, s, acts[0]), acts[1..])
  }

  // --- what a cached entry is worth ---

  // The snapshot's row is live, agrees on all but the click count, lags it, and is not exhausted
  // unless the snapshot says so.
  predicate Follows(c: CachedLink, links: Table) {
    && Holds(links, c.id, c.code)
    && var row := links[c.id];
       && FromDomain(row.(clickCount := c.clickCount)) == c
       && c.clickCount <= row.clickCount
       && (row.IsExhausted() ==> ToDomain(c).IsExhausted())
  }

  // The snapshot's row was purged: after the snapshot was taken, and already past its expiry.
  predicate Orphaned(c: CachedLink, setAt: Time, s: State) {
    && c.id !in s.db.links && c.id in s.purged && setAt <= s.purged[c.id]
    && c.expiresAt.Some? && c.expiresAt.value < s.now
  }

  // A refused snapshot may say anything about its row but the code, which never changes; and its id
  // is never given to another row.
  predicate Remembered(c: CachedLink, setAt: Time, s: State) {
    && c.code in s.refused && setAt <= s.refused[c.code] <= s.now
    && (if c.id in s.db.links then s.db.links[c.id].code == c.code else c.id in s.purged)
  }

  ghost predicate Backed(cfg: Config, s: State, code: string, e: Stored) {
    match e.entry
    case Negative =>
      var setAt := e.expireAt - cfg.negTTL;
      setAt <= s.now && forall id :: Holds(s.db.links, id, code) ==> setAt <= s.db.links[id].createdAt
    case Positive(c) =>
      var setAt := e.expireAt - cfg.ttl;
      setAt <= s.now && c.code == code &&
      if code in s.refused then Remembered(c, setAt, s) else Follows(c, s.db.links) || Orphaned(c, setAt, s)
  }

  ghost predicate Inv(cfg: Config, s: State) {
    && Sound(s.db)
    && (forall id :: id in s.purged ==> id !in s.db.links)
    && (forall code :: code in s.refused ==> code in s.cache)
    && forall code :: code in s.cache ==> Backed(cfg, s, code, s.cache[code])
  }

  lemma LookupKeeps(cfg: Config, s: State, code: string, up: Faults)
    requires Inv(cfg, s)
    ensures Inv(cfg, Next(cfg, s, Lookup(code, up)))
  {
    if Taken(s.db.links, code) {
      var id :| Holds(s.db.links, id, code);
      ByCodeIs(s.db.links, id, code);
    }
  }

  // A snapshot that survives the invalidations still follows its row, or lost it to the purge.
  lemma SnapshotKeeps(cfg: Config, s: State, c: Commit, down: set<string>, snap: CachedLink, setAt: Time)
    requires Sound(s.db) && Enabled(s, Write(c, down))
    requires setAt <= s.now && snap.code !in Owed(cfg.policy, s.db, c, s.now)
    requires Follows(snap, s.db.links) || Orphaned(snap, setAt, s)
    ensures var n := Next(cfg, s, Write(c, down)); Follows(snap, n.db.links) || Orphaned(snap, setAt, n)
  {
    match c
    case MakeLink(tenant, id, create, draws) =>
      CreateOutcome(cfg.policy, s.db.links, tenant, id, create, draws, s.now);
    case ChangeLink(tenant, id, update) =>
      if Owned(s.db.links, tenant, id) && PatchLink(cfg.policy, s.db.links[id], update, s.now).Ok? {
        UpdateRewritesOneRow(cfg.policy, s.db.links, tenant, id, update, s.now);
      }
    case RemoveLink(_, _) =>
    case Flush(_, _) =>
    case Sweep(_, _) =>
  }

  // A marker stays older than any live row of its code: rows only ever appear now.
  lemma MarkerKeeps(cfg: Config, s: State, c: Commit, down: set<string>, code: string, setAt: Time)
    requires Sound(s.db) && Enabled(s, Write(c, down)) && setAt <= s.now
    requires forall id :: Holds(s.db.links, id, code) ==> setAt <= s.db.links[id].createdAt
    ensures var links := Next(cfg, s, Write(c, down)).db.links;
            forall id :: Holds(links, id, code) ==> setAt <= links[id].createdAt
  {
    var links := Next(cfg, s, Write(c, down)).db.links;
    forall id | Holds(links, id, code)
      ensures setAt <= links[id].createdAt
    {
      if id in s.db.links {
        RowAfter(cfg.policy, s.db, c, s.now, id);
        assert Holds(s.db.links, id, code);
      } else if c.MakeLink? {
        CreateOutcome(cfg.policy, s.db.links, c.tenant, c.id, c.create, c.draws, s.now);
      }
    }
  }

  // A snapshot whose invalidation is refused, now or before, is remembered as such.
  lemma RefusedKeeps(cfg: Config, s: State, c: Commit, down: set<string>, snap: CachedLink, setAt: Time)
    requires Sound(s.db) && Enabled(s, Write(c, down)) && setAt <= s.now
    requires forall id :: id in s.purged ==> id !in s.db.links
    requires snap.code in s.cache && snap.code in Next(cfg, s, Write(c, down)).refused
    requires if snap.code in s.refused then Remembered(snap, setAt, s)
             else Follows(snap, s.db.links) || Orphaned(snap, setAt, s)
    ensures Remembered(snap, setAt, Next(cfg, s, Write(c, down)))
  {
    var links := Next(cfg, s, Write(c, down)).db.links;
    if snap.id in s.db.links {
      if snap.id in links {
        RowAfter(cfg.policy, s.db, c, s.now, snap.id);
      }
    } else if c.MakeLink? {
      CreateOutcome(cfg.policy, s.db.links, c.tenant, c.id, c.create, c.draws, s.now);
    }
  }

  lemma WriteKeeps(cfg: Config, s: State, c: Commit, down: set<string>)
    requires Inv(cfg, s) && Enabled(s, Write(c, down))
    ensures Inv(cfg, Next(cfg, s, Write(c, down)))
  {
    ApplyKeepsSound(cfg.policy, s.db, c, s.now);
    var n := Next(cfg, s, Write(c, down));
    forall code | code in n.cache
      ensures Backed(cfg, n, code, n.cache[code])
    {
      var e := s.cache[code];
      assert Backed(cfg, s, code, e);
      match e.entry
      case Negative => MarkerKeeps(cfg, s, c, down, code, e.expireAt - cfg.negTTL);
      case Positive(snap) =>
        if code in n.refused {
          RefusedKeeps(cfg, s, c, down, snap, e.expireAt - cfg.ttl);
        } else {
          SnapshotKeeps(cfg, s, c, down, snap, e.expireAt - cfg.ttl);
        }
    }
    forall id | id in n.purged
      ensures id !in n.db.links
    {
      if c.MakeLink? {
        CreateOutcome(cfg.policy, s.db.links, c.tenant, c.id, c.create, c.draws, s.now);
      }
    }
  }

  lemma StepKeeps(cfg: Config, s: State, a: Action)
    requires Inv(cfg, s) && Enabled(s, a)
    ensures Inv(cfg, Next(cfg, s, a))
  {
    match a
    case Lookup(code, up) => LookupKeeps(cfg, s, code, up);
    case Write(c, down) => WriteKeeps(cfg, s, c, down);
    case Evict(_) =>
    case Tick(_) =>
  }

  lemma {:induction false} RunKeeps(cfg: Config, s: State, acts: seq<Action>)
    requires Inv(cfg, s) && Runs(cfg, s, acts)
    ensures Inv(cfg, Run(cfg, s, acts))
    decreases |acts|
  {
    if acts != [] {
      StepKeeps(cfg, s, acts[0]);
      RunKeeps(cfg, Next(cfg, s, acts[0]), acts[1..]);
    }
  }

  // --- the refinement ---

  // Equal up to what a snapshot does not carry and to the click count it lags in.
  predicate SameAnswer(a: Result<Link>, b: Result<Link>) {
    if a.Ok? && b.Ok? then FromDomain(a.value.(clickCount := b.value.clickCount)) == FromDomain(b.value)
    else a == b
  }

  ghost predicate StaleMarker(s: State, code: string) {
    Visible(s.cache, code, s.now) == Some(Negative) && Taken(s.db.links, code)
  }

  ghost predicate StaleOrphan(s: State, code: string) {
    match Visible(s.cache, code, s.now)
    case Some(Positive(c)) =>
      code !in s.refused && c.id !in s.db.links &&
      (match ByCode(s.db.links, code) case None => true case Some(row) => row.IsActive(s.now))
    case _ => false
  }

  // The snapshot's invalidation was refused, and the live row of the code has gone, or differs from it
  // in being active, or is active and differs in what is served.
  ghost predicate StaleRefused(s: State, code: string) {
    match Visible(s.cache, code, s.now)
    case Some(Positive(c)) =>
      code in s.refused &&
      (match ByCode(s.db.links, code)
       case None => true
       case Some(row) =>
         || row.IsActive(s.now) != ToDomain(c).IsActive(s.now)
         || (row.IsActive(s.now) && FromDomain(row.(clickCount := c.clickCount)) != c))
    case _ => false
  }

  // Resolve answers as a table lookup would, except exactly in three cases: a marker older than the
  // link, for less than negTTL after the link was created; a snapshot of a purged link, which answers
  // Gone for less than ttl after the purge; and a snapshot that has fallen behind since Redis refused
  // its invalidation, for less than ttl after that. But for the last, what it serves the table serves.
  ghost predicate Refines(cfg: Config, s: State, code: string, up: Faults) {
    var r := Resolve(s.db.links, s.cache, code, s.now, up, cfg.ttl, cfg.negTTL).1;
    var d := DbOnly(s.db.links, code, s.now);
    && (SameAnswer(r, d) <==>
          !(up.cacheRead && (StaleMarker(s, code) || StaleOrphan(s, code) || StaleRefused(s, code))))
    && (r.Ok? && !(up.cacheRead && StaleRefused(s, code)) ==> SameAnswer(r, d) && d.value.IsActive(s.now))
    && (up.cacheRead && StaleMarker(s, code) ==>
          r == Err(NotFound) && s.now < ByCode(s.db.links, code).value.createdAt + cfg.negTTL)
    && (up.cacheRead && StaleOrphan(s, code) ==>
          var id := s.cache[code].entry.link.id;
          r == Err(Gone) && id in s.purged && s.now < s.purged[id] + cfg.ttl)
    && (StaleRefused(s, code) ==> s.refused[code] <= s.now < s.refused[code] + cfg.ttl)
  }

  lemma ResolveRefines(cfg: Config, s: State, code: string, up: Faults)
    requires Inv(cfg, s) && up.dbRead
    ensures Refines(cfg, s, code, up)
  {
    if up.cacheRead && Visible(s.cache, code, s.now).Some? {
      assert Backed(cfg, s, code, s.cache[code]);
      match s.cache[code].entry
      case Negative =>
        if Taken(s.db.links, code) {
          var id :| Holds(s.db.links, id, code);
          ByCodeIs(s.db.links, id, code);
        }
      case Positive(c) =>
        if code !in s.refused && Follows(c, s.db.links) {
          ByCodeIs(s.db.links, c.id, code);
        }
    }
  }

  /** The refinement holds of every lookup after every run from an empty system. */
  lemma EveryLookupRefines(cfg: Config, start: Time, acts: seq<Action>, code: string, up: Faults)
    requires Runs(cfg, Init(start), acts) && up.dbRead
    ensures Refines(cfg, Run(cfg, Init(start), acts), code, up)
  {
    RunKeeps(cfg, Init(start), acts);
    ResolveRefines(cfg, Run(cfg, Init(start), acts), code, up);
  }

  /** Deleting an owned link whose invalidation goes through takes its code off the redirect path: the next
      lookup, with every call up, is not found. */
  lemma DeletedIsNotFound(cfg: Config, s: State, tenant: Id, id: Id, down: set<string>)
    requires Inv(cfg, s) && id in s.db.links && s.db.links[id].tenant == tenant && s.db.links[id].deletedAt == None
    requires s.db.links[id].code !in down
    ensures var n := Next(cfg, s, Write(RemoveLink(tenant, id), down));
            Resolve(n.db.links, n.cache, s.db.links[id].code, n.now, Faults(true, true, true), cfg.ttl, cfg.negTTL).1 == Err(NotFound)
  {
    var code := s.db.links[id].code;
    var n := Next(cfg, s, Write(RemoveLink(tenant, id), down));
    assert Holds(s.db.links, id, code);
    assert forall other :: Holds(n.db.links, other, code) ==> Holds(s.db.links, other, code);
    assert !Taken(n.db.links, code);
  }

  /** click_count is the number of the link's rows in clicks, every click's link exists, and live
      codes are unique, after any run. */
  lemma CountersAndCodesAlwaysRight(cfg: Config, start: Time, acts: seq<Action>)
    requires Runs(cfg, Init(start), acts)
    ensures CountsMatch(Run(cfg, Init(start), acts).db) && Valid(Run(cfg, Init(start), acts).db.links)
  {
    RunKeeps(cfg, Init(start), acts);
  }
}
