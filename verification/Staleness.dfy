/** The same cache with every Redis or Postgres call a step of its own: readers between their table
    read and their cache write, writers between their commit and their invalidations, lost
    invalidations, evictions. How stale can an answer be? */
module Staleness {
  import opened Domain
  import opened LinkTable
  import opened ClickLog
  import opened Cache
  import opened Redirect
  import opened Writes
  import Coarse

  // A committed version of the tables and when it was committed.
  datatype Version = Version(db: Db, at: Time)

  // A redirect in flight: it missed, or it has read `row` from version `seen` at time `readAt`.
  datatype Reader = Missed(code: string) | Loaded(code: string, row: Option<Link>, seen: nat, readAt: Time)

  // A writer that committed version `made` and still owes these invalidations.
  datatype Writer = Writer(made: nat, todo: set<string>)

  // A cache entry and the read behind it; `step` numbers the write.
  datatype Filled = Filled(entry: Entry, expireAt: Time, seen: nat, readAt: Time, setAt: Time, step: nat)

  // An invalidation that went through, on behalf of the writer of version `made`.
  datatype Cleared = Cleared(code: string, made: nat, step: nat)

  datatype State = State(
    now: Time,
    step: nat,
    versions: seq<Version>,
    cache: map<string, Filled>,
    readers: map<nat, Reader>,
    writers: map<nat, Writer>,
    cleared: seq<Cleared>)

  datatype Action =
    | Tick(d: nat)
    | CacheGet(pid: nat, code: string, up: bool)
    | DbRead(pid: nat)
    | CacheSet(pid: nat, up: bool)
    | Write(pid: nat, commit: Commit)
    | Invalidate(pid: nat, code: string, up: bool)
    | Done(pid: nat)
    | Evict(code: string)

  ghost function Init(now: Time): State {
    State(now, 0, [Version(Db(map[], []), now)], map[], map[], map[], [])
  }

  function Latest(s: State): Db
    requires s.versions != []
  {
    s.versions[|s.versions| - 1].db
  }

  // A process does one thing at a time.
  predicate Enabled(s: State, a: Action) {
    match a
    case CacheGet(pid, _, _) => pid !in s.readers
    case DbRead(pid) => pid in s.readers && s.readers[pid].Missed?
    case CacheSet(pid, _) => pid in s.readers && s.readers[pid].Loaded?
    case Write(pid, c) =>
      pid !in s.writers && s.versions != [] && FreshId(Latest(s), c)
    case Invalidate(pid, code, _) => pid in s.writers && code in s.writers[pid].todo
    case Done(pid) => pid in s.writers && s.writers[pid].todo == {}
    case _ => true
  }

  predicate Hit(s: State, code: string) {
    code in s.cache && s.now < s.cache[code].expireAt
  }

  ghost function Next(cfg: Coarse.Config, s: State, a: Action): State
    requires s.versions != [] && Enabled(s, a)
  {
    var n := s.(step := s.step + 1);
    match a
    case Tick(d) => n.(now := s.now + d)
    case CacheGet(pid, code, up) =>
      if up && Hit(s, code) then n else n.(readers := s.readers[pid := Missed(code)])
    case DbRead(pid) =>
      var code := s.readers[pid].code;
      n.(readers := s.readers[pid := Loaded(code, ByCode(Latest(s).links, code), |s.versions| - 1, s.now)])
    case CacheSet(pid, up) =>
      var r := s.readers[pid];
      n.(readers := s.readers - {pid},
         cache := if up then
                    s.cache[r.code := Filled(EntryFor(r.row), ExpiryFor(r.row, s.now, cfg.ttl, cfg.negTTL),
                                             r.seen, r.readAt, s.now, s.step)]
                  else s.cache)
    case Write(pid, c) =>
      n.(versions := s.versions + [Version(Apply(cfg.policy, Latest(s), c, s.now), s.now)],
         writers := s.writers[pid := Writer(|s.versions|, Owed(cfg.policy, Latest(s), c, s.now))])
    case Invalidate(pid, code, up) =>
      var w := s.writers[pid];
      n.(writers := s.writers[pid := w.(todo := w.todo - {code})],
         cache := if up then map k | k in s.cache && k != code :: s.cache[k] else s.cache,
         cleared := if up then s.cleared + [Cleared(code, w.made, s.step)] else s.cleared)
    case Done(pid) => n.(writers := s.writers - {pid})
    case Evict(code) => n.(cache := map k | k in s.cache && k != code :: s.cache[k])
  }

  ghost predicate Runs(cfg: Coarse.Config, s: State, acts: seq<Action>)
    requires s.versions != []
    decreases |acts|
  {
    acts != [] ==> Enabled(s, acts[0]) && Runs(cfg, Next(cfg, s, acts[0]), acts[1..])
  }

  ghost function Run(cfg: Coarse.Config, s: State, acts: seq<Action>): State
    requires s.versions != [] && Runs(cfg, s, acts)
    decreases |acts|
  {
    if acts == [] then s else Run(cfg, Next(cfg, s, acts[0]), acts[1..])
  }

  // --- answers ---

  // The live row for a code in version v, as the cache would snapshot it.
  ghost function EntryAt(s: State, v: nat, code: string): Entry
    requires v < |s.versions|
  {
    EntryFor(ByCode(s.versions[v].db.links, code))
  }

  // Version v was the committed state at time t.
  predicate CurrentAt(s: State, v: nat, t: Time) {
    && v < |s.versions|
    && s.versions[v].at <= t
    && (v + 1 < |s.versions| ==> t <= s.versions[v + 1].at)
  }

  // What a hit on the code answers now.
  function HitAnswer(s: State, code: string): Result<Link>
    requires Hit(s, code)
  {
    match s.cache[code].entry
    case Negative => Err(NotFound)
    case Positive(c) => CheckActive(ToDomain(c), s.now)
  }

  // What a reader answers once its table read is in.
  function LoadedAnswer(s: State, r: Reader): Result<Link>
    requires r.Loaded?
  {
    match r.row
    case None => Err(NotFound)
    case Some(l) => CheckActive(l, s.now)
  }

  ghost predicate Traced(cfg: Coarse.Config, s: State, code: string, f: Filled) {
    && CurrentAt(s, f.seen, f.readAt)
    && f.entry == EntryAt(s, f.seen, code)
    && f.readAt <= f.setAt <= s.now && f.step < s.step
    && f.expireAt == f.setAt + (if f.entry.Positive? then cfg.ttl else cfg.negTTL)
  }

  // A loaded reader holds the live row of the version it read.
  ghost predicate Sourced(s: State, r: Reader) {
    r.Loaded? ==>
      CurrentAt(s, r.seen, r.readAt) && r.readAt <= s.now && r.row == ByCode(s.versions[r.seen].db.links, r.code)
  }

  ghost predicate Inv(cfg: Coarse.Config, s: State) {
    && s.versions != []
    && (forall i :: 0 <= i < |s.versions| ==> s.versions[i].at <= s.now)
    && (forall code :: code in s.cache ==> Traced(cfg, s, code, s.cache[code]))
    && (forall pid :: pid in s.readers ==> Sourced(s, s.readers[pid]))
    && (forall pid :: pid in s.writers ==> 0 < s.writers[pid].made < |s.versions|)
    && Logged(s)
  }

  // Invalidations that went through come before the entry that is there now.
  ghost predicate Logged(s: State) {
    && (forall k :: 0 <= k < |s.cleared| ==> 0 < s.cleared[k].made < |s.versions| && s.cleared[k].step < s.step)
    && (forall k :: 0 <= k < |s.cleared| && s.cleared[k].code in s.cache ==>
          s.cleared[k].step < s.cache[s.cleared[k].code].step)
  }

  lemma WriteKeeps(cfg: Coarse.Config, s: State, a: Action)
    requires Inv(cfg, s) && Enabled(s, a) && a.Write?
    ensures Inv(cfg, Next(cfg, s, a))
  {
    var n := Next(cfg, s, a);
    assert forall i :: 0 <= i < |s.versions| ==> n.versions[i] == s.versions[i];
    forall code | code in n.cache
      ensures Traced(cfg, n, code, n.cache[code])
    {
      assert Traced(cfg, s, code, s.cache[code]);
    }
  }

  lemma CacheSetKeeps(cfg: Coarse.Config, s: State, a: Action)
    requires Inv(cfg, s) && Enabled(s, a) && a.CacheSet?
    ensures Inv(cfg, Next(cfg, s, a))
  {
    var n := Next(cfg, s, a);
    forall code | code in n.cache
      ensures Traced(cfg, n, code, n.cache[code])
    {
      if code in s.cache && n.cache[code] == s.cache[code] {
        assert Traced(cfg, s, code, s.cache[code]);
      }
    }
  }

  // Entries, kept or taken away, stay traced while no version is added.
  lemma TracedFrame(cfg: Coarse.Config, s: State, n: State)
    requires forall code :: code in s.cache ==> Traced(cfg, s, code, s.cache[code])
    requires n.versions == s.versions && s.now <= n.now && s.step <= n.step
    requires forall code :: code in n.cache ==> code in s.cache && n.cache[code] == s.cache[code]
    ensures forall code :: code in n.cache ==> Traced(cfg, n, code, n.cache[code])
  {
    forall code | code in n.cache
      ensures Traced(cfg, n, code, n.cache[code])
    {
      assert Traced(cfg, s, code, s.cache[code]);
    }
  }

  lemma ReadersKeep(cfg: Coarse.Config, s: State, a: Action)
    requires s.versions != [] && (forall i :: 0 <= i < |s.versions| ==> s.versions[i].at <= s.now)
    requires (forall pid :: pid in s.readers ==> Sourced(s, s.readers[pid])) && Enabled(s, a) && !a.Write?
    ensures forall pid :: pid in Next(cfg, s, a).readers ==> Sourced(Next(cfg, s, a), Next(cfg, s, a).readers[pid])
  {
  }

  lemma LogKeeps(cfg: Coarse.Config, s: State, a: Action)
    requires s.versions != [] && Logged(s) && Enabled(s, a) && !a.Write? && !a.CacheSet?
    requires forall pid :: pid in s.writers ==> 0 < s.writers[pid].made < |s.versions|
    ensures Logged(Next(cfg, s, a))
  {
  }

  // Every step that neither commits nor fills the cache.
  lemma OtherStepKeeps(cfg: Coarse.Config, s: State, a: Action)
    requires Inv(cfg, s) && Enabled(s, a) && !a.Write? && !a.CacheSet?
    ensures Inv(cfg, Next(cfg, s, a))
  {
    ReadersKeep(cfg, s, a);
    LogKeeps(cfg, s, a);
    TracedFrame(cfg, s, Next(cfg, s, a));
  }

  lemma StepKeeps(cfg: Coarse.Config, s: State, a: Action)
    requires Inv(cfg, s) && Enabled(s, a)
    ensures Inv(cfg, Next(cfg, s, a))
  {
    if a.Write? {
      WriteKeeps(cfg, s, a);
    } else if a.CacheSet? {
      CacheSetKeeps(cfg, s, a);
    } else {
      OtherStepKeeps(cfg, s, a);
    }
  }

  lemma {:induction false} RunKeeps(cfg: Coarse.Config, s: State, acts: seq<Action>)
    requires Inv(cfg, s) && Runs(cfg, s, acts)
    ensures Inv(cfg, Run(cfg, s, acts))
    decreases |acts|
  {
    if acts != [] {
      StepKeeps(cfg, s, acts[0]);
      RunKeeps(cfg, Next(cfg, s, acts[0]), acts[1..]);
    }
  }

  /** Bounded staleness. Whatever a hit answers is what the live row for the code said at the instant
      its reader read it, and that is less than the entry's TTL plus that reader's own delay between
      read and Set ago. */
  lemma HitIsRecent(cfg: Coarse.Config, start: Time, acts: seq<Action>, code: string)
    requires Runs(cfg, Init(start), acts)
    requires Hit(Run(cfg, Init(start), acts), code)
    ensures var s := Run(cfg, Init(start), acts);
            var f := s.cache[code];
            && CurrentAt(s, f.seen, f.readAt)
            && f.entry == EntryAt(s, f.seen, code)
            && s.now - f.readAt < (if f.entry.Positive? then cfg.ttl else cfg.negTTL) + (f.setAt - f.readAt)
            && (HitAnswer(s, code).Ok? ==>
                  var row := ByCode(s.versions[f.seen].db.links, code);
                  row.Some? && FromDomain(HitAnswer(s, code).value) == FromDomain(row.value))
  {
    RunKeeps(cfg, Init(start), acts);
    assert Traced(cfg, Run(cfg, Init(start), acts), code, Run(cfg, Init(start), acts).cache[code]);
  }

  /** A miss answers with the live row of the instant it read the table. */
  lemma MissIsOwnRead(cfg: Coarse.Config, start: Time, acts: seq<Action>, pid: nat)
    requires Runs(cfg, Init(start), acts)
    requires pid in Run(cfg, Init(start), acts).readers && Run(cfg, Init(start), acts).readers[pid].Loaded?
    ensures var s := Run(cfg, Init(start), acts);
            var r := s.readers[pid];
            && CurrentAt(s, r.seen, r.readAt) && r.readAt <= s.now
            && r.row == ByCode(s.versions[r.seen].db.links, r.code)
            && (LoadedAnswer(s, r).Ok? ==> ByCode(s.versions[r.seen].db.links, r.code) == Some(LoadedAnswer(s, r).value))
  {
    RunKeeps(cfg, Init(start), acts);
  }

  // Some version since v has had the live row that the entry gives.
  ghost predicate SaidSince(s: State, e: Entry, code: string, v: nat) {
    exists k :: v <= k < |s.versions| && e == EntryAt(s, k, code)
  }

  ghost predicate StaleSince(s: State, code: string, v: nat) {
    code in s.cache && !SaidSince(s, s.cache[code].entry, code, v)
  }

  /** An entry that is stale with respect to a commit was read before that commit: so it is served
      only for less than TTL plus its reader's delay after it. If the commit's invalidation of the
      code went through, the entry was also Set after that invalidation: a slow reader put it back. */
  lemma StaleEntriesAreSlowReads(cfg: Coarse.Config, start: Time, acts: seq<Action>, code: string, v: nat)
    requires Runs(cfg, Init(start), acts)
    requires v < |Run(cfg, Init(start), acts).versions| && StaleSince(Run(cfg, Init(start), acts), code, v)
    ensures var s := Run(cfg, Init(start), acts);
            var f := s.cache[code];
            && f.seen < v && f.readAt <= s.versions[v].at
            && (Hit(s, code) ==>
                  s.now < s.versions[v].at + (if f.entry.Positive? then cfg.ttl else cfg.negTTL) + (f.setAt - f.readAt))
            && forall k :: 0 <= k < |s.cleared| && s.cleared[k].code == code && s.cleared[k].made == v ==>
                 s.cleared[k].step < f.step
  {
    RunKeeps(cfg, Init(start), acts);
    var s := Run(cfg, Init(start), acts);
    assert Traced(cfg, s, code, s.cache[code]);
    VersionsInOrder(cfg, Init(start), acts, s.cache[code].seen, v);
  }

  // A reader that has loaded a row for the code which the table has not said since v.
  ghost predicate HoldsStale(s: State, pid: nat, code: string, v: nat) {
    && pid in s.readers && s.readers[pid].Loaded? && s.readers[pid].code == code
    && !SaidSince(s, EntryFor(s.readers[pid].row), code, v)
  }

  // Nothing cached or about to be cached for the code is stale with respect to v.
  ghost predicate Settled(s: State, code: string, v: nat) {
    v < |s.versions| && !StaleSince(s, code, v) && forall pid :: !HoldsStale(s, pid, code, v)
  }

  lemma SettledStep(cfg: Coarse.Config, s: State, a: Action, code: string, v: nat)
    requires Settled(s, code, v) && Enabled(s, a)
    ensures Settled(Next(cfg, s, a), code, v)
  {
    var n := Next(cfg, s, a);
    if a.DbRead? && s.readers[a.pid].code == code {
      assert EntryAt(n, |n.versions| - 1, code) == EntryFor(n.readers[a.pid].row);
    }
    forall e | SaidSince(s, e, code, v)
      ensures SaidSince(n, e, code, v)
    {
      var k :| v <= k < |s.versions| && e == EntryAt(s, k, code);
      assert EntryAt(n, k, code) == e;
    }
    forall pid
      ensures !HoldsStale(n, pid, code, v)
    {
      assert !HoldsStale(s, pid, code, v);
    }
    if a.CacheSet? {
      assert !HoldsStale(s, a.pid, code, v);
    }
  }

  lemma {:induction false} SettledRun(cfg: Coarse.Config, s: State, acts: seq<Action>, code: string, v: nat)
    requires Settled(s, code, v) && Runs(cfg, s, acts)
    ensures !StaleSince(Run(cfg, s, acts), code, v)
    decreases |acts|
  {
    if acts != [] {
      SettledStep(cfg, s, acts[0], code, v);
      SettledRun(cfg, Next(cfg, s, acts[0]), acts[1..], code, v);
    }
  }

  ghost predicate GoesStale(cfg: Coarse.Config, s: State, acts: seq<Action>, code: string, v: nat)
    requires s.versions != []
  {
    Runs(cfg, s, acts) && StaleSince(Run(cfg, s, acts), code, v)
  }

  /** Exactly when can a code still be found stale with respect to a commit v? When its entry is already,
      or when some reader holds a row for it that no version from v on had. In particular, right after a
      successful invalidation, when the code has no entry, only such a slow reader can bring it back. */
  lemma GoesStaleIff(cfg: Coarse.Config, s: State, code: string, v: nat)
    requires v < |s.versions|
    ensures (exists acts :: GoesStale(cfg, s, acts, code, v)) <==>
            StaleSince(s, code, v) || exists pid :: HoldsStale(s, pid, code, v)
    ensures code !in s.cache ==>
            ((exists acts :: GoesStale(cfg, s, acts, code, v)) <==> exists pid :: HoldsStale(s, pid, code, v))
  {
    if StaleSince(s, code, v) {
      assert GoesStale(cfg, s, [], code, v);
    } else if pid :| HoldsStale(s, pid, code, v) {
      var fill := CacheSet(pid, true);
      assert [fill][1..] == [];
      var n := Next(cfg, s, fill);
      assert Run(cfg, s, [fill]) == n;
      assert forall k :: v <= k < |s.versions| ==> EntryAt(n, k, code) == EntryAt(s, k, code);
      assert GoesStale(cfg, s, [fill], code, v);
    } else {
      forall acts
        ensures !GoesStale(cfg, s, acts, code, v)
      {
        if Runs(cfg, s, acts) {
          SettledRun(cfg, s, acts, code, v);
        }
      }
    }
  }

  // Commit times never go back.
  ghost predicate Ordered(s: State) {
    && (forall i, j :: 0 <= i <= j < |s.versions| ==> s.versions[i].at <= s.versions[j].at)
    && (forall i :: 0 <= i < |s.versions| ==> s.versions[i].at <= s.now)
  }

  lemma {:induction false} OrderedRun(cfg: Coarse.Config, s: State, acts: seq<Action>)
    requires s.versions != [] && Ordered(s) && Runs(cfg, s, acts)
    ensures Ordered(Run(cfg, s, acts))
    decreases |acts|
  {
    if acts != [] {
      OrderedRun(cfg, Next(cfg, s, acts[0]), acts[1..]);
    }
  }

  lemma VersionsInOrder(cfg: Coarse.Config, s: State, acts: seq<Action>, i: nat, j: nat)
    requires s.versions != [] && Ordered(s) && Runs(cfg, s, acts)
    requires i < j < |Run(cfg, s, acts).versions|
    ensures Run(cfg, s, acts).versions[i + 1].at <= Run(cfg, s, acts).versions[j].at
  {
    OrderedRun(cfg, s, acts);
  }
}
