/** The stale answers do happen: from any state of the right shape a short run leads to each. */
module Traps {
  import opened Domain
  import opened LinkTable
  import opened ClickLog
  import opened Cache
  import opened Redirect
  import opened Service
  import opened Writes
  import Coarse
  import Staleness

  const AllUp := Faults(true, true, true)

  lemma RunTwo(cfg: Coarse.Config, s: Coarse.State, a: Coarse.Action, b: Coarse.Action)
    ensures Coarse.Run(cfg, s, [a, b]) == Coarse.Next(cfg, Coarse.Next(cfg, s, a), b)
    ensures Coarse.Runs(cfg, s, [a, b]) <==> Coarse.Enabled(s, a) && Coarse.Enabled(Coarse.Next(cfg, s, a), b)
  {
    var next := Coarse.Next(cfg, s, a);
    assert [a, b][0] == a && [a, b][1..] == [b] && [b][0] == b && [b][1..] == [];
    assert Coarse.Run(cfg, next, [b]) == Coarse.Run(cfg, Coarse.Next(cfg, next, b), []);
    assert Coarse.Runs(cfg, next, [b]) <==> Coarse.Enabled(next, b);
  }

  /** Creation leaves the marker of an earlier miss in place: the new link is live and answers 404. */
  lemma NewLinkHidden(cfg: Coarse.Config, s: Coarse.State, code: string, c: Commit)
    requires Coarse.Inv(cfg, s) && cfg.negTTL > 0
    requires Visible(s.cache, code, s.now) == None && !Taken(s.db.links, code)
    requires c.MakeLink? && Coarse.Enabled(s, Coarse.Write(c, {}))
    requires Create(cfg.policy, s.db.links, c.tenant, c.id, c.create, c.draws, s.now).1.Ok?
    requires Create(cfg.policy, s.db.links, c.tenant, c.id, c.create, c.draws, s.now).1.value.code == code
    ensures Coarse.Runs(cfg, s, [Coarse.Lookup(code, AllUp), Coarse.Write(c, {})])
    ensures Coarse.StaleMarker(Coarse.Run(cfg, s, [Coarse.Lookup(code, AllUp), Coarse.Write(c, {})]), code)
  {
    var missed := Coarse.Next(cfg, s, Coarse.Lookup(code, AllUp));
    RunTwo(cfg, s, Coarse.Lookup(code, AllUp), Coarse.Write(c, {}));
    assert missed.cache == Put(s.cache, code, Negative, s.now + cfg.negTTL);
    assert missed.db == s.db && missed.now == s.now;
    MarkerSurvives(cfg, missed, code, c);
  }

  lemma MarkerSurvives(cfg: Coarse.Config, s: Coarse.State, code: string, c: Commit)
    requires Valid(s.db.links) && c.MakeLink? && c.id !in s.db.links
    requires Visible(s.cache, code, s.now) == Some(Negative)
    requires Create(cfg.policy, s.db.links, c.tenant, c.id, c.create, c.draws, s.now).1.Ok?
    requires Create(cfg.policy, s.db.links, c.tenant, c.id, c.create, c.draws, s.now).1.value.code == code
    ensures Coarse.StaleMarker(Coarse.Next(cfg, s, Coarse.Write(c, {})), code)
  {
    CreateOutcome(cfg.policy, s.db.links, c.tenant, c.id, c.create, c.draws, s.now);
    assert Holds(Apply(cfg.policy, s.db, c, s.now).links, c.id, code);
  }

  lemma RunThree(cfg: Coarse.Config, s: Coarse.State, a: Coarse.Action, b: Coarse.Action, c: Coarse.Action)
    ensures Coarse.Run(cfg, s, [a, b, c]) == Coarse.Next(cfg, Coarse.Next(cfg, Coarse.Next(cfg, s, a), b), c)
  {
    assert [a, b, c][1..] == [b, c];
    RunTwo(cfg, Coarse.Next(cfg, s, a), b, c);
  }

  /** The purge leaves the snapshot in place: the code is free, yet answers Gone instead of 404. */
  lemma PurgedLinkLingers(cfg: Coarse.Config, s: Coarse.State, id: Id, code: string, retention: nat, wait: nat)
    requires Coarse.Inv(cfg, s) && wait < cfg.ttl
    requires Visible(s.cache, code, s.now) == None
    requires Holds(s.db.links, id, code) && Before(s.db.links[id].expiresAt, s.now + wait - retention)
    ensures var n := Coarse.Run(cfg, s, [Coarse.Lookup(code, AllUp), Coarse.Tick(wait),
                                         Coarse.Write(Sweep(s.db.links[id].tenant, retention), {})]);
            Coarse.StaleOrphan(n, code) && DbOnly(n.db.links, code, n.now) == Err(NotFound)
  {
    var row := s.db.links[id];
    var sweep := Coarse.Write(Sweep(row.tenant, retention), {});
    RunThree(cfg, s, Coarse.Lookup(code, AllUp), Coarse.Tick(wait), sweep);
    var filled := LookupFills(cfg, s, id, code);
    SweepFreesCode(cfg, Coarse.Next(cfg, filled, Coarse.Tick(wait)), id, code, retention);
  }

  lemma LookupFills(cfg: Coarse.Config, s: Coarse.State, id: Id, code: string) returns (n: Coarse.State)
    requires Valid(s.db.links) && Holds(s.db.links, id, code) && Visible(s.cache, code, s.now) == None
    ensures n == Coarse.Next(cfg, s, Coarse.Lookup(code, AllUp))
    ensures n == s.(cache := Put(s.cache, code, Positive(FromDomain(s.db.links[id])), s.now + cfg.ttl),
                    refused := s.refused - {code})
  {
    ByCodeIs(s.db.links, id, code);
    n := Coarse.Next(cfg, s, Coarse.Lookup(code, AllUp));
  }

  lemma SweepFreesCode(cfg: Coarse.Config, s: Coarse.State, id: Id, code: string, retention: nat)
    requires Valid(s.db.links) && Holds(s.db.links, id, code)
    requires Before(s.db.links[id].expiresAt, s.now - retention) && code !in s.refused
    requires Visible(s.cache, code, s.now) == Some(Positive(FromDomain(s.db.links[id])))
    ensures var n := Coarse.Next(cfg, s, Coarse.Write(Sweep(s.db.links[id].tenant, retention), {}));
            Coarse.StaleOrphan(n, code) && DbOnly(n.db.links, code, n.now) == Err(NotFound)
  {
    var row := s.db.links[id];
    var n := Coarse.Next(cfg, s, Coarse.Write(Sweep(row.tenant, retention), {}));
    assert Purgeable(row, row.tenant, n.now - retention);
    assert !Taken(n.db.links, code) by {
      if Taken(n.db.links, code) {
        var other :| Holds(n.db.links, other, code);
        assert Holds(s.db.links, other, code);
      }
    }
  }

  // What the update does to the row and to the lookup of its code.
  lemma RetargetedRow(policy: Policy, db: Db, id: Id, code: string, update: UpdateInput, now: Time)
    requires Valid(db.links) && Holds(db.links, id, code)
    requires PatchLink(policy, db.links[id], update, now).Ok?
    requires PatchLink(policy, db.links[id], update, now).value.target != db.links[id].target
    ensures var row := db.links[id];
            var change := ChangeLink(row.tenant, id, update);
            var after := Apply(policy, db, change, now).links;
            && ByCode(db.links, code) == Some(row) && Owed(policy, db, change, now) == {code}
            && id in after && ByCode(after, code) == Some(after[id]) && after[id].target != row.target
  {
    var links := db.links;
    var row := links[id];
    UpdateRewritesOneRow(policy, links, row.tenant, id, update, now);
    UpdateKeepsValid(policy, links, row.tenant, id, update, now);
    ByCodeIs(links, id, code);
    ByCodeIs(Apply(policy, db, ChangeLink(row.tenant, id, update), now).links, id, code);
  }

  /** A refused invalidation leaves the old target in place: after a retargeting update the lookup still
      serves what the snapshot said. */
  lemma RefusedDeleteLingers(cfg: Coarse.Config, s: Coarse.State, id: Id, code: string, update: UpdateInput)
    requires Coarse.Inv(cfg, s) && code !in s.refused && Holds(s.db.links, id, code)
    requires Visible(s.cache, code, s.now).Some? && Visible(s.cache, code, s.now).value.Positive?
    requires s.cache[code].entry.link.id == id && ToDomain(s.cache[code].entry.link).IsActive(s.now)
    requires PatchLink(cfg.policy, s.db.links[id], update, s.now).Ok?
    requires PatchLink(cfg.policy, s.db.links[id], update, s.now).value.target != s.db.links[id].target
    ensures var row := s.db.links[id];
            var n := Coarse.Next(cfg, s, Coarse.Write(ChangeLink(row.tenant, id, update), {code}));
            && Coarse.StaleRefused(n, code)
            && Resolve(n.db.links, n.cache, code, n.now, AllUp, cfg.ttl, cfg.negTTL).1 == Ok(ToDomain(s.cache[code].entry.link))
            && s.cache[code].entry.link.target == row.target != n.db.links[id].target
  {
    assert Coarse.Backed(cfg, s, code, s.cache[code]);
    RetargetedRow(cfg.policy, s.db, id, code, update, s.now);
  }

  // A reader misses and reads the table; then a writer commits.
  ghost predicate ReadsThenCommits(cfg: Coarse.Config, s: Staleness.State, r: nat, w: nat, code: string, c: Commit, n: Staleness.State) {
    && s.versions != [] && Staleness.Enabled(s, Staleness.CacheGet(r, code, true))
    && var s1 := Staleness.Next(cfg, s, Staleness.CacheGet(r, code, true));
    && Staleness.Enabled(s1, Staleness.DbRead(r))
    && var s2 := Staleness.Next(cfg, s1, Staleness.DbRead(r));
    && Staleness.Enabled(s2, Staleness.Write(w, c))
    && n == Staleness.Next(cfg, s2, Staleness.Write(w, c))
  }

  // The writer invalidates the code, and only then the reader fills the cache.
  ghost predicate ClearsThenFills(cfg: Coarse.Config, s: Staleness.State, r: nat, w: nat, code: string, n: Staleness.State) {
    && s.versions != [] && Staleness.Enabled(s, Staleness.Invalidate(w, code, true))
    && var s1 := Staleness.Next(cfg, s, Staleness.Invalidate(w, code, true));
    && Staleness.Enabled(s1, Staleness.CacheSet(r, true))
    && n == Staleness.Next(cfg, s1, Staleness.CacheSet(r, true))
  }

  lemma ReadThenCommit(cfg: Coarse.Config, s: Staleness.State, r: nat, w: nat, code: string, c: Commit)
    returns (n: Staleness.State)
    requires s.versions != [] && !Staleness.Hit(s, code) && r !in s.readers && w !in s.writers
    requires FreshId(Staleness.Latest(s), c)
    ensures ReadsThenCommits(cfg, s, r, w, code, c, n)
    ensures r in n.readers && w in n.writers && n.cleared == s.cleared && n.step == s.step + 3
    ensures n.readers[r] ==
            Staleness.Loaded(code, ByCode(Staleness.Latest(s).links, code), |s.versions| - 1, s.now)
    ensures n.writers[w] == Staleness.Writer(|s.versions|, Owed(cfg.policy, Staleness.Latest(s), c, s.now))
    ensures n.versions == s.versions + [Staleness.Version(Apply(cfg.policy, Staleness.Latest(s), c, s.now), s.now)]
  {
    var s1 := Staleness.Next(cfg, s, Staleness.CacheGet(r, code, true));
    n := Staleness.Next(cfg, Staleness.Next(cfg, s1, Staleness.DbRead(r)), Staleness.Write(w, c));
  }

  lemma ClearThenFill(cfg: Coarse.Config, s: Staleness.State, r: nat, w: nat, code: string) returns (n: Staleness.State)
    requires s.versions != [] && cfg.ttl > 0 && r in s.readers && w in s.writers
    requires s.readers[r].Loaded? && s.readers[r].code == code && s.readers[r].row.Some?
    requires code in s.writers[w].todo
    ensures ClearsThenFills(cfg, s, r, w, code, n)
    ensures n.versions == s.versions && Staleness.Hit(n, code)
    ensures n.cache[code].entry == Positive(FromDomain(s.readers[r].row.value))
    ensures n.cleared == s.cleared + [Staleness.Cleared(code, s.writers[w].made, s.step)]
  {
    n := Staleness.Next(cfg, Staleness.Next(cfg, s, Staleness.Invalidate(w, code, true)), Staleness.CacheSet(r, true));
  }

  /** With reads and writes interleaved even a successful invalidation is not enough: a reader that
      loaded the row before the commit puts the old target back after it. */
  lemma SlowReaderOutlivesInvalidate(cfg: Coarse.Config, s: Staleness.State, r: nat, w: nat, code: string, id: Id, update: UpdateInput)
    returns (mid: Staleness.State, n: Staleness.State)
    requires s.versions != [] && Valid(Staleness.Latest(s).links) && cfg.ttl > 0
    requires !Staleness.Hit(s, code) && r !in s.readers && w !in s.writers
    requires var links := Staleness.Latest(s).links;
             && Holds(links, id, code)
             && PatchLink(cfg.policy, links[id], update, s.now).Ok?
             && PatchLink(cfg.policy, links[id], update, s.now).value.target != links[id].target
    ensures var row := Staleness.Latest(s).links[id];
            && ReadsThenCommits(cfg, s, r, w, code, ChangeLink(row.tenant, id, update), mid)
            && ClearsThenFills(cfg, mid, r, w, code, n)
            && Staleness.Hit(n, code) && n.cache[code].entry == Positive(FromDomain(row))
    ensures Staleness.StaleSince(n, code, |s.versions|) && |n.versions| == |s.versions| + 1
    ensures n.cleared == s.cleared + [Staleness.Cleared(code, |s.versions|, s.step + 3)]
  {
    var row := Staleness.Latest(s).links[id];
    RetargetedRow(cfg.policy, Staleness.Latest(s), id, code, update, s.now);
    mid := ReadThenCommit(cfg, s, r, w, code, ChangeLink(row.tenant, id, update));
    n := ClearThenFill(cfg, mid, r, w, code);
    assert Staleness.EntryAt(n, |s.versions|, code) != Positive(FromDomain(row));
  }
}
