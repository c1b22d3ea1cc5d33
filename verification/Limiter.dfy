/** The sliding-window log limiter: a trimmed, expiring log that decides as the full history would,
    and the retry times it hands out. */
module Limiter {
  import opened Domain

  // A sorted set: member -> score, the score being the admission time in milliseconds.
  type Scores = map<string, int>

  // What Redis holds for one key, and when the whole key expires.
  datatype Bucket = Bucket(log: Scores, expireAt: Option<int>)

  datatype Reply = Reply(allowed: bool, remaining: int, retry: int)

  function Trim(log: Scores, upTo: int): Scores {
    map m | m in log && !(0 <= log[m] <= upTo) :: log[m]
  }

  ghost predicate IsOldest(log: Scores, score: int) {
    score in log.Values && forall m :: m in log ==> score <= log[m]
  }

  lemma {:induction false} OldestExists(log: Scores)
    requires log != map[]
    ensures exists score :: IsOldest(log, score)
  {
    var m :| m in log;
    var rest := log - {m};
    if rest == map[] {
      assert forall k :: k in log ==> k == m || k in rest;
      assert log[m] in log.Values;
      assert IsOldest(log, log[m]);
    } else {
      OldestExists(rest);
      var s :| IsOldest(rest, s);
      assert forall k :: k in log ==> k == m || k in rest;
      assert log[m] in log.Values;
      assert IsOldest(log, if log[m] <= s then log[m] else s);
    }
  }

  ghost function Oldest(log: Scores): int
    requires log != map[]
  {
    OldestExists(log);
    var score :| IsOldest(log, score);
    score
  }

  // The script, on a bucket that may first have lapsed.
  ghost function Eval(b: Bucket, lapsed: bool, now: int, window: int, limit: int, member: string): (Bucket, Reply) {
    var log := Trim(if lapsed then map[] else b.log, now - window);
    var count := |log|;
    if count < limit then
      (Bucket(log[member := now], Some(now + window)), Reply(true, limit - count - 1, 0))
    else
      var retry := if log == map[] then window else if Oldest(log) + window < now then 0 else Oldest(log) + window - now;
      (Bucket(log, if lapsed then None else b.expireAt), Reply(false, 0, retry))
  }

  // Redis may drop the key from its expiry on.
  predicate MayLapse(b: Bucket, now: int) {
    b.expireAt.Some? && b.expireAt.value <= now
  }

  /** The limiter over Redis: one bucket per key. */
  class RateLimiter {
    var buckets: map<string, Bucket>

    constructor ()
      ensures buckets == map[]
    {
      buckets := map[];
    }

    ghost function At(key: string): Bucket
      reads this
    {
      if key in buckets then buckets[key] else Bucket(map[], None)
    }

    method Allow(key: string, limit: int, window: int, now: int, member: string, lapsed: bool) returns (r: Reply)
      requires lapsed ==> MayLapse(At(key), now)
      modifies this
      ensures (At(key), r) == Eval(old(At(key)), lapsed, now, window, limit, member)
      ensures r.allowed ==>
        member in At(key).log && At(key).log[member] == now && At(key).expireAt == Some(now + window)
      ensures forall other :: other != key ==> At(other) == old(At(other))
    {
      var b := if key in buckets && !lapsed then buckets[key] else Bucket(map[], None);
      // ZREMRANGEBYSCORE key 0 now-window
      var log := Trim(b.log, now - window);
      var count := |log|;
      if count < limit {
        buckets := buckets[key := Bucket(log[member := now], Some(now + window))];
        return Reply(true, limit - count - 1, 0);
      }
      var retry := window;
      if log != map[] {
        var oldest := FirstScore(log);
        retry := oldest + window - now;
        if retry < 0 {
          retry := 0;
        }
      }
      buckets := buckets[key := b.(log := log)];
      return Reply(false, 0, retry);
    }
  }

  // ZRANGE key 0 0 WITHSCORES
  method FirstScore(log: Scores) returns (score: int)
    requires log != map[]
    ensures score == Oldest(log)
  {
    var todo := log.Keys;
    var first :| first in todo;
    score := log[first];
    todo := todo - {first};
    while todo != {}
      invariant todo <= log.Keys
      invariant score in log.Values
      invariant forall m :: m in log && m !in todo ==> score <= log[m]
      decreases todo
    {
      var m :| m in todo;
      if log[m] < score {
        score := log[m];
      }
      todo := todo - {m};
    }
    assert IsOldest(log, score);
  }

  // --- any run of requests on one key ---

  datatype Request = Request(now: int, member: string, lapsed: bool)

  // The bucket, every admission there ever was, and the time of the latest request.
  datatype Track = Track(b: Bucket, history: Scores, last: int)

  datatype Config = Config(limit: int, window: int)

  predicate ValidConfig(cfg: Config) {
    cfg.limit >= 1 && cfg.window >= 1
  }

  function Init(): Track {
    Track(Bucket(map[], None), map[], 0)
  }

  ghost function Answer(cfg: Config, t: Track, r: Request): Reply {
    Eval(t.b, r.lapsed, r.now, cfg.window, cfg.limit, r.member).1
  }

  ghost function Next(cfg: Config, t: Track, r: Request): Track {
    Track(Eval(t.b, r.lapsed, r.now, cfg.window, cfg.limit, r.member).0,
          if Answer(cfg, t, r).allowed then t.history[r.member := r.now] else t.history,
          r.now)
  }

  // The clock never goes back, members are never repeated, a key lapses only past its expiry.
  predicate Enabled(t: Track, r: Request) {
    t.last <= r.now && r.member !in t.history && (r.lapsed ==> MayLapse(t.b, r.now))
  }

  ghost predicate Runs(cfg: Config, t: Track, rs: seq<Request>)
    decreases |rs|
  {
    rs != [] ==> Enabled(t, rs[0]) && Runs(cfg, Next(cfg, t, rs[0]), rs[1..])
  }

  ghost function Run(cfg: Config, t: Track, rs: seq<Request>): Track
    decreases |rs|
  {
    if rs == [] then t else Run(cfg, Next(cfg, t, rs[0]), rs[1..])
  }

  // The admissions of the full history in (to - length, to].
  function Window(history: Scores, to: int, length: int): set<string> {
    set m | m in history && to - length < history[m] <= to
  }

  ghost predicate Mirrors(cfg: Config, t: Track) {
    && 0 <= t.last
    && (forall m :: m in t.history ==> 0 <= t.history[m] <= t.last)
    && (forall m :: m in t.b.log ==> m in t.history && t.b.log[m] == t.history[m])
    && (forall m :: m in t.history && t.last - cfg.window < t.history[m] ==> m in t.b.log)
    && (t.b.expireAt.Some? ==> forall m :: m in t.history ==> t.history[m] + cfg.window <= t.b.expireAt.value)
  }

  ghost predicate NeverOverfull(cfg: Config, history: Scores) {
    forall to :: |Window(history, to, cfg.window)| <= cfg.limit
  }

  ghost predicate Inv(cfg: Config, t: Track) {
    ValidConfig(cfg) && Mirrors(cfg, t) && NeverOverfull(cfg, t.history)
  }

  lemma {:induction false} SubsetSize<T>(a: set<T>, b: set<T>)
    requires a <= b
    ensures |a| <= |b|
    ensures a != b ==> |a| < |b|
  {
    if a != {} {
      var x :| x in a;
      SubsetSize(a - {x}, b - {x});
    }
  }

  // The log a request is judged by: after the trim, lapsed or not.
  function Judged(cfg: Config, t: Track, r: Request): Scores {
    Trim(if r.lapsed then map[] else t.b.log, r.now - cfg.window)
  }

  // It is exactly the window of the full history.
  lemma JudgedIsWindow(cfg: Config, t: Track, r: Request)
    requires ValidConfig(cfg) && Mirrors(cfg, t) && Enabled(t, r)
    ensures Judged(cfg, t, r) == map m | m in Window(t.history, r.now, cfg.window) :: t.history[m]
    ensures |Judged(cfg, t, r)| == |Window(t.history, r.now, cfg.window)|
  {
    var log := Judged(cfg, t, r);
    assert log.Keys == Window(t.history, r.now, cfg.window);
    assert |log| == |log.Keys|;
  }

  lemma Decides(cfg: Config, t: Track, r: Request)
    requires ValidConfig(cfg) && Mirrors(cfg, t) && Enabled(t, r)
    ensures var recent := |Window(t.history, r.now, cfg.window)|;
            && (Answer(cfg, t, r).allowed <==> recent < cfg.limit)
            && Answer(cfg, t, r).remaining == (if recent < cfg.limit then cfg.limit - recent - 1 else 0)
            && Next(cfg, t, r).history == (if recent < cfg.limit then t.history[r.member := r.now] else t.history)
            && Next(cfg, t, r).last == r.now
  {
    JudgedIsWindow(cfg, t, r);
  }

  lemma MirrorsStep(cfg: Config, t: Track, r: Request)
    requires ValidConfig(cfg) && Mirrors(cfg, t) && Enabled(t, r)
    ensures Mirrors(cfg, Next(cfg, t, r))
  {
  }

  // One more admission, allowed only below the limit, keeps every window within it.
  lemma AdmissionFits(cfg: Config, history: Scores, member: string, now: int)
    requires NeverOverfull(cfg, history) && member !in history
    requires forall m :: m in history ==> history[m] <= now
    requires |Window(history, now, cfg.window)| < cfg.limit
    ensures NeverOverfull(cfg, history[member := now])
  {
    var admitted := history[member := now];
    forall to
      ensures |Window(admitted, to, cfg.window)| <= cfg.limit
    {
      var before, after := Window(history, to, cfg.window), Window(admitted, to, cfg.window);
      if to - cfg.window < now <= to {
        assert after == before + {member};
        SubsetSize(before, Window(history, now, cfg.window));
      } else {
        assert after == before;
      }
    }
  }

  lemma StepKeeps(cfg: Config, t: Track, r: Request)
    requires Inv(cfg, t) && Enabled(t, r)
    ensures Inv(cfg, Next(cfg, t, r))
  {
    Decides(cfg, t, r);
    MirrorsStep(cfg, t, r);
    if Answer(cfg, t, r).allowed {
      AdmissionFits(cfg, t.history, r.member, r.now);
    }
  }

  lemma {:induction false} RunKeeps(cfg: Config, t: Track, rs: seq<Request>)
    requires Inv(cfg, t) && Runs(cfg, t, rs)
    ensures Inv(cfg, Run(cfg, t, rs))
    decreases |rs|
  {
    if rs != [] {
      StepKeeps(cfg, t, rs[0]);
      RunKeeps(cfg, Next(cfg, t, rs[0]), rs[1..]);
    }
  }

  lemma Reachable(cfg: Config, rs: seq<Request>)
    requires ValidConfig(cfg) && Runs(cfg, Init(), rs)
    ensures Inv(cfg, Run(cfg, Init(), rs))
  {
    forall to ensures Window(map[], to, cfg.window) == {} {}
    RunKeeps(cfg, Init(), rs);
  }

  /** Exactness: after any run a request is admitted iff fewer than `limit` earlier admissions of the
      full history lie in (now - window, now], with `remaining` counting the rest. */
  lemma DecidesAsFullHistory(cfg: Config, rs: seq<Request>, r: Request)
    requires ValidConfig(cfg) && Runs(cfg, Init(), rs) && Enabled(Run(cfg, Init(), rs), r)
    ensures var t := Run(cfg, Init(), rs);
            var recent := |Window(t.history, r.now, cfg.window)|;
            && (Answer(cfg, t, r).allowed <==> recent < cfg.limit)
            && Answer(cfg, t, r).remaining == if recent < cfg.limit then cfg.limit - recent - 1 else 0
  {
    Reachable(cfg, rs);
    Decides(cfg, Run(cfg, Init(), rs), r);
  }

  /** Hence no window of that length, wherever it ends, ever holds more than `limit` admissions. */
  lemma NoWindowOverfull(cfg: Config, rs: seq<Request>, to: int)
    requires ValidConfig(cfg) && Runs(cfg, Init(), rs)
    ensures |Window(Run(cfg, Init(), rs).history, to, cfg.window)| <= cfg.limit
  {
    Reachable(cfg, rs);
  }

  /** The key's own expiry never changes a decision: whether it has lapsed makes no difference to the
      reply, nor to the log afterwards. */
  lemma ExpiryIsInvisible(cfg: Config, rs: seq<Request>, now: int, member: string)
    requires ValidConfig(cfg) && Runs(cfg, Init(), rs)
    requires Enabled(Run(cfg, Init(), rs), Request(now, member, true))
    ensures var t := Run(cfg, Init(), rs);
            && Answer(cfg, t, Request(now, member, true)) == Answer(cfg, t, Request(now, member, false))
            && Next(cfg, t, Request(now, member, true)).b.log == Next(cfg, t, Request(now, member, false)).b.log
  {
    Reachable(cfg, rs);
    var t := Run(cfg, Init(), rs);
    JudgedIsWindow(cfg, t, Request(now, member, true));
    JudgedIsWindow(cfg, t, Request(now, member, false));
  }

  // --- retry times ---

  // A denial at `now`: its window is full, and `oldest` is the first admission to leave it.
  ghost predicate Full(cfg: Config, history: Scores, now: int, oldest: int) {
    var window := Window(history, now, cfg.window);
    && |window| == cfg.limit
    && now - cfg.window < oldest <= now
    && (forall m :: m in window ==> oldest <= history[m])
    && exists m :: m in window && history[m] == oldest
  }

  // So neither the `retry < 0` nor the nil-oldest branch of the script is ever taken.
  lemma DenialIsFull(cfg: Config, t: Track, r: Request)
    requires Inv(cfg, t) && Enabled(t, r) && !Answer(cfg, t, r).allowed
    ensures Judged(cfg, t, r) != map[]
    ensures Answer(cfg, t, r).retry == Oldest(Judged(cfg, t, r)) + cfg.window - r.now
    ensures Full(cfg, t.history, r.now, Oldest(Judged(cfg, t, r)))
  {
    JudgedIsWindow(cfg, t, r);
    var log := Judged(cfg, t, r);
    assert |log| >= cfg.limit;
    OldestExists(log);
    assert IsOldest(log, Oldest(log));
    var m :| m in log && log[m] == Oldest(log);
    var window := Window(t.history, r.now, cfg.window);
    assert |window| <= cfg.limit;
    assert m in window && t.history[m] == Oldest(log);
    forall k | k in window ensures Oldest(log) <= t.history[k] {
      assert k in log;
    }
  }

  // The window stays full until the oldest admission leaves it, and then has room.
  lemma FullUntil(cfg: Config, history: Scores, now: int, oldest: int, later: int)
    requires Full(cfg, history, now, oldest) && now <= later
    requires forall m :: m in history ==> history[m] <= now
    ensures |Window(history, later, cfg.window)| < cfg.limit <==> later >= oldest + cfg.window
  {
    var window, then_ := Window(history, now, cfg.window), Window(history, later, cfg.window);
    if later < oldest + cfg.window {
      assert then_ == window;
    } else {
      var m :| m in window && history[m] == oldest;
      assert m !in then_ && then_ <= window;
      SubsetSize(then_, window);
    }
  }

  ghost predicate AllBefore(rs: seq<Request>, time: int) {
    forall i :: 0 <= i < |rs| ==> rs[i].now < time
  }

  // Requests before that are denied and leave the history alone.
  lemma {:induction false} DeniedUntil(cfg: Config, t: Track, now: int, oldest: int, rs: seq<Request>, r: Request)
    requires Inv(cfg, t) && Runs(cfg, t, rs) && Enabled(Run(cfg, t, rs), r)
    requires Full(cfg, t.history, now, oldest) && now <= t.last
    requires forall m :: m in t.history ==> t.history[m] <= now
    requires AllBefore(rs, oldest + cfg.window)
    ensures Answer(cfg, Run(cfg, t, rs), r).allowed <==> r.now >= oldest + cfg.window
    decreases |rs|
  {
    var q := if rs == [] then r else rs[0];
    Decides(cfg, t, q);
    FullUntil(cfg, t.history, now, oldest, q.now);
    if rs != [] {
      StepKeeps(cfg, t, q);
      DeniedUntil(cfg, Next(cfg, t, q), now, oldest, rs[1..], r);
    }
  }

  // A request denied after `rs`, later requests that all came before its retry time was up, and r.
  ghost predicate Waited(cfg: Config, rs: seq<Request>, denied: Request, later: seq<Request>, r: Request) {
    && ValidConfig(cfg) && Runs(cfg, Init(), rs)
    && var t := Run(cfg, Init(), rs);
       && Enabled(t, denied) && !Answer(cfg, t, denied).allowed
       && Runs(cfg, Next(cfg, t, denied), later)
       && AllBefore(later, denied.now + Answer(cfg, t, denied).retry)
       && Enabled(Run(cfg, Next(cfg, t, denied), later), r)
  }

  ghost function RetryOf(cfg: Config, rs: seq<Request>, denied: Request): int {
    Answer(cfg, Run(cfg, Init(), rs), denied).retry
  }

  ghost predicate Admits(cfg: Config, rs: seq<Request>, denied: Request, later: seq<Request>, r: Request) {
    Answer(cfg, Run(cfg, Next(cfg, Run(cfg, Init(), rs), denied), later), r).allowed
  }

  /** A denial's retry time is tight: it lies in 1..window, every later request before now + retry is
      denied, and the first request at or after it is admitted. */
  lemma RetryIsTight(cfg: Config, rs: seq<Request>, denied: Request, later: seq<Request>, r: Request)
    requires Waited(cfg, rs, denied, later, r)
    ensures 1 <= RetryOf(cfg, rs, denied) <= cfg.window
    ensures Admits(cfg, rs, denied, later, r) <==> r.now >= denied.now + RetryOf(cfg, rs, denied)
  {
    Reachable(cfg, rs);
    var t := Run(cfg, Init(), rs);
    DenialIsFull(cfg, t, denied);
    StepKeeps(cfg, t, denied);
    Decides(cfg, t, denied);
    DeniedUntil(cfg, Next(cfg, t, denied), denied.now, Oldest(Judged(cfg, t, denied)), later, r);
  }

  // --- the middleware ---

  datatype Verdict =
    | Passed
    | PassedWithin(limit: int, remaining: int)
    | Refused(limit: int, remaining: int, retryAfter: int)

  // Whole seconds, truncated, at least one.
  function RetryHeader(retry: int): int {
    if retry / 1000 < 1 then 1 else retry / 1000
  }

  // No tenant or no limiter backend: let the request through.
  method RateLimit(limiter: RateLimiter, tenant: Option<string>, cfg: Config, now: int, member: string, lapsed: bool, up: bool)
    returns (v: Verdict)
    requires ValidConfig(cfg)
    requires tenant.Some? && lapsed ==> MayLapse(limiter.At(tenant.value), now)
    modifies limiter
    ensures tenant.None? || !up ==> v == Passed && limiter.buckets == old(limiter.buckets)
    ensures tenant.Some? && up ==>
      var (b, r) := Eval(old(limiter.At(tenant.value)), lapsed, now, cfg.window, cfg.limit, member);
      && limiter.At(tenant.value) == b
      && (forall other :: other != tenant.value ==> limiter.At(other) == old(limiter.At(other)))
      && v == if r.allowed then PassedWithin(cfg.limit, r.remaining)
              else Refused(cfg.limit, r.remaining, RetryHeader(r.retry))
  {
    if tenant.None? || !up {
      return Passed;
    }
    var r := limiter.Allow(tenant.value, cfg.limit, cfg.window, now, member, lapsed);
    if !r.allowed {
      var retrySecs := r.retry / 1000;
      if retrySecs < 1 {
        retrySecs := 1;
      }
      return Refused(cfg.limit, r.remaining, retrySecs);
    }
    return PassedWithin(cfg.limit, r.remaining);
  }

  /** The header against the retry time it is cut from: at most a second short, and long only for
      retry times under a second. */
  lemma HeaderBounds(retry: int)
    requires retry >= 1
    ensures RetryHeader(retry) >= 1
    ensures 1000 * RetryHeader(retry) <= (if retry < 1000 then 1000 else retry)
    ensures 1000 * (RetryHeader(retry) + 1) > retry
  {
  }

  /** A client that comes back after exactly Retry-After seconds is let in iff the truncation cut
      nothing off: the retry time was at most a second, or whole seconds. */
  lemma HeaderSuffices(cfg: Config, rs: seq<Request>, denied: Request, later: seq<Request>, r: Request)
    requires Waited(cfg, rs, denied, later, r)
    requires r.now == denied.now + 1000 * RetryHeader(RetryOf(cfg, rs, denied))
    ensures Admits(cfg, rs, denied, later, r) <==>
            RetryOf(cfg, rs, denied) <= 1000 || RetryOf(cfg, rs, denied) % 1000 == 0
  {
    RetryIsTight(cfg, rs, denied, later, r);
  }

  /** It does cut: with one request allowed per window, and any window over a second that is not whole
      seconds, a client refused at once and back after exactly Retry-After seconds is refused again. */
  lemma ObedientClientRefused(cfg: Config, first: Request, denied: Request, r: Request)
    requires cfg.limit == 1 && cfg.window > 1000 && cfg.window % 1000 != 0
    requires first == Request(0, "a", false) && denied == Request(0, "b", false)
    requires r == Request(1000 * (cfg.window / 1000), "c", false)
    ensures Waited(cfg, [first], denied, [], r)
    ensures r.now == denied.now + 1000 * RetryHeader(RetryOf(cfg, [first], denied))
    ensures !Admits(cfg, [first], denied, [], r)
  {
    var t := Next(cfg, Init(), first);
    assert [first][1..] == [];
    assert Runs(cfg, t, []) && Run(cfg, t, []) == t;
    assert Window(map[], 0, cfg.window) == {};
    JudgedIsWindow(cfg, Init(), first);
    assert t.b.log == map["a" := 0] && t.history == map["a" := 0];
    assert Window(t.history, 0, cfg.window) == {"a"};
    Decides(cfg, t, denied);
    assert Runs(cfg, Next(cfg, t, denied), []);
    FirstAndOnly(Judged(cfg, t, denied), "a");
    assert RetryOf(cfg, [first], denied) == cfg.window;
    HeaderSuffices(cfg, [first], denied, [], r);
  }

  lemma FirstAndOnly(log: Scores, m: string)
    requires log.Keys == {m}
    ensures Oldest(log) == log[m]
  {
    OldestExists(log);
    assert IsOldest(log, Oldest(log));
  }
}
