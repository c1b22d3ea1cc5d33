/** Webhook delivery: events resolved into jobs, jobs moving between a bounded queue, senders and
    retry timers until they succeed, fail for good, are dropped or abandoned. */
module Dispatcher {
  import opened Domain
  import opened DeadLetter
  import Backoff

  // One delivery of one event to one webhook.
  datatype Token = Token(event: Id, hook: Id)

  datatype Job = Job(token: Token, attempt: nat)

  // Where a job can be: the first six are live, the last four are outcomes.
  datatype Place =
    | Resolving   // in the resolver's loop
    | Offering    // the resolver is past enqueueJob's quit check with it, and has not sent it yet
    | Reoffering  // likewise a fired timer
    | Queued
    | Sending
    | Waiting     // behind a retry timer
    | Succeeded
    | Failed
    | Dropped     // the queue was full
    | Abandoned   // the dispatcher had quit

  predicate Live(p: Place) {
    p.Resolving? || p.Offering? || p.Reoffering? || p.Queued? || p.Sending? || p.Waiting?
  }

  datatype Config = Config(cap: nat, senders: nat, maxRetries: nat)

  // enqueueJob: first select, then second. `open` is where the caller holds the job in between.
  function AfterQuitCheck(quit: bool, open: Place): Place {
    if quit then Abandoned else open
  }

  function AfterOffer(queued: nat, cap: nat): Place {
    if queued < cap then Queued else Dropped
  }

  // deliver: where the job goes and with which attempt number.
  function AfterPost(j: Job, ok: bool, maxRetries: nat): (Place, Job) {
    if ok then (Succeeded, j.(attempt := j.attempt + 1))
    else if j.attempt < maxRetries then (Waiting, j.(attempt := j.attempt + 1))
    else (Failed, j.(attempt := j.attempt + 1))
  }

  /** The dispatcher as the goroutines share it. `timers` holds each scheduled retry with its delay. */
  class Dispatcher {
    const cfg: Config
    const baseBackoff: int
    const maxBackoff: int
    const threshold: nat
    const repo: WebhookRepository
    var quit: bool
    var events: seq<Id>
    var jobs: seq<Job>
    var timers: seq<(Job, int)>
    var dropped: nat
    ghost var abandoned: seq<Job>

    constructor (cfg: Config, baseBackoff: int, maxBackoff: int, disableAfter: int, repo: WebhookRepository)
      ensures this.cfg == cfg && this.repo == repo && threshold == if disableAfter < 1 then 10 else disableAfter
      ensures this.baseBackoff == baseBackoff && this.maxBackoff == maxBackoff
      ensures !quit && events == [] && jobs == [] && timers == [] && dropped == 0 && abandoned == []
    {
      this.cfg, this.repo, this.threshold := cfg, repo, Threshold(disableAfter);
      this.baseBackoff, this.maxBackoff := baseBackoff, maxBackoff;
      quit, events, jobs, timers, dropped, abandoned := false, [], [], [], 0, [];
    }

    /** The two selects in turn; other goroutines may run between them. `s` is the dispatcher as the
        interleavings see it, with no other Dispatch in flight. */
    method Dispatch(event: Id, ghost s: State) returns (accepted: bool)
      requires s.events == events && s.quit == quit && s.pending == [] && event !in s.seen
      modifies `events, `dropped
      ensures accepted <==> !quit && |old(events)| < cfg.cap
      ensures events == if accepted then old(events) + [event] else old(events)
      ensures dropped == old(dropped) + if !quit && !accepted then 1 else 0
      ensures var n := Dispatched(cfg, s, event);
              n.events == events && n.pending == [] && n.refused - s.refused == dropped - old(dropped)
    {
      if quit {
        return false;
      }
      accepted := OfferEvent(event);
    }

    method OfferEvent(event: Id) returns (sent: bool)
      modifies `events, `dropped
      ensures sent <==> |old(events)| < cfg.cap
      ensures events == if sent then old(events) + [event] else old(events)
      ensures dropped == old(dropped) + if sent then 0 else 1
    {
      if |events| < cfg.cap {
        events := events + [event];
        return true;
      }
      dropped := dropped + 1;
      return false;
    }

    // The subscribers come from ListActiveForEvent; a failed lookup is an empty list.
    method Resolve(event: Id, hooks: seq<Id>)
      modifies `jobs, `dropped, `abandoned
      ensures quit ==> jobs == old(jobs) && dropped == old(dropped) && abandoned == old(abandoned) + Jobs(event, hooks)
      ensures !quit ==> abandoned == old(abandoned)
      ensures !quit && |old(jobs)| <= cfg.cap ==>
        var room := if |hooks| <= cfg.cap - |old(jobs)| then |hooks| else cfg.cap - |old(jobs)|;
        && jobs == old(jobs) + Jobs(event, hooks[..room])
        && dropped == old(dropped) + |hooks| - room
    {
      for i := 0 to |hooks|
        invariant quit ==> jobs == old(jobs) && dropped == old(dropped) && abandoned == old(abandoned) + Jobs(event, hooks[..i])
        invariant !quit ==> abandoned == old(abandoned)
        invariant !quit && |old(jobs)| <= cfg.cap ==>
          var room := if i <= cfg.cap - |old(jobs)| then i else cfg.cap - |old(jobs)|;
          && jobs == old(jobs) + Jobs(event, hooks[..room])
          && dropped == old(dropped) + i - room
      {
        EnqueueJob(Job(Token(event, hooks[i]), 0));
        assert Jobs(event, hooks[..i + 1]) == Jobs(event, hooks[..i]) + [Job(Token(event, hooks[i]), 0)];
      }
      assert hooks[..|hooks|] == hooks;
    }

    method EnqueueJob(j: Job)
      modifies `jobs, `dropped, `abandoned
      ensures AfterQuitCheck(quit, Offering) == Abandoned ==>
        abandoned == old(abandoned) + [j] && jobs == old(jobs) && dropped == old(dropped)
      ensures AfterQuitCheck(quit, Offering) == Offering ==>
        && abandoned == old(abandoned)
        && jobs == old(jobs) + (if AfterOffer(|old(jobs)|, cfg.cap) == Queued then [j] else [])
        && dropped == old(dropped) + (if AfterOffer(|old(jobs)|, cfg.cap) == Queued then 0 else 1)
    {
      if quit {
        abandoned := abandoned + [j];
        return;
      }
      if |jobs| < cfg.cap {
        jobs := jobs + [j];
      } else {
        dropped := dropped + 1;
      }
    }

    /** One attempt; `ok` is the outcome of the POST, `jitter` the random part of a retry's delay. `booked`
        says whether Postgres takes the bookkeeping that follows; if not, it is logged and forgotten. */
    method Deliver(j: Job, ok: bool, now: Time, jitter: int, booked: bool)
      requires maxBackoff > 0
      requires 0 <= jitter < Backoff.Cap(baseBackoff, maxBackoff, j.attempt) / 2 + 1
      modifies `timers, repo
      ensures ok ==>
        && timers == old(timers)
        && repo.hooks == if booked && j.token.hook in old(repo.hooks)
                         then old(repo.hooks)[j.token.hook := AfterSuccess(old(repo.hooks)[j.token.hook])]
                         else old(repo.hooks)
      ensures !ok && j.attempt < cfg.maxRetries ==>
        && repo.hooks == old(repo.hooks)
        && |timers| == |old(timers)| + 1 && timers[..|old(timers)|] == old(timers)
        && timers[|old(timers)|].0 == j.(attempt := j.attempt + 1)
        && var c := Backoff.Cap(baseBackoff, maxBackoff, j.attempt);
           c / 2 <= timers[|old(timers)|].1 <= c
      ensures !ok && j.attempt >= cfg.maxRetries ==>
        && timers == old(timers)
        && repo.hooks == if booked && j.token.hook in old(repo.hooks)
                         then old(repo.hooks)[j.token.hook := AfterFailure(old(repo.hooks)[j.token.hook], threshold, now)]
                         else old(repo.hooks)
    {
      if ok {
        if booked {
          repo.RecordSuccess(j.token.hook);
        }
        return;
      }
      if j.attempt < cfg.maxRetries {
        var delay := Backoff.Delay(baseBackoff, maxBackoff, j.attempt, jitter);
        var retry := j.(attempt := j.attempt + 1);
        timers := timers + [(retry, delay)];
        return;
      }
      if booked {
        var _ := repo.RecordFailure(j.token.hook, threshold, now);
      }
    }

    method Shutdown()
      modifies `quit
      ensures quit
    {
      quit := true;
    }
  }

  // --- every interleaving ---

  // What the ledger knows of a token: where it is and how many POSTs it has had.
  datatype Entry = Entry(place: Place, posts: nat)

  // `pending` are the Dispatch calls that saw the dispatcher open and have not sent their event yet;
  // `posts` and `oks` log the POSTs made and those that succeeded; `resolver` and `senders` say which
  // goroutines are still running.
  datatype State = State(
    quit: bool,
    events: seq<Id>,
    pending: seq<Id>,
    seen: set<Id>,
    at: Place -> seq<Job>,
    posts: seq<Token>,
    oks: seq<Token>,
    refused: nat,
    resolver: bool,
    senders: nat,
    ledger: map<Token, Entry>)

  datatype Action =
    | Dispatch(event: Id)
    | SendEvent(i: nat)
    | Resolve(hooks: seq<Id>)
    | Check
    | Fire(i: nat)
    | Offer(from: Place, i: nat)
    | Take
    | Post(i: nat, ok: bool)
    | ResolverExits
    | SenderExits
    | Close

  ghost function Init(cfg: Config): State {
    State(false, [], [], {}, p => [], [], [], 0, true, cfg.senders, map[])
  }

  predicate Distinct(hooks: seq<Id>) {
    forall i, j :: 0 <= i < j < |hooks| ==> hooks[i] != hooks[j]
  }

  // Event ids are fresh; a lookup lists each webhook once; the resolver does one thing at a time.
  ghost predicate Enabled(cfg: Config, s: State, a: Action) {
    match a
    case Dispatch(event) => event !in s.seen
    case SendEvent(i) => i < |s.pending|
    case Resolve(hooks) => s.resolver && s.events != [] && s.at(Resolving) == s.at(Offering) == [] && Distinct(hooks)
    case Check => s.at(Resolving) != [] && s.at(Offering) == []
    case Fire(i) => i < |s.at(Waiting)|
    case Offer(from, i) => (from.Offering? || from.Reoffering?) && i < |s.at(from)|
    case Take => s.at(Queued) != [] && |s.at(Sending)| < s.senders
    case Post(i, _) => i < |s.at(Sending)|
    case ResolverExits => s.quit && s.resolver && s.events == [] && s.at(Resolving) == s.at(Offering) == []
    case SenderExits => s.quit && s.at(Queued) == [] && |s.at(Sending)| < s.senders
    case Close => true
  }

  function Without<T>(xs: seq<T>, i: nat): seq<T>
    requires i < |xs|
  {
    xs[..i] + xs[i + 1..]
  }

  // The i-th job at one place leaves it for the end of another.
  function Move(s: State, from: Place, i: nat, to: Place, j: Job): State
    requires i < |s.at(from)| && from != to
  {
    s.(at := p => if p == from then Without(s.at(from), i) else if p == to then s.at(to) + [j] else s.at(p),
       ledger := s.ledger[j.token := Entry(to, j.attempt)])
  }

  function Jobs(event: Id, hooks: seq<Id>): seq<Job> {
    seq(|hooks|, i requires 0 <= i < |hooks| => Job(Token(event, hooks[i]), 0))
  }

  function Next(cfg: Config, s: State, a: Action): State
    requires Enabled(cfg, s, a)
  {
    match a
    case Dispatch(event) =>
      s.(seen := s.seen + {event}, pending := if s.quit then s.pending else s.pending + [event])
    case SendEvent(i) =>
      var n := s.(pending := Without(s.pending, i));
      if |s.events| < cfg.cap then n.(events := s.events + [s.pending[i]]) else n.(refused := s.refused + 1)
    case Resolve(hooks) =>
      var event := s.events[0];
      s.(events := s.events[1..],
         at := p => if p == Resolving then Jobs(event, hooks) else s.at(p),
         ledger := s.ledger + map h | h in hooks :: Token(event, h) := Entry(Resolving, 0))
    case Check => Move(s, Resolving, 0, AfterQuitCheck(s.quit, Offering), s.at(Resolving)[0])
    case Fire(i) => Move(s, Waiting, i, AfterQuitCheck(s.quit, Reoffering), s.at(Waiting)[i])
    case Offer(from, i) =>
      var to := AfterOffer(|s.at(Queued)|, cfg.cap);
      var n := Move(s, from, i, to, s.at(from)[i]);
      if to == Dropped then n.(refused := s.refused + 1) else n
    case Take => Move(s, Queued, 0, Sending, s.at(Queued)[0])
    case Post(i, ok) =>
      var j := s.at(Sending)[i];
      var (to, after) := AfterPost(j, ok, cfg.maxRetries);
      Move(s, Sending, i, to, after).(posts := s.posts + [j.token], oks := s.oks + if ok then [j.token] else [])
    case ResolverExits => s.(resolver := false)
    case SenderExits => s.(senders := s.senders - 1)
    case Close => s.(quit := true)
  }

  // Dispatch as one step.
  function Dispatched(cfg: Config, s: State, event: Id): State
    requires s.pending == [] && event !in s.seen
  {
    var checked := Next(cfg, s, Dispatch(event));
    if s.quit then checked else Next(cfg, checked, SendEvent(0))
  }

  ghost predicate Runs(cfg: Config, s: State, acts: seq<Action>)
    decreases |acts|
  {
    acts != [] ==> Enabled(cfg, s, acts[0]) && Runs(cfg, Next(cfg, s, acts[0]), acts[1..])
  }

  ghost function Run(cfg: Config, s: State, acts: seq<Action>): State
    requires Runs(cfg, s, acts)
    decreases |acts|
  {
    if acts == [] then s else Run(cfg, Next(cfg, s, acts[0]), acts[1..])
  }

  // --- conservation ---

  // The jobs at a place are, each once, the tokens the ledger has there, with their POST counts.
  ghost predicate Holds(js: seq<Job>, ledger: map<Token, Entry>, p: Place) {
    && (forall i, j :: 0 <= i < j < |js| ==> js[i].token != js[j].token)
    && (forall i :: 0 <= i < |js| ==> js[i].token in ledger && ledger[js[i].token] == Entry(p, js[i].attempt))
    && (forall tk :: tk in ledger && ledger[tk].place == p ==> exists i :: 0 <= i < |js| && js[i].token == tk)
  }

  lemma HoldsAppend(js: seq<Job>, ledger: map<Token, Entry>, p: Place, j: Job)
    requires Holds(js, ledger, p)
    requires j.token in ledger ==> ledger[j.token].place != p
    ensures Holds(js + [j], ledger[j.token := Entry(p, j.attempt)], p)
  {
    var after, l := js + [j], ledger[j.token := Entry(p, j.attempt)];
    forall tk | tk in l && l[tk].place == p
      ensures exists i :: 0 <= i < |after| && after[i].token == tk
    {
      if tk == j.token {
        assert after[|js|].token == tk;
      } else {
        var i :| 0 <= i < |js| && js[i].token == tk;
        assert after[i].token == tk;
      }
    }
  }

  lemma HoldsWithout(js: seq<Job>, ledger: map<Token, Entry>, p: Place, i: nat, e: Entry)
    requires Holds(js, ledger, p) && i < |js| && e.place != p
    ensures Holds(Without(js, i), ledger[js[i].token := e], p)
  {
    var after, l := Without(js, i), ledger[js[i].token := e];
    forall k | 0 <= k < |after|
      ensures after[k].token in l && l[after[k].token] == Entry(p, after[k].attempt)
    {
      assert after[k] == js[if k < i then k else k + 1];
    }
    forall tk | tk in l && l[tk].place == p
      ensures exists k :: 0 <= k < |after| && after[k].token == tk
    {
      var k :| 0 <= k < |js| && js[k].token == tk;
      assert after[if k < i then k else k - 1] == js[k];
    }
  }

  lemma HoldsFrame(js: seq<Job>, ledger: map<Token, Entry>, p: Place, tk: Token, e: Entry)
    requires Holds(js, ledger, p) && e.place != p
    requires tk in ledger ==> ledger[tk].place != p
    ensures Holds(js, ledger[tk := e], p)
  {
  }

  ghost predicate Located(s: State) {
    forall p: Place :: Holds(s.at(p), s.ledger, p)
  }

  lemma MoveHolds(s: State, from: Place, i: nat, to: Place, j: Job, p: Place)
    requires i < |s.at(from)| && from != to && j.token == s.at(from)[i].token
    requires Holds(s.at(p), s.ledger, p) && Holds(s.at(from), s.ledger, from)
    ensures Holds(Move(s, from, i, to, j).at(p), Move(s, from, i, to, j).ledger, p)
  {
    var e := Entry(to, j.attempt);
    if p == from {
      HoldsWithout(s.at(p), s.ledger, p, i, e);
    } else {
      assert s.ledger[j.token].place == from;
      if p == to {
        HoldsAppend(s.at(p), s.ledger, p, j);
      } else {
        HoldsFrame(s.at(p), s.ledger, p, j.token, e);
      }
    }
  }

  lemma MoveLocated(s: State, from: Place, i: nat, to: Place, j: Job)
    requires Located(s) && i < |s.at(from)| && from != to && j.token == s.at(from)[i].token
    ensures Located(Move(s, from, i, to, j))
  {
    forall p: Place
      ensures Holds(Move(s, from, i, to, j).at(p), Move(s, from, i, to, j).ledger, p)
    {
      MoveHolds(s, from, i, to, j, p);
    }
  }

  function PostCount(s: State, tk: Token): nat {
    multiset(s.posts)[tk]
  }

  function OkCount(s: State, tk: Token): nat {
    multiset(s.oks)[tk]
  }

  // What each place says about the POSTs a token has had.
  predicate Fits(e: Entry, maxRetries: nat) {
    match e.place
    case Succeeded => 1 <= e.posts <= maxRetries + 1
    case Failed => e.posts == maxRetries + 1
    case _ => e.posts <= maxRetries
  }

  // The ledger counts the POSTs, and has at Succeeded the tokens with one that went through.
  ghost predicate Tallied(ledger: map<Token, Entry>, posts: seq<Token>, oks: seq<Token>) {
    && (forall tk :: multiset(posts)[tk] == if tk in ledger then ledger[tk].posts else 0)
    && (forall tk :: multiset(oks)[tk] == if tk in ledger && ledger[tk].place.Succeeded? then 1 else 0)
  }

  lemma TallyMove(ledger: map<Token, Entry>, posts: seq<Token>, oks: seq<Token>, tk: Token, to: Place)
    requires Tallied(ledger, posts, oks) && tk in ledger && !ledger[tk].place.Succeeded? && !to.Succeeded?
    ensures Tallied(ledger[tk := Entry(to, ledger[tk].posts)], posts, oks)
  {
  }

  lemma TallyPost(ledger: map<Token, Entry>, posts: seq<Token>, oks: seq<Token>, tk: Token, to: Place)
    requires Tallied(ledger, posts, oks) && tk in ledger && !ledger[tk].place.Succeeded?
    ensures Tallied(ledger[tk := Entry(to, ledger[tk].posts + 1)], posts + [tk], oks + if to.Succeeded? then [tk] else [])
  {
  }

  // The events still to be resolved, queued or on their way there.
  function Awaited(s: State): multiset<Id> {
    multiset(s.events) + multiset(s.pending)
  }

  // Every token has had the POSTs its place allows and belongs to an event that is not awaited any more.
  ghost predicate Fitting(cfg: Config, ledger: map<Token, Entry>, seen: set<Id>, awaited: multiset<Id>) {
    forall tk :: tk in ledger ==> Fits(ledger[tk], cfg.maxRetries) && tk.event in seen && tk.event !in awaited
  }

  ghost predicate Fresh(seen: set<Id>, awaited: multiset<Id>) {
    forall e :: awaited[e] <= 1 && (e in awaited ==> e in seen)
  }

  ghost predicate Staffed(cfg: Config, s: State) {
    !s.quit ==> s.resolver && s.senders == cfg.senders
  }

  // All that concerns the ledger and the events, not where the jobs are.
  ghost predicate Books(cfg: Config, ledger: map<Token, Entry>, posts: seq<Token>, oks: seq<Token>, seen: set<Id>,
                        awaited: multiset<Id>) {
    Tallied(ledger, posts, oks) && Fitting(cfg, ledger, seen, awaited) && Fresh(seen, awaited)
  }

  ghost predicate Inv(cfg: Config, s: State) {
    Located(s) && Books(cfg, s.ledger, s.posts, s.oks, s.seen, Awaited(s)) && Staffed(cfg, s)
  }

  lemma InitInv(cfg: Config)
    ensures Inv(cfg, Init(cfg))
  {
  }

  lemma ResolveHolds(s: State, event: Id, hooks: seq<Id>, ledger: map<Token, Entry>, p: Place)
    requires Distinct(hooks) && s.at(Resolving) == [] && Holds(s.at(p), s.ledger, p)
    requires forall tk :: tk in s.ledger ==> tk.event != event
    requires ledger == s.ledger + map h | h in hooks :: Token(event, h) := Entry(Resolving, 0)
    ensures Holds(if p == Resolving then Jobs(event, hooks) else s.at(p), ledger, p)
  {
    if p == Resolving {
      var js := Jobs(event, hooks);
      forall tk | tk in ledger && ledger[tk].place == p
        ensures exists i :: 0 <= i < |js| && js[i].token == tk
      {
        assert tk.hook in hooks;
        var i :| 0 <= i < |hooks| && hooks[i] == tk.hook;
        assert js[i].token == tk;
      }
    }
  }

  // One event fewer is awaited.
  lemma AwaitedLess(cfg: Config, ledger: map<Token, Entry>, seen: set<Id>, awaited: multiset<Id>, event: Id)
    requires Fresh(seen, awaited + multiset{event}) && Fitting(cfg, ledger, seen, awaited + multiset{event})
    ensures Fresh(seen, awaited) && Fitting(cfg, ledger, seen, awaited)
    ensures event in seen && event !in awaited && forall tk :: tk in ledger ==> tk.event != event
  {
    assert (awaited + multiset{event})[event] == awaited[event] + 1;
  }

  lemma ResolveLedger(cfg: Config, s: State, event: Id, hooks: seq<Id>, awaited: multiset<Id>)
    requires Tallied(s.ledger, s.posts, s.oks) && Fitting(cfg, s.ledger, s.seen, awaited)
    requires event in s.seen && event !in awaited && forall tk :: tk in s.ledger ==> tk.event != event
    ensures var ledger := s.ledger + map h | h in hooks :: Token(event, h) := Entry(Resolving, 0);
            Tallied(ledger, s.posts, s.oks) && Fitting(cfg, ledger, s.seen, awaited)
  {
  }

  lemma ResolveLocated(s: State, event: Id, hooks: seq<Id>, n: State)
    requires Located(s) && Distinct(hooks) && s.at(Resolving) == []
    requires forall tk :: tk in s.ledger ==> tk.event != event
    requires n.ledger == s.ledger + map h | h in hooks :: Token(event, h) := Entry(Resolving, 0)
    requires forall p: Place :: n.at(p) == if p == Resolving then Jobs(event, hooks) else s.at(p)
    ensures Located(n)
  {
    forall p: Place
      ensures Holds(n.at(p), n.ledger, p)
    {
      ResolveHolds(s, event, hooks, n.ledger, p);
    }
  }

  lemma ResolveKeeps(cfg: Config, s: State, hooks: seq<Id>)
    requires Inv(cfg, s) && Enabled(cfg, s, Resolve(hooks))
    ensures Inv(cfg, Next(cfg, s, Resolve(hooks)))
  {
    var n := Next(cfg, s, Resolve(hooks));
    var event := s.events[0];
    assert s.events == [event] + s.events[1..];
    assert Awaited(s) == Awaited(n) + multiset{event};
    AwaitedLess(cfg, s.ledger, s.seen, Awaited(n), event);
    ResolveLedger(cfg, s, event, hooks, Awaited(n));
    ResolveLocated(s, event, hooks, n);
  }

  lemma DispatchKeeps(cfg: Config, s: State, event: Id)
    requires Inv(cfg, s) && event !in s.seen
    ensures Inv(cfg, Next(cfg, s, Dispatch(event)))
  {
    LocatedFrame(s, Next(cfg, s, Dispatch(event)));
  }

  lemma OfferKeeps(cfg: Config, s: State, from: Place, i: nat)
    requires Inv(cfg, s) && Enabled(cfg, s, Offer(from, i))
    ensures Inv(cfg, Next(cfg, s, Offer(from, i)))
  {
    var to := AfterOffer(|s.at(Queued)|, cfg.cap);
    MoveKeeps(cfg, s, from, i, to);
    RefusedFrame(cfg, Move(s, from, i, to, s.at(from)[i]), Next(cfg, s, Offer(from, i)));
  }

  // The count of refusals is no part of the invariant.
  lemma RefusedFrame(cfg: Config, s: State, n: State)
    requires Inv(cfg, s) && n == s.(refused := n.refused)
    ensures Inv(cfg, n)
  {
    LocatedFrame(s, n);
    assert Awaited(n) == Awaited(s);
  }

  lemma SendEventKeeps(cfg: Config, s: State, i: nat)
    requires Inv(cfg, s) && i < |s.pending|
    ensures Inv(cfg, Next(cfg, s, SendEvent(i)))
  {
    var n := Next(cfg, s, SendEvent(i));
    LocatedFrame(s, n);
    SentIsAwaited(s, i);
    if |s.events| >= cfg.cap {
      AwaitedLess(cfg, s.ledger, s.seen, Awaited(n), s.pending[i]);
    }
  }

  lemma SentIsAwaited(s: State, i: nat)
    requires i < |s.pending|
    ensures multiset(s.events) + multiset(Without(s.pending, i)) + multiset{s.pending[i]} == Awaited(s)
    ensures multiset(s.events + [s.pending[i]]) + multiset(Without(s.pending, i)) == Awaited(s)
  {
    assert s.pending == s.pending[..i] + [s.pending[i]] + s.pending[i + 1..];
  }

  // Where the jobs are is all that Located is about.
  lemma LocatedFrame(s: State, n: State)
    requires Located(s) && n.at == s.at && n.ledger == s.ledger
    ensures Located(n)
  {
  }

  lemma StepKeeps(cfg: Config, s: State, a: Action)
    requires Inv(cfg, s) && Enabled(cfg, s, a)
    ensures Inv(cfg, Next(cfg, s, a))
  {
    match a
    case Dispatch(event) => DispatchKeeps(cfg, s, event);
    case SendEvent(i) => SendEventKeeps(cfg, s, i);
    case Resolve(hooks) => ResolveKeeps(cfg, s, hooks);
    case Check => MoveKeeps(cfg, s, Resolving, 0, AfterQuitCheck(s.quit, Offering));
    case Fire(i) => MoveKeeps(cfg, s, Waiting, i, AfterQuitCheck(s.quit, Reoffering));
    case Offer(from, i) => OfferKeeps(cfg, s, from, i);
    case Take => MoveKeeps(cfg, s, Queued, 0, Sending);
    case Post(i, ok) => PostKeeps(cfg, s, i, ok);
    case ResolverExits => LocatedFrame(s, Next(cfg, s, a));
    case SenderExits => LocatedFrame(s, Next(cfg, s, a));
    case Close => LocatedFrame(s, Next(cfg, s, a));
  }

  lemma InLedger(s: State, p: Place, i: nat)
    requires Located(s) && i < |s.at(p)|
    ensures s.at(p)[i].token in s.ledger && s.ledger[s.at(p)[i].token] == Entry(p, s.at(p)[i].attempt)
  {
    assert Holds(s.at(p), s.ledger, p);
  }

  lemma SendingHasRetries(cfg: Config, s: State, i: nat)
    requires Inv(cfg, s) && i < |s.at(Sending)|
    ensures s.at(Sending)[i].attempt <= cfg.maxRetries
  {
    InLedger(s, Sending, i);
  }

  lemma FittingUpdate(cfg: Config, ledger: map<Token, Entry>, seen: set<Id>, awaited: multiset<Id>, tk: Token, e: Entry)
    requires Fitting(cfg, ledger, seen, awaited) && tk in ledger && Fits(e, cfg.maxRetries)
    ensures Fitting(cfg, ledger[tk := e], seen, awaited)
  {
  }

  lemma PostLocated(cfg: Config, s: State, i: nat, ok: bool)
    requires Located(s) && i < |s.at(Sending)|
    ensures Located(Next(cfg, s, Post(i, ok)))
  {
    var (to, j) := AfterPost(s.at(Sending)[i], ok, cfg.maxRetries);
    MoveLocated(s, Sending, i, to, j);
    LocatedFrame(Move(s, Sending, i, to, j), Next(cfg, s, Post(i, ok)));
  }

  lemma PostBooks(cfg: Config, ledger: map<Token, Entry>, posts: seq<Token>, oks: seq<Token>, seen: set<Id>,
                  awaited: multiset<Id>, j: Job, ok: bool)
    requires Books(cfg, ledger, posts, oks, seen, awaited)
    requires j.token in ledger && ledger[j.token] == Entry(Sending, j.attempt)
    ensures var (to, after) := AfterPost(j, ok, cfg.maxRetries);
            Books(cfg, ledger[j.token := Entry(to, after.attempt)], posts + [j.token],
                  oks + if ok then [j.token] else [], seen, awaited)
  {
    var (to, after) := AfterPost(j, ok, cfg.maxRetries);
    TallyPost(ledger, posts, oks, j.token, to);
    FittingUpdate(cfg, ledger, seen, awaited, j.token, Entry(to, after.attempt));
  }

  lemma PostKeeps(cfg: Config, s: State, i: nat, ok: bool)
    requires Inv(cfg, s) && i < |s.at(Sending)|
    ensures Inv(cfg, Next(cfg, s, Post(i, ok)))
  {
    InLedger(s, Sending, i);
    PostLocated(cfg, s, i, ok);
    PostBooks(cfg, s.ledger, s.posts, s.oks, s.seen, Awaited(s), s.at(Sending)[i], ok);
    assert Awaited(Next(cfg, s, Post(i, ok))) == Awaited(s);
  }

  lemma MoveKeeps(cfg: Config, s: State, from: Place, i: nat, to: Place)
    requires Inv(cfg, s) && i < |s.at(from)| && from != to
    requires Live(from) && to != Succeeded && to != Failed
    ensures Inv(cfg, Move(s, from, i, to, s.at(from)[i]))
  {
    var j := s.at(from)[i];
    InLedger(s, from, i);
    MoveLocated(s, from, i, to, j);
    TallyMove(s.ledger, s.posts, s.oks, j.token, to);
    FittingUpdate(cfg, s.ledger, s.seen, Awaited(s), j.token, Entry(to, j.attempt));
    assert Awaited(Move(s, from, i, to, j)) == Awaited(s);
  }

  lemma {:induction false} RunKeeps(cfg: Config, s: State, acts: seq<Action>)
    requires Inv(cfg, s) && Runs(cfg, s, acts)
    ensures Inv(cfg, Run(cfg, s, acts))
    decreases |acts|
  {
    if acts != [] {
      StepKeeps(cfg, s, acts[0]);
      RunKeeps(cfg, Next(cfg, s, acts[0]), acts[1..]);
    }
  }

  lemma ResolvesAnother(cfg: Config, s: State, hooks: seq<Id>, tk: Token)
    requires Fitting(cfg, s.ledger, s.seen, Awaited(s)) && Enabled(cfg, s, Resolve(hooks)) && tk in s.ledger
    ensures var n := Next(cfg, s, Resolve(hooks)); tk in n.ledger && n.ledger[tk] == s.ledger[tk]
  {
    assert s.events[0] in Awaited(s);
  }

  // The token whose job a step moves, if it moves one.
  function Moved(cfg: Config, s: State, a: Action): Option<Token>
    requires Enabled(cfg, s, a)
  {
    match a
    case Check => Some(s.at(Resolving)[0].token)
    case Fire(i) => Some(s.at(Waiting)[i].token)
    case Offer(from, i) => Some(s.at(from)[i].token)
    case Take => Some(s.at(Queued)[0].token)
    case Post(i, _) => Some(s.at(Sending)[i].token)
    case _ => None
  }

  // Where the step takes it, as the source says: a failed POST with attempts left waits for a retry, only
  // quit abandons a job, only a full queue drops one.
  ghost predicate GoesTo(cfg: Config, s: State, a: Action, before: Entry, after: Entry) {
    match a
    case Check => before.place == Resolving && after == before.(place := if s.quit then Abandoned else Offering)
    case Fire(_) => before.place == Waiting && after == before.(place := if s.quit then Abandoned else Reoffering)
    case Offer(from, _) => before.place == from && after == before.(place := if |s.at(Queued)| < cfg.cap then Queued else Dropped)
    case Take => before.place == Queued && after == before.(place := Sending)
    case Post(_, ok) =>
      && before.place == Sending && after.posts == before.posts + 1
      && (ok ==> after.place == Succeeded)
      && (!ok && before.posts < cfg.maxRetries ==> after.place == Waiting)
      && (!ok && before.posts == cfg.maxRetries ==> after.place == Failed)
      && before.posts <= cfg.maxRetries
    case _ => false
  }

  /** Every step moves at most one job that was there before, and moves it where the source does. */
  lemma StepMoves(cfg: Config, s: State, a: Action, tk: Token)
    requires Inv(cfg, s) && Enabled(cfg, s, a) && tk in s.ledger
    ensures tk in Next(cfg, s, a).ledger
    ensures if Moved(cfg, s, a) == Some(tk) then GoesTo(cfg, s, a, s.ledger[tk], Next(cfg, s, a).ledger[tk])
            else Next(cfg, s, a).ledger[tk] == s.ledger[tk]
  {
    if Moved(cfg, s, a) == Some(tk) {
      OwnMove(cfg, s, a, tk);
    } else {
      OthersStay(cfg, s, a, tk);
    }
  }

  lemma OthersStay(cfg: Config, s: State, a: Action, tk: Token)
    requires Fitting(cfg, s.ledger, s.seen, Awaited(s)) && Enabled(cfg, s, a) && Moved(cfg, s, a) != Some(tk)
    requires tk in s.ledger
    ensures tk in Next(cfg, s, a).ledger && Next(cfg, s, a).ledger[tk] == s.ledger[tk]
  {
    if a.Resolve? {
      ResolvesAnother(cfg, s, a.hooks, tk);
    }
  }

  lemma OwnMove(cfg: Config, s: State, a: Action, tk: Token)
    requires Inv(cfg, s) && Enabled(cfg, s, a) && Moved(cfg, s, a) == Some(tk)
    ensures tk in s.ledger && tk in Next(cfg, s, a).ledger
    ensures GoesTo(cfg, s, a, s.ledger[tk], Next(cfg, s, a).ledger[tk])
  {
    match a
    case Check => InLedger(s, Resolving, 0);
    case Fire(i) => InLedger(s, Waiting, i);
    case Offer(from, i) => InLedger(s, from, i);
    case Take => InLedger(s, Queued, 0);
    case Post(i, ok) =>
      InLedger(s, Sending, i);
      SendingHasRetries(cfg, s, i);
  }

  /** An outcome is final: once succeeded, failed, dropped or abandoned a job never moves again, so no
      job has both a success and a failure recorded. */
  lemma OutcomesAreFinal(cfg: Config, s: State, a: Action, tk: Token)
    requires Inv(cfg, s) && Enabled(cfg, s, a)
    requires tk in s.ledger && !Live(s.ledger[tk].place)
    ensures tk in Next(cfg, s, a).ledger && Next(cfg, s, a).ledger[tk] == s.ledger[tk]
  {
    StepMoves(cfg, s, a, tk);
  }

  // Hence a job is dropped only by an offer to a full queue, and abandoned only after quit.
  lemma LossesAreExplained(cfg: Config, s: State, a: Action, tk: Token)
    requires Inv(cfg, s) && Enabled(cfg, s, a) && tk in s.ledger && Live(s.ledger[tk].place)
    requires tk in Next(cfg, s, a).ledger
    ensures Next(cfg, s, a).ledger[tk].place == Dropped ==> a.Offer? && |s.at(Queued)| >= cfg.cap
    ensures Next(cfg, s, a).ledger[tk].place == Abandoned ==> s.quit && (a.Check? || a.Fire?)
  {
    StepMoves(cfg, s, a, tk);
  }

  function Tokens(js: seq<Job>): seq<Token> {
    seq(|js|, i requires 0 <= i < |js| => js[i].token)
  }

  // How often a token occurs at a place.
  function Occurs(s: State, p: Place, tk: Token): nat
  {
    multiset(Tokens(s.at(p)))[tk]
  }

  lemma {:induction false} OccursOnce(ts: seq<Token>, tk: Token)
    requires forall i, j :: 0 <= i < j < |ts| ==> ts[i] != ts[j]
    ensures multiset(ts)[tk] == if tk in ts then 1 else 0
  {
    if ts != [] {
      var front, last := ts[..|ts| - 1], ts[|ts| - 1];
      assert ts == front + [last];
      OccursOnce(front, tk);
    }
  }

  /** In every reachable state each job ever created is at exactly one place, once: still live, or in
      exactly one of the four outcomes. It has had at most maxRetries + 1 POSTs. A recorded failure
      means exactly that many, none of which went through; a recorded success, that exactly one did. */
  lemma EveryJobIsSomewhere(cfg: Config, acts: seq<Action>, tk: Token, p: Place)
    requires Runs(cfg, Init(cfg), acts)
    ensures var s := Run(cfg, Init(cfg), acts);
            && Occurs(s, p, tk) == (if tk in s.ledger && s.ledger[tk].place == p then 1 else 0)
            && PostCount(s, tk) <= cfg.maxRetries + 1
            && (Occurs(s, Failed, tk) > 0 ==> PostCount(s, tk) == cfg.maxRetries + 1)
            && OkCount(s, tk) == Occurs(s, Succeeded, tk)
            && (PostCount(s, tk) > 0 ==> tk in s.ledger)
  {
    InitInv(cfg);
    RunKeeps(cfg, Init(cfg), acts);
    var s := Run(cfg, Init(cfg), acts);
    OccursAsLedger(s, p, tk);
    OccursAsLedger(s, Failed, tk);
    OccursAsLedger(s, Succeeded, tk);
  }

  lemma OccursAsLedger(s: State, p: Place, tk: Token)
    requires Located(s)
    ensures Occurs(s, p, tk) == if tk in s.ledger && s.ledger[tk].place == p then 1 else 0
  {
    assert Holds(s.at(p), s.ledger, p);
    var ts := Tokens(s.at(p));
    OccursOnce(ts, tk);
    if tk in s.ledger && s.ledger[tk].place == p {
      var i :| 0 <= i < |s.at(p)| && s.at(p)[i].token == tk;
      assert ts[i] == tk;
    }
    if tk in ts {
      var i :| 0 <= i < |ts| && ts[i] == tk;
      assert s.at(p)[i].token == tk;
    }
  }

  // --- termination ---

  // More retries left weighs more; each step within an attempt weighs less than the one before.
  function Weight(cfg: Config, p: Place, j: Job): nat {
    var retries := if j.attempt <= cfg.maxRetries then cfg.maxRetries - j.attempt else 0;
    match p
    case Resolving => 5 * retries + 5
    case Waiting => 5 * retries + 5
    case Offering => 5 * retries + 4
    case Reoffering => 5 * retries + 4
    case Queued => 5 * retries + 3
    case Sending => 5 * retries + 2
    case _ => 0
  }

  function Load(cfg: Config, p: Place, js: seq<Job>): nat {
    if js == [] then 0 else Load(cfg, p, js[..|js| - 1]) + Weight(cfg, p, js[|js| - 1])
  }

  function TotalLoad(cfg: Config, at: Place -> seq<Job>): nat {
    Load(cfg, Resolving, at(Resolving)) + Load(cfg, Waiting, at(Waiting)) + Load(cfg, Offering, at(Offering)) +
    Load(cfg, Reoffering, at(Reoffering)) + Load(cfg, Queued, at(Queued)) + Load(cfg, Sending, at(Sending))
  }

  lemma LoadAppend(cfg: Config, p: Place, js: seq<Job>, j: Job)
    ensures Load(cfg, p, js + [j]) == Load(cfg, p, js) + Weight(cfg, p, j)
  {
    assert (js + [j])[..|js|] == js;
  }

  lemma {:induction false} LoadWithout(cfg: Config, p: Place, js: seq<Job>, i: nat)
    requires i < |js|
    ensures Load(cfg, p, js) == Load(cfg, p, Without(js, i)) + Weight(cfg, p, js[i])
  {
    var front, last := js[..|js| - 1], js[|js| - 1];
    if i == |js| - 1 {
      assert Without(js, i) == front;
    } else {
      assert Without(js, i) == Without(front, i) + [last];
      LoadWithout(cfg, p, front, i);
      LoadAppend(cfg, p, Without(front, i), last);
    }
  }

  // What a move does to the load of each place.
  lemma MoveLoadAt(cfg: Config, s: State, from: Place, i: nat, to: Place, j: Job, p: Place)
    requires i < |s.at(from)| && from != to && Live(from)
    ensures var n := Move(s, from, i, to, j);
            Load(cfg, p, n.at(p)) + (if p == from then Weight(cfg, p, s.at(from)[i]) else 0) ==
            Load(cfg, p, s.at(p)) + (if p == to then Weight(cfg, p, j) else 0)
  {
    var js, after := s.at(p), Move(s, from, i, to, j).at(p);
    if p == from {
      assert after == Without(js, i);
      LoadWithout(cfg, p, js, i);
    } else if p == to {
      assert after == js + [j];
      LoadAppend(cfg, p, js, j);
    } else {
      assert after == js;
    }
  }

  lemma MoveLoad(cfg: Config, s: State, from: Place, i: nat, to: Place, j: Job)
    requires i < |s.at(from)| && from != to && Live(from)
    ensures TotalLoad(cfg, Move(s, from, i, to, j).at) + Weight(cfg, from, s.at(from)[i]) ==
            TotalLoad(cfg, s.at) + Weight(cfg, to, j)
  {
    MoveLoadAt(cfg, s, from, i, to, j, Resolving);
    MoveLoadAt(cfg, s, from, i, to, j, Waiting);
    MoveLoadAt(cfg, s, from, i, to, j, Offering);
    MoveLoadAt(cfg, s, from, i, to, j, Reoffering);
    MoveLoadAt(cfg, s, from, i, to, j, Queued);
    MoveLoadAt(cfg, s, from, i, to, j, Sending);
  }

  // How far the events are from being resolved: one waiting to be sent is further than one queued.
  function Backlog(s: State): nat {
    2 * |s.pending| + |s.events|
  }

  // What is left to do besides.
  function Remaining(cfg: Config, s: State): nat {
    TotalLoad(cfg, s.at) + s.senders + if s.resolver then 1 else 0
  }

  predicate Internal(a: Action) {
    !a.Dispatch? && !a.Close?
  }

  /** With no new events everything comes to an end: each step brings the events nearer to being resolved
      or, leaving them where they are, makes what remains strictly smaller. */
  lemma StepsRunOut(cfg: Config, s: State, a: Action)
    requires Inv(cfg, s) && Enabled(cfg, s, a) && Internal(a)
    ensures var n := Next(cfg, s, a);
            if a.Resolve? || a.SendEvent? then Backlog(n) < Backlog(s)
            else Backlog(n) == Backlog(s) && Remaining(cfg, n) < Remaining(cfg, s)
  {
    if a.Post? {
      SendingHasRetries(cfg, s, a.i);
    }
    StepShrinks(cfg, s, a);
  }

  lemma StepShrinks(cfg: Config, s: State, a: Action)
    requires Enabled(cfg, s, a) && Internal(a)
    requires a.Post? ==> s.at(Sending)[a.i].attempt <= cfg.maxRetries
    ensures var n := Next(cfg, s, a);
            if a.Resolve? || a.SendEvent? then Backlog(n) < Backlog(s)
            else Backlog(n) == Backlog(s) && Remaining(cfg, n) < Remaining(cfg, s)
  {
    match a
    case SendEvent(_) =>
    case Resolve(_) =>
    case Check => MoveRunsOut(cfg, s, Resolving, 0, AfterQuitCheck(s.quit, Offering));
    case Fire(i) => MoveRunsOut(cfg, s, Waiting, i, AfterQuitCheck(s.quit, Reoffering));
    case Offer(from, i) => MoveRunsOut(cfg, s, from, i, AfterOffer(|s.at(Queued)|, cfg.cap));
    case Take => MoveRunsOut(cfg, s, Queued, 0, Sending);
    case Post(i, ok) => PostRunsOut(cfg, s, i, ok);
    case ResolverExits =>
    case SenderExits =>
  }

  lemma MoveRunsOut(cfg: Config, s: State, from: Place, i: nat, to: Place)
    requires i < |s.at(from)| && from != to && Live(from) && from != Sending
    requires Weight(cfg, to, s.at(from)[i]) < Weight(cfg, from, s.at(from)[i])
    ensures TotalLoad(cfg, Move(s, from, i, to, s.at(from)[i]).at) < TotalLoad(cfg, s.at)
  {
    MoveLoad(cfg, s, from, i, to, s.at(from)[i]);
  }

  lemma PostRunsOut(cfg: Config, s: State, i: nat, ok: bool)
    requires i < |s.at(Sending)| && s.at(Sending)[i].attempt <= cfg.maxRetries
    ensures var (to, j) := AfterPost(s.at(Sending)[i], ok, cfg.maxRetries);
            TotalLoad(cfg, Move(s, Sending, i, to, j).at) < TotalLoad(cfg, s.at)
  {
    var (to, j) := AfterPost(s.at(Sending)[i], ok, cfg.maxRetries);
    assert Weight(cfg, to, j) < Weight(cfg, Sending, s.at(Sending)[i]);
    MoveLoad(cfg, s, Sending, i, to, j);
  }

  /** Where it ends: when no step but a new event or shutdown is possible, nothing is on its way. A job
      still queued was sent after quit, when every sender had gone; so was an event, after the resolver. */
  lemma EndState(cfg: Config, s: State)
    requires Inv(cfg, s) && cfg.senders >= 1
    requires forall a :: Internal(a) ==> !Enabled(cfg, s, a)
    ensures s.at(Resolving) == s.at(Waiting) == s.at(Offering) == s.at(Reoffering) == s.at(Sending) == [] && s.pending == []
    ensures s.at(Queued) != [] ==> s.quit && s.senders == 0
    ensures s.events != [] ==> s.quit && !s.resolver
    ensures s.quit ==> s.senders == 0 && !s.resolver
  {
    assert !Enabled(cfg, s, Check) && !Enabled(cfg, s, Fire(0)) && !Enabled(cfg, s, SendEvent(0));
    assert !Enabled(cfg, s, Offer(Offering, 0)) && !Enabled(cfg, s, Offer(Reoffering, 0));
    assert !Enabled(cfg, s, Post(0, true)) && !Enabled(cfg, s, Take);
    assert !Enabled(cfg, s, ResolverExits) && !Enabled(cfg, s, SenderExits);
    assert !Enabled(cfg, s, Resolve([]));
  }

  // --- what shutdown can leave behind ---

  // A job in the queue and nobody left to send it.
  ghost predicate StrandsJob(cfg: Config, s: State, acts: seq<Action>) {
    Runs(cfg, s, acts) && Run(cfg, s, acts).senders == 0 && Run(cfg, s, acts).at(Queued) != []
  }

  // An event in the queue and nobody left to resolve it.
  ghost predicate StrandsEvent(cfg: Config, s: State, acts: seq<Action>) {
    Runs(cfg, s, acts) && !Run(cfg, s, acts).resolver && Run(cfg, s, acts).events != []
  }

  lemma Prepend(cfg: Config, s: State, a: Action, rest: seq<Action>)
    requires Enabled(cfg, s, a) && Runs(cfg, Next(cfg, s, a), rest)
    ensures Runs(cfg, s, [a] + rest) && Run(cfg, s, [a] + rest) == Run(cfg, Next(cfg, s, a), rest)
  {
    assert ([a] + rest)[1..] == rest;
  }

  // After quit, with no job between its check and its send.
  ghost predicate JobsSealed(s: State) {
    s.quit && s.at(Offering) == s.at(Reoffering) == [] && (s.senders == 0 ==> s.at(Queued) == [])
  }

  lemma {:induction false} JobsStaySealed(cfg: Config, s: State, acts: seq<Action>)
    requires JobsSealed(s) && Runs(cfg, s, acts)
    ensures JobsSealed(Run(cfg, s, acts))
    decreases |acts|
  {
    if acts != [] {
      JobsStaySealed(cfg, Next(cfg, s, acts[0]), acts[1..]);
    }
  }

  // The senders empty the queue and leave; then the job that was held back is sent.
  lemma {:induction false} StrandJob(cfg: Config, s: State, from: Place) returns (acts: seq<Action>)
    requires s.quit && cfg.cap >= 1 && (from == Offering || from == Reoffering) && s.at(from) != []
    requires s.senders == 0 ==> s.at(Queued) == []
    ensures StrandsJob(cfg, s, acts)
    decreases 2 * |s.at(Queued)| + |s.at(Sending)| + s.senders
  {
    if s.senders == 0 {
      acts := [Offer(from, 0)];
      Prepend(cfg, s, Offer(from, 0), []);
      return;
    }
    var a := if s.at(Sending) != [] then Post(0, true) else if s.at(Queued) != [] then Take else SenderExits;
    var rest := StrandJob(cfg, Next(cfg, s, a), from);
    Prepend(cfg, s, a, rest);
    acts := [a] + rest;
  }

  /** Exactly when can shutdown strand a job? When, as quit closes, the resolver or a timer is between
      enqueueJob's check and its send. */
  lemma JobStrandsIff(cfg: Config, s: State)
    requires Inv(cfg, s) && !s.quit && cfg.cap >= 1 && cfg.senders >= 1
    ensures (exists acts :: StrandsJob(cfg, Next(cfg, s, Close), acts)) <==>
            s.at(Offering) != [] || s.at(Reoffering) != []
  {
    var c := Next(cfg, s, Close);
    if s.at(Offering) != [] {
      var acts := StrandJob(cfg, c, Offering);
    } else if s.at(Reoffering) != [] {
      var acts := StrandJob(cfg, c, Reoffering);
    } else {
      forall acts
        ensures !StrandsJob(cfg, c, acts)
      {
        if Runs(cfg, c, acts) {
          JobsStaySealed(cfg, c, acts);
        }
      }
    }
  }

  // After quit, with no Dispatch between its check and its send.
  ghost predicate EventsSealed(s: State) {
    s.quit && s.pending == [] && (!s.resolver ==> s.events == [])
  }

  lemma {:induction false} EventsStaySealed(cfg: Config, s: State, acts: seq<Action>)
    requires EventsSealed(s) && Runs(cfg, s, acts)
    ensures EventsSealed(Run(cfg, s, acts))
    decreases |acts|
  {
    if acts != [] {
      EventsStaySealed(cfg, Next(cfg, s, acts[0]), acts[1..]);
    }
  }

  // The resolver finishes and leaves; then the event that was held back is sent.
  lemma {:induction false} StrandEvent(cfg: Config, s: State) returns (acts: seq<Action>)
    requires s.quit && cfg.cap >= 1 && s.pending != [] && (!s.resolver ==> s.events == [])
    ensures StrandsEvent(cfg, s, acts)
    decreases |s.at(Offering)| + |s.at(Resolving)| + |s.events| + if s.resolver then 1 else 0
  {
    if !s.resolver {
      acts := [SendEvent(0)];
      Prepend(cfg, s, SendEvent(0), []);
      return;
    }
    var a := if s.at(Offering) != [] then Offer(Offering, 0) else if s.at(Resolving) != [] then Check
             else if s.events != [] then Resolve([]) else ResolverExits;
    var rest := StrandEvent(cfg, Next(cfg, s, a));
    Prepend(cfg, s, a, rest);
    acts := [a] + rest;
  }

  /** And an event? When, as quit closes, some Dispatch is between its check and its send. */
  lemma EventStrandsIff(cfg: Config, s: State)
    requires Inv(cfg, s) && !s.quit && cfg.cap >= 1
    ensures (exists acts :: StrandsEvent(cfg, Next(cfg, s, Close), acts)) <==> s.pending != []
  {
    var c := Next(cfg, s, Close);
    if s.pending != [] {
      var acts := StrandEvent(cfg, c);
    } else {
      forall acts
        ensures !StrandsEvent(cfg, c, acts)
      {
        if Runs(cfg, c, acts) {
          EventsStaySealed(cfg, c, acts);
        }
      }
    }
  }

  // Both do happen: a run to a state with a job and an event held back.
  lemma HeldBack(cfg: Config) returns (acts: seq<Action>)
    requires cfg.cap >= 1
    ensures Runs(cfg, Init(cfg), acts)
    ensures var s := Run(cfg, Init(cfg), acts); !s.quit && s.at(Offering) != [] && s.pending != []
  {
    var s0 := Init(cfg);
    var s1 := Next(cfg, s0, Dispatch(0));
    var s2 := Next(cfg, s1, SendEvent(0));
    var s3 := Next(cfg, s2, Resolve([0]));
    assert s3.at(Resolving) == [Job(Token(0, 0), 0)];
    var s4 := Next(cfg, s3, Check);
    Prepend(cfg, s4, Dispatch(1), []);
    Prepend(cfg, s3, Check, [Dispatch(1)] + []);
    Prepend(cfg, s2, Resolve([0]), [Check] + ([Dispatch(1)] + []));
    Prepend(cfg, s1, SendEvent(0), [Resolve([0])] + ([Check] + ([Dispatch(1)] + [])));
    acts := [Dispatch(0)] + ([SendEvent(0)] + ([Resolve([0])] + ([Check] + ([Dispatch(1)] + []))));
    Prepend(cfg, s0, Dispatch(0), acts[1..]);
  }
}
