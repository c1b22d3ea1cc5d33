/** The whole pool: request goroutines offering clicks, a bounded channel, N workers, shutdown.
    Every channel operation is a step, so Enqueue's quit check and its send are two. */
module Ingest {
  import opened Domain
  import opened Pipeline

  datatype Mode = Running | Draining | Exited

  datatype WorkerState = WorkerState(batch: seq<Click>, mode: Mode)

  datatype Config = Config(cap: nat, size: nat, workers: nat)

  // `pending` are the Enqueue calls that saw the pipeline open and have not sent yet.
  datatype State = State(
    quit: bool,
    queue: seq<Click>,
    workers: seq<WorkerState>,
    pending: seq<Click>,
    offered: seq<Click>,
    sent: seq<Click>,
    dropped: seq<Click>,
    rejected: seq<Click>,
    calls: seq<Call>)

  // `ok` says whether RecordBatch would accept the batch, if the step calls it.
  datatype Action =
    | Check(c: Click)
    | Send(i: nat)
    | Take(w: nat, ok: bool)
    | Tick(w: nat, ok: bool)
    | Notice(w: nat)
    | Leave(w: nat, ok: bool)
    | Close

  ghost predicate ValidConfig(cfg: Config) {
    cfg.cap >= 1 && cfg.size >= 1 && cfg.workers >= 1
  }

  function Init(cfg: Config): State {
    State(false, [], seq(cfg.workers, _ => WorkerState([], Running)), [], [], [], [], [], [])
  }

  predicate Enabled(s: State, a: Action) {
    match a
    case Check(_) => true
    case Send(i) => i < |s.pending|
    case Take(w, _) => w < |s.workers| && s.workers[w].mode != Exited && s.queue != []
    case Tick(w, _) => w < |s.workers| && s.workers[w].mode == Running
    case Notice(w) => w < |s.workers| && s.workers[w].mode == Running && s.quit
    case Leave(w, _) => w < |s.workers| && s.workers[w].mode == Draining && s.queue == []
    case Close => true
  }

  function Without<T>(xs: seq<T>, i: nat): seq<T>
    requires i < |xs|
  {
    xs[..i] + xs[i + 1..]
  }

  function FlushCalls(batch: seq<Click>, ok: bool): seq<Call> {
    if batch == [] then [] else [Call(batch, ok)]
  }

  function Next(cfg: Config, s: State, a: Action): State
    requires Enabled(s, a)
  {
    match a
    case Check(c) =>
      if s.quit then s.(offered := s.offered + [c], rejected := s.rejected + [c])
      else s.(offered := s.offered + [c], pending := s.pending + [c])
    case Send(i) =>
      var c, n := s.pending[i], s.(pending := Without(s.pending, i));
      if |s.queue| < cfg.cap then n.(queue := s.queue + [c], sent := s.sent + [c])
      else n.(dropped := s.dropped + [c])
    case Take(w, ok) =>
      var (batch, full) := Absorbed(s.workers[w].batch, s.queue[0], cfg.size);
      s.(queue := s.queue[1..],
         workers := s.workers[w := s.workers[w].(batch := batch)],
         calls := s.calls + if full.Some? then [Call(full.value, ok)] else [])
    case Tick(w, ok) =>
      s.(workers := s.workers[w := s.workers[w].(batch := [])],
         calls := s.calls + FlushCalls(s.workers[w].batch, ok))
    case Notice(w) => s.(workers := s.workers[w := s.workers[w].(mode := Draining)])
    case Leave(w, ok) =>
      s.(workers := s.workers[w := WorkerState([], Exited)],
         calls := s.calls + FlushCalls(s.workers[w].batch, ok))
    case Close => s.(quit := true)
  }

  // Enqueue as one step: rejected after quit, dropped when full, queued otherwise.
  function Enqueued(cfg: Config, s: State, c: Click): State
    requires s.pending == []
  {
    var checked := Next(cfg, s, Check(c));
    if s.quit then checked else Next(cfg, checked, Send(0))
  }

  predicate Runs(cfg: Config, s: State, acts: seq<Action>)
    decreases |acts|
  {
    acts != [] ==> Enabled(s, acts[0]) && Runs(cfg, Next(cfg, s, acts[0]), acts[1..])
  }

  function Run(cfg: Config, s: State, acts: seq<Action>): State
    requires Runs(cfg, s, acts)
    decreases |acts|
  {
    if acts == [] then s else Run(cfg, Next(cfg, s, acts[0]), acts[1..])
  }

  // --- conservation ---

  function Batches(ws: seq<WorkerState>): seq<seq<Click>> {
    seq(|ws|, i requires 0 <= i < |ws| => ws[i].batch)
  }

  // The clicks of the calls that wrote, and of those that failed.
  function Outcome(calls: seq<Call>, ok: bool): seq<Click> {
    if calls == [] then []
    else
      var last := calls[|calls| - 1];
      Outcome(calls[..|calls| - 1], ok) + if last.ok == ok then last.batch else []
  }

  lemma OutcomeAppend(calls: seq<Call>, c: Call, ok: bool)
    ensures Outcome(calls + [c], ok) == Outcome(calls, ok) + if c.ok == ok then c.batch else []
  {
    assert (calls + [c])[..|calls|] == calls;
  }

  lemma Rebalance<T>(f1: multiset<T>, f0: multiset<T>, b1: multiset<T>, b0: multiset<T>, o: multiset<T>, c: multiset<T>, got: multiset<T>)
    requires f1 + b0 == f0 + b1 && b1 + c == b0 + got
    ensures f1 + (o + c) == f0 + o + got
  {
    forall x
      ensures (f1 + (o + c))[x] == (f0 + o + got)[x]
    {
      assert (f1 + b0)[x] == (f0 + b1)[x] && (b1 + c)[x] == (b0 + got)[x];
    }
  }

  lemma AddBoth<T>(a: multiset<T>, b: multiset<T>, c: multiset<T>, d: multiset<T>, x: multiset<T>)
    requires a + b == c + d
    ensures (a + x) + b == (c + x) + d
  {
    assert (a + x) + b == (a + b) + x && (c + x) + d == (c + d) + x;
  }

  lemma {:induction false} FlattenUpdate(bs: seq<seq<Click>>, i: nat, b: seq<Click>)
    requires i < |bs|
    ensures multiset(Flatten(bs[i := b])) + multiset(bs[i]) == multiset(Flatten(bs)) + multiset(b)
  {
    var front, last := bs[..|bs| - 1], bs[|bs| - 1];
    var after := bs[i := b];
    if i == |bs| - 1 {
      assert after[..|bs| - 1] == front && after[|bs| - 1] == b;
    } else {
      assert after[..|bs| - 1] == front[i := b] && after[|bs| - 1] == last;
      FlattenUpdate(front, i, b);
      assert Flatten(after) == Flatten(front[i := b]) + last && Flatten(bs) == Flatten(front) + last;
      AddBoth(multiset(Flatten(front[i := b])), multiset(bs[i]), multiset(Flatten(front)), multiset(b), multiset(last));
    }
  }

  lemma BatchesUpdate(ws: seq<WorkerState>, i: nat, w: WorkerState)
    requires i < |ws|
    ensures multiset(Flatten(Batches(ws[i := w]))) + multiset(ws[i].batch) == multiset(Flatten(Batches(ws))) + multiset(w.batch)
  {
    assert Batches(ws[i := w]) == Batches(ws)[i := w.batch];
    FlattenUpdate(Batches(ws), i, w.batch);
  }

  lemma {:induction false} FlattenEmpty(bs: seq<seq<Click>>)
    requires forall i :: 0 <= i < |bs| ==> bs[i] == []
    ensures Flatten(bs) == []
  {
    if bs != [] {
      FlattenEmpty(bs[..|bs| - 1]);
    }
  }

  lemma WithoutCounts<T>(xs: seq<T>, i: nat)
    requires i < |xs|
    ensures multiset(Without(xs, i)) + multiset{xs[i]} == multiset(xs)
  {
    assert xs == xs[..i] + [xs[i]] + xs[i + 1..];
  }

  // Clicks the workers hold, have written, or have lost to a failed batch.
  function Handled(ws: seq<WorkerState>, calls: seq<Call>): multiset<Click> {
    multiset(Flatten(Batches(ws))) + Written(calls)
  }

  function Written(calls: seq<Call>): multiset<Click> {
    multiset(Outcome(calls, true)) + multiset(Outcome(calls, false))
  }

  ghost predicate Conserved(s: State) {
    && multiset(s.offered) == multiset(s.pending) + (multiset(s.sent) + multiset(s.dropped) + multiset(s.rejected))
    && multiset(s.sent) == multiset(s.queue) + Handled(s.workers, s.calls)
  }

  ghost predicate Bounded(cfg: Config, s: State) {
    && |s.workers| == cfg.workers
    && |s.queue| <= cfg.cap
    && (forall w :: 0 <= w < |s.workers| ==> |s.workers[w].batch| < cfg.size)
    && (forall k :: 0 <= k < |s.calls| ==> 1 <= |s.calls[k].batch| <= cfg.size)
    && (forall w :: 0 <= w < |s.workers| && s.workers[w].mode != Running ==> s.quit)
    && (forall w :: 0 <= w < |s.workers| && s.workers[w].mode == Exited ==> s.workers[w].batch == [])
  }

  lemma BoundedStep(cfg: Config, s: State, a: Action)
    requires ValidConfig(cfg) && Bounded(cfg, s) && Enabled(s, a)
    ensures Bounded(cfg, Next(cfg, s, a))
  {
  }

  // A call adds its batch to one of the two outcomes.
  lemma CallCounts(calls: seq<Call>, c: Call)
    ensures Written(calls + [c]) == Written(calls) + multiset(c.batch)
  {
    OutcomeAppend(calls, c, true);
    OutcomeAppend(calls, c, false);
    assert Outcome(calls, !c.ok) + [] == Outcome(calls, !c.ok);
  }

  // Replacing a worker's batch by what is left of it, the rest going out as one call.
  lemma HandOver(ws: seq<WorkerState>, calls: seq<Call>, w: nat, after: WorkerState, c: Call, got: multiset<Click>)
    requires w < |ws|
    requires multiset(after.batch) + multiset(c.batch) == multiset(ws[w].batch) + got
    ensures Handled(ws[w := after], calls + [c]) == Handled(ws, calls) + got
  {
    CallCounts(calls, c);
    BatchesUpdate(ws, w, after);
    Rebalance(multiset(Flatten(Batches(ws[w := after]))), multiset(Flatten(Batches(ws))), multiset(after.batch),
              multiset(ws[w].batch), Written(calls), multiset(c.batch), got);
  }

  lemma Keep(ws: seq<WorkerState>, calls: seq<Call>, w: nat, after: WorkerState, got: multiset<Click>)
    requires w < |ws|
    requires multiset(after.batch) == multiset(ws[w].batch) + got
    ensures Handled(ws[w := after], calls) == Handled(ws, calls) + got
  {
    BatchesUpdate(ws, w, after);
    Rebalance(multiset(Flatten(Batches(ws[w := after]))), multiset(Flatten(Batches(ws))), multiset(after.batch),
              multiset(ws[w].batch), Written(calls), multiset{}, got);
  }

  lemma FlushConserves(ws: seq<WorkerState>, calls: seq<Call>, w: nat, after: WorkerState, ok: bool)
    requires w < |ws| && after.batch == []
    ensures Handled(ws[w := after], calls + FlushCalls(ws[w].batch, ok)) == Handled(ws, calls)
  {
    if ws[w].batch == [] {
      Keep(ws, calls, w, after, multiset{});
      assert calls + [] == calls;
    } else {
      HandOver(ws, calls, w, after, Call(ws[w].batch, ok), multiset{});
    }
  }

  lemma TakeConserves(cfg: Config, s: State, w: nat, ok: bool)
    requires Enabled(s, Take(w, ok))
    ensures var n := Next(cfg, s, Take(w, ok));
            multiset(n.queue) + Handled(n.workers, n.calls) == multiset(s.queue) + Handled(s.workers, s.calls)
  {
    var batch, c := s.workers[w].batch, s.queue[0];
    var after := s.workers[w].(batch := Absorbed(batch, c, cfg.size).0);
    assert s.queue == [c] + s.queue[1..];
    if |batch| + 1 >= cfg.size {
      HandOver(s.workers, s.calls, w, after, Call(batch + [c], ok), multiset{c});
    } else {
      Keep(s.workers, s.calls, w, after, multiset{c});
      assert s.calls + [] == s.calls;
    }
  }

  lemma SendConserves(cfg: Config, s: State, i: nat)
    requires Conserved(s) && i < |s.pending|
    ensures Conserved(Next(cfg, s, Send(i)))
  {
    WithoutCounts(s.pending, i);
    var c, rest := multiset{s.pending[i]}, multiset(Without(s.pending, i));
    var settled := multiset(s.sent) + multiset(s.dropped) + multiset(s.rejected);
    assert multiset(s.offered) == rest + (settled + c);
    if |s.queue| < cfg.cap {
      assert settled + c == multiset(s.sent + [s.pending[i]]) + multiset(s.dropped) + multiset(s.rejected);
      assert multiset(s.queue + [s.pending[i]]) + Handled(s.workers, s.calls) == multiset(s.queue) + Handled(s.workers, s.calls) + c;
    } else {
      assert settled + c == multiset(s.sent) + multiset(s.dropped + [s.pending[i]]) + multiset(s.rejected);
    }
  }

  lemma WorkerConserves(cfg: Config, s: State, a: Action)
    requires Conserved(s) && Enabled(s, a) && (a.Take? || a.Tick? || a.Notice? || a.Leave?)
    ensures Conserved(Next(cfg, s, a))
  {
    match a
    case Take(w, ok) => TakeConserves(cfg, s, w, ok);
    case Tick(w, ok) => FlushConserves(s.workers, s.calls, w, s.workers[w].(batch := []), ok);
    case Notice(w) => Keep(s.workers, s.calls, w, s.workers[w].(mode := Draining), multiset{});
    case Leave(w, ok) => FlushConserves(s.workers, s.calls, w, WorkerState([], Exited), ok);
  }

  lemma ConservedStep(cfg: Config, s: State, a: Action)
    requires Conserved(s) && Enabled(s, a)
    ensures Conserved(Next(cfg, s, a))
  {
    match a
    case Check(_) =>
    case Send(i) => SendConserves(cfg, s, i);
    case Close =>
    case _ => WorkerConserves(cfg, s, a);
  }

  lemma {:induction false} RunKeeps(cfg: Config, s: State, acts: seq<Action>)
    requires ValidConfig(cfg) && Bounded(cfg, s) && Conserved(s) && Runs(cfg, s, acts)
    ensures Bounded(cfg, Run(cfg, s, acts)) && Conserved(Run(cfg, s, acts))
    decreases |acts|
  {
    if acts != [] {
      BoundedStep(cfg, s, acts[0]);
      ConservedStep(cfg, s, acts[0]);
      RunKeeps(cfg, Next(cfg, s, acts[0]), acts[1..]);
    }
  }

  /** In every reachable state the clicks sent are, as a multiset, the queue, the workers' batches,
      what was written and what was lost; every RecordBatch call carries 1 to batchSize clicks. */
  lemma NothingLostSilently(cfg: Config, acts: seq<Action>)
    requires ValidConfig(cfg) && Runs(cfg, Init(cfg), acts)
    ensures Conserved(Run(cfg, Init(cfg), acts)) && Bounded(cfg, Run(cfg, Init(cfg), acts))
  {
    FlattenEmpty(Batches(Init(cfg).workers));
    RunKeeps(cfg, Init(cfg), acts);
  }

  // --- shutdown ---

  ghost predicate AllExited(s: State) {
    forall w :: 0 <= w < |s.workers| ==> s.workers[w].mode == Exited
  }

  // Closed, and no worker has left anything behind.
  ghost predicate Settling(s: State) {
    s.quit && forall w :: 0 <= w < |s.workers| && s.workers[w].mode == Exited ==> s.queue == []
  }

  lemma {:induction false} SettlingRun(cfg: Config, s: State, acts: seq<Action>)
    requires Settling(s) && s.pending == [] && Runs(cfg, s, acts)
    ensures Settling(Run(cfg, s, acts)) && Run(cfg, s, acts).pending == []
    decreases |acts|
  {
    if acts != [] {
      SettlingRun(cfg, Next(cfg, s, acts[0]), acts[1..]);
    }
  }

  lemma {:induction false} RunJoin(cfg: Config, s: State, a: seq<Action>, b: seq<Action>)
    requires Runs(cfg, s, a) && Runs(cfg, Run(cfg, s, a), b)
    ensures Runs(cfg, s, a + b)
    ensures Run(cfg, s, a + b) == Run(cfg, Run(cfg, s, a), b)
    decreases |a|
  {
    if a == [] {
      assert a + b == b;
    } else {
      assert (a + b)[0] == a[0] && (a + b)[1..] == a[1..] + b;
      RunJoin(cfg, Next(cfg, s, a[0]), a[1..], b);
    }
  }

  // Nothing in flight: everything sent was written or lost to a failed batch.
  ghost predicate Drained(s: State) {
    && s.queue == [] && s.pending == []
    && (forall w :: 0 <= w < |s.workers| ==> s.workers[w] == WorkerState([], Exited))
    && multiset(s.sent) == multiset(Outcome(s.calls, true)) + multiset(Outcome(s.calls, false))
  }

  lemma ExitedIsDrained(cfg: Config, s: State)
    requires ValidConfig(cfg) && Bounded(cfg, s) && Conserved(s) && Settling(s) && s.pending == [] && AllExited(s)
    ensures Drained(s)
  {
    assert s.workers[0].mode == Exited;
    FlattenEmpty(Batches(s.workers));
    assert multiset(s.queue) + (multiset(Flatten(Batches(s.workers))) + Written(s.calls)) == Written(s.calls);
  }

  /** Shutdown from a reachable state with no Enqueue between its check and its send: once the
      workers are gone, the pipeline is drained. */
  lemma DrainIsComplete(cfg: Config, before: seq<Action>, at: State, after: seq<Action>)
    requires ValidConfig(cfg) && Runs(cfg, Init(cfg), before) && at == Run(cfg, Init(cfg), before)
    requires !at.quit && at.pending == [] && Runs(cfg, at.(quit := true), after)
    requires AllExited(Run(cfg, at.(quit := true), after))
    ensures Drained(Run(cfg, at.(quit := true), after))
  {
    NothingLostSilently(cfg, before);
    RunKeeps(cfg, at.(quit := true), after);
    SettlingRun(cfg, at.(quit := true), after);
    ExitedIsDrained(cfg, Run(cfg, at.(quit := true), after));
  }

  function Weight(m: Mode): nat {
    match m case Running => 2 case Draining => 1 case Exited => 0
  }

  function Weights(ws: seq<WorkerState>): nat {
    if ws == [] then 0 else Weights(ws[..|ws| - 1]) + Weight(ws[|ws| - 1].mode)
  }

  lemma {:induction false} WeightsUpdate(ws: seq<WorkerState>, i: nat, w: WorkerState)
    requires i < |ws|
    ensures Weights(ws[i := w]) + Weight(ws[i].mode) == Weights(ws) + Weight(w.mode)
  {
    var front := ws[..|ws| - 1];
    if i == |ws| - 1 {
      assert ws[i := w][..|ws| - 1] == front;
    } else {
      assert ws[i := w][..|ws| - 1] == front[i := w];
      WeightsUpdate(front, i, w);
    }
  }

  function Remaining(s: State): nat {
    |s.queue| + Weights(s.workers)
  }

  predicate WorkerStep(a: Action) {
    a.Take? || a.Notice? || a.Leave?
  }

  /** After quit with no sender in flight, each worker step that is not a tick brings the end
      nearer, and nothing else moves it away. */
  lemma DrainProgress(cfg: Config, s: State, a: Action)
    requires s.quit && s.pending == [] && Enabled(s, a)
    ensures Remaining(Next(cfg, s, a)) <= Remaining(s)
    ensures WorkerStep(a) ==> Remaining(Next(cfg, s, a)) < Remaining(s)
  {
    match a
    case Take(w, _) => WeightsUpdate(s.workers, w, Next(cfg, s, a).workers[w]);
    case Tick(w, _) => WeightsUpdate(s.workers, w, Next(cfg, s, a).workers[w]);
    case Notice(w) => WeightsUpdate(s.workers, w, Next(cfg, s, a).workers[w]);
    case Leave(w, _) => WeightsUpdate(s.workers, w, Next(cfg, s, a).workers[w]);
    case _ =>
  }

  // Until every worker is gone some worker step is enabled.
  lemma NoDeadlock(s: State) returns (a: Action)
    requires s.quit && !AllExited(s)
    ensures Enabled(s, a) && WorkerStep(a)
  {
    var w :| 0 <= w < |s.workers| && s.workers[w].mode != Exited;
    a := if s.workers[w].mode == Running then Notice(w) else if s.queue != [] then Take(w, true) else Leave(w, true);
  }

  // Workers alone can always finish: queue empty, senders untouched.
  lemma {:induction false} DrainRun(cfg: Config, s: State) returns (acts: seq<Action>)
    requires Settling(s) && s.workers != []
    ensures Runs(cfg, s, acts)
    ensures var e := Run(cfg, s, acts); AllExited(e) && e.queue == [] && e.pending == s.pending && e.quit
    decreases Remaining(s)
  {
    if AllExited(s) {
      assert s.workers[0].mode == Exited;
      return [];
    }
    var a := NoDeadlock(s);
    DrainProgress(cfg, s.(pending := []), a);
    assert Next(cfg, s, a).queue == Next(cfg, s.(pending := []), a).queue;
    assert Next(cfg, s, a).workers == Next(cfg, s.(pending := []), a).workers;
    var rest := DrainRun(cfg, Next(cfg, s, a));
    acts := [a] + rest;
    assert acts[1..] == rest;
  }

  // A click still in the queue after every worker has left.
  ghost predicate Strands(cfg: Config, s: State, acts: seq<Action>) {
    Runs(cfg, s, acts) && AllExited(Run(cfg, s, acts)) && Run(cfg, s, acts).queue != []
  }

  /** Exactly when can quit strand a click? When some Enqueue is between its check and its send. */
  lemma StrandsIffSenderInFlight(cfg: Config, s: State)
    requires ValidConfig(cfg) && Bounded(cfg, s) && !s.quit
    ensures (exists acts :: Strands(cfg, Next(cfg, s, Close), acts)) <==> s.pending != []
  {
    var c := Next(cfg, s, Close);
    if s.pending == [] {
      forall acts | Runs(cfg, c, acts) && AllExited(Run(cfg, c, acts))
        ensures Run(cfg, c, acts).queue == []
      {
        SettlingRun(cfg, c, acts);
        KeepsWorkers(cfg, c, acts);
        assert Run(cfg, c, acts).workers[0].mode == Exited;
      }
    } else {
      var drained := DrainRun(cfg, c);
      var e := Run(cfg, c, drained);
      var late := [Send(0)];
      assert Run(cfg, e, late) == Next(cfg, e, Send(0)) by {
        assert late[1..] == [];
      }
      RunJoin(cfg, c, drained, late);
      assert Strands(cfg, c, drained + late);
    }
  }

  lemma {:induction false} KeepsWorkers(cfg: Config, s: State, acts: seq<Action>)
    requires Runs(cfg, s, acts)
    ensures |Run(cfg, s, acts).workers| == |s.workers|
    decreases |acts|
  {
    if acts != [] {
      KeepsWorkers(cfg, Next(cfg, s, acts[0]), acts[1..]);
    }
  }
}
