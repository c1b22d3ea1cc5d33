/** Delivery bookkeeping on one webhook: consecutive failures, dead-lettering, and its afterlife. */
module DeadLetter {
  import opened Domain

  datatype Hook = Hook(failureCount: nat, active: bool, disabledAt: Option<Time>)

  // A delivery that succeeded, or one that failed for good at `at`.
  datatype Record = Success | Failure(at: Time)

  function Created(): Hook {
    Hook(0, true, None)
  }

  // RecordSuccess only clears the counter.
  function AfterSuccess(h: Hook): Hook {
    h.(failureCount := 0)
  }

  function AfterFailure(h: Hook, threshold: nat, now: Time): Hook {
    Hook(h.failureCount + 1,
         h.failureCount + 1 < threshold,
         if h.failureCount + 1 >= threshold then Some(now) else h.disabledAt)
  }

  // A configured threshold below one means ten.
  function Threshold(configured: int): nat {
    if configured < 1 then 10 else configured
  }

  class WebhookRepository {
    var hooks: map<Id, Hook>

    constructor ()
      ensures hooks == map[]
    {
      hooks := map[];
    }

    method RecordSuccess(id: Id)
      modifies this
      ensures hooks == if id in old(hooks) then old(hooks)[id := AfterSuccess(old(hooks)[id])] else old(hooks)
    {
      if id in hooks {
        hooks := hooks[id := hooks[id].(failureCount := 0)];
      }
    }

    method RecordFailure(id: Id, threshold: nat, now: Time) returns (disabled: Result<bool>)
      modifies this
      ensures id !in old(hooks) ==> disabled == Err(NotFound) && hooks == old(hooks)
      ensures id in old(hooks) ==>
        && hooks == old(hooks)[id := AfterFailure(old(hooks)[id], threshold, now)]
        && disabled == Ok(!hooks[id].active)
    {
      if id !in hooks {
        return Err(NotFound);
      }
      var h := hooks[id];
      var count := h.failureCount + 1;
      var active := count < threshold;
      hooks := hooks[id := Hook(count, active, if count >= threshold then Some(now) else h.disabledAt)];
      return Ok(!active);
    }
  }

  // --- any trace ---

  function Step(h: Hook, r: Record, threshold: nat): Hook {
    match r
    case Success => AfterSuccess(h)
    case Failure(at) => AfterFailure(h, threshold, at)
  }

  function Run(trace: seq<Record>, threshold: nat): Hook {
    if trace == [] then Created()
    else Step(Run(trace[..|trace| - 1], threshold), trace[|trace| - 1], threshold)
  }

  // Failures since the last success or creation.
  function Streak(trace: seq<Record>): nat {
    if trace == [] || trace[|trace| - 1].Success? then 0 else Streak(trace[..|trace| - 1]) + 1
  }

  // The streak as it stood at the latest failure; zero if there has been none.
  function LastStreak(trace: seq<Record>): nat {
    if trace == [] then 0
    else if trace[|trace| - 1].Failure? then Streak(trace)
    else LastStreak(trace[..|trace| - 1])
  }

  /** After any trace: the counter is the streak; the webhook is active iff the streak was below the
      threshold at the latest failure; it is active only below the threshold; a webhook that is not
      active has its disabling time set. */
  lemma {:induction false} TraceState(trace: seq<Record>, threshold: nat)
    requires threshold >= 1
    ensures var h := Run(trace, threshold);
            && h.failureCount == Streak(trace)
            && (h.active <==> LastStreak(trace) < threshold)
            && (h.active ==> h.failureCount < threshold)
            && (!h.active ==> h.disabledAt.Some?)
    ensures Streak(trace) <= LastStreak(trace)
  {
    if trace != [] {
      TraceState(trace[..|trace| - 1], threshold);
    }
  }

  /** A webhook goes from active to disabled exactly on the failure that brings its streak to the
      threshold. */
  lemma DisabledAtThreshold(trace: seq<Record>, r: Record, threshold: nat)
    requires threshold >= 1
    ensures Run(trace, threshold).active && !Run(trace + [r], threshold).active <==>
            Run(trace, threshold).active && r.Failure? && Streak(trace + [r]) == threshold
    ensures Run(trace, threshold).active && !Run(trace + [r], threshold).active ==>
            Run(trace + [r], threshold).disabledAt == Some(r.at)
  {
    assert (trace + [r])[..|trace|] == trace;
    TraceState(trace, threshold);
    TraceState(trace + [r], threshold);
  }

  ghost predicate SuccessThenFailure(rs: seq<Record>) {
    exists i, j :: 0 <= i < j < |rs| && rs[i].Success? && rs[j].Failure?
  }

  lemma {:induction false} StaysDisabled(trace: seq<Record>, more: seq<Record>, threshold: nat)
    requires threshold >= 1 && !Run(trace, threshold).active && Streak(trace) >= threshold
    requires !SuccessThenFailure(more)
    ensures !Run(trace + more, threshold).active
    ensures (forall i :: 0 <= i < |more| ==> more[i].Failure?) ==> Streak(trace + more) >= threshold
  {
    if more == [] {
      assert trace + more == trace;
    } else {
      var front, last := more[..|more| - 1], more[|more| - 1];
      assert (trace + more)[..|trace + more| - 1] == trace + front;
      StaysDisabled(trace, front, threshold);
      if last.Failure? {
        assert forall i :: 0 <= i < |front| ==> front[i] == more[i] && more[i].Failure?;
        TraceState(trace + front, threshold);
      }
    }
  }

  /** A disabled webhook comes back only through a late RecordSuccess followed by a failure. */
  lemma ReactivationNeedsSuccess(trace: seq<Record>, last: Record, more: seq<Record>, threshold: nat)
    requires threshold >= 1
    requires Run(trace, threshold).active && !Run(trace + [last], threshold).active
    requires Run(trace + [last] + more, threshold).active
    ensures SuccessThenFailure(more)
  {
    DisabledAtThreshold(trace, last, threshold);
    if !SuccessThenFailure(more) {
      StaysDisabled(trace + [last], more, threshold);
    }
  }

  /** And it does come back that way: from any trace that left the webhook disabled, a late success and
      then a failure make it active again iff the threshold is above one, its disabling time still set. */
  lemma LateSuccessRevives(trace: seq<Record>, at: Time, threshold: nat)
    requires threshold >= 1 && !Run(trace, threshold).active
    ensures Run(trace + [Success, Failure(at)], threshold).active <==> threshold >= 2
    ensures threshold >= 2 ==>
            Run(trace + [Success, Failure(at)], threshold) == Hook(1, true, Run(trace, threshold).disabledAt)
    ensures Run(trace, threshold).disabledAt.Some?
  {
    var more := trace + [Success, Failure(at)];
    assert more[..|more| - 1] == trace + [Success];
    assert (trace + [Success])[..|trace|] == trace;
    TraceState(trace, threshold);
  }

  // Such traces exist: enough failures in a row disable any webhook.
  lemma FailuresDisable(trace: seq<Record>, threshold: nat)
    requires threshold >= 1 && |trace| >= threshold && forall i :: 0 <= i < |trace| ==> trace[i].Failure?
    ensures !Run(trace, threshold).active
  {
    AllFailuresCount(trace);
    TraceState(trace, threshold);
  }

  lemma {:induction false} AllFailuresCount(trace: seq<Record>)
    requires forall i :: 0 <= i < |trace| ==> trace[i].Failure?
    ensures Streak(trace) == LastStreak(trace) == |trace|
  {
    if trace != [] {
      AllFailuresCount(trace[..|trace| - 1]);
    }
  }
}
