/**
 * The foreground-activity counter (utils/TimerLifecycleObserver.kt): it
 * counts started-but-not-stopped activities and asks the timer overlay to
 * hide when the app comes to the foreground and to show when it leaves it.
 */
module TimerLifecycle {
  import opened Options

  /** The seven activity lifecycle callbacks the observer receives. */
  datatype Callback =
    | ActivityCreated | ActivityStarted | ActivityResumed | ActivityPaused
    | ActivityStopped | ActivitySaveInstanceState | ActivityDestroyed

  /** The service start requests the observer sends (ACTION_SHOW and ACTION_HIDE). */
  datatype OverlayRequest = ShowRequest | HideRequest

  /** The count after one callback: a start adds one, a stop removes one, the rest change nothing. */
  function CountAfter(count: int, cb: Callback): (r: int)
    ensures cb == ActivityStarted ==> r == count + 1
    ensures cb == ActivityStopped ==> r == count - 1
    ensures cb != ActivityStarted && cb != ActivityStopped ==> r == count
  {
    match cb
    case ActivityStarted => count + 1
    case ActivityStopped => count - 1
    case _ => count
  }

  /** The count after a whole sequence of callbacks, starting from 0. */
  function Run(trace: seq<Callback>): (n: int)
    ensures -|trace| <= n <= |trace|
  {
    if trace == [] then 0 else CountAfter(Run(trace[..|trace| - 1]), trace[|trace| - 1])
  }

  /** How many times `cb` occurs in `trace`. */
  function Occurrences(trace: seq<Callback>, cb: Callback): (n: nat)
    ensures n <= |trace|
  {
    if trace == [] then 0
    else Occurrences(trace[..|trace| - 1], cb) + (if trace[|trace| - 1] == cb then 1 else 0)
  }

  /** The count is always the number of starts minus the number of stops. */
  lemma {:induction false} RunCountsStartsMinusStops(trace: seq<Callback>)
    ensures Run(trace) == Occurrences(trace, ActivityStarted) - Occurrences(trace, ActivityStopped)
  {
    if trace != [] {
      RunCountsStartsMinusStops(trace[..|trace| - 1]);
    }
  }

  /** The count cannot go negative as long as every stop follows its start. */
  lemma {:induction false} RunNonNegative(trace: seq<Callback>)
    requires forall k :: 0 <= k <= |trace| ==>
               Occurrences(trace[..k], ActivityStopped) <= Occurrences(trace[..k], ActivityStarted)
    ensures forall k :: 0 <= k <= |trace| ==> Run(trace[..k]) >= 0
  {
    forall k | 0 <= k <= |trace|
      ensures Run(trace[..k]) >= 0
    {
      RunCountsStartsMinusStops(trace[..k]);
    }
  }

  class TimerLifecycleObserver {
    var activityCount: int
    /** The callbacks received so far. */
    ghost var trace: seq<Callback>

    ghost predicate Valid()
      reads this
    {
      activityCount == Run(trace)
    }

    constructor ()
      ensures Valid() && trace == [] && activityCount == 0
    {
      activityCount := 0;
      trace := [];
    }

    /** onActivityStarted: HIDE exactly when no activity was started before; the count goes up by one. */
    method OnActivityStarted() returns (request: Option<OverlayRequest>)
      requires Valid()
      modifies this
      ensures Valid() && trace == old(trace) + [ActivityStarted]
      ensures activityCount == old(activityCount) + 1
      ensures request == if old(activityCount) == 0 then Some(HideRequest) else None
    {
      request := None;
      if activityCount == 0 {
        request := Some(HideRequest);
      }
      activityCount := activityCount + 1;
      trace := trace + [ActivityStarted];
      assert trace[..|trace| - 1] == old(trace);
    }

    /** onActivityStopped: the count goes down by one; SHOW exactly when it reaches 0. */
    method OnActivityStopped() returns (request: Option<OverlayRequest>)
      requires Valid()
      modifies this
      ensures Valid() && trace == old(trace) + [ActivityStopped]
      ensures activityCount == old(activityCount) - 1
      ensures request == if activityCount == 0 then Some(ShowRequest) else None
    {
      activityCount := activityCount - 1;
      request := None;
      if activityCount == 0 {
        request := Some(ShowRequest);
      }
      trace := trace + [ActivityStopped];
      assert trace[..|trace| - 1] == old(trace);
    }

    /** The five other callbacks have empty bodies: no request, no change to the count. */
    method OnOtherCallback(cb: Callback) returns (request: Option<OverlayRequest>)
      requires Valid()
      requires cb != ActivityStarted && cb != ActivityStopped
      modifies this
      ensures Valid() && trace == old(trace) + [cb]
      ensures activityCount == old(activityCount) && request == None
    {
      request := None;
      trace := trace + [cb];
      assert trace[..|trace| - 1] == old(trace);
    }
  }
}
