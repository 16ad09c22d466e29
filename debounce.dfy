/** The debounced rescan of the bundled application: every change,
    addition or deletion reported by the watcher cancels the pending
    rescan, if any, and schedules a new one 1500 ms later, so a burst of
    changes closer together than that leads to one rescan after its last
    change.

    Time is an input (milliseconds, as integers). The notification sent to
    the window and the rescan itself are not part of this model: a rescan
    is recorded by the time it starts. When a change arrives at the very
    millisecond its pending timer is due, the timer is taken to fire
    first. */
module Debounce {
  import opened Wrappers

  const Delay: int := 1500

  /** The pending timer's due time, and the start times of the rescans
      fired so far. */
  datatype TimerState = TimerState(due: Option<int>, fired: seq<int>)

  /** The clock reaches `now`: a timer due by then fires. */
  function Tick(s: TimerState, now: int): TimerState
  {
    if s.due.Some? && s.due.value <= now then TimerState(None, s.fired + [s.due.value]) else s
  }

  /** `debouncedScan` at time `now`: the pending timer is cancelled and a
      new one is due `Delay` later. */
  function Notify(s: TimerState, now: int): TimerState
  {
    TimerState(Some(now + Delay), s.fired)
  }

  /** The state after a series of changes at the times `ts`, each one
      preceded by the timers due by then. */
  function Run(ts: seq<int>): TimerState
  {
    if ts == [] then TimerState(None, [])
    else
      var t := ts[|ts| - 1];
      Notify(Tick(Run(ts[..|ts| - 1]), t), t)
  }

  /** Times in order, as the clock delivers them. */
  predicate Ordered(ts: seq<int>)
  {
    forall i, j :: 0 <= i < j < |ts| ==> ts[i] <= ts[j]
  }

  /** The rescans that start, independently of the timer mechanics: one
      `Delay` after each change that is not followed by another change
      before it is due. */
  function Fires(ts: seq<int>): seq<int>
  {
    if |ts| <= 1 then []
    else
      var n := |ts|;
      Fires(ts[..n - 1]) + (if ts[n - 2] + Delay <= ts[n - 1] then [ts[n - 2] + Delay] else [])
  }

  /** Replaying ordered changes fires exactly the rescans `Fires` names,
      and leaves one rescan pending after the last change. */
  lemma {:induction false} RunFires(ts: seq<int>)
    requires Ordered(ts)
    ensures Run(ts).fired == Fires(ts)
    ensures ts == [] ==> Run(ts).due.None?
    ensures ts != [] ==> Run(ts).due == Some(ts[|ts| - 1] + Delay)
  {
    if ts != [] {
      var init := ts[..|ts| - 1];
      assert Ordered(init);
      RunFires(init);
    }
  }

  /** A burst of changes, each less than `Delay` after the one before, fires
      no rescan until its last change is `Delay` old. */
  lemma {:induction false} BurstFiresNothing(ts: seq<int>)
    requires forall i :: 0 < i < |ts| ==> ts[i] < ts[i - 1] + Delay
    ensures Fires(ts) == []
  {
    if |ts| > 1 {
      BurstFiresNothing(ts[..|ts| - 1]);
    }
  }

  /** There are fewer rescans than changes, and each rescan starts `Delay`
      after some change with no other change before it. */
  lemma {:induction false} FiresFacts(ts: seq<int>)
    ensures |Fires(ts)| < |ts| || ts == []
    ensures forall f :: f in Fires(ts) ==>
              exists i :: 0 <= i < |ts| - 1 && f == ts[i] + Delay && ts[i + 1] >= f
  {
    if |ts| > 1 {
      var init := ts[..|ts| - 1];
      FiresFacts(init);
      forall f | f in Fires(ts)
        ensures exists i :: 0 <= i < |ts| - 1 && f == ts[i] + Delay && ts[i + 1] >= f
      {
        if f in Fires(init) {
          var i :| 0 <= i < |init| - 1 && f == init[i] + Delay && init[i + 1] >= f;
          assert ts[i] == init[i] && ts[i + 1] == init[i + 1];
        } else {
          assert f == ts[|ts| - 2] + Delay;
        }
      }
    }
  }

  /** The timer of `debouncedScan`: `scanTimeout` and the rescans it has
      started. */
  class Debouncer {
    var due: Option<int>
    var fired: seq<int>

    function State(): TimerState
      reads this
    {
      TimerState(due, fired)
    }

    constructor()
      ensures State() == Run([])
    {
      due := None;
      fired := [];
    }

    /** The event loop reaches `now` and runs the timer if it is due. */
    method Advance(now: int)
      modifies this
      ensures State() == Tick(old(State()), now)
    {
      if due.Some? && due.value <= now {
        fired := fired + [due.value];
        due := None;
      }
    }

    /** `debouncedScan(path, eventType)` at time `now`. */
    method DebouncedScan(now: int)
      modifies this
      ensures State() == Notify(old(State()), now)
    {
      if due.Some? {
        due := None;
      }
      due := Some(now + Delay);
    }
  }
}
