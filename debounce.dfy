/**
 * The debouncer `create_debouncer(action, timeout)`: every `update` clears
 * the pending timer and schedules a new one; the action runs when a
 * scheduled timer elapses.  Wall-clock time is not modelled: a timer
 * elapsing is an explicit step.
 */
module Debounce {
  import opened Options

  /**
   * The debouncer's closure variable `timerId` together with the host's
   * timer table: the ids still `scheduled`, the id the next `setTimeout`
   * returns, and how many times the action has `runs`.
   */
  datatype Timers = Timers(timerId: Option<nat>, scheduled: set<nat>, nextId: nat, runs: nat)

  /** The set holding the remembered timer id, if any. */
  function Remembered(timerId: Option<nat>): set<nat> {
    if timerId.Some? then {timerId.value} else {}
  }

  /**
   * Only the timer the debouncer remembers can still be scheduled, and that
   * id was handed out before `nextId`.
   */
  ghost predicate WellFormed(t: Timers) {
    t.scheduled <= Remembered(t.timerId)
    && (t.timerId.Some? ==> t.timerId.value < t.nextId)
  }

  /** The state before the first `update`. */
  function Initial(): (t: Timers)
    ensures WellFormed(t) && t.timerId == None && t.scheduled == {} && t.runs == 0
  {
    Timers(None, {}, 1, 0)
  }

  /**
   * `update()`: `clearTimeout` the remembered timer, then remember the id of
   * a freshly scheduled one.  Afterwards exactly that new timer is pending,
   * and the action has not run.
   */
  function AfterUpdate(t: Timers): (u: Timers)
    ensures u.timerId == Some(t.nextId) && u.runs == t.runs && u.nextId > t.nextId
    ensures WellFormed(t) ==> WellFormed(u) && u.scheduled == {t.nextId}
  {
    var cleared := if t.timerId.Some? then t.scheduled - {t.timerId.value} else t.scheduled;
    Timers(Some(t.nextId), cleared + {t.nextId}, t.nextId + 1, t.runs)
  }

  /**
   * The host lets timer `id` elapse: if it is still scheduled it leaves the
   * table and the action runs once; a cleared or unknown id does nothing.
   * The debouncer keeps remembering the id after it has fired.
   */
  function AfterElapse(t: Timers, id: nat): (u: Timers)
    ensures u.runs == t.runs + (if id in t.scheduled then 1 else 0)
    ensures u.scheduled == t.scheduled - {id} && u.timerId == t.timerId
    ensures WellFormed(t) ==> WellFormed(u)
  {
    if id in t.scheduled then Timers(t.timerId, t.scheduled - {id}, t.nextId, t.runs + 1)
    else t
  }

  /** What can happen to a debouncer: an `update` call, or a host timer elapsing. */
  datatype Event = Trigger | Expire(id: nat)

  function Step(t: Timers, e: Event): Timers {
    match e
    case Trigger => AfterUpdate(t)
    case Expire(id) => AfterElapse(t, id)
  }

  /**
   * The state after a sequence of events.  Every event keeps the state well
   * formed, and the action never runs more often than there were events.
   */
  function Run(t: Timers, events: seq<Event>): (u: Timers)
    ensures WellFormed(t) ==> WellFormed(u)
    ensures u.runs <= t.runs + |events|
    decreases |events|
  {
    if events == [] then t else Run(Step(t, events[0]), events[1..])
  }

  /** Whatever the events, at most one timer is ever pending. */
  lemma AtMostOnePending(t: Timers, events: seq<Event>)
    requires WellFormed(t)
    ensures |Run(t, events).scheduled| <= 1
  {
    var u := Run(t, events);
    if u.timerId.Some? {
      assert u.scheduled == {} || u.scheduled == {u.timerId.value};
    }
  }

  /** `n` calls of `update` in a row. */
  function Triggers(n: nat): seq<Event> {
    seq(n, i => Trigger)
  }

  /** The host elapsing timers `ids`, in that order. */
  function Expiries(ids: seq<nat>): seq<Event> {
    seq(|ids|, i requires 0 <= i < |ids| => Expire(ids[i]))
  }

  /** Running two event sequences one after the other. */
  lemma {:induction false} RunAppend(t: Timers, a: seq<Event>, b: seq<Event>)
    ensures Run(t, a + b) == Run(Run(t, a), b)
    decreases |a|
  {
    if a != [] {
      assert (a + b)[0] == a[0] && (a + b)[1..] == a[1..] + b;
      RunAppend(Step(t, a[0]), a[1..], b);
    } else {
      assert a + b == b;
    }
  }

  /**
   * A burst of `n >= 1` updates does not run the action, hands out the next
   * `n` timer ids, and leaves only the last of them pending.
   */
  lemma {:induction false} BurstLeavesLastPending(t: Timers, n: nat)
    requires WellFormed(t) && n >= 1
    ensures var u := Run(t, Triggers(n));
      && u.runs == t.runs && u.nextId == t.nextId + n
      && u.timerId == Some(t.nextId + n - 1) && u.scheduled == {t.nextId + n - 1}
    decreases n
  {
    if n > 1 {
      BurstLeavesLastPending(AfterUpdate(t), n - 1);
      assert Triggers(n) == [Trigger] + Triggers(n - 1);
    } else {
      assert Triggers(1) == [Trigger];
      assert Run(AfterUpdate(t), []) == AfterUpdate(t);
    }
  }

  /**
   * With only timer `x` pending, elapsing timers `ids` runs the action once
   * if `x` is among them and not at all otherwise.
   */
  lemma {:induction false} ExpiriesRunPendingOnce(t: Timers, x: nat, ids: seq<nat>)
    requires t.scheduled == {x}
    ensures Run(t, Expiries(ids)).runs == t.runs + (if x in ids then 1 else 0)
    ensures Run(t, Expiries(ids)).scheduled == (if x in ids then {} else {x})
    decreases |ids|
  {
    if ids != [] {
      var u := AfterElapse(t, ids[0]);
      assert Expiries(ids)[1..] == Expiries(ids[1..]);
      if ids[0] == x {
        ExpiriesRunNothing(u, ids[1..]);
      } else {
        ExpiriesRunPendingOnce(u, x, ids[1..]);
        assert x in ids <==> x in ids[1..];
      }
    }
  }

  /** With nothing pending, elapsing timers changes nothing. */
  lemma {:induction false} ExpiriesRunNothing(t: Timers, ids: seq<nat>)
    requires t.scheduled == {}
    ensures Run(t, Expiries(ids)) == t
    decreases |ids|
  {
    if ids != [] {
      assert Expiries(ids)[1..] == Expiries(ids[1..]);
      ExpiriesRunNothing(AfterElapse(t, ids[0]), ids[1..]);
    }
  }

  /**
   * Debouncing: after a burst of `n >= 1` updates, the host elapsing any
   * timers runs the action exactly once if the last scheduled timer is among
   * them and never otherwise; the `n - 1` earlier timers were cleared and
   * elapsing them has no effect.
   */
  lemma BurstRunsActionOnceIffLastElapses(t: Timers, n: nat, ids: seq<nat>)
    requires WellFormed(t) && n >= 1
    ensures var last := t.nextId + n - 1;
      Run(t, Triggers(n) + Expiries(ids)).runs == t.runs + (if last in ids then 1 else 0)
  {
    BurstLeavesLastPending(t, n);
    RunAppend(t, Triggers(n), Expiries(ids));
    ExpiriesRunPendingOnce(Run(t, Triggers(n)), t.nextId + n - 1, ids);
  }

  /**
   * The debouncer as an object: `timerId` is the closure variable of
   * `create_debouncer`; `scheduled` and `nextId` stand for the host's timer
   * table and `runs` counts calls of the action.
   */
  class Debouncer {
    const timeout: nat
    var timerId: Option<nat>
    var scheduled: set<nat>
    var nextId: nat
    var runs: nat

    /** The abstract state of this debouncer. */
    function Model(): Timers
      reads this
    {
      Timers(timerId, scheduled, nextId, runs)
    }

    ghost predicate Valid()
      reads this
    {
      WellFormed(Model())
    }

    /** `create_debouncer(action, timeout)`: no timer remembered, none scheduled. */
    constructor (timeout: nat)
      ensures Valid() && Model() == Initial() && this.timeout == timeout
    {
      this.timeout := timeout;
      timerId := None;
      scheduled := {};
      nextId := 1;
      runs := 0;
    }

    /** The host's `clearTimeout`. */
    method ClearTimeout(id: nat)
      modifies this`scheduled
      ensures scheduled == old(scheduled) - {id}
    {
      scheduled := scheduled - {id};
    }

    /** The host's `setTimeout`: schedules a timer under a fresh id. */
    method SetTimeout() returns (id: nat)
      modifies this`scheduled, this`nextId
      ensures id == old(nextId) && nextId == old(nextId) + 1
      ensures scheduled == old(scheduled) + {id}
    {
      id := nextId;
      nextId := nextId + 1;
      scheduled := scheduled + {id};
    }

    /** `update()`: clear the remembered timer, then remember a new one. */
    method Update()
      requires Valid()
      modifies this
      ensures Valid() && Model() == AfterUpdate(old(Model()))
      ensures scheduled == {timerId.value} && runs == old(runs)
    {
      if timerId.Some? {
        ClearTimeout(timerId.value);
      }
      var id := SetTimeout();
      timerId := Some(id);
    }

    /** The host lets timer `id` elapse; if it was still scheduled, the action runs. */
    method Elapse(id: nat) returns (ran: bool)
      requires Valid()
      modifies this
      ensures Valid() && Model() == AfterElapse(old(Model()), id)
      ensures ran <==> id in old(scheduled)
      ensures runs == old(runs) + (if ran then 1 else 0)
    {
      ran := id in scheduled;
      if ran {
        scheduled := scheduled - {id};
        runs := runs + 1;
      }
    }
  }

  /**
   * Two quick updates, then the host lets both timers elapse: the first was
   * cleared, so the action runs once.
   */
  method TwoUpdatesThenQuiet()
  {
    var d := new Debouncer(1000);
    d.Update();
    d.Update();
    var first := d.Elapse(1);
    assert !first && d.runs == 0;
    var second := d.Elapse(2);
    assert second && d.runs == 1 && d.scheduled == {};
  }
}
