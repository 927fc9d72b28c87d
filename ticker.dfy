/**
 * The frame scheduler of the game front-end (src/plugins/Ticker.ts):
 *  - TickerTask, a countdown with an optional repeat count, a speed multiplier and a pause flag,
 *    which reports its life through four notification channels (start, repeat, complete, dispose);
 *  - Ticker, the plugin that keeps an ordered list of per-frame callbacks and, on every frame,
 *    hands each of them the frame's timestamp and its scaled delta, either on every frame or only
 *    once enough time has accumulated for a configured frame-rate cap.
 *
 * Time is explicit: frame timestamps and clock readings are parameters, never read from a clock.
 * A frame is one call of `Frame` (or of `Step`/`StepLimitFPS` directly) with its timestamp.
 * Callbacks are identified as the source compares them, by identity; running a callback is
 * recorded in the ticker's `invocations` trace, and a signal emission in the task's `deliveries`.
 */
module Ticker {
  import opened Wrappers
  import ArrayOps

  /** The four notification channels of a task. */
  datatype Channel = OnStart | OnRepeat | OnComplete | OnDispose

  /** A per-frame callback `(time, delta) => void`, by identity. */
  datatype Callback =
    | Fn(id: nat)                   // a callback some other subsystem registered
    | TaskUpdate(task: TickerTask)  // the bound `update` function a task is created with
    | Noop                          // the shared no-op that replaces `update` once a task is disposed

  /** A function connected to one of a task's channels. */
  datatype Subscriber =
    | Listener(id: nat)             // a handler of the task's user; what it does is outside this model
    | OwnerRemoveTask               // the removeTask of the ticker that created the task (see `owner`)

  /** One call of a subscriber during an emission. */
  datatype Delivery = Delivered(channel: Channel, to: Subscriber)

  /** One call of a per-frame callback during a frame. */
  datatype Invocation = Invoked(callback: Callback, time: real, delta: real)

  /** `{ delay, repeat?, speed? }`; `None` is an absent property. */
  datatype TaskConfig = TaskConfig(delay: real, repeat: Option<int>, speed: Option<real>)

  /** `{ limit?, speed? }`; `None` is an absent property. */
  datatype TickerConfig = TickerConfig(limit: Option<real>, speed: Option<real>)

  /** One emission on `ch`: every subscriber connected at that moment is called once, in connection order. */
  function DeliveriesOf(ch: Channel, subs: seq<Subscriber>): (r: seq<Delivery>)
    ensures |r| == |subs|
  {
    if subs == [] then []
    else DeliveriesOf(ch, subs[..|subs| - 1]) + [Delivered(ch, subs[|subs| - 1])]
  }

  lemma DeliveriesOfSnoc(ch: Channel, subs: seq<Subscriber>, i: nat)
    requires i < |subs|
    ensures DeliveriesOf(ch, subs[..i + 1]) == DeliveriesOf(ch, subs[..i]) + [Delivered(ch, subs[i])]
  {
    assert subs[..i + 1][..i] == subs[..i];
  }

  /** One more subscriber called: the trace grows by its delivery, the list loses `u` once more if it is a removeTask. */
  lemma EmissionStep(ch: Channel, subs: seq<Subscriber>, i: nat, d0: seq<Delivery>, l0: seq<Callback>, u: Callback)
    requires i < |subs|
    ensures d0 + DeliveriesOf(ch, subs[..i + 1]) == (d0 + DeliveriesOf(ch, subs[..i])) + [Delivered(ch, subs[i])]
    ensures ArrayOps.RemovedTimes(l0, u, Hooked(subs[..i + 1])) ==
      if subs[i] == OwnerRemoveTask then ArrayOps.Remove(ArrayOps.RemovedTimes(l0, u, Hooked(subs[..i])), u)
      else ArrayOps.RemovedTimes(l0, u, Hooked(subs[..i]))
  {
    DeliveriesOfSnoc(ch, subs, i);
    HookedSnoc(subs, i);
    ArrayOps.AppendAssoc(d0, DeliveriesOf(ch, subs[..i]), [Delivered(ch, subs[i])]);
  }

  /** An emission calls the k-th connected subscriber k-th, and only on its own channel. */
  lemma {:induction false} DeliveriesInOrder(ch: Channel, subs: seq<Subscriber>)
    ensures forall k :: 0 <= k < |subs| ==> DeliveriesOf(ch, subs)[k] == Delivered(ch, subs[k])
    ensures forall d :: d in DeliveriesOf(ch, subs) ==> d.channel == ch
  {
    if subs != [] {
      DeliveriesInOrder(ch, subs[..|subs| - 1]);
    }
  }

  /** How many times the owner's removeTask is connected in `subs`: how often one emission calls it. */
  function Hooked(subs: seq<Subscriber>): nat {
    if subs == [] then 0
    else Hooked(subs[..|subs| - 1]) + if subs[|subs| - 1] == OwnerRemoveTask then 1 else 0
  }

  lemma HookedSnoc(subs: seq<Subscriber>, i: nat)
    requires i < |subs|
    ensures Hooked(subs[..i + 1]) == Hooked(subs[..i]) + if subs[i] == OwnerRemoveTask then 1 else 0
  {
    assert subs[..i + 1][..i] == subs[..i];
  }

  /** The state of a task that `update` and `dispose` read and write. */
  datatype TaskState = TaskState(
    remaining: real,
    repeat: int,
    started: bool,
    paused: bool,
    speed: real,
    live: bool,  // `update` is still the task's own update, not yet the no-op
    onStart: seq<Subscriber>,
    onRepeat: seq<Subscriber>,
    onComplete: seq<Subscriber>,
    onDispose: seq<Subscriber>)
  {
    function Subscribers(ch: Channel): seq<Subscriber> {
      match ch
      case OnStart => onStart
      case OnRepeat => onRepeat
      case OnComplete => onComplete
      case OnDispose => onDispose
    }

    /** Whether calling `update` does anything: not disposed, not paused, non-zero speed. */
    predicate Effective() {
      live && !paused && speed != 0.0
    }

    /** The state `_dispose` leaves: countdown and repeat zero, update the no-op, no subscribers. */
    predicate Terminal() {
      && remaining == 0.0 && repeat == 0 && !live
      && onStart == [] && onRepeat == [] && onComplete == [] && onDispose == []
    }
  }

  /** What one call does: the task's new state, the subscriber calls made, and how many of them were removeTask. */
  datatype Outcome = Outcome(state: TaskState, emitted: seq<Delivery>, removals: nat)

  /** `_dispose`: countdown and repeat to 0, `update` replaced by the no-op, every channel emptied. */
  function Disposal(st: TaskState): (r: TaskState)
    ensures r.Terminal()
    ensures r.started == st.started && r.paused == st.paused && r.speed == st.speed
  {
    st.(remaining := 0.0, repeat := 0, live := false, onStart := [], onRepeat := [], onComplete := [], onDispose := [])
  }

  /** An emission on `ch` from state `st`, which it leaves unchanged. */
  function Emission(st: TaskState, ch: Channel): Outcome {
    Outcome(st, DeliveriesOf(ch, st.Subscribers(ch)), Hooked(st.Subscribers(ch)))
  }

  /**
   * The countdown half of `update` for a task whose configured delay is `delay`: `dt * speed`
   * comes off the remaining time; once that is at or below 0, `_processComplete` (repeat count 0)
   * or `_processRepeat` (any other repeat count) runs.
   */
  function CountdownOutcome(st: TaskState, delay: real, dt: real): (r: Outcome)
    ensures r.state.started == st.started && r.state.paused == st.paused && r.state.speed == st.speed
    ensures forall d :: d in r.emitted ==> d.channel == OnRepeat || d.channel == OnComplete
    ensures r.state.live <==> st.live && (st.remaining - dt * st.speed > 0.0 || st.repeat != 0)
  {
    var counted := st.(remaining := st.remaining - dt * st.speed);
    if counted.remaining > 0.0 then Outcome(counted, [], 0)
    else if st.repeat == 0 then
      var e := Emission(st, OnComplete);
      DeliveriesInOrder(OnComplete, st.onComplete);
      Outcome(Disposal(counted), e.emitted, e.removals)
    else
      var e := Emission(st, OnRepeat);
      DeliveriesInOrder(OnRepeat, st.onRepeat);
      Outcome(counted.(remaining := delay, repeat := st.repeat - 1), e.emitted, e.removals)
  }

  /** `update(time, dt)`: nothing unless effective; start on the first effective call; then the countdown. */
  function UpdateOutcome(st: TaskState, delay: real, dt: real): (r: Outcome)
    ensures forall d :: d in r.emitted ==> d.channel != OnDispose
    ensures r.state.started <==> st.started || st.Effective()
    ensures r.state.live ==> st.live
  {
    if !st.Effective() then Outcome(st, [], 0)
    else
      var begun := if st.started then Outcome(st, [], 0) else Emission(st, OnStart);
      var rest := CountdownOutcome(st.(started := true), delay, dt);
      DeliveriesInOrder(OnStart, st.onStart);
      Outcome(rest.state, begun.emitted + rest.emitted, begun.removals + rest.removals)
  }

  /** An effective update is its start half followed by its countdown half. */
  lemma UpdateHalves(st: TaskState, delay: real, dt: real)
    requires st.Effective()
    ensures var b := if st.started then Outcome(st, [], 0) else Emission(st, OnStart);
      var c := CountdownOutcome(st.(started := true), delay, dt);
      UpdateOutcome(st, delay, dt) == Outcome(c.state, b.emitted + c.emitted, b.removals + c.removals)
  {
  }

  /** `dispose()`: dispose is emitted, then `_dispose`. */
  function DisposeOutcome(st: TaskState): (r: Outcome)
    ensures r.state.Terminal()
    ensures r.state.started == st.started && r.state.paused == st.paused && r.state.speed == st.speed
    ensures r.removals == Hooked(st.onDispose)
  {
    var e := Emission(st, OnDispose);
    Outcome(Disposal(st), e.emitted, e.removals)
  }

  /** A paused task, a task at speed 0 and a disposed task ignore `update` altogether, start included. */
  lemma IneffectiveUpdateIsNoop(st: TaskState, delay: real, dt: real)
    requires !st.Effective()
    ensures UpdateOutcome(st, delay, dt) == Outcome(st, [], 0)
  {
  }

  /**
   * Start is emitted on the first effective update only, before anything else that update
   * emits, to every start subscriber in order; the next update emits no start.
   */
  lemma {:induction false} StartEmittedOnce(st: TaskState, delay: real, dt: real, dt2: real)
    requires st.Effective() && !st.started
    ensures var o := UpdateOutcome(st, delay, dt);
      && o.state.started
      && o.emitted[..|st.onStart|] == DeliveriesOf(OnStart, st.onStart)
      && forall d :: d in UpdateOutcome(o.state, delay, dt2).emitted ==> d.channel != OnStart
  {
    var o := UpdateOutcome(st, delay, dt);
    var rest := CountdownOutcome(st.(started := true), delay, dt);
    assert o.emitted == DeliveriesOf(OnStart, st.onStart) + rest.emitted;
    NoStartAfterStart(o.state, delay, dt2);
  }

  lemma {:induction false} NoStartAfterStart(st: TaskState, delay: real, dt: real)
    requires st.started
    ensures forall d :: d in UpdateOutcome(st, delay, dt).emitted ==> d.channel != OnStart
  {
    DeliveriesInOrder(OnComplete, st.onComplete);
    DeliveriesInOrder(OnRepeat, st.onRepeat);
  }

  /** While time remains, an effective update only lowers the countdown by exactly `dt * speed` (after a first start). */
  lemma CountdownOnly(st: TaskState, delay: real, dt: real)
    requires st.Effective() && st.remaining - dt * st.speed > 0.0
    ensures var o := UpdateOutcome(st, delay, dt);
      && o.state == st.(started := true, remaining := st.remaining - dt * st.speed)
      && o.emitted == (if st.started then [] else DeliveriesOf(OnStart, st.onStart))
  {
  }

  /**
   * A repeat restarts the countdown from the delay with one repeat fewer, emits repeat (after
   * start, when this is the task's first effective update), and the task stays live.
   */
  lemma {:induction false} RepeatKeepsTaskLive(st: TaskState, delay: real, dt: real)
    requires st.Effective() && st.remaining - dt * st.speed <= 0.0 && st.repeat != 0
    ensures var o := UpdateOutcome(st, delay, dt);
      && o.state.remaining == delay && o.state.repeat == st.repeat - 1 && o.state.live
      && o.emitted == (if st.started then [] else DeliveriesOf(OnStart, st.onStart)) + DeliveriesOf(OnRepeat, st.onRepeat)
      && o.removals == (if st.started then 0 else Hooked(st.onStart)) + Hooked(st.onRepeat)
      && (forall d :: d in o.emitted ==> d.channel == OnStart || d.channel == OnRepeat)
  {
    DeliveriesInOrder(OnStart, st.onStart);
    DeliveriesInOrder(OnRepeat, st.onRepeat);
    var begun := if st.started then [] else DeliveriesOf(OnStart, st.onStart);
    assert UpdateOutcome(st, delay, dt).emitted == begun + DeliveriesOf(OnRepeat, st.onRepeat);
  }

  /**
   * Completion emits complete to every complete subscriber (after start, when this is the
   * task's first effective update) and never dispose, then leaves the terminal state, in which
   * later updates and disposals do nothing at all.
   */
  lemma {:induction false} CompletionDoesNotDispose(st: TaskState, delay: real, dt: real, dt2: real)
    requires st.Effective() && st.remaining - dt * st.speed <= 0.0 && st.repeat == 0
    ensures var o := UpdateOutcome(st, delay, dt);
      && o.state.Terminal()
      && o.emitted == (if st.started then [] else DeliveriesOf(OnStart, st.onStart)) + DeliveriesOf(OnComplete, st.onComplete)
      && (forall d :: d in o.emitted ==> d.channel == OnStart || d.channel == OnComplete)
      && o.removals == (if st.started then 0 else Hooked(st.onStart)) + Hooked(st.onComplete)
      && UpdateOutcome(o.state, delay, dt2) == Outcome(o.state, [], 0)
      && DisposeOutcome(o.state) == Outcome(o.state, [], 0)
  {
    DeliveriesInOrder(OnStart, st.onStart);
    DeliveriesInOrder(OnComplete, st.onComplete);
    var begun := if st.started then [] else DeliveriesOf(OnStart, st.onStart);
    assert UpdateOutcome(st, delay, dt).emitted == begun + DeliveriesOf(OnComplete, st.onComplete);
  }

  /** `dispose()` emits dispose once to every dispose subscriber, in connection order; a second `dispose()` emits nothing and changes nothing. */
  lemma {:induction false} DisposeTwice(st: TaskState)
    ensures var o := DisposeOutcome(st);
      && o.state.Terminal()
      && o.emitted == DeliveriesOf(OnDispose, st.onDispose)
      && |o.emitted| == |st.onDispose|
      && (forall k :: 0 <= k < |o.emitted| ==> o.emitted[k] == Delivered(OnDispose, st.onDispose[k]))
      && (forall d :: d in o.emitted ==> d.channel == OnDispose)
      && DisposeOutcome(o.state) == Outcome(o.state, [], 0)
  {
    DeliveriesInOrder(OnDispose, st.onDispose);
  }

  /** The task's state after `n` updates of `dt` each. */
  function UpdatedTimes(st: TaskState, delay: real, dt: real, n: nat): TaskState {
    if n == 0 then st else UpdateOutcome(UpdatedTimes(st, delay, dt, n - 1), delay, dt).state
  }

  /** An effective update that uses up the countdown with repeats left restarts it from the delay. */
  lemma RepeatStep(st: TaskState, delay: real, dt: real)
    requires st.Effective() && st.remaining - dt * st.speed <= 0.0 && st.repeat != 0
    ensures UpdateOutcome(st, delay, dt).state == st.(started := true, remaining := delay, repeat := st.repeat - 1)
  {
  }

  /**
   * A task with repeat count `r >= 0` whose every update uses up at least a whole delay
   * completes on exactly its `r + 1`-th update: it is still live after `r` of them and
   * terminal after `r + 1`.
   */
  lemma {:induction false} CompletesAfterRepeats(st: TaskState, delay: real, dt: real)
    requires st.Effective() && st.repeat >= 0
    requires st.remaining <= delay && delay <= dt * st.speed
    ensures UpdatedTimes(st, delay, dt, st.repeat).live
    ensures UpdatedTimes(st, delay, dt, st.repeat + 1).Terminal()
    decreases st.repeat
  {
    if st.repeat > 0 {
      RepeatStep(st, delay, dt);
      var next := UpdateOutcome(st, delay, dt).state;
      CompletesAfterRepeats(next, delay, dt);
      UpdatedTimesFirst(st, delay, dt, st.repeat);
      UpdatedTimesFirst(st, delay, dt, st.repeat - 1);
    }
  }

  /** Running `n + 1` updates is one update followed by `n` more. */
  lemma {:induction false} UpdatedTimesFirst(st: TaskState, delay: real, dt: real, n: nat)
    ensures UpdatedTimes(st, delay, dt, n + 1) == UpdatedTimes(UpdateOutcome(st, delay, dt).state, delay, dt, n)
  {
    if n > 0 {
      UpdatedTimesFirst(st, delay, dt, n - 1);
    }
  }

  /** `x` spent `n` times over. */
  function Spent(x: real, n: nat): real {
    if n == 0 then 0.0 else Spent(x, n - 1) + x
  }

  /** After `n` small updates, one more that still leaves time on the countdown lowers it by `dt * speed` again. */
  lemma CountdownNext(st: TaskState, delay: real, dt: real, n: nat)
    requires st.Effective() && st.remaining - Spent(dt * st.speed, n + 1) > 0.0
    requires UpdatedTimes(st, delay, dt, n) ==
      st.(started := st.started || n > 0, remaining := st.remaining - Spent(dt * st.speed, n))
    ensures UpdatedTimes(st, delay, dt, n + 1) ==
      st.(started := true, remaining := st.remaining - Spent(dt * st.speed, n + 1))
  {
    CountdownOnly(UpdatedTimes(st, delay, dt, n), delay, dt);
  }

  /** `CountdownTimes`, with the accumulated time as the sum `Spent` so that the induction stays linear. */
  lemma {:induction false} CountdownSpent(st: TaskState, delay: real, dt: real, n: nat)
    requires st.Effective() && 0.0 <= dt * st.speed
    requires st.remaining - Spent(dt * st.speed, n) > 0.0
    ensures UpdatedTimes(st, delay, dt, n) ==
      st.(started := st.started || n > 0, remaining := st.remaining - Spent(dt * st.speed, n))
  {
    if n > 0 {
      CountdownSpent(st, delay, dt, n - 1);
      CountdownNext(st, delay, dt, n - 1);
    }
  }

  /** Adding `x` up `n` times gives `n * x`. */
  lemma {:induction false} SpentIsProduct(x: real, n: nat)
    ensures Spent(x, n) == (n as real) * x
  {
    if n > 0 {
      SpentIsProduct(x, n - 1);
    }
  }

  /**
   * Updates that do not yet use up the countdown accumulate: after `n` updates of `dt` each,
   * `remaining` is down by exactly `n * dt * speed`, the task has started (if `n > 0`), and
   * nothing else has changed.
   */
  lemma CountdownTimes(st: TaskState, delay: real, dt: real, n: nat)
    requires st.Effective() && 0.0 <= dt * st.speed
    requires st.remaining - (n as real) * (dt * st.speed) > 0.0
    ensures UpdatedTimes(st, delay, dt, n) ==
      st.(started := st.started || n > 0, remaining := st.remaining - (n as real) * (dt * st.speed))
  {
    var left := st.(started := st.started || n > 0, remaining := st.remaining - Spent(dt * st.speed, n));
    assert UpdatedTimes(st, delay, dt, n) == left by {
      SpentIsProduct(dt * st.speed, n);
      CountdownSpent(st, delay, dt, n);
    }
    assert left == st.(started := st.started || n > 0, remaining := st.remaining - (n as real) * (dt * st.speed)) by {
      SpentIsProduct(dt * st.speed, n);
    }
  }

  /**
   * A task with no repeats left completes on the first update at which the accumulated
   * `dt * speed` reaches what remained of its countdown, however small each update is: when
   * `n` updates leave time on the countdown but no more than one update's worth, it is still
   * live after those `n` and terminal after `n + 1`.
   */
  lemma CompletesAfterCountdown(st: TaskState, delay: real, dt: real, n: nat)
    requires st.Effective() && st.repeat == 0
    requires st.remaining - (n as real) * (dt * st.speed) > 0.0
    requires st.remaining - (n as real) * (dt * st.speed) <= dt * st.speed
    ensures UpdatedTimes(st, delay, dt, n).live
    ensures UpdatedTimes(st, delay, dt, n + 1).Terminal()
  {
    var s := UpdatedTimes(st, delay, dt, n);
    assert s == st.(started := st.started || n > 0, remaining := st.remaining - (n as real) * (dt * st.speed)) by {
      CountdownTimes(st, delay, dt, n);
    }
    CompletionDoesNotDispose(s, delay, dt, dt);
  }

  /**
   * A task `addTask` registered (its update new to the list) and that then completes or is
   * disposed calls removeTask once, which leaves the ticker's list as it was before `addTask`.
   */
  lemma AddedTaskLeavesNoTrace(l: seq<Callback>, u: Callback)
    requires u !in l
    ensures ArrayOps.RemovedTimes(l + [u], u, Hooked([OwnerRemoveTask])) == l
  {
    assert Hooked([OwnerRemoveTask]) == Hooked([]) + 1;
    ArrayOps.AddThenRemove(l, u);
  }

  /**
   * After `_dispose` the task's update is the no-op, which the list does not hold: a later
   * removeTask for that task drops whatever callback is last.
   */
  lemma LateRemoveTaskDropsLast(l: seq<Callback>)
    requires Noop !in l && l != []
    ensures ArrayOps.Remove(l, Noop) == l[..|l| - 1]
  {
    ArrayOps.RemoveFirstOrLast(l, Noop);
  }

  /** One pass of `_callbacks.forEach(c => c(time, delta))`: every callback once, in list order. */
  function Broadcast(cbs: seq<Callback>, time: real, delta: real): (r: seq<Invocation>)
    ensures |r| == |cbs|
    ensures forall k :: 0 <= k < |cbs| ==> r[k] == Invoked(cbs[k], time, delta)
  {
    if cbs == [] then []
    else Broadcast(cbs[..|cbs| - 1], time, delta) + [Invoked(cbs[|cbs| - 1], time, delta)]
  }

  /** Whether a capped frame runs the callbacks: the accumulated raw delta has reached the interval. */
  predicate Fires(acc: real, raw: real, rate: real) {
    acc + raw >= rate
  }

  /** The accumulator after a capped frame: reset to 0 when the callbacks ran (no remainder kept). */
  function Accumulate(acc: real, raw: real, rate: real): real {
    if Fires(acc, raw, rate) then 0.0 else acc + raw
  }

  /** The number of callback passes a capped ticker makes over frames with raw deltas `raws`. */
  function Passes(acc: real, rate: real, raws: seq<real>): nat
    decreases |raws|
  {
    if raws == [] then 0
    else (if Fires(acc, raws[0], rate) then 1 else 0) + Passes(Accumulate(acc, raws[0], rate), rate, raws[1..])
  }

  function Sum(raws: seq<real>): real {
    if raws == [] then 0.0 else raws[0] + Sum(raws[1..])
  }

  /**
   * The cap holds: over any run of frames with non-negative deltas, each pass of the callbacks
   * is paid for by at least one full interval of accumulated time, so there are never more
   * passes than the elapsed time allows.
   */
  lemma {:induction false} PassesBounded(acc: real, rate: real, raws: seq<real>)
    requires 0.0 <= acc && 0.0 <= rate
    requires forall k :: 0 <= k < |raws| ==> 0.0 <= raws[k]
    ensures rate * (Passes(acc, rate, raws) as real) <= acc + Sum(raws)
    decreases |raws|
  {
    if raws != [] {
      var rest := raws[1..];
      var next := Accumulate(acc, raws[0], rate);
      assert forall k :: 0 <= k < |rest| ==> rest[k] == raws[k + 1];
      PassesBounded(next, rate, rest);
      var p := Passes(next, rate, rest);
      assert Sum(raws) == raws[0] + Sum(rest);
      if Fires(acc, raws[0], rate) {
        assert Passes(acc, rate, raws) == 1 + p;
        assert rate * ((1 + p) as real) == rate + rate * (p as real);
      } else {
        assert Passes(acc, rate, raws) == p;
      }
    }
  }

  /**
   * No remainder is carried over: at a 30 frames-per-second cap (an interval of 1000/30 ms),
   * six frames 16 ms apart run the callbacks twice (on the 3rd and the 6th), where 96 ms
   * would allow almost three.
   */
  lemma CappedPassesDrift()
    ensures Passes(0.0, 1000.0 / 30.0, [16.0, 16.0, 16.0, 16.0, 16.0, 16.0]) == 2
  {
    var rate := 1000.0 / 30.0;
    assert !Fires(0.0, 16.0, rate) && !Fires(16.0, 16.0, rate) && Fires(32.0, 16.0, rate);
  }

  /** A countdown task (`TickerTask`). */
  class TickerTask {
    var onStart: seq<Subscriber>
    var onRepeat: seq<Subscriber>
    var onComplete: seq<Subscriber>
    var onDispose: seq<Subscriber>
    var speed: real
    var paused: bool
    var repeat: int
    var remaining: real
    var started: bool
    /** `_config.delay`: what a repeat resets the countdown to. */
    const delay: real
    /** The current value of the `update` property: `TaskUpdate(this)`, and `Noop` once disposed. */
    var update: Callback
    /** Every subscriber call made by this task's emissions, in order. */
    var deliveries: seq<Delivery>
    /** The ticker whose removeTask `OwnerRemoveTask` stands for: set by `addTask`, null for a task built directly. */
    var owner: Ticker?

    function State(): TaskState
      reads this`remaining, this`repeat, this`started, this`paused, this`speed, this`update
      reads this`onStart, this`onRepeat, this`onComplete, this`onDispose
    {
      TaskState(remaining, repeat, started, paused, speed, update != Noop, onStart, onRepeat, onComplete, onDispose)
    }

    /** The objects an emission may change besides this task: the owning ticker, if any. */
    function Owners(): set<Ticker>
      reads this
    {
      if owner == null then {} else {owner}
    }

    /** The `running` getter: a completed or disposed task is not running. */
    predicate Running()
      reads this
      ensures State().Terminal() ==> !Running()
    {
      remaining > 0.0
    }

    constructor (config: TaskConfig)
      ensures delay == config.delay
      ensures State() == TaskState(config.delay, config.repeat.GetOr(0), false, false, config.speed.GetOr(1.0),
                                   true, [], [], [], [])
      ensures update == TaskUpdate(this) && deliveries == [] && owner == null
      ensures Running() <==> config.delay > 0.0
    {
      delay := config.delay;
      remaining := config.delay;
      repeat := config.repeat.GetOr(0);
      started := false;
      speed := config.speed.GetOr(1.0);
      paused := false;
      onStart, onRepeat, onComplete, onDispose := [], [], [], [];
      deliveries := [];
      owner := null;
      update := Noop;
      new;
      update := TaskUpdate(this);
    }

    /** `signal.connect(s)`: `s` is called on every later emission of `ch`, after the earlier subscribers. */
    method Connect(ch: Channel, s: Subscriber)
      modifies this`onStart, this`onRepeat, this`onComplete, this`onDispose
      ensures State().Subscribers(ch) == old(State().Subscribers(ch)) + [s]
      ensures forall c :: c != ch ==> State().Subscribers(c) == old(State().Subscribers(c))
    {
      match ch
      case OnStart => onStart := onStart + [s];
      case OnRepeat => onRepeat := onRepeat + [s];
      case OnComplete => onComplete := onComplete + [s];
      case OnDispose => onDispose := onDispose + [s];
    }

    method Pause()
      modifies this`paused
      ensures paused
    {
      paused := true;
    }

    method Resume()
      modifies this`paused
      ensures !paused
    {
      paused := false;
    }

    method SetSpeed(value: real)
      modifies this`speed
      ensures speed == value
    {
      speed := value;
    }

    /**
     * `signal.emit(this)`: calls each subscriber of `ch` in order; each call of the owner's
     * removeTask takes this task's current `update` out of the owner's callback list.
     */
    method Emit(ch: Channel)
      modifies this`deliveries, Owners()`callbacks
      ensures deliveries == old(deliveries) + DeliveriesOf(ch, old(State()).Subscribers(ch))
      ensures owner != null ==>
        owner.callbacks == ArrayOps.RemovedTimes(old(owner.callbacks), update, Hooked(old(State()).Subscribers(ch)))
    {
      var subs := State().Subscribers(ch);
      ghost var l0 := if owner == null then [] else owner.callbacks;
      for i := 0 to |subs|
        invariant deliveries == old(deliveries) + DeliveriesOf(ch, subs[..i])
        invariant owner != null ==> owner.callbacks == ArrayOps.RemovedTimes(l0, update, Hooked(subs[..i]))
      {
        EmissionStep(ch, subs, i, old(deliveries), l0, update);
        Deliver(ch, subs[i]);
      }
      assert subs[..|subs|] == subs;
    }

    /** One subscriber call of an emission: recorded in the trace, and a removeTask subscriber acts on the owner. */
    method Deliver(ch: Channel, sub: Subscriber)
      modifies this`deliveries, Owners()`callbacks
      ensures deliveries == old(deliveries) + [Delivered(ch, sub)]
      ensures owner != null ==>
        owner.callbacks == if sub == OwnerRemoveTask then ArrayOps.Remove(old(owner.callbacks), update) else old(owner.callbacks)
    {
      deliveries := deliveries + [Delivered(ch, sub)];
      if sub == OwnerRemoveTask && owner != null {
        owner.RemoveTask(this);
      }
    }

    /** `_dispose`: the terminal state, reached without emitting anything. */
    method Teardown()
      modifies this`remaining, this`repeat, this`update, this`onStart, this`onRepeat, this`onComplete, this`onDispose
      ensures State() == Disposal(old(State()))
    {
      remaining := 0.0;
      repeat := 0;
      update := Noop;
      onStart, onRepeat, onComplete, onDispose := [], [], [], [];
    }

    /** `_processComplete`: emits complete, then `_dispose` (which emits no dispose). */
    method ProcessComplete()
      modifies this`remaining, this`repeat, this`update, this`deliveries, Owners()`callbacks
      modifies this`onStart, this`onRepeat, this`onComplete, this`onDispose
      ensures State() == Disposal(old(State()))
      ensures deliveries == old(deliveries) + Emission(old(State()), OnComplete).emitted
      ensures owner != null ==>
        owner.callbacks == ArrayOps.RemovedTimes(old(owner.callbacks), old(update), Emission(old(State()), OnComplete).removals)
    {
      remaining := 0.0;
      Emit(OnComplete);
      Teardown();
    }

    /** `_processRepeat`: the countdown starts over from the delay, one repeat fewer, repeat is emitted. */
    method ProcessRepeat()
      modifies this`remaining, this`repeat, this`deliveries, Owners()`callbacks
      ensures State() == old(State()).(remaining := delay, repeat := old(repeat) - 1)
      ensures deliveries == old(deliveries) + Emission(old(State()), OnRepeat).emitted
      ensures owner != null ==>
        owner.callbacks == ArrayOps.RemovedTimes(old(owner.callbacks), update, Emission(old(State()), OnRepeat).removals)
    {
      remaining := delay;
      repeat := repeat - 1;
      Emit(OnRepeat);
    }

    /** The first part of an effective `update`: start is emitted unless the task has started already. */
    method Begin()
      modifies this`started, this`deliveries, Owners()`callbacks
      ensures State() == old(State()).(started := true)
      ensures var b := if old(started) then Outcome(old(State()), [], 0) else Emission(old(State()), OnStart);
        && deliveries == old(deliveries) + b.emitted
        && (owner != null ==> owner.callbacks == ArrayOps.RemovedTimes(old(owner.callbacks), update, b.removals))
    {
      if !started {
        Emit(OnStart);
        started := true;
      }
    }

    /** The rest of `update`: the countdown, then `_processComplete` or `_processRepeat` once it is used up. */
    method Countdown(dt: real)
      modifies this`remaining, this`repeat, this`update, this`deliveries, Owners()`callbacks
      modifies this`onStart, this`onRepeat, this`onComplete, this`onDispose
      ensures var o := CountdownOutcome(old(State()), delay, dt);
        && State() == o.state
        && deliveries == old(deliveries) + o.emitted
        && (owner != null ==> owner.callbacks == ArrayOps.RemovedTimes(old(owner.callbacks), old(update), o.removals))
      ensures update == old(update) || update == Noop
    {
      remaining := remaining - dt * speed;
      if remaining <= 0.0 {
        if repeat == 0 {
          ProcessComplete();
        } else {
          ProcessRepeat();
        }
      }
    }

    /**
     * Calls the task's current `update` with a frame's `(time, dt)`: the task moves to the state
     * `UpdateOutcome` gives, its subscribers receive the calls it lists, and the owner's list
     * loses the task's update once per removeTask call among them.
     */
    method Update(time: real, dt: real)
      modifies this`started, this`remaining, this`repeat, this`update, this`deliveries, Owners()`callbacks
      modifies this`onStart, this`onRepeat, this`onComplete, this`onDispose
      ensures var o := UpdateOutcome(old(State()), delay, dt);
        && State() == o.state
        && deliveries == old(deliveries) + o.emitted
        && (owner != null ==> owner.callbacks == ArrayOps.RemovedTimes(old(owner.callbacks), old(update), o.removals))
      ensures update == old(update) || update == Noop
    {
      if update == Noop || paused || speed == 0.0 {
        assert !State().Effective();
        return;
      }
      ghost var s0 := State();
      ghost var u0 := update;
      ghost var d0 := deliveries;
      ghost var l0 := if owner == null then [] else owner.callbacks;
      ghost var b := if started then Outcome(s0, [], 0) else Emission(s0, OnStart);
      Begin();
      ghost var d1 := deliveries;
      ghost var l1 := if owner == null then [] else owner.callbacks;
      assert d1 == d0 + b.emitted;
      assert owner != null ==> l1 == ArrayOps.RemovedTimes(l0, u0, b.removals);
      ghost var c := CountdownOutcome(State(), delay, dt);
      Countdown(dt);
      assert deliveries == d1 + c.emitted;
      ArrayOps.AppendAssoc(d0, b.emitted, c.emitted);
      assert owner != null ==> owner.callbacks == ArrayOps.RemovedTimes(l1, u0, c.removals);
      UpdateHalves(s0, delay, dt);
      if owner != null {
        ArrayOps.RemovedTimesChain(l0, l1, owner.callbacks, u0, b.removals, c.removals);
        assert l0 == old(owner.callbacks) && u0 == old(update) && s0 == old(State());
        assert b.removals + c.removals == UpdateOutcome(s0, delay, dt).removals;
      }
    }

    /** `dispose()`: emits dispose, then enters the terminal state. */
    method Dispose()
      modifies this`remaining, this`repeat, this`update, this`deliveries, Owners()`callbacks
      modifies this`onStart, this`onRepeat, this`onComplete, this`onDispose
      ensures var o := DisposeOutcome(old(State()));
        && State() == o.state
        && deliveries == old(deliveries) + o.emitted
        && (owner != null ==> owner.callbacks == ArrayOps.RemovedTimes(old(owner.callbacks), old(update), o.removals))
    {
      Emit(OnDispose);
      Teardown();
    }
  }

  /** The `Ticker` plugin. */
  class Ticker {
    var started: bool
    var running: bool
    /** `RequestAnimationFrame.isRunning`: whether the host will deliver the next frame. */
    var frameRequested: bool
    /**
     * Whether the frame callback is still this ticker's step: `destroy()` replaces it with the
     * no-op for good, so frames delivered after a later `start()` reach nothing.
     */
    var frameCallbackLive: bool
    const speed: real
    const fpsLimit: real
    const hasFpsLimit: bool
    /** The minimum interval between two passes of the callbacks when capped (`1000 / limit`). */
    const limitRate: real
    var callbacks: seq<Callback>
    var nextFpsUpdate: real
    var time: real
    var startTime: real
    var pauseTime: real
    var lastTime: real
    var delta: real
    var now: real
    /** Every callback call made by the frames so far, in order. */
    var invocations: seq<Invocation>

    constructor (config: TickerConfig)
      ensures fpsLimit == config.limit.GetOr(0.0)
      ensures hasFpsLimit <==> fpsLimit > 0.0
      ensures limitRate == if hasFpsLimit then 1000.0 / fpsLimit else 0.0
      ensures speed == if config.speed.Some? && config.speed.value != 0.0 then config.speed.value else 1.0
      ensures speed != 0.0
      ensures !started && !running && !frameRequested && frameCallbackLive
      ensures callbacks == [] && invocations == []
      ensures time == 0.0 && startTime == 0.0 && pauseTime == 0.0 && lastTime == 0.0
      ensures delta == 0.0 && now == 0.0 && nextFpsUpdate == 0.0
    {
      var limit := config.limit.GetOr(0.0);
      fpsLimit := limit;
      hasFpsLimit := limit > 0.0;
      limitRate := if limit > 0.0 then 1000.0 / limit else 0.0;
      speed := if config.speed.Some? && config.speed.value != 0.0 then config.speed.value else 1.0;
      started, running, frameRequested := false, false, false;
      frameCallbackLive := true;
      callbacks, invocations := [], [];
      nextFpsUpdate, now, time, startTime, pauseTime, lastTime, delta := 0.0, 0.0, 0.0, 0.0, 0.0, 0.0, 0.0;
    }

    /**
     * The `elapsedMS` getter. Every frame adds its raw delta to `time` and sets `lastTime` to
     * the frame's timestamp, so while the two agree (as they do from construction on) the
     * elapsed time is the frame time accumulated since the epoch.
     */
    function ElapsedMS(): (r: real)
      reads this
      ensures time == lastTime ==> r == time - startTime
    {
      lastTime - startTime
    }

    /** `_resetDelta`, with the clock reading as a parameter. */
    method ResetDelta(clock: real)
      modifies this`time, this`now, this`lastTime, this`nextFpsUpdate, this`delta
      ensures time == clock && now == clock && lastTime == clock
      ensures nextFpsUpdate == clock + 1000.0 && delta == 0.0
    {
      time := clock;
      now := clock;
      lastTime := clock;
      nextFpsUpdate := clock + 1000.0;
      delta := 0.0;
    }

    /** `start()`: a second call is a no-op; the first one takes `clock` as the epoch and requests frames. */
    method Start(clock: real)
      modifies this`started, this`running, this`frameRequested, this`startTime
      modifies this`time, this`now, this`lastTime, this`nextFpsUpdate, this`delta
      ensures old(started) ==> unchanged(this)
      ensures !old(started) ==>
        && started && running && frameRequested
        && startTime == clock && lastTime == clock && time == clock && now == clock
        && delta == 0.0 && nextFpsUpdate == clock + 1000.0
        && ElapsedMS() == 0.0
    {
      if started {
        return;
      }
      started := true;
      running := true;
      ResetDelta(clock);
      startTime := clock;
      frameRequested := true;
    }

    /** `stop()`: clears `started` and cancels frames, but leaves `running` as it was. */
    method Stop()
      modifies this`started, this`frameRequested
      ensures !started && !frameRequested
    {
      started := false;
      frameRequested := false;
    }

    /** `pause()`: cancels frames, clears `running`, notes the pause instant. */
    method Pause(clock: real)
      modifies this`frameRequested, this`running, this`pauseTime
      ensures !frameRequested && !running && pauseTime == clock
    {
      frameRequested := false;
      running := false;
      pauseTime := clock;
    }

    /**
     * `resume()`: a no-op while running; otherwise restarts frames and moves the epoch forward
     * by the paused interval, so the elapsed time right after resuming is the elapsed time at
     * the instant of the pause.
     */
    method Resume(clock: real)
      modifies this`running, this`frameRequested, this`startTime
      modifies this`time, this`now, this`lastTime, this`nextFpsUpdate, this`delta
      ensures old(running) ==> unchanged(this)
      ensures !old(running) ==>
        && running && frameRequested && started == old(started)
        && startTime == old(startTime) + (clock - old(pauseTime))
        && lastTime == clock && time == clock && now == clock
        && delta == 0.0 && nextFpsUpdate == clock + 1000.0
        && ElapsedMS() == old(pauseTime) - old(startTime)
    {
      if running {
        return;
      }
      running := true;
      ResetDelta(clock);
      startTime := startTime + (time - pauseTime);
      frameRequested := true;
    }

    /** `add(callback)`: appends, duplicates included. */
    method Add(cb: Callback)
      modifies this`callbacks
      ensures callbacks == old(callbacks) + [cb]
    {
      callbacks := callbacks + [cb];
    }

    /** `remove(callback)`: `splice(indexOf(callback), 1)`. */
    method Remove(cb: Callback)
      modifies this`callbacks
      ensures callbacks == ArrayOps.Remove(old(callbacks), cb)
    {
      ArrayOps.SpliceAtIndexOf(callbacks, cb);
      callbacks := ArrayOps.Splice(callbacks, ArrayOps.IndexOf(callbacks, cb), 1);
    }

    /** `removeTask(task)`: removes the task's current `update`. */
    method RemoveTask(task: TickerTask)
      modifies this`callbacks
      ensures callbacks == ArrayOps.Remove(old(callbacks), task.update)
    {
      Remove(task.update);
    }

    /**
     * `addTask(config)`: a new task whose complete and dispose channels call this ticker's
     * removeTask, registered as the last callback.
     */
    method AddTask(config: TaskConfig) returns (task: TickerTask)
      modifies this`callbacks
      ensures fresh(task)
      ensures task.delay == config.delay && task.remaining == config.delay
      ensures task.repeat == config.repeat.GetOr(0) && task.speed == config.speed.GetOr(1.0)
      ensures !task.paused && !task.started && task.update == TaskUpdate(task)
      ensures task.onStart == [] && task.onRepeat == []
      ensures task.onComplete == [OwnerRemoveTask] && task.onDispose == [OwnerRemoveTask]
      ensures task.deliveries == [] && task.owner == this
      ensures callbacks == old(callbacks) + [TaskUpdate(task)]
    {
      task := new TickerTask(config);
      task.owner := this;
      task.Connect(OnComplete, OwnerRemoveTask);
      task.Connect(OnDispose, OwnerRemoveTask);
      assert task.State().Subscribers(OnStart) == [] && task.State().Subscribers(OnRepeat) == [];
      Add(task.update);
    }

    /**
     * `destroy()`: stops, cancels frames, replaces the frame callback with the no-op for good and
     * empties the callback list; `running` is untouched.
     */
    method Destroy()
      modifies this`started, this`frameRequested, this`frameCallbackLive, this`callbacks
      ensures !started && !frameRequested && !frameCallbackLive && callbacks == []
    {
      Stop();
      frameRequested := false;
      frameCallbackLive := false;
      callbacks := [];
    }

    /** The plugin's teardown hook: destroys the ticker. */
    method OnRemoveFromPluginsManager()
      modifies this`started, this`frameRequested, this`frameCallbackLive, this`callbacks
      ensures !started && !frameRequested && !frameCallbackLive && callbacks == []
    {
      Destroy();
    }

    /** `_callbacks.forEach((c) => c(time, delta))`. */
    method Notify(frameTime: real, scaled: real)
      modifies this`invocations
      ensures invocations == old(invocations) + Broadcast(callbacks, frameTime, scaled)
    {
      for i := 0 to |callbacks|
        invariant invocations == old(invocations) + Broadcast(callbacks[..i], frameTime, scaled)
      {
        assert callbacks[..i + 1][..i] == callbacks[..i];
        invocations := invocations + [Invoked(callbacks[i], frameTime, scaled)];
      }
      assert callbacks[..|callbacks|] == callbacks;
    }

    /** `_step`, the uncapped frame: every callback gets `(time, (time - lastTime) * speed)`. */
    method Step(frameTime: real, clock: real)
      modifies this`now, this`time, this`delta, this`nextFpsUpdate, this`invocations, this`lastTime
      ensures now == clock && lastTime == frameTime
      ensures time == old(time) + (frameTime - old(lastTime))
      ensures delta == frameTime - old(lastTime)
      ensures ElapsedMS() == old(ElapsedMS()) + (frameTime - old(lastTime))
      ensures nextFpsUpdate == if frameTime >= old(nextFpsUpdate) then frameTime + 1000.0 else old(nextFpsUpdate)
      ensures invocations == old(invocations) + Broadcast(callbacks, frameTime, (frameTime - old(lastTime)) * speed)
    {
      now := clock;
      var raw := frameTime - lastTime;
      time := time + raw;
      delta := raw;
      if frameTime >= nextFpsUpdate {
        nextFpsUpdate := frameTime + 1000.0;
      }
      var scaled := raw * speed;
      assert scaled == (frameTime - old(lastTime)) * speed;
      assert Broadcast(callbacks, frameTime, scaled) == Broadcast(callbacks, frameTime, (frameTime - old(lastTime)) * speed);
      Notify(frameTime, scaled);
      lastTime := frameTime;
    }

    /**
     * `_stepLimitFPS`, the capped frame: the raw delta is added to the accumulator `delta`; only
     * when that reaches `limitRate` do the callbacks run, with THIS frame's raw delta times the
     * speed, and the accumulator goes back to 0.
     */
    method StepLimitFPS(frameTime: real, clock: real)
      modifies this`now, this`time, this`delta, this`nextFpsUpdate, this`invocations, this`lastTime
      ensures now == clock && lastTime == frameTime
      ensures time == old(time) + (frameTime - old(lastTime))
      ensures delta == Accumulate(old(delta), frameTime - old(lastTime), limitRate)
      ensures ElapsedMS() == old(ElapsedMS()) + (frameTime - old(lastTime))
      ensures nextFpsUpdate == if frameTime >= old(nextFpsUpdate) then frameTime + 1000.0 else old(nextFpsUpdate)
      ensures invocations == old(invocations) +
        if Fires(old(delta), frameTime - old(lastTime), limitRate)
        then Broadcast(callbacks, frameTime, (frameTime - old(lastTime)) * speed)
        else []
    {
      now := clock;
      var raw := frameTime - lastTime;
      time := time + raw;
      delta := delta + raw;
      if frameTime >= nextFpsUpdate {
        nextFpsUpdate := frameTime + 1000.0;
      }
      if delta >= limitRate {
        var scaled := raw * speed;
        assert scaled == (frameTime - old(lastTime)) * speed;
        assert Broadcast(callbacks, frameTime, scaled) == Broadcast(callbacks, frameTime, (frameTime - old(lastTime)) * speed);
        Notify(frameTime, scaled);
        delta := 0.0;
      }
      lastTime := frameTime;
    }

    /**
     * A frame delivered by the host: only while frames are requested, and then, unless the
     * ticker was destroyed, to the step chosen at construction (`_stepLimitFPS` when a limit is
     * set, `_step` otherwise).
     */
    method Frame(frameTime: real, clock: real)
      modifies this`now, this`time, this`delta, this`nextFpsUpdate, this`invocations, this`lastTime
      ensures !frameRequested || !frameCallbackLive ==> unchanged(this)
      ensures frameRequested && frameCallbackLive ==>
        && now == clock && lastTime == frameTime
        && time == old(time) + (frameTime - old(lastTime))
        && ElapsedMS() == old(ElapsedMS()) + (frameTime - old(lastTime))
        && nextFpsUpdate == if frameTime >= old(nextFpsUpdate) then frameTime + 1000.0 else old(nextFpsUpdate)
      ensures frameRequested && frameCallbackLive && !hasFpsLimit ==>
        && delta == frameTime - old(lastTime)
        && invocations == old(invocations) + Broadcast(callbacks, frameTime, (frameTime - old(lastTime)) * speed)
      ensures frameRequested && frameCallbackLive && hasFpsLimit ==>
        && delta == Accumulate(old(delta), frameTime - old(lastTime), limitRate)
        && invocations == old(invocations) +
             if Fires(old(delta), frameTime - old(lastTime), limitRate)
             then Broadcast(callbacks, frameTime, (frameTime - old(lastTime)) * speed)
             else []
    {
      if !frameRequested || !frameCallbackLive {
        return;
      }
      if hasFpsLimit {
        StepLimitFPS(frameTime, clock);
      } else {
        Step(frameTime, clock);
      }
    }
  }
}
