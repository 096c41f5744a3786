/** The movement state of a Prefab entity, as values.

    A `State` is what the entity keeps between ticks: its speed record, its
    mode tag, the queue of movement targets, the velocity last applied to its
    physics body and whether its staying timer runs. Each operation of the
    entity is a function from a state to a `Step`: the new state and the
    events it emits, in order (velocity changes sent to the physics body,
    queue shifts, callback invocations, timer stops). The class in entity.dfy
    performs the same operations in place and is proved against these
    functions; the lemmas at the end relate several operations. Every
    operation keeps `Coherent`, except setVelocity toward a point other than
    the front target, which the entity itself never does. */
module Motion {

  datatype Option<T> = None | Some(value: T) {
    function GetOr(default: T): T {
      match this
      case Some(v) => v
      case None => default
    }
  }

  /** A point in world coordinates (the physics engine works in floating point). */
  datatype Point = Point(x: real, y: real)

  /** The `callback` property of a queued target: a function (identified by
      `id`), or anything else (absent, undefined, not a function). */
  datatype Callback = NoCallback | Fn(id: nat)

  datatype Target = Target(x: real, y: real, callback: Callback) {
    function Pos(): Point { Point(x, y) }
  }

  /** The velocity of the physics body: zero, or the vector of magnitude
      `speed` pointing from the body's center toward `toward`. The bearing
      itself is floating-point trigonometry in the engine. */
  datatype Velocity = Stopped | Aim(toward: Point, speed: real)

  /** The speed record: `current` changes at run time, `value` is the nominal speed. */
  datatype Speed = Speed(current: real, value: real)

  datatype Event =
    | VelocityStopped                             // body.stop()
    | VelocityAimed(toward: Point, speed: real)   // setVelocity(target)
    | Shifted(target: Target)                     // moveTarget.shift()
    | Called(id: nat, queue: seq<Target>, velocity: Velocity)
                                                  // callback(), with the queue and velocity it observes
    | TimerStopped                                // stayingTimer.stop(true)

  datatype State = State(
    speed: Speed,
    mode: Option<string>,
    queue: seq<Target>,
    velocity: Velocity,
    timerRunning: bool)

  datatype Step = Step(state: State, events: seq<Event>)

  /** The engine's approximate equality with tolerance 1: |a - b| < 1. */
  predicate Near(a: real, b: real) {
    -1.0 < a - b < 1.0
  }

  /** The body's center matches the target within tolerance 1 on both axes. */
  predicate Arrived(t: Target, center: Point) {
    Near(t.x, center.x) && Near(t.y, center.y)
  }

  /** The velocity is never stale: either the body is stopped, or it is aimed
      at the front of the queue with the current speed. In particular an
      empty queue means a stopped body. */
  predicate Coherent(s: State) {
    match s.velocity
    case Stopped => true
    case Aim(p, v) => s.queue != [] && p == s.queue[0].Pos() && v == s.speed.current
  }

  /** The fields that only `setSpeed`, `setMode`, `kill` and `stopWandering` change. */
  predicate SameSettings(s: State, s': State) {
    s'.speed == s.speed && s'.mode == s.mode && s'.timerRunning == s.timerRunning
  }

  /** stop(): the body's velocity becomes zero; the queue is left as it is. */
  function Stop(s: State): (r: Step)
    ensures r.state.velocity == Stopped && r.events == [VelocityStopped]
    ensures Coherent(r.state) && SameSettings(s, r.state) && r.state.queue == s.queue
  {
    Step(s.(velocity := Stopped), [VelocityStopped])
  }

  /** setVelocity(p): aim the body at `p` with the current speed. */
  function SetVelocity(s: State, p: Point): (r: Step)
    ensures r.state.velocity == Aim(p, s.speed.current) && r.events == [VelocityAimed(p, s.speed.current)]
    ensures s.queue != [] && p == s.queue[0].Pos() ==> Coherent(r.state)
    ensures SameSettings(s, r.state) && r.state.queue == s.queue
  {
    Step(s.(velocity := Aim(p, s.speed.current)), [VelocityAimed(p, s.speed.current)])
  }

  /** setVelocity is public and aims wherever it is told: a point other
      than the front target leaves the velocity stale. The entity's own
      callers (moveTo, update, setSpeed) only ever aim at the front. */
  lemma SetVelocityOffFront(s: State, p: Point)
    requires s.queue != [] && p != s.queue[0].Pos()
    ensures !Coherent(SetVelocity(s, p).state)
  {
  }

  /** moveTo(target): a present target replaces the whole queue and the body
      is aimed at it; an absent one stops the body and empties the queue. */
  function MoveTo(s: State, target: Option<Target>): (r: Step)
    ensures Coherent(r.state) && SameSettings(s, r.state)
    ensures target.Some? ==>
              r.state.queue == [target.value] && r.state.velocity == Aim(target.value.Pos(), s.speed.current)
    ensures target.None? ==> r.state.queue == [] && r.state.velocity == Stopped
  {
    match target
    case Some(t) => SetVelocity(s.(queue := [t]), t.Pos())
    case None =>
      var stopped := Stop(s);
      Step(stopped.state.(queue := []), stopped.events)
  }

  /** addMoveTarget(target): start moving when idle, otherwise queue at the back. */
  function AddMoveTarget(s: State, target: Target): (r: Step)
    ensures Coherent(s) ==> Coherent(r.state)
    ensures SameSettings(s, r.state) && r.state.queue == s.queue + [target]
  {
    if s.queue == [] then MoveTo(s, Some(target))
    else Step(s.(queue := s.queue + [target]), [])
  }

  /** update(): one tick, given the body's center reported by the physics
      engine. On arrival at the front target: stop, shift, re-aim at the new
      front if any, then call the completed target's callback. */
  function Update(s: State, center: Point): (r: Step)
    ensures Coherent(s) ==> Coherent(r.state)
    ensures SameSettings(s, r.state)
    ensures r.state.queue == s.queue || (s.queue != [] && r.state.queue == s.queue[1..])
  {
    if s.queue == [] || !Arrived(s.queue[0], center) then Step(s, [])
    else
      var front := s.queue[0];
      var stopped := Stop(s);
      var shifted := stopped.state.(queue := s.queue[1..]);
      var next :=
        if shifted.queue == [] then Step(shifted, [])
        else SetVelocity(shifted, shifted.queue[0].Pos());
      var called :=
        match front.callback
        case Fn(id) => [Called(id, next.state.queue, next.state.velocity)]
        case NoCallback => [];
      Step(next.state, stopped.events + [Shifted(front)] + next.events + called)
  }

  /** setSpeed(value): an exactly equal speed changes nothing; otherwise the
      current speed is replaced and a moving body is re-aimed at the
      unchanged front target. */
  function SetSpeed(s: State, value: real): (r: Step)
    ensures Coherent(s) ==> Coherent(r.state)
    ensures r.state.speed == s.speed.(current := value)
    ensures r.state.queue == s.queue && r.state.mode == s.mode && r.state.timerRunning == s.timerRunning
  {
    if s.speed.current == value then Step(s, [])
    else
      var respeeded := s.(speed := s.speed.(current := value));
      if respeeded.queue == [] then Step(respeeded, [])
      else SetVelocity(respeeded, respeeded.queue[0].Pos())
  }

  /** stopWandering(): moveTo(null), then stop the staying timer. */
  function StopWandering(s: State): (r: Step)
    ensures Coherent(r.state)
    ensures r.state.queue == [] && r.state.velocity == Stopped && !r.state.timerRunning
    ensures r.state.speed == s.speed && r.state.mode == s.mode
  {
    var cleared := MoveTo(s, None);
    Step(cleared.state.(timerRunning := false), cleared.events + [TimerStopped])
  }

  /** kill(): clear the mode, then moveTo(null). */
  function Kill(s: State): (r: Step)
    ensures Coherent(r.state)
    ensures r.state.mode == None && r.state.queue == [] && r.state.velocity == Stopped
    ensures r.state.speed == s.speed && r.state.timerRunning == s.timerRunning
  {
    MoveTo(s.(mode := None), None)
  }

  /** The other half of "the queue is non-empty iff the body is in directed
      motion": a queued target means an aimed body. */
  predicate Moving(s: State) {
    s.queue != [] ==> s.velocity.Aim?
  }

  /** Every operation keeps a queued entity aimed, except stop(). */
  lemma MovingPreserved(s: State, target: Option<Target>, t: Target, center: Point, value: real, p: Point)
    ensures Moving(MoveTo(s, target).state)
    ensures Moving(Kill(s).state) && Moving(StopWandering(s).state)
    ensures Moving(SetVelocity(s, p).state)
    ensures Moving(s) ==> Moving(AddMoveTarget(s, t).state)
    ensures Moving(s) ==> Moving(Update(s, center).state)
    ensures Moving(s) ==> Moving(SetSpeed(s, value).state)
  {
  }

  /** The public stop() zeroes the velocity and keeps the queue, so a queued
      entity stands still; addMoveTarget then only appends and does not
      restart it. Only moveTo, a setSpeed with a different value, a direct
      setVelocity, or an arrival at the front target while another target
      is queued sets it moving again. */
  lemma StopStalls(s: State, t: Target)
    requires s.queue != []
    ensures !Moving(Stop(s).state)
    ensures var added := AddMoveTarget(Stop(s).state, t);
            added.state.queue == s.queue + [t] && added.state.velocity == Stopped && added.events == []
  {
  }

  /** Whatever the prior queue and velocity, moveTo leaves the same queue
      and velocity behind, given the same current speed. */
  lemma MoveToForgetsPast(s1: State, s2: State, target: Option<Target>)
    requires s1.speed.current == s2.speed.current
    ensures MoveTo(s1, target).state.queue == MoveTo(s2, target).state.queue
    ensures MoveTo(s1, target).state.velocity == MoveTo(s2, target).state.velocity
    ensures target.Some? ==> MoveTo(s1, target).state.queue == [target.value]
    ensures target.None? ==> MoveTo(s1, target).state.queue == [] && MoveTo(s1, target).state.velocity == Stopped
  {
  }

  /** On an idle entity addMoveTarget is moveTo: same state, same events. */
  lemma AddToIdleIsMoveTo(s: State, target: Target)
    requires s.queue == []
    ensures AddMoveTarget(s, target) == MoveTo(s, Some(target))
  {
  }

  /** Setting the same speed twice: the second call changes nothing and
      sends no velocity. */
  lemma SetSpeedTwice(s: State, value: real)
    ensures var once := SetSpeed(s, value).state;
            SetSpeed(once, value) == Step(once, [])
  {
  }

  /** Ticks that do not reach the front target change nothing. */
  lemma NoArrivalNoChange(s: State, center: Point)
    requires s.queue != [] && !Arrived(s.queue[0], center)
    ensures Update(s, center) == Step(s, [])
  {
  }

  /** The tolerance is strictly below 1 on each axis: 0.9 away on both axes
      arrives, 1.5 away on one axis does not, and neither does exactly 1. */
  lemma ArrivalTolerance(cb: Callback)
    ensures Arrived(Target(10.0, 10.0, cb), Point(10.9, 9.1))
    ensures !Arrived(Target(10.0, 10.0, cb), Point(11.5, 10.0))
    ensures !Arrived(Target(10.0, 10.0, cb), Point(10.0, 9.0))
  {
  }

  /** Queue [A with callback, B], body at A: the body stops, A is removed,
      the body is aimed at B, and then A's callback runs, seeing the queue
      [B] and the velocity toward B. */
  lemma ArrivalWithNextLeg(s: State, a: Target, b: Target, id: nat)
    requires s.queue == [a, b] && a.callback == Fn(id)
    ensures var r := Update(s, a.Pos());
            var toB := Aim(b.Pos(), s.speed.current);
            r.state.queue == [b] && r.state.velocity == toB
            && r.events == [VelocityStopped, Shifted(a), VelocityAimed(b.Pos(), s.speed.current), Called(id, [b], toB)]
  {
    assert s.queue[1..] == [b];
  }

  // ---------------------------------------------------------------------
  // Several operations in a row

  /** The id of a target's callback when it is a function, else nothing. */
  function CallbackOf(t: Target): seq<nat> {
    match t.callback
    case Fn(id) => [id]
    case NoCallback => []
  }

  /** The ids of the callbacks that are functions, in queue order. */
  function Callbacks(q: seq<Target>): (ids: seq<nat>)
  {
    if q == [] then [] else CallbackOf(q[0]) + Callbacks(q[1..])
  }

  /** The ids of the callbacks invoked in an event trace, in order. */
  function Invoked(es: seq<Event>): (ids: seq<nat>)
  {
    if es == [] then []
    else (if es[0].Called? then [es[0].id] else []) + Invoked(es[1..])
  }

  /** The targets shifted off the queue in an event trace, in order. */
  function Completed(es: seq<Event>): (ts: seq<Target>)
  {
    if es == [] then []
    else (if es[0].Shifted? then [es[0].target] else []) + Completed(es[1..])
  }

  /** addMoveTarget called once per element of `ts`, in order. */
  function AddAll(s: State, ts: seq<Target>): State
    decreases |ts|
  {
    if ts == [] then s else AddAll(AddMoveTarget(s, ts[0]).state, ts[1..])
  }

  /** `n` ticks, on each of which the body's center sits exactly on the
      front target. A tick within the tolerance does the same
      (`ArrivalAnywhere`); a tick outside it changes nothing
      (`NoArrivalNoChange`). */
  function Arrivals(s: State, n: nat): Step
    decreases n
  {
    if n == 0 || s.queue == [] then Step(s, [])
    else
      var first := Update(s, s.queue[0].Pos());
      var rest := Arrivals(first.state, n - 1);
      Step(rest.state, first.events + rest.events)
  }

  lemma {:induction false} InvokedAppend(a: seq<Event>, b: seq<Event>)
    ensures Invoked(a + b) == Invoked(a) + Invoked(b)
  {
    if a == [] {
      assert a + b == b;
    } else {
      assert (a + b)[0] == a[0] && (a + b)[1..] == a[1..] + b;
      InvokedAppend(a[1..], b);
    }
  }

  lemma {:induction false} CompletedAppend(a: seq<Event>, b: seq<Event>)
    ensures Completed(a + b) == Completed(a) + Completed(b)
  {
    if a == [] {
      assert a + b == b;
    } else {
      assert (a + b)[0] == a[0] && (a + b)[1..] == a[1..] + b;
      CompletedAppend(a[1..], b);
    }
  }

  /** Adding targets one by one appends them at the back, in order; a body
      that was already moving keeps its velocity. */
  lemma {:induction false} AddAllAppends(s: State, ts: seq<Target>)
    ensures AddAll(s, ts).queue == s.queue + ts
    ensures s.queue != [] ==> AddAll(s, ts).velocity == s.velocity
    ensures SameSettings(s, AddAll(s, ts))
    decreases |ts|
  {
    if ts != [] {
      var s1 := AddMoveTarget(s, ts[0]).state;
      AddAllAppends(s1, ts[1..]);
      assert s.queue + ts == s1.queue + ts[1..];
    }
  }

  /** One arrival removes exactly the front target. */
  lemma ArrivalShiftsFront(s: State)
    requires s.queue != []
    ensures Update(s, s.queue[0].Pos()).state.queue == s.queue[1..]
  {
    assert Arrived(s.queue[0], s.queue[0].Pos());
  }

  /** A tick whose center is anywhere within the arrival tolerance of the
      front target does exactly what a tick on the target does, so the
      lemmas about `Arrivals` cover every arriving tick. */
  lemma ArrivalAnywhere(s: State, center: Point)
    requires s.queue != [] && Arrived(s.queue[0], center)
    ensures Update(s, center) == Update(s, s.queue[0].Pos())
  {
    assert Arrived(s.queue[0], s.queue[0].Pos());
  }

  /** The events of one arrival: stop, shift of the front target, an aim
      when a target remains, and the call of the front target's callback
      when it is a function. */
  lemma ArrivalEvents(s: State) returns (aim: seq<Event>, call: seq<Event>)
    requires s.queue != []
    ensures Update(s, s.queue[0].Pos()).events == [VelocityStopped, Shifted(s.queue[0])] + aim + call
    ensures Invoked(aim) == [] && Completed(aim) == []
    ensures Invoked(call) == CallbackOf(s.queue[0]) && Completed(call) == []
  {
    var front := s.queue[0];
    assert Arrived(front, front.Pos());
    var r := Update(s, front.Pos());
    aim := if s.queue[1..] == [] then [] else [VelocityAimed(s.queue[1].Pos(), s.speed.current)];
    call := match front.callback
      case Fn(id) => [Called(id, r.state.queue, r.state.velocity)]
      case NoCallback => [];
  }

  /** One arrival completes exactly the front target and invokes exactly its
      callback, if that is a function. */
  lemma ArrivalAtFront(s: State)
    requires s.queue != []
    ensures Update(s, s.queue[0].Pos()).state.queue == s.queue[1..]
    ensures Completed(Update(s, s.queue[0].Pos()).events) == [s.queue[0]]
    ensures Invoked(Update(s, s.queue[0].Pos()).events) == CallbackOf(s.queue[0])
  {
    ArrivalShiftsFront(s);
    var aim, call := ArrivalEvents(s);
    var head := [VelocityStopped, Shifted(s.queue[0])];
    InvokedAppend(head + aim, call);
    InvokedAppend(head, aim);
    CompletedAppend(head + aim, call);
    CompletedAppend(head, aim);
  }

  /** n arrivals remove the first n targets; the rest of the queue waits. */
  lemma {:induction false} ArrivalsQueue(s: State, n: nat)
    requires n <= |s.queue|
    ensures Arrivals(s, n).state.queue == s.queue[n..]
    decreases n
  {
    if n > 0 {
      var first := Update(s, s.queue[0].Pos());
      ArrivalShiftsFront(s);
      ArrivalsQueue(first.state, n - 1);
      assert s.queue[1..][n - 1..] == s.queue[n..];
    }
  }

  /** With targets queued, draining them is one arrival at the front
      followed by draining what it leaves. */
  lemma ArrivalsFirst(s: State)
    requires s.queue != []
    ensures var first := Update(s, s.queue[0].Pos());
            |first.state.queue| == |s.queue| - 1
            && Arrivals(s, |s.queue|).events == first.events + Arrivals(first.state, |s.queue| - 1).events
  {
    ArrivalShiftsFront(s);
  }

  /** As many arrivals as there are queued targets complete all of them, in
      queue order. */
  lemma {:induction false} ArrivalsComplete(s: State)
    ensures Completed(Arrivals(s, |s.queue|).events) == s.queue
    decreases |s.queue|
  {
    var q := s.queue;
    if q != [] {
      var first := Update(s, q[0].Pos());
      ArrivalsFirst(s);
      ArrivalAtFront(s);
      ArrivalsComplete(first.state);
      CompletedAppend(first.events, Arrivals(first.state, |q| - 1).events);
      assert q == [q[0]] + q[1..];
    }
  }

  /** As many arrivals as there are queued targets invoke the callbacks of
      all of them, in queue order. */
  lemma {:induction false} ArrivalsInvoke(s: State)
    ensures Invoked(Arrivals(s, |s.queue|).events) == Callbacks(s.queue)
    decreases |s.queue|
  {
    var q := s.queue;
    if q != [] {
      var first := Update(s, q[0].Pos());
      ArrivalsFirst(s);
      ArrivalAtFront(s);
      ArrivalsInvoke(first.state);
      InvokedAppend(first.events, Arrivals(first.state, |q| - 1).events);
    }
  }

  /** FIFO: targets added with addMoveTarget are completed, and their
      callbacks invoked, in the order they were added, after the targets
      already queued. */
  lemma Fifo(s: State, ts: seq<Target>)
    ensures var q := s.queue + ts;
            var done := Arrivals(AddAll(s, ts), |q|);
            Completed(done.events) == q && Invoked(done.events) == Callbacks(q) && done.state.queue == []
  {
    var q := s.queue + ts;
    AddAllAppends(s, ts);
    ArrivalsQueue(AddAll(s, ts), |q|);
    ArrivalsComplete(AddAll(s, ts));
    ArrivalsInvoke(AddAll(s, ts));
    assert q[..|q|] == q;
  }
}
