/** The Prefab entity: a movable actor whose movement queue, speed, mode,
    body velocity and staying timer are updated in place by its methods.

    The position of the physics body lives in the engine; the methods that
    need it (`Update`) take the body's center as a parameter. `trace` is a
    ghost log of what the entity does to the outside world, in order. Every
    method except SetMode and the constructor is proved against the function
    of the same name in module Motion: `Model()` after the call is that
    function's new state, and `trace` grows by that function's events. */
module Entity {
  import opened Motion

  /** The speed record handed to the constructor. `current` is present when
      the record already carries a field of that name. */
  datatype SpeedConfig = SpeedConfig(value: real, current: Option<real>)

  class Prefab {
    var speed: Speed
    var mode: Option<string>
    var moveTarget: seq<Target>
    var velocity: Velocity
    var timerRunning: bool
    ghost var trace: seq<Event>

    /** The entity's state as a value. */
    function Model(): State
      reads this
    {
      State(speed, mode, moveTarget, velocity, timerRunning)
    }

    /** The velocity is stopped or aimed at the front target at the current speed. */
    ghost predicate Valid()
      reads this
    {
      Coherent(Model())
    }

    /** The record `{current: speed.value, ...speed}`: a `current` field of
        the given record overrides the nominal value. The body starts at
        rest, the timer is created without being started. */
    constructor (config: SpeedConfig)
      ensures speed == Speed(config.current.GetOr(config.value), config.value)
      ensures mode == None && moveTarget == [] && velocity == Stopped && !timerRunning
      ensures trace == []
      ensures Valid()
    {
      speed := Speed(config.current.GetOr(config.value), config.value);
      velocity := Stopped;
      timerRunning := false;
      mode := None;
      moveTarget := [];
      trace := [];
    }

    /** One tick. Nothing happens unless the queue is non-empty and the
        body's center is within 1 of the front target on both axes. Then the
        body stops, the front target is removed, the body is aimed at the new
        front if there is one, and only then the removed target's callback is
        called, if it is a function: it sees the queue already advanced and
        the new velocity already applied. */
    method Update(center: Point)
      modifies this`moveTarget, this`velocity, this`trace
      ensures Model() == Motion.Update(old(Model()), center).state
      ensures trace == old(trace) + Motion.Update(old(Model()), center).events
      ensures old(moveTarget) == [] || !Arrived(old(moveTarget)[0], center) ==>
                moveTarget == old(moveTarget) && velocity == old(velocity) && trace == old(trace)
      ensures old(moveTarget) != [] && Arrived(old(moveTarget)[0], center) ==>
                && moveTarget == old(moveTarget)[1..]
                && velocity == (if moveTarget == [] then Stopped else Aim(moveTarget[0].Pos(), speed.current))
                && trace == old(trace) + [VelocityStopped, Shifted(old(moveTarget)[0])]
                            + (if moveTarget == [] then [] else [VelocityAimed(moveTarget[0].Pos(), speed.current)])
                            + (match old(moveTarget)[0].callback
                               case Fn(id) => [Called(id, moveTarget, velocity)]
                               case NoCallback => [])
      ensures old(Valid()) ==> Valid()
    {
      if moveTarget != [] {
        var front := moveTarget[0];
        if Arrived(front, center) {
          Stop();
          moveTarget := moveTarget[1..];
          trace := trace + [Shifted(front)];
          if moveTarget != [] {
            SetVelocity(moveTarget[0].Pos());
          }
          match front.callback {
            case Fn(id) => trace := trace + [Called(id, moveTarget, velocity)];
            case NoCallback =>
          }
        }
      }
    }

    method SetMode(m: Option<string>)
      modifies this`mode
      ensures mode == m
      ensures old(Valid()) ==> Valid()
    {
      mode := m;
    }

    /** An exactly equal speed changes nothing and sends no velocity.
        Otherwise `current` is replaced and, while the queue is non-empty,
        the body is re-aimed at the unchanged front target at the new speed.
        The queue is never touched. */
    method SetSpeed(value: real)
      modifies this`speed, this`velocity, this`trace
      ensures Model() == Motion.SetSpeed(old(Model()), value).state
      ensures trace == old(trace) + Motion.SetSpeed(old(Model()), value).events
      ensures speed == old(speed).(current := value)
      ensures old(speed.current) == value ==> velocity == old(velocity) && trace == old(trace)
      ensures old(speed.current) != value && moveTarget != [] ==>
                velocity == Aim(moveTarget[0].Pos(), value)
                && trace == old(trace) + [VelocityAimed(moveTarget[0].Pos(), value)]
      ensures moveTarget == [] ==> velocity == old(velocity) && trace == old(trace)
      ensures old(Valid()) ==> Valid()
    {
      if speed.current == value {
        return;
      }
      speed := speed.(current := value);
      if moveTarget != [] {
        SetVelocity(moveTarget[0].Pos());
      }
    }

    /** Aim the body at `p` with the current speed. */
    method SetVelocity(p: Point)
      modifies this`velocity, this`trace
      ensures velocity == Aim(p, speed.current)
      ensures Model() == Motion.SetVelocity(old(Model()), p).state
      ensures trace == old(trace) + [VelocityAimed(p, speed.current)]
      ensures moveTarget != [] && p == moveTarget[0].Pos() ==> Valid()
    {
      velocity := Aim(p, speed.current);
      trace := trace + [VelocityAimed(p, speed.current)];
    }

    /** With a target: the queue becomes exactly that target and the body is
        aimed at it at the current speed, whatever came before. Without one:
        the body stops and the queue is emptied. */
    method MoveTo(target: Option<Target>)
      modifies this`moveTarget, this`velocity, this`trace
      ensures Model() == Motion.MoveTo(old(Model()), target).state
      ensures trace == old(trace) + Motion.MoveTo(old(Model()), target).events
      ensures target.Some? ==>
                moveTarget == [target.value] && velocity == Aim(target.value.Pos(), speed.current)
      ensures target.None? ==> moveTarget == [] && velocity == Stopped
      ensures target.Some? ==> trace == old(trace) + [VelocityAimed(target.value.Pos(), speed.current)]
      ensures target.None? ==> trace == old(trace) + [VelocityStopped]
      ensures Valid()
    {
      match target {
        case Some(t) =>
          moveTarget := [Target(t.x, t.y, t.callback)];
          SetVelocity(t.Pos());
        case None =>
          Stop();
          moveTarget := [];
      }
    }

    /** Idle: exactly moveTo(target). Moving: the target joins the back of
        the queue; the queued targets, their order and the velocity stay. */
    method AddMoveTarget(target: Target)
      modifies this`moveTarget, this`velocity, this`trace
      ensures Model() == Motion.AddMoveTarget(old(Model()), target).state
      ensures trace == old(trace) + Motion.AddMoveTarget(old(Model()), target).events
      ensures moveTarget == old(moveTarget) + [target]
      ensures old(moveTarget) == [] ==>
                velocity == Aim(target.Pos(), speed.current)
                && trace == old(trace) + [VelocityAimed(target.Pos(), speed.current)]
      ensures old(moveTarget) != [] ==> velocity == old(velocity) && trace == old(trace)
      ensures old(Valid()) ==> Valid()
    {
      if moveTarget == [] {
        MoveTo(Some(target));
      } else {
        moveTarget := moveTarget + [target];
      }
    }

    /** Zero the body's velocity; the queue stays. */
    method Stop()
      modifies this`velocity, this`trace
      ensures Model() == Motion.Stop(old(Model())).state
      ensures velocity == Stopped
      ensures trace == old(trace) + [VelocityStopped]
      ensures Valid()
    {
      velocity := Stopped;
      trace := trace + [VelocityStopped];
    }

    /** moveTo(null), then stop the staying timer. */
    method StopWandering()
      modifies this`moveTarget, this`velocity, this`timerRunning, this`trace
      ensures Model() == Motion.StopWandering(old(Model())).state
      ensures trace == old(trace) + Motion.StopWandering(old(Model())).events
      ensures moveTarget == [] && velocity == Stopped && !timerRunning
      ensures trace == old(trace) + [VelocityStopped, TimerStopped]
      ensures Valid()
    {
      MoveTo(None);
      timerRunning := false;
      trace := trace + [TimerStopped];
    }

    /** Clear the mode, then moveTo(null). */
    method Kill()
      modifies this`mode, this`moveTarget, this`velocity, this`trace
      ensures Model() == Motion.Kill(old(Model())).state
      ensures trace == old(trace) + Motion.Kill(old(Model())).events
      ensures mode == None && moveTarget == [] && velocity == Stopped
      ensures trace == old(trace) + [VelocityStopped]
      ensures Valid()
    {
      mode := None;
      MoveTo(None);
    }
  }
}
