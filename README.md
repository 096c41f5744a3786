# Prefab movement model

This project models the movement and state logic of the `Prefab` game entity. A Prefab is a sprite-backed actor. It keeps a FIFO queue of movement targets, a speed record, an optional mode tag, the velocity of its physics body and a staying timer. Game logic drives it with `moveTo`, `addMoveTarget`, `setSpeed`, `setMode`, `stop`, `stopWandering` and `kill`. The host loop calls `update` once per tick. `update` detects arrival at the front target. It then stops the body, drops that target, aims the body at the next target and only then calls the completed target's callback. `getNextCoords` picks a random wander destination inside a rectangle.

The model has three modules:

- `Motion` (motion.dfy) describes the entity's state as a value (`State`). Each operation is a function that returns the new state and the ordered events it emits (`Step`). The events are velocity stops, velocity aims, queue shifts, callback calls and timer stops. The module also holds the invariant `Coherent`: the body is stopped, or it is aimed at the front target at the current speed. Every operation preserves it except `setVelocity` toward a point other than the front target. The entity itself only aims at the front target (in `moveTo`, `update` and `setSpeed`). A second predicate, `Moving`, says that a non-empty queue means an aimed body. Every operation keeps it except the public `stop()`. The lemmas at the end cover several operations in a row, including FIFO completion.
- `Entity` (entity.dfy) holds the class `Prefab`. Its fields are the source's fields, and its methods update them in place, calling one another as the source does (`addMoveTarget` calls `moveTo`, `update` calls `stop` and `setVelocity`). Each method states its new fields and its events directly (`SetMode` emits none). Every method except `SetMode` and the constructor also states that `Model()` afterwards equals the new state of the matching `Motion` function, which ties the `Motion` lemmas to the class.
- `Wander` (wander.dfy) holds `getNextCoords`. The method builds the list of eligible directions step by step and then switches on the drawn direction. It is proved against `Directions`, the declarative list of eligible directions.

Engine collaborators are handled as follows:
- The body's center is a parameter of `Update`.
- The wander position and bounds are parameters of `GetNextCoords`.
- The two random draws of `rnd.between` are parameters. Their required ranges are preconditions.
- `fuzzyEqual(a, b, 1)` is the predicate `|a - b| < 1`.
- The velocity vector is either `Stopped` or `Aim(point, speed)`.
- Callbacks are `Called` events in the ghost `trace`. Each event records the queue and the velocity that the callback observes.

## Model

| member | source | states |
|---|---|---|
| Entity.Prefab.constructor | src/objects/Prefab.ts:2-25 | `speed.current` is the record's own `current` field when it has one, and `speed.value` otherwise. The mode is null, the queue is empty, the body is at rest and the timer is not running. The velocity invariant holds. |
| Entity.Prefab.Update | src/objects/Prefab.ts:27-48 | With an empty queue, or with the center not within 1 of the front target on both axes, nothing changes and nothing is emitted. On arrival, exactly the front target is removed and the rest keeps its order. The events are, in order: stop, shift, an aim at the new front (only if one remains), then the call of the removed target's callback (only if it is a function). The callback observes the advanced queue and the new velocity. The invariant is preserved. |
| Entity.Prefab.SetMode | src/objects/Prefab.ts:50-52 | The mode becomes the given value. Nothing else changes. |
| Entity.Prefab.SetSpeed | src/objects/Prefab.ts:54-64 | An exactly equal speed changes nothing and sends no velocity. A different speed replaces `current`. When the queue is non-empty, the body is then re-aimed at the unchanged front target with the new speed. The queue is never modified. |
| Entity.Prefab.SetVelocity | src/objects/Prefab.ts:66-69 | The body is aimed at the given point with the current speed, and one aim event is emitted. Aiming at the front target gives a state where the velocity invariant holds. |
| Entity.Prefab.MoveTo | src/objects/Prefab.ts:71-83 | With a target, the queue becomes exactly that target and the body is aimed at it with the current speed. Without a target, the body stops and the queue becomes empty. The events are that one aim, or that one stop. Both hold whatever the prior state, and the invariant holds afterwards. |
| Entity.Prefab.AddMoveTarget | src/objects/Prefab.ts:144-150 | The queue becomes the old queue followed by the target. When the queue was empty, the body is aimed at the target exactly as moveTo would do. Otherwise the velocity is unchanged and nothing is emitted. |
| Entity.Prefab.Stop | src/objects/Prefab.ts:152-154 | The velocity becomes zero and one stop event is emitted. The queue is untouched. The velocity invariant holds afterwards, from any state. |
| Entity.Prefab.StopWandering | src/objects/Prefab.ts:156-159 | The queue is empty, the body is stopped and the timer is stopped. The events are a stop followed by a timer stop. |
| Entity.Prefab.Kill | src/objects/Prefab.ts:165-170 | The mode is null, the queue is empty and the body is stopped, from any prior state. The only event is one stop. |
| Motion.Stop | src/objects/Prefab.ts:152-154 | The velocity is zero and the only event is one stop. The result is coherent. The queue, speed, mode and timer are unchanged. |
| Motion.SetVelocity | src/objects/Prefab.ts:66-69 | The velocity is aimed at the point with the current speed, and the only event is that aim. Aiming at the front target gives a coherent state. The queue and settings are unchanged. |
| Motion.MoveTo | src/objects/Prefab.ts:71-83 | With a target, the queue is exactly that target and the body is aimed at it with the current speed. Without one, the queue is empty and the body is stopped. The result is coherent from any state. Speed, mode and timer are unchanged. |
| Motion.AddMoveTarget | src/objects/Prefab.ts:144-150 | The queue gains the target at the back. Coherence is preserved. Speed, mode and timer are unchanged. |
| Motion.Update | src/objects/Prefab.ts:27-48 | The queue is unchanged or loses exactly its front. Coherence is preserved. Speed, mode and timer are unchanged. |
| Motion.SetSpeed | src/objects/Prefab.ts:54-64 | `current` becomes the given value and the nominal value stays. Queue, mode and timer are unchanged. Coherence is preserved. |
| Motion.StopWandering | src/objects/Prefab.ts:156-159 | From any state, the queue is empty, the body is stopped and the timer is not running. Speed and mode are unchanged. |
| Motion.Kill | src/objects/Prefab.ts:165-170 | From any state, the mode is null, the queue is empty and the body is stopped. Speed and timer are unchanged. |
| Motion.SetVelocityOffFront | src/objects/Prefab.ts:66-69 | Aiming at a point other than the front target of a non-empty queue leaves the velocity stale: the state is not coherent. |
| Motion.MovingPreserved | src/objects/Prefab.ts:27-83 | A non-empty queue means an aimed body. moveTo, kill, stopWandering and setVelocity establish this from any state. addMoveTarget, update and setSpeed preserve it. |
| Motion.StopStalls | src/objects/Prefab.ts:144-154 | After stop() on a non-empty queue, the entity has queued targets and a stopped body. A following addMoveTarget only appends and leaves the body stopped, with no events. |
| Motion.MoveToForgetsPast | src/objects/Prefab.ts:71-83 | Two states with the same current speed leave the same queue and velocity after moveTo. That queue is the single target, or empty and stopped for null. |
| Motion.AddToIdleIsMoveTo | src/objects/Prefab.ts:144-147 | On an empty queue, addMoveTarget equals moveTo: the same state and the same events. |
| Motion.SetSpeedTwice | src/objects/Prefab.ts:54-57 | A second setSpeed with the same value changes nothing and emits nothing. |
| Motion.NoArrivalNoChange | src/objects/Prefab.ts:28-33 | A tick that does not reach the front target leaves the state unchanged and emits nothing. |
| Motion.ArrivalTolerance | src/objects/Prefab.ts:30-33 | Being 0.9 away on each axis counts as arrival. Being 1.5 away on one axis does not, and neither does exactly 1. |
| Motion.ArrivalWithNextLeg | src/objects/Prefab.ts:34-46 | For the queue [A with callback, B] with the body at A: the queue becomes [B] and the body is aimed at B. The events are stop, shift A, aim at B, then A's callback, which observes [B] and the velocity toward B. |
| Motion.AddAllAppends | src/objects/Prefab.ts:144-150 | Successive addMoveTarget calls append their targets in call order. A body already moving keeps its velocity. |
| Motion.ArrivalShiftsFront | src/objects/Prefab.ts:34-38 | A tick with the center exactly on the front target removes exactly that target. |
| Motion.ArrivalAnywhere | src/objects/Prefab.ts:34-46 | A tick whose center is within 1 of the front target on both axes has the same new state and events as a tick exactly on it, so the FIFO results hold for every arriving tick. |
| Motion.ArrivalEvents | src/objects/Prefab.ts:34-46 | The events of an arrival are stop, then the shift of the front target, then events that neither complete a target nor call a callback (the aim). The last part calls exactly the front target's callback when it is a function. |
| Motion.ArrivalAtFront | src/objects/Prefab.ts:34-46 | An arrival completes exactly the front target and invokes exactly its function callback. |
| Motion.ArrivalsFirst | src/objects/Prefab.ts:27-48 | Draining a non-empty queue is one arrival at the front, which shortens the queue by one, followed by draining the rest. |
| Motion.ArrivalsQueue | src/objects/Prefab.ts:27-48 | n arrivals remove the first n targets. The rest of the queue waits in order. |
| Motion.ArrivalsComplete | src/objects/Prefab.ts:27-48 | One arrival per queued target completes every target in queue order. |
| Motion.ArrivalsInvoke | src/objects/Prefab.ts:27-48 | One arrival per queued target invokes the function callbacks in queue order. |
| Motion.Fifo | src/objects/Prefab.ts:144-150 | Targets added with addMoveTarget, after those already queued, are completed and have their callbacks invoked in the order they were added. The queue is empty at the end. |
| Wander.Directions | src/objects/Prefab.ts:96-107 | Each direction is listed exactly when its strict comparison holds: left iff x > left, right iff x < right, top iff y > top, bottom iff y < bottom. Each is listed once, in the order left, right, top, bottom. |
| Wander.EligibleIffSpanNonEmpty | src/objects/Prefab.ts:96-123 | A direction is eligible exactly when its random range is non-empty. |
| Wander.GetNextCoords | src/objects/Prefab.ts:85-127 | At most one coordinate changes. Left gives x in [left, x-1], right gives x in [x+1, right], top gives y in [top, y-1] and bottom gives y in [y+1, bottom]. The result is the drawn coordinate on the drawn direction's axis. With no eligible direction, the position is returned unchanged. |

## Left out

- Sprite and physics setup in the constructor is not modelled: the sprite, the physics body, the anchor, the name and the back-reference from the sprite (src/objects/Prefab.ts:13-19). It is engine glue. The constructor's `x`, `y`, sprite key, sprite name and `props` are therefore not parameters.
- The speed record's fields other than `current` and `value` are not modelled. The entity never reads or writes them.
- The trigonometry of `setVelocity` is not modelled: the angle between the body's center and the target, and the vector built from that angle. It is floating-point engine code. A velocity is only `Stopped` or `Aim(point, speed)`, so a zero speed still reads as an aim.
- Positions and speeds are exact reals. Floating-point rounding and NaN are not modelled.
- Entity.Prefab.SetVelocity: keeps the velocity invariant only when it aims at the front target. `setVelocity` is public, and a call from outside toward another point leaves the velocity aimed away from the front target (`Motion.SetVelocityOffFront`). The entity's own calls always aim at the front target.
- Entity.Prefab.Stop: keeps `Coherent` but not `Moving`. The public `stop()` zeroes the velocity and leaves the queue, so the rule "non-empty queue iff in directed motion" holds in one direction only after it (`Motion.StopStalls`). A stopped entity with queued targets stays still, even across `addMoveTarget`, until `moveTo`, a `setSpeed` with a different value, a direct `setVelocity`, or an arrival at the front target while another target is queued sets it moving again.
- Velocity changes made by the physics engine itself are not modelled, for example collisions or world bounds. `Valid()` assumes that only the entity changes the velocity.
- Callback bodies are not modelled. A callback is recorded as an event, so a callback that re-enters the entity (for example by calling `moveTo`) is not modelled.
- Entity.Prefab.AddMoveTarget: accepts only a present target. In the source, null on an empty queue goes through `moveTo(null)`, and null on a non-empty queue is pushed and makes a later `update` fail when it destructures that entry.
- Entity.Prefab.AddMoveTarget: the queue holds target values. The source pushes the caller's own object, while `moveTo` stores a copy of x, y and callback, so later changes the caller makes to a pushed object (aliasing) are not modelled.
- The default bounds of `getNextCoords` are not modelled (src/objects/Prefab.ts:87-94). They are computed from the sprite's extents, the world size and a global field offset that this file does not define. Bounds are always passed explicitly.
- Wander.GetNextCoords: takes integer positions and bounds. With integers, `Math.round` is the identity and the engine's random integer draw lands exactly in the stated ranges. Non-integer sprite positions are not modelled.
- `updateProgressBar` is not modelled (src/objects/Prefab.ts:129-142). It only draws, using engine graphics primitives and an engine clamp.
- `revive`, the sprite half of `kill`, and the staying timer's internals are not modelled. They are engine lifecycle. The timer is reduced to the flag `timerRunning`. Code outside this file starts the timer by setting the flag, and `stopWandering` clears it.
