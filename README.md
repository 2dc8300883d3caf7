# UFO Crop Circles — game-state model

A Dafny model of the game logic inside `UFOCropCirclesGame` (game.js), a browser
game in which a flying saucer roams a field and stamps crop circles into it.
Around the scene set-up and rendering sits a small amount of state that the
game updates in place. This project models that state:

- the **crop-circle action**: a two-state machine (idle / cooling down) gated by
  an energy gauge, which pays 20 energy, records one circle under the UFO and
  counts it, and whose cooldown is cleared by a timer callback;
- **energy regeneration** of 0.2 per frame while energy is below 100;
- **altitude control** (Q up, E down, clamped to [5, 100]) and **velocity**
  (thrust per direction key, then damping by 0.9), with the UFO's position
  following them;
- the **key-state map** written by the keydown and keyup handlers, where a Space
  keydown also triggers the crop-circle action;
- the **particle burst**: its `life` counter, its opacity `1 - life`, and its
  removal from the scene once `life` reaches 1.

Files and modules:

- `game_rules.dfy`, module `GameRules`: the game as a value (`Game`), the input
  events (`KeyDown`, `KeyUp`, `CooldownExpired`, `Frame`), one pure function per
  event, and `Run` over any sequence of events.
- `game_state.dfy`, module `UfoGame`: class `GameState`, with the source's fields
  and one method per handler. Each method changes its fields in place and proves
  `Model() == GameRules.<rule>(old(Model()))` and the invariant `Valid()`.
- `effects.dfy`, module `Effects`: the burst as a value (`Burst`) and as class
  `Effect` with `Tick` (one animation frame of the burst) and `Play` (the chain of
  frames until removal).
- `game_properties.dfy`, module `GameProperties`: lemmas over single events and
  over every event history.

Units. Energy is an integer count of 0.2 steps: the source's 0..100 is 0..500,
the cost of 20 is 100 units, and the regeneration step of 0.2 is 1 unit. The
burst's `life` is an integer count of fiftieths, so a burst runs 50 ticks.
Velocities and positions are Dafny `real`s. All arithmetic in the model is
exact. In the source, repeated `+= 0.2` and `+= 0.02` on doubles can land
slightly off 100 and 1. The model leaves that rounding out on purpose.

The timer. `setTimeout(…, 2000)` becomes the event `CooldownExpired`. The model
keeps only the order of events (trigger first, expiry later), not the 2000 ms.

game.js never clamps energy. It regenerates only while energy is below 100
(game.js:466) and deducts only after the `< 20` guard fails (game.js:373). In
exact arithmetic this keeps energy in [0, 100], which the model proves.

## Model

| member | source | states |
|---|---|---|
| UfoGame.GameState.constructor | game.js:9-20 | a new game has energy 100, no circles, counter 0, idle, altitude 25, zero velocity, no keys held, and the UFO at (0, 25, 0); the invariant holds |
| UfoGame.GameState.CreateCropCircle | game.js:372-402 | refused (no field changes, no burst) exactly when cooling down or energy < 20; otherwise sets the cooldown flag, lowers energy by exactly 20, appends exactly one circle at the UFO's x/z with y = 0.1, increments the counter by exactly 1, and spawns a fresh burst at the UFO's position |
| UfoGame.GameState.CooldownExpired | game.js:399-401 | the timer callback clears the cooldown flag and changes nothing else |
| UfoGame.GameState.RegenTick | game.js:465-468 | adds one regeneration step exactly when energy is below 100, otherwise leaves it; keeps energy in [0, 100] |
| UfoGame.GameState.MovementTick | game.js:307-329 | new velocity, altitude and UFO position are those of the movement rule (thrust, damping by 0.9, Q then E with clamping, position += velocity, y = altitude); keeps the invariant |
| UfoGame.GameState.KeyDown | game.js:286-293 | marks the key held; a burst is spawned exactly when the key is Space and the action is allowed; the new state is that of the crop-circle rule after the key write |
| UfoGame.GameState.KeyUp | game.js:295-297 | marks the key released and changes nothing else |
| UfoGame.GameState.Animate | game.js:471-476 | one frame of game logic is the movement update followed by regeneration |
| GameRules.SetKey | game.js:286-297 | after a keydown the key reads as held, after a keyup as released; every other key reads as before |
| GameRules.Regen | game.js:466-468 | energy is unchanged exactly when it is at or above 100; otherwise it grows by one step; from at most 100 it stays at most 100 |
| GameRules.Climb | game.js:326 | Q raises altitude by 1 below the ceiling and never above 100 |
| GameRules.Descend | game.js:327 | E lowers altitude by 1 above the floor and never below 5 |
| GameRules.Altitude | game.js:325-327 | one frame of height control keeps altitude within [5, 100] |
| GameRules.Init | game.js:9-20 | the initial state (fields of lines 9-20, UFO at (0, 25, 0) from line 215) satisfies the invariant, has no circles and no key held, and allows a crop circle at once |
| GameRules.Create | game.js:372-394 | refused, it returns the state unchanged; accepted or not, it keeps the invariant, only appends to the circle log (earlier circles untouched), keeps counter minus log length fixed, and leaves UFO, altitude and keys alone; the exact four changes are in GameProperties.AcceptedCreate |
| GameRules.Regenerate | game.js:465-468 | regeneration applied to the game changes only the energy field, never lowers it, and keeps the invariant; the step itself is GameRules.Regen |
| GameRules.Cooldown | game.js:399-401 | the cooldown flag is clear afterwards, every other field is as before, and the invariant is kept |
| GameRules.Thrust | game.js:308-319 | the new component is 0.9 times the old one plus 0.9 times the net thrust (speed for the positive key minus speed for the negative key); with both keys or neither it is exactly 0.9 times the old one |
| GameRules.Move | game.js:307-329 | one movement update keeps the invariant, moves the UFO by the new velocity, sets its height to the altitude, and leaves energy, circles, counter, cooldown and keys unchanged |
| GameRules.Step | game.js:286-297 | the dispatch of keydown, keyup, the timer callback and one frame (game.js:471-476): no event but the timer clears the cooldown, a keyup and a non-Space keydown change only the key map, a keydown leaves its key held, and a frame keeps keys and circles |
| Effects.Spawn | game.js:432-436 | a new burst has life 0, is in the scene with a tick due, has not been removed, and is well formed |
| Effects.Opacity | game.js:448 | opacity is 1 at life 0, 0 at life 1, within [0, 1] in between, and above 0 while life is below 1 |
| GameProperties.RefusedCreateChangesNothing | game.js:373 | while cooling down or with energy below 20 the action leaves the whole state unchanged |
| GameProperties.AcceptedCreate | game.js:375-394 | an accepted action does exactly four things and changes nothing else |
| GameProperties.StepKeepsInv | game.js:286-468 | every event keeps energy in [0, 100], counter = number of circles, altitude in [5, 100] and the UFO at that altitude |
| GameProperties.RunKeepsInv | game.js:286-468 | every sequence of events keeps the same invariant |
| GameProperties.ReachableStatesKeepInv | game.js:9-15 | from the initial state, under any history of key events, timer expiries and frames, energy stays in [0, 100] (never negative), the counter equals the number of circles, and altitude stays in [5, 100] |
| GameProperties.OnlyCooldownClears | game.js:399-401 | while cooling down, no sequence of events without the timer's expiry clears the flag |
| GameProperties.KeysIgnoredWhileCooling | game.js:289-291 | while cooling down, any key events (repeated Space presses included) leave energy, counter, circles and the flag unchanged |
| GameProperties.SpaceAfterCooldownCreates | game.js:372-401 | after the timer expires, a Space press with at least 20 energy makes exactly one more circle and costs exactly 20 |
| GameProperties.CoastingDamps | game.js:317-319 | with no key of an axis held, one frame multiplies the velocity component by exactly 0.9, so it keeps its sign and strictly shrinks in magnitude |
| GameProperties.OpposingKeysCancel | game.js:312-315 | W with S, or A with D, gives the same velocity as no key: a pure damping step |
| GameProperties.OpposingKeysCancelInMove | game.js:312-319 | in a frame's movement update, W with S held gives exactly 0.9 times the old z velocity, and A with D held exactly 0.9 times the old x velocity |
| GameProperties.NoKeysDampInMove | game.js:312-319 | in a frame's movement update, with neither W nor S held the z velocity becomes exactly 0.9 times its old value, and likewise x with neither A nor D |
| GameProperties.CoastingFrames | game.js:307-319 | with no movement key held, n frames scale each velocity component by exactly 0.9^n and leave the keys unchanged |
| GameProperties.CoastingNeverReverses | game.js:312-319 | with no movement key held, velocity never changes sign and never grows in magnitude over any number of frames |
| Effects.Advance | game.js:437-454 | a tick raises life by exactly one step and sets opacity to 1 - life; it reschedules while life < 1, and at life = 1 it removes the burst (one removal) and schedules nothing; it keeps a burst well formed |
| Effects.AfterTicks | game.js:436-457 | after k ticks from spawn, life is k fiftieths, the burst is in the scene and scheduled exactly while k < 50, and it has been removed exactly once when k = 50 |
| Effects.RemovedOnce | game.js:450-454 | over any run of scheduled ticks, life grows by exactly one step per tick, a burst is removed at most once, and a removed burst has no tick scheduled |
| Effects.Effect.constructor | game.js:432-457 | a new burst is added to the scene at the given position and its first tick runs at once |
| Effects.Effect.Tick | game.js:437-455 | one tick of the burst equals the value-level tick; life strictly increases |
| Effects.Effect.Play | game.js:450-451 | running the scheduled ticks ends with life = 1, the burst out of the scene, nothing scheduled, and exactly one removal |

## Left out

- Scene construction (scene, lights, terrain, grass field, UFO meshes, UFO particles, starfield): declarative set-up in a 3D library, with no game state.
- Wind field (`updateWind`): sine and cosine on doubles, plus a random scale and rotation each frame, written into an instance buffer of the 3D library.
- Particle positions and their random velocities in the burst: floating-point drift seeded by `Math.random()`. Only `life`, opacity and removal are modelled.
- Mouse look and pointer lock: a browser API, and a clamp to ±π/2, which is irrational.
- `event.preventDefault()` on Space (game.js:290): it only stops the browser's default scrolling and touches no game state.
- UFO rotation and the camera copy: visual-only assignments that no game rule reads.
- `velocity.y`: it is initialised to 0 and never read or written again.
- DOM text in `updateUI`, window resize, the loading-screen hide, light pulsing from `Date.now()`, `renderer.render`, and `requestAnimationFrame` self-scheduling of the main loop: browser and rendering plumbing.
- The 2000 ms timer duration: only the order of trigger and expiry is modelled. Event traces may also contain an expiry with no pending timer. That is a harmless over-approximation, since the expiry then only clears an already clear flag.
- Floating-point rounding of energy, `life` and velocity: energy and `life` are exact integer counts and velocity is exact `real`. In the source, energy may end slightly above 100 after repeated `+= 0.2`, and `life` may miss 1 exactly.
- Effects.Effect.Tick: requires that a tick is scheduled, because the source only runs a tick that `requestAnimationFrame` scheduled.
