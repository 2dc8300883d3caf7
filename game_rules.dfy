/**
 The game-state rules of the UFO crop-circle game, as pure functions on a value
 snapshot of the game. Each function here is the specification of one method of
 UfoGame.GameState; GameProperties proves what the rules promise over any
 sequence of input events.

 Fixed-point units (the source uses JavaScript doubles):
 - energy is counted in units of 0.2, so the source's 0..100 is 0..500, the cost
   of a crop circle (20) is 100 units and one regeneration step (0.2) is 1 unit.
   Repeated `+= 0.2` on doubles can drift slightly above 100; the integer model
   abstracts that rounding away.
 - altitude is an integer in the source too (it starts at 25 and moves by 1).
 - velocities and positions are exact reals, an idealisation of doubles.
 */
module GameRules {

  /** Energy ceiling, 100 in the source (units of 0.2). */
  const EnergyMax: int := 500
  /** Energy spent on one crop circle, 20 in the source. */
  const CircleCost: int := 100
  /** Energy regenerated per frame, 0.2 in the source. */
  const RegenAmount: int := 1

  const StartAltitude: int := 25
  const AltitudeMin: int := 5
  const AltitudeMax: int := 100

  /** Horizontal thrust per frame and direction key, with and without ShiftLeft. */
  const Speed: real := 0.8
  const BoostSpeed: real := 1.5
  /** Factor applied to each horizontal velocity component every frame. */
  const Damping: real := 0.9
  /** Height at which a crop circle is laid on the ground. */
  const CircleHeight: real := 0.1

  datatype Point = Point(x: real, y: real, z: real)

  /** The part of the game object that the game logic reads and writes. */
  datatype Game = Game(
    energy: int,
    circleCount: int,
    cropCircles: seq<Point>,
    isCreatingCircle: bool,
    altitude: int,
    velocityX: real,
    velocityZ: real,
    ufo: Point,
    keys: map<string, bool>)

  /**
   The inputs that drive the game: key events from the browser, the expiry of
   the cooldown timer started by a crop circle, and one animation frame.
   */
  datatype Event = KeyDown(code: string) | KeyUp(code: string) | CooldownExpired | Frame

  /** The state right after construction: full energy, no circles, UFO at (0, 25, 0). */
  function Init(): (r: Game)
    ensures Inv(r) && CanCreate(r)
    ensures r.cropCircles == [] && forall c :: !Pressed(r.keys, c)
  {
    Game(EnergyMax, 0, [], false, StartAltitude, 0.0, 0.0,
         Point(0.0, StartAltitude as real, 0.0), map[])
  }

  /** The invariant every reachable game state keeps. */
  ghost predicate Inv(g: Game)
  {
    && 0 <= g.energy <= EnergyMax
    && g.circleCount == |g.cropCircles|
    && AltitudeMin <= g.altitude <= AltitudeMax
    && g.ufo.y == g.altitude as real
  }

  // ---------------------------------------------------------------- keys

  /** A key counts as held when it has been seen and its last event was a keydown. */
  predicate Pressed(keys: map<string, bool>, code: string)
  {
    code in keys && keys[code]
  }

  /** Records a keydown (down) or keyup (not down) of one key. */
  function SetKey(keys: map<string, bool>, code: string, down: bool): (r: map<string, bool>)
    ensures Pressed(r, code) == down
    ensures forall c :: c != code ==> Pressed(r, c) == Pressed(keys, c)
  {
    keys[code := down]
  }

  // ---------------------------------------------------------------- crop circle

  /** The gate of the crop-circle action: not cooling down and enough energy. */
  predicate CanCreate(g: Game)
  {
    !g.isCreatingCircle && g.energy >= CircleCost
  }

  /** Where a crop circle made now is laid: under the UFO, on the ground. */
  function CircleUnder(ufo: Point): Point
  {
    Point(ufo.x, CircleHeight, ufo.z)
  }

  /** The crop-circle action: refused silently, or pay, record, count and cool down. */
  function Create(g: Game): (r: Game)
    ensures !CanCreate(g) ==> r == g
    ensures Inv(g) ==> Inv(r)
    ensures |g.cropCircles| <= |r.cropCircles| && r.cropCircles[..|g.cropCircles|] == g.cropCircles
    ensures r.circleCount - |r.cropCircles| == g.circleCount - |g.cropCircles|
    ensures r.ufo == g.ufo && r.keys == g.keys && r.altitude == g.altitude
  {
    if !CanCreate(g) then g
    else g.(isCreatingCircle := true,
            energy := g.energy - CircleCost,
            cropCircles := g.cropCircles + [CircleUnder(g.ufo)],
            circleCount := g.circleCount + 1)
  }

  /** The cooldown timer's callback. */
  function Cooldown(g: Game): (r: Game)
    ensures !r.isCreatingCircle
    ensures Inv(g) ==> Inv(r)
    ensures r.(isCreatingCircle := g.isCreatingCircle) == g
  {
    g.(isCreatingCircle := false)
  }

  // ---------------------------------------------------------------- energy

  /** One regeneration step of the energy gauge. */
  function Regen(energy: int): (r: int)
    ensures r == energy <==> energy >= EnergyMax
    ensures energy <= r <= energy + RegenAmount
    ensures energy <= EnergyMax ==> r <= EnergyMax
  {
    if energy < EnergyMax then energy + RegenAmount else energy
  }

  /** Regeneration applied to the game: only the energy field moves. */
  function Regenerate(g: Game): (r: Game)
    ensures r.(energy := g.energy) == g
    ensures g.energy <= r.energy
    ensures Inv(g) ==> Inv(r)
  {
    g.(energy := Regen(g.energy))
  }

  // ---------------------------------------------------------------- movement

  /** Key Q: one step up, never above the ceiling. */
  function Climb(altitude: int): (r: int)
    ensures altitude < AltitudeMax ==> r == altitude + 1
    ensures r <= AltitudeMax
    ensures altitude <= AltitudeMax ==> altitude <= r
  {
    if altitude + 1 < AltitudeMax then altitude + 1 else AltitudeMax
  }

  /** Key E: one step down, never below the floor. */
  function Descend(altitude: int): (r: int)
    ensures altitude > AltitudeMin ==> r == altitude - 1
    ensures AltitudeMin <= r
    ensures AltitudeMin <= altitude ==> r <= altitude
  {
    if altitude - 1 > AltitudeMin then altitude - 1 else AltitudeMin
  }

  /** Height control of one frame: Q is applied first, then E. */
  function Altitude(altitude: int, up: bool, down: bool): (r: int)
    ensures AltitudeMin <= altitude <= AltitudeMax ==> AltitudeMin <= r <= AltitudeMax
  {
    var a := if up then Climb(altitude) else altitude;
    if down then Descend(a) else a
  }

  /**
   One velocity component over one frame: the key toward the negative axis
   subtracts the speed, the key toward the positive axis adds it, then the
   result is damped.
   */
  function Thrust(v: real, negative: bool, positive: bool, speed: real): (r: real)
    ensures negative == positive ==> r == Damping * v
    ensures r == Damping * v + Damping * ((if positive then speed else 0.0) - (if negative then speed else 0.0))
  {
    var a := if negative then v - speed else v;
    var b := if positive then a + speed else a;
    b * Damping
  }

  /** The game-logic part of one frame's movement update. */
  function Move(g: Game): (r: Game)
    ensures Inv(g) ==> Inv(r)
    ensures r.ufo.y == r.altitude as real
    ensures r.ufo.x == g.ufo.x + r.velocityX && r.ufo.z == g.ufo.z + r.velocityZ
    ensures r.energy == g.energy && r.circleCount == g.circleCount && r.cropCircles == g.cropCircles
    ensures r.isCreatingCircle == g.isCreatingCircle && r.keys == g.keys
  {
    var speed := if Pressed(g.keys, "ShiftLeft") then BoostSpeed else Speed;
    var vz := Thrust(g.velocityZ, Pressed(g.keys, "KeyW"), Pressed(g.keys, "KeyS"), speed);
    var vx := Thrust(g.velocityX, Pressed(g.keys, "KeyA"), Pressed(g.keys, "KeyD"), speed);
    var altitude := Altitude(g.altitude, Pressed(g.keys, "KeyQ"), Pressed(g.keys, "KeyE"));
    g.(velocityX := vx,
       velocityZ := vz,
       altitude := altitude,
       ufo := Point(g.ufo.x + vx, altitude as real, g.ufo.z + vz))
  }

  // ---------------------------------------------------------------- events

  /** What one event does to the game. */
  function Step(g: Game, e: Event): (r: Game)
    ensures g.isCreatingCircle && !e.CooldownExpired? ==> r.isCreatingCircle
    ensures e.KeyUp? ==> r.(keys := g.keys) == g
    ensures e.KeyDown? && e.code != "Space" ==> r.(keys := g.keys) == g
    ensures e.KeyDown? ==> Pressed(r.keys, e.code)
    ensures e.Frame? ==> r.keys == g.keys && r.cropCircles == g.cropCircles
  {
    match e
    case KeyDown(code) =>
      var h := g.(keys := SetKey(g.keys, code, true));
      if code == "Space" then Create(h) else h
    case KeyUp(code) => g.(keys := SetKey(g.keys, code, false))
    case CooldownExpired => Cooldown(g)
    case Frame => Regenerate(Move(g))
  }

  /** The game after a sequence of events, first event first. */
  function Run(g: Game, events: seq<Event>): Game
    decreases |events|
  {
    if events == [] then g else Run(Step(g, events[0]), events[1..])
  }
}
