/**
 The game object of the UFO crop-circle game, restricted to its game logic:
 the fields the source mutates in place and the handlers and per-frame updates
 that mutate them. Each method is proved against the pure rule of the same
 event in GameRules (`Model() == GameRules.X(old(Model()))`) and keeps the
 invariant `Valid()`.
 */
module UfoGame {
  import opened GameRules
  import opened Effects

  class GameState {
    var energy: int
    var circleCount: int
    var cropCircles: seq<Point>
    var isCreatingCircle: bool
    var altitude: int
    var velocityX: real
    var velocityZ: real
    var ufoPosition: Point
    var keys: map<string, bool>

    function Model(): Game
      reads this
    {
      Game(energy, circleCount, cropCircles, isCreatingCircle, altitude,
           velocityX, velocityZ, ufoPosition, keys)
    }

    ghost predicate Valid()
      reads this
    {
      Inv(Model())
    }

    /** A new game: full energy, no circles, idle, UFO hovering at altitude 25. */
    constructor ()
      ensures Valid()
      ensures Model() == Init()
    {
      energy := EnergyMax;
      circleCount := 0;
      cropCircles := [];
      isCreatingCircle := false;
      altitude := StartAltitude;
      velocityX, velocityZ := 0.0, 0.0;
      ufoPosition := Point(0.0, StartAltitude as real, 0.0);
      keys := map[];
    }

    /**
     The crop-circle action. Refused (nothing changes, no burst) while cooling
     down or with less energy than a circle costs; otherwise it starts the
     cooldown, pays, records one circle under the UFO, counts it, and spawns a
     particle burst at the UFO's position.
     */
    method CreateCropCircle() returns (burst: Effect?)
      requires Valid()
      modifies this
      ensures Valid()
      ensures Model() == Create(old(Model()))
      ensures (burst != null) == CanCreate(old(Model()))
      ensures burst == null ==> unchanged(this)
      ensures burst != null ==>
        && isCreatingCircle
        && energy == old(energy) - CircleCost
        && cropCircles == old(cropCircles) + [CircleUnder(ufoPosition)]
        && circleCount == old(circleCount) + 1
      ensures burst != null ==>
        fresh(burst) && burst.Valid() && burst.origin == ufoPosition && burst.Model() == Advance(Spawn())
    {
      if isCreatingCircle || energy < CircleCost {
        return null;
      }
      isCreatingCircle := true;
      energy := energy - CircleCost;
      cropCircles := cropCircles + [CircleUnder(ufoPosition)];
      circleCount := circleCount + 1;
      burst := new Effect(ufoPosition);
    }

    /** The callback of the cooldown timer: the action becomes available again. */
    method CooldownExpired()
      requires Valid()
      modifies this
      ensures Valid()
      ensures Model() == Cooldown(old(Model()))
      ensures !isCreatingCircle
    {
      isCreatingCircle := false;
    }

    /** Passive energy regeneration of one frame. */
    method RegenTick()
      requires Valid()
      modifies this
      ensures Valid()
      ensures Model() == Regenerate(old(Model()))
      ensures old(energy) < EnergyMax ==> energy == old(energy) + RegenAmount
      ensures old(energy) >= EnergyMax ==> energy == old(energy)
    {
      if energy < EnergyMax {
        energy := energy + RegenAmount;
      }
    }

    /** Horizontal thrust and damping, position, and height control of one frame. */
    method MovementTick()
      requires Valid()
      modifies this
      ensures Valid()
      ensures Model() == Move(old(Model()))
    {
      ghost var g := Model();
      var speed := if Pressed(keys, "ShiftLeft") then BoostSpeed else Speed;
      var vx, vz := velocityX, velocityZ;
      if Pressed(keys, "KeyW") { vz := vz - speed; }
      if Pressed(keys, "KeyS") { vz := vz + speed; }
      assert vz * Damping == Thrust(g.velocityZ, Pressed(keys, "KeyW"), Pressed(keys, "KeyS"), speed);
      if Pressed(keys, "KeyA") { vx := vx - speed; }
      if Pressed(keys, "KeyD") { vx := vx + speed; }
      assert vx * Damping == Thrust(g.velocityX, Pressed(keys, "KeyA"), Pressed(keys, "KeyD"), speed);
      velocityX := vx * Damping;
      velocityZ := vz * Damping;

      if Pressed(keys, "KeyQ") { altitude := Climb(altitude); }
      if Pressed(keys, "KeyE") { altitude := Descend(altitude); }
      assert altitude == Altitude(g.altitude, Pressed(keys, "KeyQ"), Pressed(keys, "KeyE"));

      ufoPosition := Point(ufoPosition.x + velocityX, altitude as real, ufoPosition.z + velocityZ);
    }

    /** The keydown handler: mark the key held; Space also triggers the action. */
    method KeyDown(code: string) returns (burst: Effect?)
      requires Valid()
      modifies this
      ensures Valid()
      ensures Model() == Step(old(Model()), Event.KeyDown(code))
      ensures Pressed(keys, code)
      ensures (burst != null) == (code == "Space" && CanCreate(old(Model())))
      ensures burst != null ==>
        fresh(burst) && burst.Valid() && burst.origin == ufoPosition && burst.Model() == Advance(Spawn())
    {
      keys := SetKey(keys, code, true);
      burst := null;
      if code == "Space" {
        burst := CreateCropCircle();
      }
    }

    /** The keyup handler: mark the key released. */
    method KeyUp(code: string)
      requires Valid()
      modifies this
      ensures Valid()
      ensures Model() == Step(old(Model()), Event.KeyUp(code))
      ensures !Pressed(keys, code)
    {
      keys := SetKey(keys, code, false);
    }

    /** The game-logic part of one animation frame: movement, then regeneration. */
    method Animate()
      requires Valid()
      modifies this
      ensures Valid()
      ensures Model() == Step(old(Model()), Event.Frame)
    {
      MovementTick();
      RegenTick();
    }
  }
}
