/**
 What the game rules promise over single events and over any sequence of
 input events: the gate of the crop-circle action, the invariant of energy,
 circle count and altitude, the cooldown, and velocity damping.
 */
module GameProperties {
  import opened GameRules

  // ---------------------------------------------------------------- crop circle

  /** A refused crop-circle action changes nothing at all. */
  lemma RefusedCreateChangesNothing(g: Game)
    requires !CanCreate(g)
    ensures Create(g) == g
  {
  }

  /**
   An accepted crop-circle action starts the cooldown, costs exactly one circle's
   energy, appends exactly one circle under the UFO, counts it, and changes
   nothing else.
   */
  lemma AcceptedCreate(g: Game)
    requires CanCreate(g)
    ensures var r := Create(g);
      && r.isCreatingCircle
      && r.energy == g.energy - CircleCost
      && r.cropCircles == g.cropCircles + [Point(g.ufo.x, CircleHeight, g.ufo.z)]
      && r.circleCount == g.circleCount + 1
      && r.(isCreatingCircle := g.isCreatingCircle, energy := g.energy,
            cropCircles := g.cropCircles, circleCount := g.circleCount) == g
  {
  }

  /** Every event keeps the invariant. */
  lemma StepKeepsInv(g: Game, e: Event)
    requires Inv(g)
    ensures Inv(Step(g, e))
  {
  }

  /** Every sequence of events keeps the invariant. */
  lemma {:induction false} RunKeepsInv(g: Game, events: seq<Event>)
    requires Inv(g)
    ensures Inv(Run(g, events))
    decreases |events|
  {
    if events != [] {
      StepKeepsInv(g, events[0]);
      RunKeepsInv(Step(g, events[0]), events[1..]);
    }
  }

  /**
   In every game reached from the start by any input history, energy lies in
   [0, 100] (0..500 units), the circle counter equals the number of recorded
   circles, and the altitude lies in [5, 100] with the UFO at that height.
   */
  lemma {:induction false} ReachableStatesKeepInv(events: seq<Event>)
    ensures var g := Run(Init(), events);
      && 0 <= g.energy <= EnergyMax
      && g.circleCount == |g.cropCircles|
      && AltitudeMin <= g.altitude <= AltitudeMax
  {
    RunKeepsInv(Init(), events);
  }

  // ---------------------------------------------------------------- cooldown

  /** No event other than the cooldown's expiry clears the cooling-down flag. */
  lemma {:induction false} OnlyCooldownClears(g: Game, events: seq<Event>)
    requires g.isCreatingCircle
    requires forall i :: 0 <= i < |events| ==> events[i] != CooldownExpired
    ensures Run(g, events).isCreatingCircle
    decreases |events|
  {
    if events != [] {
      OnlyCooldownClears(Step(g, events[0]), events[1..]);
    }
  }

  /**
   While cooling down, any key events (repeated Space presses among them) leave
   energy, the circle counter, the circles and the cooldown untouched.
   */
  lemma {:induction false} KeysIgnoredWhileCooling(g: Game, events: seq<Event>)
    requires g.isCreatingCircle
    requires forall i :: 0 <= i < |events| ==> events[i].KeyDown? || events[i].KeyUp?
    ensures var r := Run(g, events);
      && r.energy == g.energy
      && r.circleCount == g.circleCount
      && r.cropCircles == g.cropCircles
      && r.isCreatingCircle
    decreases |events|
  {
    if events != [] {
      KeysIgnoredWhileCooling(Step(g, events[0]), events[1..]);
    }
  }

  /**
   Once the cooldown has expired, a Space press with enough energy makes a
   circle again.
   */
  lemma SpaceAfterCooldownCreates(g: Game)
    requires g.energy >= CircleCost
    ensures var r := Run(g, [CooldownExpired, KeyDown("Space")]);
      && r.isCreatingCircle
      && r.energy == g.energy - CircleCost
      && r.circleCount == g.circleCount + 1
      && r.cropCircles == g.cropCircles + [CircleUnder(g.ufo)]
  {
  }

  // ---------------------------------------------------------------- movement

  /** With neither key of an axis held, a velocity component is only damped. */
  lemma CoastingDamps(v: real, speed: real)
    ensures var r := Thrust(v, false, false, speed);
      && r == Damping * v
      && (v > 0.0 ==> 0.0 < r < v)
      && (v < 0.0 ==> v < r < 0.0)
      && (v == 0.0 ==> r == 0.0)
  {
  }

  /** Holding both keys of an axis cancels the thrust: only damping remains. */
  lemma OpposingKeysCancel(v: real, speed: real)
    ensures Thrust(v, true, true, speed) == Thrust(v, false, false, speed)
  {
  }

  /**
   In one frame's movement update, holding W with S leaves only the damping of
   the z component, and holding A with D that of the x component.
   */
  lemma OpposingKeysCancelInMove(g: Game)
    ensures Pressed(g.keys, "KeyW") && Pressed(g.keys, "KeyS") ==> Move(g).velocityZ == Damping * g.velocityZ
    ensures Pressed(g.keys, "KeyA") && Pressed(g.keys, "KeyD") ==> Move(g).velocityX == Damping * g.velocityX
  {
  }

  /**
   In one frame's movement update, with neither W nor S held the z component is
   only damped, and with neither A nor D held the x component is.
   */
  lemma NoKeysDampInMove(g: Game)
    ensures !Pressed(g.keys, "KeyW") && !Pressed(g.keys, "KeyS") ==> Move(g).velocityZ == Damping * g.velocityZ
    ensures !Pressed(g.keys, "KeyA") && !Pressed(g.keys, "KeyD") ==> Move(g).velocityX == Damping * g.velocityX
  {
  }

  /** b to the power n. */
  function Power(b: real, n: nat): real
  {
    if n == 0 then 1.0 else b * Power(b, n - 1)
  }

  /** n animation frames in a row. */
  function Frames(n: nat): seq<Event>
  {
    seq(n, _ => Frame)
  }

  ghost predicate NoMovementKeys(keys: map<string, bool>)
  {
    !Pressed(keys, "KeyW") && !Pressed(keys, "KeyS") &&
    !Pressed(keys, "KeyA") && !Pressed(keys, "KeyD")
  }

  /**
   With no movement key held, n frames scale each horizontal velocity component
   by exactly 0.9^n.
   */
  lemma {:induction false} CoastingFrames(g: Game, n: nat)
    requires NoMovementKeys(g.keys)
    ensures Run(g, Frames(n)).velocityX == Power(Damping, n) * g.velocityX
    ensures Run(g, Frames(n)).velocityZ == Power(Damping, n) * g.velocityZ
    ensures Run(g, Frames(n)).keys == g.keys
    decreases n
  {
    if n > 0 {
      var h := Step(g, Frame);
      assert Frames(n)[1..] == Frames(n - 1);
      CoastingFrames(h, n - 1);
      var p := Power(Damping, n - 1);
      assert p * (Damping * g.velocityX) == (Damping * p) * g.velocityX;
      assert p * (Damping * g.velocityZ) == (Damping * p) * g.velocityZ;
    }
  }

  /**
   With no movement key held, velocity never changes sign and never grows in
   magnitude, however many frames pass.
   */
  lemma {:induction false} CoastingNeverReverses(g: Game, n: nat)
    requires NoMovementKeys(g.keys)
    ensures var v := Run(g, Frames(n)).velocityX;
      && (g.velocityX > 0.0 ==> 0.0 < v <= g.velocityX)
      && (g.velocityX < 0.0 ==> g.velocityX <= v < 0.0)
      && (g.velocityX == 0.0 ==> v == 0.0)
    ensures var v := Run(g, Frames(n)).velocityZ;
      && (g.velocityZ > 0.0 ==> 0.0 < v <= g.velocityZ)
      && (g.velocityZ < 0.0 ==> g.velocityZ <= v < 0.0)
      && (g.velocityZ == 0.0 ==> v == 0.0)
    decreases n
  {
    if n > 0 {
      var h := Step(g, Frame);
      assert Frames(n)[1..] == Frames(n - 1);
      CoastingNeverReverses(h, n - 1);
    }
  }
}
