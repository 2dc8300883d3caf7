/**
 The particle burst spawned by a crop circle: a `life` counter that advances by
 a fixed step on every animation tick, drives the opacity, and removes the burst
 from the scene once it reaches 1.

 `life` is counted in fiftieths: the source adds 0.02 per tick and stops at 1,
 so the model adds 1 per tick and stops at 50. Whether fifty additions of 0.02
 on doubles land exactly on 1 is a rounding question the integer count
 abstracts away. The particles' positions and random velocities are not part
 of this model.
 */
module Effects {
  import opened GameRules

  /** Ticks from spawn to removal: life runs from 0 to 1 in steps of 0.02. */
  const Lifetime: nat := 50

  /**
   A value snapshot of a burst. `scheduled` says that another animation tick
   has been requested; `removals` counts how often the burst was taken out of
   the scene.
   */
  datatype Burst = Burst(life: nat, opacity: real, inScene: bool, scheduled: bool, removals: nat)

  /** Opacity as a function of life: 1 - life, with life in fiftieths. */
  function Opacity(life: nat): (r: real)
    ensures life == 0 ==> r == 1.0
    ensures life == Lifetime ==> r == 0.0
    ensures life <= Lifetime ==> 0.0 <= r <= 1.0
    ensures life < Lifetime ==> 0.0 < r
  {
    1.0 - (life as real) / (Lifetime as real)
  }

  /** A burst just added to the scene, before its first tick. */
  function Spawn(): (r: Burst)
    ensures WellFormed(r)
    ensures r.life == 0 && r.inScene && r.scheduled && r.removals == 0
  {
    Burst(0, 1.0, true, true, 0)
  }

  /**
   The shape of every burst: opacity follows life; it stays in the scene and
   keeps ticking exactly while life is below 1; it has been removed once when
   life has reached 1 and never before.
   */
  ghost predicate WellFormed(b: Burst)
  {
    && b.life <= Lifetime
    && b.opacity == Opacity(b.life)
    && b.scheduled == (b.life < Lifetime)
    && b.inScene == (b.life < Lifetime)
    && b.removals == (if b.life == Lifetime then 1 else 0)
  }

  /** One animation tick; only a scheduled burst is ticked. */
  function Advance(b: Burst): (r: Burst)
    requires b.scheduled
    ensures r.life == b.life + 1
    ensures r.opacity == Opacity(r.life)
    ensures WellFormed(b) ==> WellFormed(r)
    ensures r.life < Lifetime ==> r.scheduled && r.removals == b.removals
    ensures r.life >= Lifetime ==> !r.scheduled && !r.inScene && r.removals == b.removals + 1
  {
    var life := b.life + 1;
    if life < Lifetime then
      b.(life := life, opacity := Opacity(life))
    else
      b.(life := life, opacity := Opacity(life), inScene := false, scheduled := false,
         removals := b.removals + 1)
  }

  /** A well-formed burst after n more ticks (only as many as are scheduled). */
  function AdvanceBy(b: Burst, n: nat): Burst
    requires WellFormed(b) && b.life + n <= Lifetime
    decreases n
  {
    if n == 0 then b else AdvanceBy(Advance(b), n - 1)
  }

  /**
   The burst after k ticks from spawn: life is k fiftieths, it is still in the
   scene and scheduled exactly while k < 50, and it has been removed exactly once
   when k == 50.
   */
  lemma {:induction false} AfterTicks(k: nat)
    requires k <= Lifetime
    ensures WellFormed(Spawn())
    ensures AdvanceBy(Spawn(), k)
      == Burst(k, Opacity(k), k < Lifetime, k < Lifetime, if k == Lifetime then 1 else 0)
  {
    if k > 0 {
      AfterTicks(k - 1);
      AdvanceByLast(Spawn(), k - 1);
    }
  }

  /** Ticking n times and then once more is ticking n + 1 times. */
  lemma {:induction false} AdvanceByLast(b: Burst, n: nat)
    requires WellFormed(b) && b.life + n < Lifetime
    ensures WellFormed(AdvanceBy(b, n)) && AdvanceBy(b, n).scheduled
    ensures AdvanceBy(b, n + 1) == Advance(AdvanceBy(b, n))
    decreases n
  {
    if n > 0 {
      AdvanceByLast(Advance(b), n - 1);
    }
  }

  /**
   The life of a burst strictly increases with every tick it receives, and once
   it has been removed no tick is scheduled, so it is never removed again.
   */
  lemma {:induction false} RemovedOnce(b: Burst, n: nat)
    requires WellFormed(b) && b.life + n <= Lifetime
    ensures AdvanceBy(b, n).life == b.life + n
    ensures WellFormed(AdvanceBy(b, n))
    ensures AdvanceBy(b, n).removals <= 1
    ensures !AdvanceBy(b, n).inScene ==> !AdvanceBy(b, n).scheduled
    decreases n
  {
    if n > 0 {
      RemovedOnce(Advance(b), n - 1);
    }
  }

  /** One burst of particles in the scene, driven by its own animation ticks. */
  class Effect {
    /** The UFO's position when the burst was spawned. */
    const origin: Point
    var life: nat
    var opacity: real
    var inScene: bool
    var scheduled: bool
    ghost var removals: nat

    ghost function Model(): Burst
      reads this
    {
      Burst(life, opacity, inScene, scheduled, removals)
    }

    ghost predicate Valid()
      reads this
    {
      WellFormed(Model())
    }

    /** Adds the burst to the scene and runs its first tick straight away. */
    constructor (at: Point)
      ensures Valid() && origin == at
      ensures Model() == Advance(Spawn())
    {
      origin := at;
      life := 0;
      opacity := 1.0;
      inScene := true;
      scheduled := true;
      removals := 0;
      new;
      Tick();
    }

    /** One animation tick: advance life, fade, and either reschedule or remove. */
    method Tick()
      requires Valid() && scheduled
      modifies this
      ensures Valid()
      ensures Model() == Advance(old(Model()))
      ensures life > old(life)
    {
      life := life + 1;
      opacity := Opacity(life);
      if life < Lifetime {
        scheduled := true;
      } else {
        inScene := false;
        scheduled := false;
        removals := removals + 1;
      }
    }

    /** Runs the requested ticks one after another until the burst is gone. */
    method Play()
      requires Valid()
      modifies this
      ensures Valid()
      ensures Model() == AdvanceBy(old(Model()), Lifetime - old(life))
      ensures life == Lifetime && !inScene && !scheduled && removals == 1
    {
      ghost var start := Model();
      while scheduled
        invariant Valid()
        invariant start.life <= life
        invariant Model() == AdvanceBy(start, life - start.life)
        decreases Lifetime - life
      {
        AdvanceByLast(start, life - start.life);
        Tick();
      }
    }
  }
}
