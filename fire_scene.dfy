/** The `fire_scene` class: the particle pool, the GUI flags, the tunables and
    the time accumulator, with the three per-frame stages (emit, update, draw)
    and the frame that chains them. Rendering, the camera, the timer and the
    GUI widgets are outside the model; the timer's readings are parameters. */
module Scene {
  import opened Vectors
  import opened Particles
  import opened Emission
  import opened Integration
  import opened Shading

  /** The longest step one frame may simulate, in seconds. */
  const MaxStep: real := 0.05

  /** The frame step: the elapsed time clamped to [0, MaxStep], so a stalled
      frame never integrates more than 50 ms and time never runs backwards. */
  function ClampStep(elapsed: real): (dt: real)
    ensures 0.0 <= dt <= MaxStep
    ensures 0.0 <= elapsed <= MaxStep ==> dt == elapsed
    ensures elapsed < 0.0 ==> dt == 0.0
    ensures MaxStep < elapsed ==> dt == MaxStep
  {
    if elapsed < 0.0 then 0.0 else if elapsed > MaxStep then MaxStep else elapsed
  }

  /** The pool after the emit stage of one frame. */
  function EmitStage(pool: seq<Particle>, acc: real, gui: GuiParameters, dt: real, rate: real, capacity: nat,
                     sample: nat -> SpawnDraws, trig: Trig, lifetime: real, baseSize: real): seq<Particle>
  {
    if gui.emit then Emitted(pool, EmissionCount(acc, dt, rate), capacity, sample, trig, lifetime, baseSize)
    else pool
  }

  /** The accumulator after the emit stage of one frame. */
  function AccumulatorStage(acc: real, gui: GuiParameters, dt: real, rate: real): real {
    if gui.emit then NextAccumulator(acc, dt, rate) else acc
  }

  /** A whole frame keeps the pool within capacity and every pooled particle
      live, and the accumulator non-negative, whatever the tunables are: a
      spawn with a non-positive lifetime is culled by the same frame's update. */
  lemma FramePreservesInvariant(pool: seq<Particle>, acc: real, gui: GuiParameters, elapsed: real, now: real,
                                rate: real, capacity: nat, sample: nat -> SpawnDraws, trig: Trig,
                                lifetime: real, baseSize: real, noise: Vec3 -> real)
    requires |pool| <= capacity && 0.0 <= acc && AllLive(pool)
    ensures var dt := ClampStep(elapsed);
            var next := UpdatePool(EmitStage(pool, acc, gui, dt, rate, capacity, sample, trig, lifetime, baseSize), dt, now, noise);
            && |next| <= capacity
            && AllLive(next)
            && 0.0 <= AccumulatorStage(acc, gui, dt, rate)
  {
    var dt := ClampStep(elapsed);
    var emitted := EmitStage(pool, acc, gui, dt, rate, capacity, sample, trig, lifetime, baseSize);
    assert AllWellFormed(pool);
    assert |emitted| <= capacity && AllWellFormed(emitted);
    UpdateKeepsLive(emitted, dt, now, noise);
    AccumulatorStep(acc, dt, rate);
  }

  class FireScene {
    var particles: seq<Particle>
    var gui: GuiParameters
    var maxParticles: nat
    var particleSize: real
    var emissionRate: real
    var particleLifetime: real
    var timeAccumulator: real

    /** The GUI flags and the tunables, which the frame stages only read. */
    function Settings(): (GuiParameters, nat, real, real, real)
      reads this
    {
      (gui, maxParticles, particleSize, emissionRate, particleLifetime)
    }

    /** What holds between frames. */
    ghost predicate Valid()
      reads this
    {
      |particles| <= maxParticles && 0.0 <= timeAccumulator && AllLive(particles)
    }

    /** The member initialisers: an empty pool, a cap of 10000, base size
        0.10, 100 spawns per second, a lifetime of 1 s, every flag on. */
    constructor ()
      ensures particles == [] && timeAccumulator == 0.0
      ensures gui == DefaultGui && maxParticles == 10000
      ensures particleSize == 0.10 && emissionRate == 100.0 && particleLifetime == 1.0
      ensures Valid()
    {
      particles := [];
      gui := DefaultGui;
      maxParticles := 10000;
      particleSize := 0.10;
      emissionRate := 100.0;
      particleLifetime := 1.0;
      timeAccumulator := 0.0;
    }

    /** `emit_particles`: unless emission is off, absorb `dt` into the
        accumulator, take the whole number of spawns due, debit their time,
        and append that many fresh particles, stopping early at capacity.
        `sample(i)` holds the draws of the i-th spawn of this call. */
    method Emit(dt: real, sample: nat -> SpawnDraws, trig: Trig)
      modifies this
      ensures Settings() == old(Settings())
      ensures !gui.emit ==> particles == old(particles) && timeAccumulator == old(timeAccumulator)
      ensures particles == EmitStage(old(particles), old(timeAccumulator), gui, dt, emissionRate, maxParticles,
                                     sample, trig, particleLifetime, particleSize)
      ensures timeAccumulator == AccumulatorStage(old(timeAccumulator), gui, dt, emissionRate)
    {
      if !gui.emit {
        return;
      }
      timeAccumulator := timeAccumulator + dt;
      var count := Truncate(emissionRate * timeAccumulator);
      assert count == EmissionCount(old(timeAccumulator), dt, emissionRate);
      if count <= 0 {
        return;
      }
      assert emissionRate != 0.0;
      timeAccumulator := timeAccumulator - count as real / emissionRate;
      ghost var debited := timeAccumulator;

      var i := 0;
      while i < count
        invariant Settings() == old(Settings()) && timeAccumulator == debited
        invariant 0 <= i <= count
        invariant i == 0 || |old(particles)| + i <= maxParticles
        invariant particles == old(particles) + SpawnBatch(i, sample, trig, particleLifetime, particleSize)
      {
        if |particles| >= maxParticles {
          break;
        }
        var p := Spawn(sample(i), trig, particleLifetime, particleSize);
        particles := particles + [p];
        i := i + 1;
      }
      assert i == SpawnCount(count, |old(particles)|, maxParticles);
    }

    /** `update_particles`: step every particle in place, then drop the
        expired ones. `now` is the timer's current time. */
    method Update(dt: real, now: real, noise: Vec3 -> real)
      modifies this
      ensures Settings() == old(Settings()) && timeAccumulator == old(timeAccumulator)
      ensures particles == UpdatePool(old(particles), dt, now, noise)
    {
      Advance(dt, now, noise);
      Cull();
    }

    /** The integration loop: every particle stepped once, in place. */
    method Advance(dt: real, now: real, noise: Vec3 -> real)
      modifies this
      ensures Settings() == old(Settings()) && timeAccumulator == old(timeAccumulator)
      ensures particles == StepAll(old(particles), dt, now, noise)
    {
      var i := 0;
      while i < |particles|
        invariant Settings() == old(Settings()) && timeAccumulator == old(timeAccumulator)
        invariant 0 <= i <= |particles| == |old(particles)|
        invariant forall j :: 0 <= j < i ==> particles[j] == Step(old(particles)[j], dt, now, noise)
        invariant forall j :: i <= j < |particles| ==> particles[j] == old(particles)[j]
      {
        particles := particles[i := Step(particles[i], dt, now, noise)];
        i := i + 1;
      }
    }

    /** `erase(remove_if(..., life <= 0))`: the survivors are moved down over
        the expired particles in their order, then the tail is cut off. */
    method Cull()
      modifies this
      ensures Settings() == old(Settings()) && timeAccumulator == old(timeAccumulator)
      ensures particles == Survivors(old(particles))
    {
      ghost var orig := particles;
      var w, r := 0, 0;
      while r < |particles|
        invariant Settings() == old(Settings()) && timeAccumulator == old(timeAccumulator)
        invariant 0 <= w <= r <= |particles| == |orig|
        invariant forall j :: r <= j < |particles| ==> particles[j] == orig[j]
        invariant particles[..w] == Survivors(orig[..r])
      {
        var p := particles[r];
        SurvivorsPrefix(orig, r);
        if Alive(p) {
          ghost var kept := particles[..w];
          particles := particles[w := p];
          assert particles[..w + 1] == kept + [p];
          w := w + 1;
        }
        r := r + 1;
      }
      assert orig[..r] == orig;
      particles := particles[..w];
    }

    /** `draw_particles`: one sprite per pooled particle, in pool order, with
        the colour and size of the selected style. */
    method DrawParticles(now: real, noise: Vec3 -> real) returns (sprites: seq<Sprite>)
      requires AllLive(particles)
      ensures |sprites| == |particles|
      ensures forall i :: 0 <= i < |particles| ==> sprites[i] == Shade(particles[i], gui.realisticFire, now, noise)
    {
      sprites := [];
      var i := 0;
      while i < |particles|
        invariant 0 <= i <= |particles|
        invariant |sprites| == i
        invariant forall j :: 0 <= j < i ==> sprites[j] == Shade(particles[j], gui.realisticFire, now, noise)
      {
        sprites := sprites + [Shade(particles[i], gui.realisticFire, now, noise)];
        i := i + 1;
      }
    }

    /** `display_frame`: clamp the elapsed time, emit, update, then draw. A
        frame started in a valid state ends in one. */
    method DisplayFrame(elapsed: real, now: real, sample: nat -> SpawnDraws, trig: Trig, noise: Vec3 -> real)
      returns (sprites: seq<Sprite>)
      requires Valid()
      modifies this
      ensures Valid()
      ensures Settings() == old(Settings())
      ensures var dt := ClampStep(elapsed);
              && timeAccumulator == AccumulatorStage(old(timeAccumulator), gui, dt, emissionRate)
              && particles == UpdatePool(EmitStage(old(particles), old(timeAccumulator), gui, dt, emissionRate,
                                                   maxParticles, sample, trig, particleLifetime, particleSize),
                                         dt, now, noise)
      ensures |sprites| == |particles|
      ensures forall i :: 0 <= i < |particles| ==> sprites[i] == Shade(particles[i], gui.realisticFire, now, noise)
    {
      FramePreservesInvariant(particles, timeAccumulator, gui, elapsed, now, emissionRate, maxParticles,
                              sample, trig, particleLifetime, particleSize, noise);
      var dt := ClampStep(elapsed);
      Emit(dt, sample, trig);
      Update(dt, now, noise);
      sprites := DrawParticles(now, noise);
    }
  }
}
