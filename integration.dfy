/** The integrator of `fire_scene::update_particles`: one semi-implicit Euler
    step per particle (the velocity first, then the position by the new
    velocity), then the order-preserving removal of expired particles. */
module Integration {
  import opened Vectors
  import opened Particles

  const Buoyancy: real := 2.0
  const CenteringStrength: real := 4.0
  const Damping: real := 0.95
  const Turbulence: real := 2.0

  /** One integration step of one particle at simulation time `now`.
      `noise` stands for `noise_perlin`, sampled at the particle's position
      before it moves. Buoyancy acts on the vertical velocity only; centering,
      damping and turbulence act on the horizontal components; the position
      then moves by the updated velocity and one step of life is spent. */
  function Step(p: Particle, dt: real, now: real, noise: Vec3 -> real): (q: Particle)
    ensures q.velocity.y == p.velocity.y + 2.0 * dt
    ensures q.position == Add(p.position, Scale(dt, q.velocity))
    ensures q.life == p.life - dt
    ensures q.maxLife == p.maxLife && q.size == p.size && q.rotationOffset == p.rotationOffset
  {
    var nx := noise(Vec3(p.position.x * 1.5, p.position.y * 2.0 - now * 2.0, now));
    var nz := noise(Vec3(p.position.z * 1.5, p.position.y * 2.0 - now * 2.0, now + 10.0));
    var vx := (p.velocity.x - p.position.x * CenteringStrength * dt) * Damping + nx * Turbulence * dt;
    var vz := (p.velocity.z - p.position.z * CenteringStrength * dt) * Damping + nz * Turbulence * dt;
    var v := Vec3(vx, p.velocity.y + Buoyancy * dt, vz);
    p.(position := Add(p.position, Scale(dt, v)), velocity := v, life := p.life - dt)
  }

  /** A non-negative step never raises a particle's life above its lifetime,
      and spends exactly `dt` of it. */
  lemma StepKeepsWellFormed(p: Particle, dt: real, now: real, noise: Vec3 -> real)
    requires 0.0 <= dt && WellFormed(p)
    ensures WellFormed(Step(p, dt, now, noise))
    ensures Step(p, dt, now, noise).life <= p.life
  {
  }

  /** The update loop's effect: every particle stepped once, in place. */
  function StepAll(pool: seq<Particle>, dt: real, now: real, noise: Vec3 -> real): (r: seq<Particle>)
    ensures |r| == |pool|
    ensures forall i :: 0 <= i < |pool| ==> r[i] == Step(pool[i], dt, now, noise)
  {
    seq(|pool|, i requires 0 <= i < |pool| => Step(pool[i], dt, now, noise))
  }

  /** How many particles of `s` the culling pass drops. */
  function CountExpired(s: seq<Particle>): nat {
    if s == [] then 0
    else CountExpired(s[..|s| - 1]) + (if Alive(s[|s| - 1]) then 0 else 1)
  }

  /** `erase(remove_if(..., life <= 0))`: the particles of `s` still alive, in
      their original order. The pool shrinks by exactly the number dropped. */
  function Survivors(s: seq<Particle>): (r: seq<Particle>)
    ensures |r| + CountExpired(s) == |s|
  {
    if s == [] then []
    else
      var front, last := s[..|s| - 1], s[|s| - 1];
      assert s == front + [last];
      Survivors(front) + (if Alive(last) then [last] else [])
  }

  /** A particle is kept exactly when it is alive, and culling only ever
      removes: the survivors are a sub-multiset of the pool. */
  lemma {:induction false} SurvivorsMembers(s: seq<Particle>)
    ensures forall x :: x in Survivors(s) <==> x in s && Alive(x)
    ensures multiset(Survivors(s)) <= multiset(s)
    decreases |s|
  {
    if s != [] {
      var front, last := s[..|s| - 1], s[|s| - 1];
      assert s == front + [last];
      SurvivorsMembers(front);
    }
  }

  /** Culling distributes over concatenation: it never reorders particles
      across any cut of the pool. With `Survivors([p])` this pins it down as
      the order-preserving filter. */
  lemma {:induction false} SurvivorsAppend(a: seq<Particle>, b: seq<Particle>)
    ensures Survivors(a + b) == Survivors(a) + Survivors(b)
    decreases |b|
  {
    if b == [] {
      assert a + b == a;
    } else {
      var front, last := b[..|b| - 1], b[|b| - 1];
      assert (a + b)[..|a + b| - 1] == a + front;
      assert (a + b)[|a + b| - 1] == last;
      SurvivorsAppend(a, front);
    }
  }

  /** A single particle survives exactly when it is alive. */
  lemma SurvivorsSingle(p: Particle)
    ensures Survivors([p]) == if Alive(p) then [p] else []
  {
    assert [p][..0] == [];
  }

  /** Culling one more particle of a pool extends the survivors of the
      prefix by that particle exactly when it is alive. */
  lemma SurvivorsPrefix(s: seq<Particle>, n: nat)
    requires n < |s|
    ensures Survivors(s[..n + 1]) == Survivors(s[..n]) + (if Alive(s[n]) then [s[n]] else [])
  {
    assert s[..n + 1] == s[..n] + [s[n]];
    SurvivorsAppend(s[..n], [s[n]]);
    SurvivorsSingle(s[n]);
  }

  /** The whole update pass. */
  function UpdatePool(pool: seq<Particle>, dt: real, now: real, noise: Vec3 -> real): seq<Particle> {
    Survivors(StepAll(pool, dt, now, noise))
  }

  /** After an update with a non-negative step every pooled particle has
      0 < life <= maxLife, and the pool has not grown. */
  lemma UpdateKeepsLive(pool: seq<Particle>, dt: real, now: real, noise: Vec3 -> real)
    requires 0.0 <= dt && AllWellFormed(pool)
    ensures AllLive(UpdatePool(pool, dt, now, noise))
    ensures |UpdatePool(pool, dt, now, noise)| <= |pool|
  {
    var stepped := StepAll(pool, dt, now, noise);
    var r := Survivors(stepped);
    SurvivorsMembers(stepped);
    forall i | 0 <= i < |r| ensures Live(r[i]) {
      assert r[i] in r;
      var j :| 0 <= j < |stepped| && stepped[j] == r[i];
      StepKeepsWellFormed(pool[j], dt, now, noise);
    }
  }

  /** One frame of the host loop, as seen by the integrator. */
  datatype Tick = Tick(dt: real, now: real)

  function Elapsed(ticks: seq<Tick>): real {
    if ticks == [] then 0.0 else ticks[0].dt + Elapsed(ticks[1..])
  }

  predicate ForwardTicks(ticks: seq<Tick>) {
    forall i :: 0 <= i < |ticks| ==> 0.0 <= ticks[i].dt
  }

  /** A run of frames with emission switched off. */
  function RunIdle(pool: seq<Particle>, ticks: seq<Tick>, noise: Vec3 -> real): seq<Particle>
    decreases |ticks|
  {
    if ticks == [] then pool
    else RunIdle(UpdatePool(pool, ticks[0].dt, ticks[0].now, noise), ticks[1..], noise)
  }

  predicate LivesAtMost(pool: seq<Particle>, m: real) {
    forall i :: 0 <= i < |pool| ==> pool[i].life <= m
  }

  /** While idle, the pool stays live and never grows, and a bound `m` on
      every life at the start drops by the whole elapsed time. */
  lemma {:induction false} IdleRun(pool: seq<Particle>, ticks: seq<Tick>, noise: Vec3 -> real, m: real)
    requires AllLive(pool) && LivesAtMost(pool, m) && ForwardTicks(ticks)
    ensures AllLive(RunIdle(pool, ticks, noise))
    ensures LivesAtMost(RunIdle(pool, ticks, noise), m - Elapsed(ticks))
    ensures |RunIdle(pool, ticks, noise)| <= |pool|
    decreases |ticks|
  {
    if ticks != [] {
      var t := ticks[0];
      assert 0.0 <= t.dt;
      var next := UpdatePool(pool, t.dt, t.now, noise);
      UpdateKeepsLive(pool, t.dt, t.now, noise);
      var stepped := StepAll(pool, t.dt, t.now, noise);
      SurvivorsMembers(stepped);
      forall i | 0 <= i < |next| ensures next[i].life <= m - t.dt {
        assert next[i] in Survivors(stepped);
        var j :| 0 <= j < |stepped| && stepped[j] == next[i];
      }
      IdleRun(next, ticks[1..], noise, m - t.dt);
    }
  }

  /** While idle, every particle still pooled descends from one of the
      starting pool that has lost exactly the whole elapsed time from its
      life, and kept its lifetime and size. */
  lemma {:induction false} IdleRunLives(pool: seq<Particle>, ticks: seq<Tick>, noise: Vec3 -> real)
    ensures forall x :: x in RunIdle(pool, ticks, noise) ==>
              exists y :: y in pool && x.life == y.life - Elapsed(ticks) && x.maxLife == y.maxLife && x.size == y.size
    decreases |ticks|
  {
    if ticks != [] {
      var t := ticks[0];
      var next := UpdatePool(pool, t.dt, t.now, noise);
      var stepped := StepAll(pool, t.dt, t.now, noise);
      SurvivorsMembers(stepped);
      IdleRunLives(next, ticks[1..], noise);
      forall x | x in RunIdle(pool, ticks, noise)
        ensures exists y :: y in pool && x.life == y.life - Elapsed(ticks) && x.maxLife == y.maxLife && x.size == y.size
      {
        var z :| z in next && x.life == z.life - Elapsed(ticks[1..]) && x.maxLife == z.maxLife && x.size == z.size;
        var j :| 0 <= j < |stepped| && stepped[j] == z;
        assert pool[j] in pool;
      }
    }
  }

  /** With emission off, the pool is empty once the longest remaining life
      has elapsed: no particle lingers past its expiry. */
  lemma IdlePoolDrains(pool: seq<Particle>, ticks: seq<Tick>, noise: Vec3 -> real, m: real)
    requires AllLive(pool) && LivesAtMost(pool, m) && ForwardTicks(ticks)
    requires m <= Elapsed(ticks)
    ensures RunIdle(pool, ticks, noise) == []
  {
    IdleRun(pool, ticks, noise, m);
    NoneLeft(RunIdle(pool, ticks, noise), m - Elapsed(ticks));
  }

  /** A live pool whose lives are all at most zero is empty. */
  lemma NoneLeft(pool: seq<Particle>, m: real)
    requires AllLive(pool) && LivesAtMost(pool, m) && m <= 0.0
    ensures pool == []
  {
    assert pool != [] ==> pool[0].life <= m;
  }
}
