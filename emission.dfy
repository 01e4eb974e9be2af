/** The emitter of `fire_scene::emit_particles`: the time accumulator that turns
    elapsed seconds into a whole number of spawns, and the spawn of one particle. */
module Emission {
  import opened Vectors
  import opened Particles
  import opened Arith

  // ---------------------------------------------------------------------------
  // The accumulator
  // ---------------------------------------------------------------------------

  /** `static_cast<int>` of a float: truncation toward zero. */
  function Truncate(x: real): (n: int)
    ensures 0.0 <= x ==> n as real <= x < n as real + 1.0
    ensures x < 0.0 ==> n as real - 1.0 < x <= n as real
    ensures n <= 0 <==> x < 1.0
  {
    if x >= 0.0 then x.Floor else -((-x).Floor)
  }

  /** The `count` computed after the accumulator has absorbed `dt`. */
  function EmissionCount(acc: real, dt: real, rate: real): int {
    Truncate(rate * (acc + dt))
  }

  /** The accumulator after one enabled call: it always absorbs `dt`, and when
      at least one spawn is due it is debited the time those spawns consume.
      The division is reached only when `count > 0`, which rules out `rate == 0`. */
  function NextAccumulator(acc: real, dt: real, rate: real): real {
    var count := EmissionCount(acc, dt, rate);
    if count <= 0 then acc + dt
    else
      assert rate != 0.0;
      acc + dt - count as real / rate
  }

  /** How many spawns one enabled call requests (and debits), whether or not the
      pool has room for them. */
  function Requested(acc: real, dt: real, rate: real): nat {
    var count := EmissionCount(acc, dt, rate);
    if count <= 0 then 0 else count
  }

  /** A requested spawn implies a positive rate when the accumulator and the step
      are non-negative: the division by the rate is never by zero or a negative. */
  lemma RequestImpliesPositiveRate(acc: real, dt: real, rate: real)
    requires 0.0 <= acc && 0.0 <= dt
    requires Requested(acc, dt, rate) > 0
    ensures rate > 0.0
  {
    if rate <= 0.0 {
      MulNonPositive(rate, acc + dt);
    }
  }

  /** One enabled call keeps the accumulator non-negative and leaves in it
      exactly the fractional part of the due spawn count, so with a positive
      rate 0 <= acc' < 1 / rate. A non-positive rate requests nothing. */
  lemma AccumulatorStep(acc: real, dt: real, rate: real)
    requires 0.0 <= acc && 0.0 <= dt
    ensures 0.0 <= NextAccumulator(acc, dt, rate)
    ensures rate * NextAccumulator(acc, dt, rate) == rate * (acc + dt) - Requested(acc, dt, rate) as real
    ensures 0.0 < rate ==> Requested(acc, dt, rate) == (rate * (acc + dt)).Floor
    ensures 0.0 < rate ==> 0.0 <= rate * NextAccumulator(acc, dt, rate) < 1.0
    ensures rate <= 0.0 ==> Requested(acc, dt, rate) == 0
  {
    var x := rate * (acc + dt);
    var count := EmissionCount(acc, dt, rate);
    if count > 0 {
      RequestImpliesPositiveRate(acc, dt, rate);
      var next := acc + dt - count as real / rate;
      assert rate * (count as real / rate) == count as real;
      assert rate * next == x - count as real;
      assert count as real <= x;
      DivideBack(count as real, x, rate);
    } else if 0.0 < rate {
      assert 0.0 <= x by { MulNonNeg(rate, acc + dt); }
    } else {
      assert x <= 0.0 by { MulNonPositive(rate, acc + dt); }
    }
  }

  /** From c <= x = rate * y with rate > 0: c / rate <= y. */
  lemma DivideBack(c: real, x: real, rate: real)
    requires 0.0 < rate && c <= x
    ensures c / rate <= x / rate
  {
  }

  // ---------------------------------------------------------------------------
  // Emission over many frames
  // ---------------------------------------------------------------------------

  function Sum(dts: seq<real>): real {
    if dts == [] then 0.0 else dts[0] + Sum(dts[1..])
  }

  predicate AllNonNegative(dts: seq<real>) {
    forall i :: 0 <= i < |dts| ==> 0.0 <= dts[i]
  }

  /** The accumulator after a run of calls, each moving it by `step`. */
  function AccumulatorAfter(acc: real, dts: seq<real>, step: (real, real) -> real): real
    decreases |dts|
  {
    if dts == [] then acc
    else AccumulatorAfter(step(acc, dts[0]), dts[1..], step)
  }

  /** The spawns a run of calls requests, `take` at each call. */
  function RequestedOver(acc: real, dts: seq<real>, step: (real, real) -> real, take: (real, real) -> nat): nat
    decreases |dts|
  {
    if dts == [] then 0
    else take(acc, dts[0]) + RequestedOver(step(acc, dts[0]), dts[1..], step, take)
  }

  /** The per-call rule `step` moves exactly the spawns `take` requests out
      of the accumulator, in units of `rate`. */
  ghost predicate Conserving(rate: real, step: (real, real) -> real, take: (real, real) -> nat) {
    forall a, dt :: rate * step(a, dt) == rate * (a + dt) - take(a, dt) as real
  }

  /** For any per-call rule that moves exactly the spawns it requests out of the
      accumulator, requested plus pending is rate times the time elapsed. */
  lemma {:induction false} RunConserves(acc: real, dts: seq<real>, rate: real,
                                        step: (real, real) -> real, take: (real, real) -> nat)
    requires Conserving(rate, step, take)
    ensures rate * AccumulatorAfter(acc, dts, step) + RequestedOver(acc, dts, step, take) as real
         == rate * (acc + Sum(dts))
    decreases |dts|
  {
    if dts != [] {
      var dt, rest := dts[0], dts[1..];
      var next := step(acc, dt);
      RunConserves(next, rest, rate, step, take);
      Combine(rate, AccumulatorAfter(next, rest, step), RequestedOver(next, rest, step, take) as real,
              next, Sum(rest), acc, dt, take(acc, dt) as real);
    }
  }

  /** The arithmetic of one induction step of `RunConserves`. */
  lemma Combine(rate: real, after: real, later: real, next: real, rest: real, acc: real, dt: real, req: real)
    requires rate * after + later == rate * (next + rest)
    requires rate * next == rate * (acc + dt) - req
    ensures rate * after + (req + later) == rate * (acc + (dt + rest))
  {
    assert rate * (next + rest) == rate * next + rate * rest;
    assert rate * (acc + (dt + rest)) == rate * (acc + dt) + rate * rest;
  }

  /** One enabled call at `rate`, as a rule for `AccumulatorAfter`. */
  function NextRule(rate: real): (real, real) -> real {
    (a, dt) => NextAccumulator(a, dt, rate)
  }

  /** The spawns one enabled call at `rate` requests, as a rule for `RequestedOver`. */
  function RequestRule(rate: real): (real, real) -> nat {
    (a, dt) => Requested(a, dt, rate)
  }

  /** One call moves exactly the requested spawns out of the accumulator. */
  lemma StepConserves(acc: real, dt: real, rate: real)
    ensures rate * NextAccumulator(acc, dt, rate) == rate * (acc + dt) - Requested(acc, dt, rate) as real
  {
    var s := acc + dt;
    var count := EmissionCount(acc, dt, rate);
    if count > 0 {
      assert rate != 0.0;
      assert NextAccumulator(acc, dt, rate) == s - count as real / rate;
      assert Requested(acc, dt, rate) == count;
      DebitArith(rate, s, count as real);
    } else {
      assert NextAccumulator(acc, dt, rate) == s;
      assert Requested(acc, dt, rate) == 0;
      NoDebitArith(rate, s);
    }
  }

  /** The arithmetic of a debiting call of `StepConserves`. */
  lemma DebitArith(rate: real, s: real, c: real)
    requires rate != 0.0
    ensures rate * (s - c / rate) == rate * s - c
  {
    assert rate * (c / rate) == c;
  }

  /** The arithmetic of a call of `StepConserves` that debits nothing. */
  lemma NoDebitArith(rate: real, s: real)
    ensures rate * s == rate * s - 0 as real
  {
  }

  /** Conservation: no fraction of a particle is lost or invented between
      frames. What was requested plus what is still pending in the accumulator
      is exactly rate times the time elapsed. */
  lemma Conservation(acc: real, dts: seq<real>, rate: real)
    ensures rate * AccumulatorAfter(acc, dts, NextRule(rate))
            + RequestedOver(acc, dts, NextRule(rate), RequestRule(rate)) as real
         == rate * (acc + Sum(dts))
  {
    RulesConserve(rate);
    RunConserves(acc, dts, rate, NextRule(rate), RequestRule(rate));
  }

  lemma RulesConserve(rate: real)
    ensures Conserving(rate, NextRule(rate), RequestRule(rate))
  {
    forall a, dt ensures rate * NextRule(rate)(a, dt) == rate * (a + dt) - RequestRule(rate)(a, dt) as real {
      assert NextRule(rate)(a, dt) == NextAccumulator(a, dt, rate);
      assert RequestRule(rate)(a, dt) == Requested(a, dt, rate);
      StepConserves(a, dt, rate);
    }
  }

  /** The accumulator's range after an enabled call with a positive rate:
      0 <= acc < 1 / rate. */
  predicate InWindow(acc: real, rate: real) {
    0.0 <= acc && rate * acc < 1.0
  }

  lemma StepInRange(acc: real, dt: real, rate: real)
    requires 0.0 < rate && 0.0 <= acc && 0.0 <= dt
    ensures InWindow(NextAccumulator(acc, dt, rate), rate)
  {
    AccumulatorStep(acc, dt, rate);
  }

  /** With a positive rate the accumulator stays in [0, 1 / rate) over any run. */
  lemma {:induction false} AccumulatorAfterRange(acc: real, dts: seq<real>, rate: real)
    requires 0.0 < rate && InWindow(acc, rate) && AllNonNegative(dts)
    ensures InWindow(AccumulatorAfter(acc, dts, NextRule(rate)), rate)
    decreases |dts|
  {
    if dts != [] {
      var dt := dts[0];
      assert 0.0 <= dt;
      StepInRange(acc, dt, rate);
      AccumulatorAfterRange(NextRule(rate)(acc, dt), dts[1..], rate);
    }
  }

  /** Emission accuracy: from an empty accumulator, the spawns requested over
      any sequence of steps at a constant positive rate are exactly
      floor(rate * total time), however the time is cut into frames. */
  lemma EmissionExact(dts: seq<real>, rate: real)
    requires 0.0 < rate && AllNonNegative(dts)
    ensures RequestedOver(0.0, dts, NextRule(rate), RequestRule(rate)) == (rate * Sum(dts)).Floor
  {
    Conservation(0.0, dts, rate);
    AccumulatorAfterRange(0.0, dts, rate);
    FloorOfRun(dts, rate, NextRule(rate), RequestRule(rate));
  }

  /** If rate * total splits into the run's requests and a pending part in
      [0, 1 / rate), the requests are the floor of rate * total. */
  lemma FloorOfRun(dts: seq<real>, rate: real, step: (real, real) -> real, take: (real, real) -> nat)
    requires 0.0 < rate
    requires InWindow(AccumulatorAfter(0.0, dts, step), rate)
    requires rate * AccumulatorAfter(0.0, dts, step) + RequestedOver(0.0, dts, step, take) as real
          == rate * (0.0 + Sum(dts))
    ensures RequestedOver(0.0, dts, step, take) == (rate * Sum(dts)).Floor
  {
    FloorOfSplit(rate, AccumulatorAfter(0.0, dts, step), RequestedOver(0.0, dts, step, take), Sum(dts));
  }

  lemma FloorOfSplit(rate: real, pending: real, n: int, total: real)
    requires 0.0 < rate && InWindow(pending, rate)
    requires rate * pending + n as real == rate * (0.0 + total)
    ensures n == (rate * total).Floor
  {
    assert rate * (0.0 + total) == rate * total;
    MulNonNeg(rate, pending);
  }

  // ---------------------------------------------------------------------------
  // Spawning
  // ---------------------------------------------------------------------------

  const TwoPi: real := 2.0 * 3.14159

  /** The eight `rand_uniform` results drawn for one spawn, in the order the
      emitter draws them: radius sample, angle, x jitter, lift, z jitter,
      lifetime factor, size factor, rotation. */
  datatype SpawnDraws = SpawnDraws(
    radius: real,
    theta: real,
    jitterX: real,
    lift: real,
    jitterZ: real,
    lifeScale: real,
    sizeScale: real,
    rotation: real)

  /** `rand_uniform(a, b)` lies in [a, b]. */
  predicate DrawsInRange(d: SpawnDraws) {
    && 0.0 <= d.radius <= 1.0
    && 0.0 <= d.theta <= TwoPi
    && -0.1 <= d.jitterX <= 0.1
    && 0.0 <= d.lift <= 0.2
    && -0.1 <= d.jitterZ <= 0.1
    && 0.8 <= d.lifeScale <= 1.2
    && 0.8 <= d.sizeScale <= 1.2
    && 0.0 <= d.rotation <= TwoPi
  }

  /** `std::sqrt`, `std::cos` and `std::sin`, which the model does not define. */
  datatype Trig = Trig(sqrt: real -> real, cos: real -> real, sin: real -> real)

  /** The laws of those library functions the footprint bound relies on. */
  ghost predicate TrigLaws(m: Trig) {
    && (forall u :: 0.0 <= u ==> 0.0 <= m.sqrt(u) && m.sqrt(u) * m.sqrt(u) == u)
    && (forall a :: m.cos(a) * m.cos(a) + m.sin(a) * m.sin(a) == 1.0)
  }

  /** The emitter's ring of radius 0.6 on the ground plane. */
  predicate InFootprint(pos: Vec3) {
    pos.y == 0.0 && pos.x * pos.x + pos.z * pos.z <= 0.36
  }

  /** The ranges every fresh particle's jittered fields fall in. */
  predicate SpawnBounds(p: Particle, lifetime: real, baseSize: real) {
    && 0.8 * lifetime <= p.maxLife <= 1.2 * lifetime
    && 0.8 * baseSize <= p.size <= 1.2 * baseSize
    && -0.1 <= p.velocity.x <= 0.1
    && 0.1 <= p.velocity.y <= 0.3
    && -0.1 <= p.velocity.z <= 0.1
  }

  /** One particle as the emitter's loop body builds it. It is born with its
      whole lifetime ahead of it, on the ground plane. */
  function Spawn(d: SpawnDraws, trig: Trig, lifetime: real, baseSize: real): (p: Particle)
    ensures p.life == p.maxLife && WellFormed(p)
    ensures p.position.y == 0.0
  {
    var r := trig.sqrt(d.radius) * 0.6;
    var maxLife := lifetime * d.lifeScale;
    Particle(
      Vec3(r * trig.cos(d.theta), 0.0, r * trig.sin(d.theta)),
      Vec3(d.jitterX, 0.1 + d.lift, d.jitterZ),
      maxLife,
      maxLife,
      baseSize * d.sizeScale,
      d.rotation)
  }

  /** Draws in range give a lifetime and a size within 20% of the tunables, a
      horizontal velocity in [-0.1, 0.1] and a vertical one in [0.1, 0.3]. */
  lemma SpawnWithinBounds(d: SpawnDraws, trig: Trig, lifetime: real, baseSize: real)
    requires DrawsInRange(d) && 0.0 <= lifetime && 0.0 <= baseSize
    ensures SpawnBounds(Spawn(d, trig, lifetime, baseSize), lifetime, baseSize)
  {
    var p := Spawn(d, trig, lifetime, baseSize);
    assert p.maxLife == lifetime * d.lifeScale && p.size == baseSize * d.sizeScale;
    ScaleBetween(lifetime, d.lifeScale, 0.8, 1.2, p.maxLife);
    ScaleBetween(baseSize, d.sizeScale, 0.8, 1.2, p.size);
  }

  /** With the library's laws, every spawn lands in the disk of radius 0.6. */
  lemma SpawnInFootprint(d: SpawnDraws, trig: Trig, lifetime: real, baseSize: real)
    requires DrawsInRange(d) && TrigLaws(trig)
    ensures InFootprint(Spawn(d, trig, lifetime, baseSize).position)
  {
    var s := trig.sqrt(d.radius);
    var r := s * 0.6;
    var c, n := trig.cos(d.theta), trig.sin(d.theta);
    assert s * s == d.radius;
    assert c * c + n * n == 1.0;
    calc {
      (r * c) * (r * c) + (r * n) * (r * n);
      r * r * (c * c + n * n);
      r * r;
      0.36 * (s * s);
    }
  }

  /** How many of `count` requested spawns fit: the loop stops at capacity. */
  function SpawnCount(count: int, poolSize: nat, capacity: nat): (n: nat)
    ensures n <= (if count <= 0 then 0 else count)
    ensures n == 0 || poolSize + n <= capacity
    ensures n < count ==> capacity <= poolSize + n
  {
    if count <= 0 || poolSize >= capacity then 0
    else if count <= capacity - poolSize then count
    else capacity - poolSize
  }

  /** The particles one call spawns, the i-th from the i-th set of draws. */
  function SpawnBatch(n: nat, sample: nat -> SpawnDraws, trig: Trig, lifetime: real, baseSize: real): (b: seq<Particle>)
    ensures |b| == n
    ensures forall i :: 0 <= i < n ==> b[i] == Spawn(sample(i), trig, lifetime, baseSize)
  {
    seq(n, i requires 0 <= i < n => Spawn(sample(i), trig, lifetime, baseSize))
  }

  /** The pool after an enabled emitting call that requested `count` spawns:
      appended to, never reordered, never past capacity. */
  function Emitted(pool: seq<Particle>, count: int, capacity: nat,
                   sample: nat -> SpawnDraws, trig: Trig, lifetime: real, baseSize: real): (r: seq<Particle>)
    ensures |pool| <= |r| && r[..|pool|] == pool
    ensures |pool| <= capacity ==> |r| <= capacity
    ensures count <= 0 ==> r == pool
    ensures AllWellFormed(pool) ==> AllWellFormed(r)
  {
    pool + SpawnBatch(SpawnCount(count, |pool|, capacity), sample, trig, lifetime, baseSize)
  }

  /** Every particle an emitting call adds has the spawn ranges. */
  lemma EmittedSpawnBounds(pool: seq<Particle>, count: int, capacity: nat,
                           sample: nat -> SpawnDraws, trig: Trig, lifetime: real, baseSize: real)
    requires forall i :: DrawsInRange(sample(i))
    requires 0.0 <= lifetime && 0.0 <= baseSize
    ensures var r := Emitted(pool, count, capacity, sample, trig, lifetime, baseSize);
            forall i :: |pool| <= i < |r| ==> r[i].life == r[i].maxLife && SpawnBounds(r[i], lifetime, baseSize)
  {
    var r := Emitted(pool, count, capacity, sample, trig, lifetime, baseSize);
    forall i | |pool| <= i < |r|
      ensures r[i].life == r[i].maxLife && SpawnBounds(r[i], lifetime, baseSize)
    {
      SpawnWithinBounds(sample(i - |pool|), trig, lifetime, baseSize);
    }
  }
}
