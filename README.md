# Fire particle pool

This project is a verified model of the particle simulation at the heart of the
`fire_scene` class. Each frame:

1. The elapsed time is clamped to at most 50 ms.
2. An emitter turns the elapsed time into a whole number of new particles. It
   carries the fractional remainder in a time accumulator and stops at the
   pool's capacity.
3. An integrator moves every particle one semi-implicit (symplectic) Euler
   step: it first updates the velocity with buoyancy, centering, damping and
   noise-driven turbulence, then moves the position by the new velocity, and
   spends `dt` of each particle's life.
4. A culling pass removes the expired particles and keeps the order of the rest.
5. A shading pass turns every particle into a sprite. The sprite's colour and
   size are computed from the life ratio `life / max_life`. There are two
   styles: a keyframed "realistic" flame ramp with an opacity fade, and a
   "simple" style made of three flat bands with noise flicker.

Modules, one per file:

- `Arith` (`arith.dfy`): small facts about products of reals.
- `Vectors` (`vectors.dfy`): the three-component vector.
- `Particles` (`particle.dfy`): the particle record and the GUI flags.
- `Emission` (`emission.dfy`): the accumulator, spawning, and the capacity cap.
- `Integration` (`integration.dfy`): the semi-implicit Euler step, culling,
  and runs of idle frames.
- `Shading` (`shading.dfy`): the colour, opacity and size ramps, and the sprite.
- `Scene` (`fire_scene.dfy`): the `FireScene` class. It holds the pool as a
  `seq<Particle>` field, the accumulator, the flags and the tunables. Its
  methods `Emit`, `Update` (`Advance`, then `Cull`) and `DisplayFrame` change
  that state in place; `DrawParticles` only reads it and returns the sprites.
  Each method is proved against the pure functions of the other modules.

The models of the external code:

- `rand_uniform` becomes a parameter `sample: nat -> SpawnDraws`. It holds the
  eight draws of the i-th spawn of a call, in the order the emitter makes them.
- `std::sqrt`, `std::cos` and `std::sin` become a `Trig` record of functions.
  Only the laws stated in `TrigLaws` are assumed of them.
- `noise_perlin` becomes a parameter `noise: Vec3 -> real`.
- The timer's step and current time become parameters.

Single-precision floats are modelled as exact reals. `static_cast<int>` is
modelled as truncation toward zero.

### Behaviour worth knowing

The model follows the code in each case below; some of it is not what a
reader of the function names alone would expect.

- **Accumulator units.** The accumulator holds seconds, not a particle count. A
  call adds `dt` and takes `count = trunc(rate * acc)`. It then subtracts
  `count / rate` seconds. Between calls the accumulator stays in
  `0 <= acc < 1 / rate` (`AccumulatorStep`, `AccumulatorAfterRange`).
- **No guard before dividing by the rate.** The rate is not checked before the
  division by it. The division is reached only when `count > 0`, and that
  already forces `rate > 0` (`RequestImpliesPositiveRate`).
- **The life ratio is neither clamped nor guarded.** `life_ratio` is not clamped
  to [0, 1], and `max_life` is not guarded before the division. Every particle
  that reaches the drawing pass has `0 < life <= max_life`
  (`FireScene.Valid`, `FramePreservesInvariant`). A spawn with a non-positive
  lifetime is culled in the same frame's update, before it is drawn.
- **The simple style is not continuous.** Its colour jumps at life ratios 0.7
  and 0.4 (`SimpleColorJumps`).
- **The realistic fade runs from birth to death.** The life ratio starts at 1
  and falls to 0, so the realistic style fades in over the first 10% of a
  particle's life (life ratio above 0.9) and fades out over the last 30% (life
  ratio below 0.3), at full strength in between (`AlphaFade`).
- **The size curves are monotone.** Neither style's size grows and then
  shrinks. The realistic size grows with age and the simple size shrinks with
  age (`SizeScaleMonotone`).
- **The idle pool does not always shrink every frame.** With emission off, the
  pool never grows. It is empty once the longest remaining life has elapsed
  (`IdleRun`, `IdlePoolDrains`), and every particle still pooled has lost
  exactly the elapsed time from its life (`IdleRunLives`). It shrinks only in frames in which some
  particle expires.
- **The particle record has `rotation_offset`.** The header's `particle` struct
  has no `rotation_offset` field. The emitter writes one and the renderer reads
  it, so the model's record has it.

## Model

| member | source | states |
|---|---|---|
| Emission.Truncate | project/src/fire_scene.cpp:37-39 | The cast truncates toward zero: `n <= x < n + 1` for non-negative `x`, `n - 1 < x <= n` for negative `x`, and the count is non-positive exactly when `rate * acc < 1` |
| Emission.EmissionCount | project/src/fire_scene.cpp:36-38 | The spawn count of one call: the truncation of `rate * (acc + dt)`, taken after the accumulator has absorbed `dt`. Its meaning is stated by `Truncate`, `AccumulatorStep` and `EmissionExact` |
| Emission.NextAccumulator | project/src/fire_scene.cpp:36-41 | The accumulator after one enabled call: `acc + dt`, debited `count / rate` seconds only when `count > 0`. `AccumulatorStep`, `StepConserves` and `StepInRange` state its range and its conservation |
| Emission.Requested | project/src/fire_scene.cpp:38-44 | The spawns one call asks the loop for (the count, or none when it is not positive), whether or not the pool has room. `AccumulatorStep` proves it is `floor(rate * (acc + dt))` for a positive rate and 0 otherwise |
| Emission.RequestImpliesPositiveRate | project/src/fire_scene.cpp:36-41 | With `acc, dt >= 0`, a positive count implies `rate > 0`, so `count / emission_rate` never divides by zero or by a negative rate |
| Emission.AccumulatorStep | project/src/fire_scene.cpp:36-41 | One enabled call keeps `acc >= 0`. `rate * acc'` equals `rate * (acc + dt)` minus the requested count. With `rate > 0` that count is `floor(rate * (acc + dt))` and `0 <= rate * acc' < 1`. A non-positive rate requests nothing |
| Emission.StepConserves | project/src/fire_scene.cpp:36-41 | For any inputs, one call moves exactly the requested spawns out of the accumulator, in units of `rate` |
| Emission.Conservation | project/src/fire_scene.cpp:36-41 | Over any run of enabled calls, the spawns requested plus `rate` times the final accumulator equal `rate` times (initial accumulator + total time). No fraction of a particle is lost or invented |
| Emission.StepInRange | project/src/fire_scene.cpp:36-41 | With `rate > 0` and `acc, dt >= 0`, the next accumulator is in `[0, 1 / rate)` |
| Emission.AccumulatorAfterRange | project/src/fire_scene.cpp:36-41 | With `rate > 0`, the accumulator stays in `[0, 1 / rate)` over any run of non-negative steps |
| Emission.EmissionExact | project/src/fire_scene.cpp:36-41 | From an empty accumulator at a constant positive rate, the spawns requested over any run equal `floor(rate * total time)`, however the time is split into frames |
| Emission.Spawn | project/src/fire_scene.cpp:46-59 | A fresh particle starts with `life == max_life`, which makes it well formed, and sits on the ground plane `y == 0` |
| Emission.SpawnWithinBounds | project/src/fire_scene.cpp:51-58 | With draws in their `rand_uniform` ranges: `max_life` is within ±20% of the lifetime, size is within ±20% of the base size, horizontal velocity is in [-0.1, 0.1] and vertical velocity is in [0.1, 0.3] |
| Emission.SpawnInFootprint | project/src/fire_scene.cpp:47-49 | With the laws of sqrt, cos and sin, every spawn lands in the disk of radius 0.6 on the ground plane |
| Emission.SpawnCount | project/src/fire_scene.cpp:43-44 | The loop adds at most `count` particles. Whatever it adds fits under the capacity. When it adds fewer than `count`, the pool is full |
| Emission.SpawnBatch | project/src/fire_scene.cpp:43-61 | The batch has `n` particles, and the i-th comes from the i-th set of draws |
| Emission.Emitted | project/src/fire_scene.cpp:43-61 | Emission only appends: the old pool is a prefix of the new one. A pool within capacity stays within it. A non-positive count leaves the pool unchanged. Well-formedness is kept |
| Emission.EmittedSpawnBounds | project/src/fire_scene.cpp:43-61 | Every particle an emitting call appends has `life == max_life` and the spawn ranges |
| Integration.Step | project/src/fire_scene.cpp:69-87 | One step: `velocity.y` grows by exactly `2 dt`, the new position is `position + dt * velocity'`, life drops by exactly `dt`, and lifetime, size and rotation are kept |
| Integration.StepKeepsWellFormed | project/src/fire_scene.cpp:86 | A non-negative step keeps `life <= max_life` and never raises life |
| Integration.StepAll | project/src/fire_scene.cpp:69-87 | The loop steps every particle once, in place, and keeps the pool's length and order |
| Integration.Survivors | project/src/fire_scene.cpp:89-91 | The pool shrinks by exactly the number of expired particles |
| Integration.SurvivorsMembers | project/src/fire_scene.cpp:89-91 | A particle is kept exactly when `life > 0`, and the survivors are a sub-multiset of the pool |
| Integration.SurvivorsAppend | project/src/fire_scene.cpp:89-91 | Culling distributes over concatenation, so it never reorders across any cut of the pool |
| Integration.SurvivorsSingle | project/src/fire_scene.cpp:89-91 | A lone particle survives exactly when it is alive. With `SurvivorsAppend`, this pins culling down as the order-preserving filter |
| Integration.SurvivorsPrefix | project/src/fire_scene.cpp:89-91 | Culling one more particle extends the prefix's survivors by that particle exactly when it is alive |
| Integration.UpdatePool | project/src/fire_scene.cpp:65-92 | The whole update pass: every particle stepped, then the expired ones removed. `UpdateKeepsLive` states what it keeps and `FireScene.Update` is proved equal to it |
| Integration.UpdateKeepsLive | project/src/fire_scene.cpp:65-92 | After an update with `dt >= 0`, every pooled particle has `0 < life <= max_life` and the pool has not grown |
| Integration.IdleRun | project/src/fire_scene.cpp:65-92 | Over frames with emission off, the pool stays live and never grows, and a bound `m` on every starting life becomes a bound `m - elapsed` on every remaining life |
| Integration.IdleRunLives | project/src/fire_scene.cpp:65-92 | With emission off, every particle still pooled after a run of frames comes from a starting particle whose life has dropped by exactly the elapsed time, with its lifetime and size kept |
| Integration.IdlePoolDrains | project/src/fire_scene.cpp:65-92 | With emission off, the pool is empty once the longest remaining life has elapsed |
| Shading.FlameColor | project/src/fire_scene.cpp:108-122 | The three-piece keyframe interpolation over `t = 1 - life_ratio`. `FlameColorAffine`, `FlameColorRange` and `FlameColorContinuous` state its form, its ends and range, and its continuity |
| Shading.FlameColorAffine | project/src/fire_scene.cpp:113-122 | The keyframe interpolation equals an independent per-channel affine form, one piece per keyframe interval |
| Shading.FlameColorRange | project/src/fire_scene.cpp:108-122 | The ramp is the core colour at age 0 and the smoke colour at age 1, with every channel in [0.05, 1] in between |
| Shading.FlameColorContinuous | project/src/fire_scene.cpp:113-122 | The ramp has no jump at 0.2 or 0.6: ages at most `d` apart give channels at most `2.75 d` apart |
| Shading.AlphaFade | project/src/fire_scene.cpp:124-126 | The fade is in [0, 1] on [0, 1], is 0 at life ratios 0 and 1, and is 1 on [0.3, 0.9] |
| Shading.AlphaFadeContinuous | project/src/fire_scene.cpp:124-126 | The fade has no jump at 0.3 or 0.9: it moves at most 10 per unit of life ratio |
| Shading.RealisticColor | project/src/fire_scene.cpp:104-128 | The ramp colour scaled by the fade and by 0.8. `RealisticColorEnds`, `RealisticColorBounds` and `RealisticColorContinuous` state its ends, range and continuity |
| Shading.RealisticColorEnds | project/src/fire_scene.cpp:124-128 | A realistic particle is black (invisible under additive blending) at life ratios 0 and 1 |
| Shading.RealisticColorBounds | project/src/fire_scene.cpp:107-128 | Every realistic channel is in [0, 0.8] for a life ratio in [0, 1] |
| Shading.RealisticColorContinuous | project/src/fire_scene.cpp:107-128 | The realistic colour changes continuously over the whole life: channels move at most 10.2 per unit of life ratio, so there is no popping at birth, at death or at any keyframe |
| Shading.BandColor | project/src/fire_scene.cpp:131-133 | The three flat bands of the simple style, split at life ratios 0.7 and 0.4. `SimpleColorJumps` proves the bands differ at both splits |
| Shading.NoiseAlpha | project/src/fire_scene.cpp:135 | With noise in [-1, 1], the flicker factor is in [0, 1] |
| Shading.SimpleColor | project/src/fire_scene.cpp:130-136 | The band colour scaled by the life ratio and the flicker factor. `SimpleColorBounds` bounds it and `SimpleColorJumps` proves it discontinuous |
| Shading.FlickerNoise | project/src/fire_scene.cpp:135 | The noise is sampled at the particle's horizontal position `x`, its height `y` and the current time. Its range is not part of this model; `NoiseAlpha` and `SimpleColorBounds` take it as an assumption |
| Shading.SimpleColorBounds | project/src/fire_scene.cpp:130-137 | For a life ratio in [0, 1] and noise in [-1, 1], every simple-style channel is in [0, 1.6] |
| Shading.SimpleColorJumps | project/src/fire_scene.cpp:131-136 | The simple style jumps at 0.7 and at 0.4: just above each threshold the green channel is brighter by a margin that does not shrink with the distance |
| Shading.SizeScale | project/src/fire_scene.cpp:139 | For a life ratio in [0, 1], the size factor is in [0.5, 2] (realistic) or [0.4, 1] (simple) |
| Shading.SizeScaleMonotone | project/src/fire_scene.cpp:139 | The realistic size factor grows strictly with age and the simple one shrinks strictly with age |
| Shading.LifeRatio | project/src/fire_scene.cpp:103 | A live particle's life ratio is in (0, 1] |
| Shading.Shade | project/src/fire_scene.cpp:102-145 | The sprite is drawn at the particle's position with its rotation offset |
| Shading.DrawnSize | project/src/fire_scene.cpp:139-140 | The particle's size times the style's size factor. `DrawnSizeBounds` and `ShadeSize` bound it |
| Shading.ShadeSize | project/src/fire_scene.cpp:139-140 | A live particle is drawn between 0.5 and 2 times its size (realistic) or between 0.4 and 1 times it (simple) |
| Shading.DrawnSizeBounds | project/src/fire_scene.cpp:139-140 | The same bounds for the scaled size itself |
| Shading.ShadeColor | project/src/fire_scene.cpp:107-137 | A live particle's colour is in [0, 0.8] (realistic), or in [0, 1.6] (simple, with noise in [-1, 1]) |
| Scene.ClampStep | project/src/fire_scene.cpp:158 | The frame step is in [0, 0.05]. It equals the elapsed time inside that range, is 0 below it and is 0.05 above it |
| Scene.EmitStage | project/src/fire_scene.cpp:32-63 | The pool after the emit stage: unchanged with emission off, otherwise `Emitted` of the count due. `FireScene.Emit` is proved equal to it and `FramePreservesInvariant` keeps the pool invariant through it |
| Scene.AccumulatorStage | project/src/fire_scene.cpp:32-41 | The accumulator after the emit stage: unchanged with emission off, otherwise `NextAccumulator`. `FireScene.Emit` is proved equal to it and `FramePreservesInvariant` keeps it non-negative |
| Scene.FramePreservesInvariant | project/src/fire_scene.cpp:155-165 | For any tunables, a frame keeps the pool within capacity, keeps every pooled particle at `0 < life <= max_life`, and keeps the accumulator non-negative |
| Scene.FireScene.constructor | project/src/fire_scene.hpp:47-54 | A fresh scene has an empty pool, accumulator 0, capacity 10000, base size 0.10, rate 100, lifetime 1, and every GUI flag on (`fire_scene.hpp:18-20`) |
| Scene.FireScene.Emit | project/src/fire_scene.cpp:32-63 | With emission off, the pool and the accumulator are unchanged. Otherwise the pool becomes `Emitted(...)` of the count due and the accumulator becomes `NextAccumulator(...)`. The accumulator is debited for the whole count even when the cap drops spawns. The flags and tunables are unchanged |
| Scene.FireScene.Update | project/src/fire_scene.cpp:65-92 | The pool becomes the order-preserving survivors of every particle stepped once. Everything else is unchanged |
| Scene.FireScene.Advance | project/src/fire_scene.cpp:69-87 | The in-place loop leaves exactly `StepAll` of the old pool |
| Scene.FireScene.Cull | project/src/fire_scene.cpp:89-91 | The in-place compaction (`remove_if`, then `erase`) leaves exactly `Survivors` of the old pool |
| Scene.FireScene.DrawParticles | project/src/fire_scene.cpp:102-148 | There is one sprite per pooled particle, in pool order, each shaded in the selected style |
| Scene.FireScene.DisplayFrame | project/src/fire_scene.cpp:155-165 | The frame clamps, emits, updates and then draws. It preserves `Valid()`, and its final pool, accumulator and sprites are the composition of the stage functions |

## Left out

- `initialize` (GPU mesh upload, OBJ loading, camera set-up, `reserve`, timer start): I/O and rendering. Only its effect on the modelled fields, the member initialisers, is modelled, by the constructor.
- The GL blend and depth-mask toggles, the `draw` calls, the campfire draw and the light position in `display_frame`: rendering with no effect on the modelled state. The sprite records what each particle's draw call is given.
- `display_gui` (ImGui sliders and checkbox), `mouse_move_event`, `mouse_click_event`, `keyboard_event` and `idle_frame`: UI and camera glue. The GUI sliders can change the tunables between frames; `FramePreservesInvariant` holds for any tunable values.
- `application.cpp` and `environment.cpp`/`environment.hpp` are not part of this model: window, event loop and shader plumbing.
- `rand_uniform`, `noise_perlin`, `std::sqrt`/`cos`/`sin` and the timer are parameters, not definitions. Perlin noise itself is not modelled.
- Emission.SpawnInFootprint: assumes the exact laws `sqrt(u)^2 = u` and `cos^2 + sin^2 = 1`, which single-precision library calls meet only approximately.
- Shading.LifeRatio: requires `max_life != 0`, where the renderer divides unguarded (a float division by zero would give an infinity or NaN, which the model does not represent). Every particle in a valid pool has `max_life > 0`.
- Scene.FireScene.DrawParticles: requires every pooled particle to be live, for the same reason. `DisplayFrame` establishes this before drawing.
- Shading.SimpleColorBounds: the bound assumes noise in [-1, 1]. The range of `noise_perlin` is not part of this model.
- IEEE single-precision rounding, NaN and infinity: all arithmetic is over exact reals.
- The `private` access of `emit_particles`, `update_particles` and `draw_particles` is not expressible. `DisplayFrame` is the method that fixes the emit, update, draw order.
