/** The particle record and the GUI flags of `fire_scene.hpp`. */
module Particles {
  import opened Vectors

  /** One fire particle. The header's struct lacks `rotationOffset`, but the
      emitter writes it and the renderer reads it, so the record carries it. */
  datatype Particle = Particle(
    position: Vec3,
    velocity: Vec3,
    life: real,
    maxLife: real,
    size: real,
    rotationOffset: real)

  /** The culling test keeps exactly the particles for which this holds
      (`remove_if` drops those with `life <= 0`). */
  predicate Alive(p: Particle) {
    p.life > 0.0
  }

  /** Remaining life never exceeds the lifetime assigned at spawn. */
  predicate WellFormed(p: Particle) {
    p.life <= p.maxLife
  }

  /** What every pooled particle satisfies between frames: 0 < life <= maxLife. */
  predicate Live(p: Particle) {
    Alive(p) && WellFormed(p)
  }

  predicate AllWellFormed(pool: seq<Particle>) {
    forall i :: 0 <= i < |pool| ==> WellFormed(pool[i])
  }

  predicate AllLive(pool: seq<Particle>) {
    forall i :: 0 <= i < |pool| ==> Live(pool[i])
  }

  /** The GUI toggles read at the start of each stage. */
  datatype GuiParameters = GuiParameters(
    emit: bool,
    displayBillboards: bool,
    realisticFire: bool)

  const DefaultGui := GuiParameters(true, true, true)
}
