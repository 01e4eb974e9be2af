/** The per-particle colour, opacity and size of `fire_scene::draw_particles`,
    as functions of the life ratio `life / max_life` and the age `1 - life ratio`.
    The GL state changes and the draw calls themselves are not modelled. */
module Shading {
  import opened Vectors
  import opened Particles
  import opened Arith

  // ---------------------------------------------------------------------------
  // Arithmetic helpers
  // ---------------------------------------------------------------------------

  /** |k1 * c1 - k2 * c2| <= k1 * |c1 - c2| + c2 * |k1 - k2|, bounded. */
  lemma ProductNear(k1: real, k2: real, c1: real, c2: real, kMax: real, cMax: real, dk: real, dc: real)
    requires 0.0 <= k1 <= kMax && 0.0 <= c2 <= cMax
    requires Abs(k1 - k2) <= dk && Abs(c1 - c2) <= dc
    ensures Abs(k1 * c1 - k2 * c2) <= kMax * dc + cMax * dk
  {
    assert k1 * c1 - k2 * c2 == k1 * (c1 - c2) + c2 * (k1 - k2);
    MulMono(k1, kMax, Abs(c1 - c2), dc);
    MulMono(c2, cMax, Abs(k1 - k2), dk);
    assert Abs(k1 * (c1 - c2)) == k1 * Abs(c1 - c2);
    assert Abs(c2 * (k1 - k2)) == c2 * Abs(k1 - k2);
  }

  // ---------------------------------------------------------------------------
  // Realistic style
  // ---------------------------------------------------------------------------

  const ColorCore := Vec3(1.0, 0.9, 0.6)
  const ColorMid := Vec3(1.0, 0.5, 0.05)
  const ColorEdge := Vec3(0.8, 0.1, 0.05)
  const ColorSmoke := Vec3(0.05, 0.05, 0.05)

  /** `(1 - s) * a + s * b`. */
  function Lerp(a: Vec3, b: Vec3, s: real): Vec3 {
    Add(Scale(1.0 - s, a), Scale(s, b))
  }

  /** The keyframed flame ramp over the age `t`: hot core, mid flame, edge,
      then smoke at the end of life. */
  function FlameColor(t: real): Vec3 {
    if t < 0.2 then Lerp(ColorCore, ColorMid, t / 0.2)
    else if t < 0.6 then Lerp(ColorMid, ColorEdge, (t - 0.2) / 0.4)
    else Lerp(ColorEdge, ColorSmoke, (t - 0.6) / 0.4)
  }

  /** The flame ramp written out channel by channel, one affine piece per
      keyframe interval. */
  function FlameAffine(t: real): Vec3 {
    if t < 0.2 then Vec3(1.0, 0.9 - 2.0 * t, 0.6 - 2.75 * t)
    else if t < 0.6 then Vec3(1.1 - 0.5 * t, 0.7 - t, 0.05)
    else Vec3(1.925 - 1.875 * t, 0.175 - 0.125 * t, 0.05)
  }

  /** The keyframe interpolation is exactly the affine form above. */
  lemma FlameColorAffine(t: real)
    ensures FlameColor(t) == FlameAffine(t)
  {
    assert ColorCore == Vec3(1.0, 0.9, 0.6) && ColorMid == Vec3(1.0, 0.5, 0.05);
    assert ColorEdge == Vec3(0.8, 0.1, 0.05) && ColorSmoke == Vec3(0.05, 0.05, 0.05);
    if t < 0.2 {
      var u := t / 0.2;
      assert u == 5.0 * t;
    } else if t < 0.6 {
      var u := (t - 0.2) / 0.4;
      assert u == 2.5 * t - 0.5;
    } else {
      var u := (t - 0.6) / 0.4;
      assert u == 2.5 * t - 1.5;
    }
  }

  /** A newborn particle shows the core colour and a dying one the smoke
      colour; in between every channel stays within [0.05, 1]. */
  lemma FlameColorRange(t: real)
    ensures t == 0.0 ==> FlameColor(t) == ColorCore
    ensures t == 1.0 ==> FlameColor(t) == ColorSmoke
    ensures 0.0 <= t <= 1.0 ==> Within(FlameColor(t), 0.05, 1.0)
  {
    FlameColorAffine(t);
  }

  /** The flame ramp has no jump anywhere, in particular not at the keyframes
      0.2 and 0.6: ages at most `d` apart give colours whose channels are at
      most 2.75 * d apart. */
  lemma FlameColorContinuous(s: real, t: real, d: real)
    requires Abs(s - t) <= d
    ensures Near(FlameColor(s), FlameColor(t), 2.75 * d)
  {
    FlameColorAffine(s);
    FlameColorAffine(t);
    if s <= t {
      FlameAffineOrdered(s, t, d);
    } else {
      FlameAffineOrdered(t, s, d);
    }
  }

  lemma FlameAffineOrdered(s: real, t: real, d: real)
    requires s <= t && t - s <= d
    ensures Near(FlameAffine(s), FlameAffine(t), 2.75 * d)
  {
  }

  /** The realistic fade-in over the first 10% of life and fade-out over the
      last 30%, as a factor in [0, 1] that is 0 at both ends of life. */
  function AlphaFade(lifeRatio: real): (a: real)
    ensures 0.0 <= lifeRatio <= 1.0 ==> 0.0 <= a <= 1.0
    ensures lifeRatio == 0.0 || lifeRatio == 1.0 ==> a == 0.0
    ensures 0.3 <= lifeRatio <= 0.9 ==> a == 1.0
  {
    if lifeRatio < 0.3 then lifeRatio / 0.3
    else if lifeRatio > 0.9 then (1.0 - lifeRatio) / 0.1
    else 1.0
  }

  /** The fade has no jump, in particular not at 0.3 and 0.9. */
  lemma AlphaFadeContinuous(s: real, t: real)
    ensures Abs(AlphaFade(s) - AlphaFade(t)) <= 10.0 * Abs(s - t)
  {
    if s <= t {
      AlphaFadeOrdered(s, t);
    } else {
      AlphaFadeOrdered(t, s);
    }
  }

  lemma AlphaFadeOrdered(s: real, t: real)
    requires s <= t
    ensures Abs(AlphaFade(s) - AlphaFade(t)) <= 10.0 * (t - s)
  {
  }

  /** The realistic colour drawn: the flame ramp at the particle's age, dimmed
      by the fade and by the overall intensity 0.8. */
  function RealisticColor(lifeRatio: real): Vec3 {
    Scale(AlphaFade(lifeRatio) * 0.8, FlameColor(1.0 - lifeRatio))
  }

  /** A particle is invisible at birth and at death. */
  lemma RealisticColorEnds(lifeRatio: real)
    requires lifeRatio == 0.0 || lifeRatio == 1.0
    ensures RealisticColor(lifeRatio) == Zero
  {
    assert AlphaFade(lifeRatio) == 0.0;
  }

  /** Over a life ratio in [0, 1] every channel of the realistic colour is
      between 0 and the intensity 0.8. */
  lemma RealisticColorBounds(lifeRatio: real)
    requires 0.0 <= lifeRatio <= 1.0
    ensures Within(RealisticColor(lifeRatio), 0.0, 0.8)
  {
    FlameColorRange(1.0 - lifeRatio);
    ScaleWithin(AlphaFade(lifeRatio), FlameColor(1.0 - lifeRatio));
  }

  lemma ScaleWithin(k: real, f: Vec3)
    requires 0.0 <= k <= 1.0 && Within(f, 0.0, 1.0)
    ensures Within(Scale(k * 0.8, f), 0.0, 0.8)
  {
    ChannelBounds(k, f.x);
    ChannelBounds(k, f.y);
    ChannelBounds(k, f.z);
  }

  lemma ChannelBounds(k: real, f: real)
    requires 0.0 <= k <= 1.0 && 0.0 <= f <= 1.0
    ensures 0.0 <= (k * 0.8) * f <= 0.8
  {
    MulMono(k * 0.8, 0.8, f, 1.0);
    MulNonNeg(k * 0.8, f);
  }

  /** A particle's realistic colour changes continuously over its whole life:
      no channel moves faster than 10.2 per unit of life ratio, so it neither
      pops in at birth nor jumps at any keyframe or fade boundary. */
  lemma RealisticColorContinuous(s: real, t: real)
    requires 0.0 <= s <= 1.0 && 0.0 <= t <= 1.0
    ensures Near(RealisticColor(s), RealisticColor(t), 10.2 * Abs(s - t))
  {
    AlphaFadeContinuous(s, t);
    FlameColorContinuous(1.0 - s, 1.0 - t, Abs(s - t));
    FlameColorRange(1.0 - t);
    ScaleNear(AlphaFade(s), AlphaFade(t), FlameColor(1.0 - s), FlameColor(1.0 - t), Abs(s - t));
  }

  lemma ScaleNear(ka: real, kb: real, fs: Vec3, ft: Vec3, d: real)
    requires 0.0 <= ka <= 1.0 && Within(ft, 0.0, 1.0)
    requires Abs(ka - kb) <= 10.0 * d && Near(fs, ft, 2.75 * d)
    ensures Near(Scale(ka * 0.8, fs), Scale(kb * 0.8, ft), 10.2 * d)
  {
    var a, b := Scale(ka * 0.8, fs), Scale(kb * 0.8, ft);
    ChannelNear(ka, kb, fs.x, ft.x, d, a.x, b.x);
    ChannelNear(ka, kb, fs.y, ft.y, d, a.y, b.y);
    ChannelNear(ka, kb, fs.z, ft.z, d, a.z, b.z);
  }

  /** One channel of `RealisticColorContinuous`: `u` and `v` are the dimmed
      channel at the two life ratios. */
  lemma ChannelNear(ka: real, kb: real, fs: real, ft: real, d: real, u: real, v: real)
    requires 0.0 <= ka <= 1.0 && 0.0 <= ft <= 1.0
    requires Abs(ka - kb) <= 10.0 * d && Abs(fs - ft) <= 2.75 * d
    requires u == (ka * 0.8) * fs && v == (kb * 0.8) * ft
    ensures Abs(u - v) <= 10.2 * d
  {
    assert Abs(ka * 0.8 - kb * 0.8) <= 8.0 * d;
    ProductNear(ka * 0.8, kb * 0.8, fs, ft, 0.8, 1.0, 8.0 * d, 2.75 * d);
  }

  // ---------------------------------------------------------------------------
  // Simple style
  // ---------------------------------------------------------------------------

  /** Three flat bands: pale yellow above 0.7, orange above 0.4, ember below. */
  function BandColor(lifeRatio: real): Vec3 {
    if lifeRatio > 0.7 then Vec3(1.6, 1.2, 0.6)
    else if lifeRatio > 0.4 then Vec3(1.6, 0.8, 0.2)
    else Vec3(1.2, 0.3, 0.05)
  }

  /** `0.5 + 0.5 * noise`, the flicker factor. */
  function NoiseAlpha(n: real): (a: real)
    ensures -1.0 <= n <= 1.0 ==> 0.0 <= a <= 1.0
  {
    0.5 + 0.5 * n
  }

  /** The simple colour drawn: the band dimmed by the life ratio and by the
      flicker. */
  function SimpleColor(lifeRatio: real, n: real): Vec3 {
    Scale(lifeRatio * NoiseAlpha(n), BandColor(lifeRatio))
  }

  /** With the life ratio in [0, 1] and the noise in [-1, 1] every channel of
      the simple colour is in [0, 1.6]. */
  lemma SimpleColorBounds(lifeRatio: real, n: real)
    requires 0.0 <= lifeRatio <= 1.0 && -1.0 <= n <= 1.0
    ensures Within(SimpleColor(lifeRatio, n), 0.0, 1.6)
  {
    MulMono(lifeRatio, 1.0, NoiseAlpha(n), 1.0);
    MulNonNeg(lifeRatio, NoiseAlpha(n));
    BandScaleWithin(lifeRatio * NoiseAlpha(n), BandColor(lifeRatio));
  }

  lemma BandScaleWithin(k: real, b: Vec3)
    requires 0.0 <= k <= 1.0 && Within(b, 0.0, 1.6)
    ensures Within(Scale(k, b), 0.0, 1.6)
  {
    MulMono(k, 1.0, b.x, 1.6);
    MulMono(k, 1.0, b.y, 1.6);
    MulMono(k, 1.0, b.z, 1.6);
    MulNonNeg(k, b.x);
    MulNonNeg(k, b.y);
    MulNonNeg(k, b.z);
  }

  /** The simple style does jump at its band thresholds: just above 0.7 the
      green channel is brighter than at 0.7 by a margin that does not shrink
      as the distance shrinks, and likewise just above 0.4. */
  lemma SimpleColorJumps(n: real, d: real)
    requires -1.0 < n <= 1.0 && 0.0 < d <= 0.3
    ensures 0.0 < NoiseAlpha(n)
    ensures SimpleColor(0.7 + d, n).y - SimpleColor(0.7, n).y >= 0.28 * NoiseAlpha(n)
    ensures SimpleColor(0.4 + d, n).y - SimpleColor(0.4, n).y >= 0.2 * NoiseAlpha(n)
  {
    var a := NoiseAlpha(n);
    assert BandColor(0.7 + d).y == 1.2 && BandColor(0.7).y == 0.8;
    assert BandColor(0.4 + d).y == 0.8 && BandColor(0.4).y == 0.3;
    JumpArith(a, d, 0.7, 1.2, 0.8, 0.28);
    JumpArith(a, d, 0.4, 0.8, 0.3, 0.2);
  }

  /** (at + d) * a * above - at * a * below >= gap * a. */
  lemma JumpArith(a: real, d: real, at: real, above: real, below: real, gap: real)
    requires 0.0 < a && 0.0 < d && 0.0 <= above && at * (above - below) == gap
    ensures ((at + d) * a) * above - (at * a) * below >= gap * a
  {
    assert ((at + d) * a) * above - (at * a) * below == (at * (above - below)) * a + (d * a) * above;
    MulNonNeg(d * a, above);
  }

  // ---------------------------------------------------------------------------
  // Size and the drawn sprite
  // ---------------------------------------------------------------------------

  /** The size factor: realistic particles grow from 0.5 to 2 with age, simple
      ones shrink from 1 to 0.4. */
  function SizeScale(realistic: bool, lifeRatio: real): (k: real)
    ensures 0.0 <= lifeRatio <= 1.0 && realistic ==> 0.5 <= k <= 2.0
    ensures 0.0 <= lifeRatio <= 1.0 && !realistic ==> 0.4 <= k <= 1.0
  {
    if realistic then 0.5 + 1.5 * (1.0 - lifeRatio) else 0.4 + 0.6 * lifeRatio
  }

  /** Neither style grows then shrinks: the realistic size grows strictly with
      age and the simple size shrinks strictly with age. */
  lemma SizeScaleMonotone(s: real, t: real)
    requires s < t
    ensures SizeScale(true, t) < SizeScale(true, s)
    ensures SizeScale(false, s) < SizeScale(false, t)
  {
  }

  /** `life / max_life`, unclamped as in the renderer. A live particle has it in (0, 1]. */
  function LifeRatio(p: Particle): (r: real)
    requires p.maxLife != 0.0
    ensures Live(p) ==> 0.0 < r <= 1.0
  {
    if Live(p) then
      RatioInUnit(p.life, p.maxLife);
      p.life / p.maxLife
    else
      p.life / p.maxLife
  }

  lemma RatioInUnit(life: real, maxLife: real)
    requires 0.0 < life <= maxLife
    ensures 0.0 < life / maxLife <= 1.0
  {
    var r := life / maxLife;
    assert r * maxLife == life;
    if r > 1.0 {
      MulNonNeg(r - 1.0, maxLife);
      assert (r - 1.0) * maxLife > 0.0;
    }
  }

  /** What one draw call carries. */
  datatype Sprite = Sprite(color: Vec3, size: real, position: Vec3, rotation: real)

  /** The noise sample behind the simple style's flicker. */
  function FlickerNoise(p: Particle, now: real, noise: Vec3 -> real): real {
    noise(Vec3(p.position.x, p.position.y, now))
  }

  /** The particle's size scaled by the style's size factor. */
  function DrawnSize(p: Particle, realistic: bool): real
    requires p.maxLife != 0.0
  {
    p.size * SizeScale(realistic, LifeRatio(p))
  }

  /** The colour, size, position and rotation drawn for one particle at time
      `now`; `noise` stands for `noise_perlin`. */
  function Shade(p: Particle, realistic: bool, now: real, noise: Vec3 -> real): (s: Sprite)
    requires p.maxLife != 0.0
    ensures s.position == p.position && s.rotation == p.rotationOffset
  {
    var lr := LifeRatio(p);
    var color := if realistic then RealisticColor(lr) else SimpleColor(lr, FlickerNoise(p, now, noise));
    Sprite(color, DrawnSize(p, realistic), p.position, p.rotationOffset)
  }

  /** A live particle is drawn between half and twice its size in the
      realistic style and between 0.4 times and once its size in the simple one. */
  lemma ShadeSize(p: Particle, realistic: bool, now: real, noise: Vec3 -> real)
    requires Live(p) && 0.0 <= p.size
    ensures realistic ==> 0.5 * p.size <= Shade(p, realistic, now, noise).size <= 2.0 * p.size
    ensures !realistic ==> 0.4 * p.size <= Shade(p, realistic, now, noise).size <= p.size
  {
    assert Shade(p, realistic, now, noise).size == DrawnSize(p, realistic);
    DrawnSizeBounds(p, realistic);
  }

  lemma DrawnSizeBounds(p: Particle, realistic: bool)
    requires Live(p) && 0.0 <= p.size
    ensures realistic ==> 0.5 * p.size <= DrawnSize(p, realistic) <= 2.0 * p.size
    ensures !realistic ==> 0.4 * p.size <= DrawnSize(p, realistic) <= p.size
  {
    var k := SizeScale(realistic, LifeRatio(p));
    if realistic {
      ScaleBetween(p.size, k, 0.5, 2.0, DrawnSize(p, realistic));
    } else {
      ScaleBetween(p.size, k, 0.4, 1.0, DrawnSize(p, realistic));
    }
  }

  /** A live particle's colour stays within [0, 0.8] in the realistic style
      and, with the noise in [-1, 1], within [0, 1.6] in the simple one. */
  lemma ShadeColor(p: Particle, realistic: bool, now: real, noise: Vec3 -> real)
    requires Live(p)
    ensures realistic ==> Within(Shade(p, realistic, now, noise).color, 0.0, 0.8)
    ensures !realistic && -1.0 <= FlickerNoise(p, now, noise) <= 1.0
            ==> Within(Shade(p, realistic, now, noise).color, 0.0, 1.6)
  {
    var lr := LifeRatio(p);
    if realistic {
      assert Shade(p, realistic, now, noise).color == RealisticColor(lr);
      RealisticColorBounds(lr);
    } else {
      var n := FlickerNoise(p, now, noise);
      assert Shade(p, realistic, now, noise).color == SimpleColor(lr, n);
      if -1.0 <= n <= 1.0 {
        SimpleColorBounds(lr, n);
      }
    }
  }
}
