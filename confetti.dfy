/**
 * The dependency-free confetti burst: options with defaults, the clamped
 * device pixel ratio, the backing-store size of the full-screen canvas, the
 * spawn loop, the per-frame particle update and the frame/cleanup lifecycle.
 *
 * Math.random, Math.cos, Math.sin and performance.now are inputs: the k-th
 * call of Math.random is `random(k)`, and times are real milliseconds.
 */
module Confetti {
  import opened Wrappers
  import opened RealArith

  const DefaultDurationMs: real := 1100.0
  const DefaultParticleCount: real := 120.0
  const DefaultGravity: real := 0.25
  const DefaultScalar: real := 1.0

  /** Math.PI as a double. */
  const Pi: real := 3.141592653589793

  /** The options object; a missing or null field is None. */
  datatype Options = Options(durationMs: Option<real>, particleCount: Option<real>,
                             gravity: Option<real>, scalar: Option<real>)

  /** The four numbers a burst runs with. */
  datatype Settings = Settings(duration: real, particleCount: real, gravity: real, scalar: real)

  /** A field given with `!= null` semantics: any supplied value, 0 included, wins over the default. */
  function OrDefault(field: Option<real>, default: real): (v: real)
    ensures field.Some? ==> v == field.value
    ensures field.None? ==> v == default
  {
    match field
    case Some(x) => x
    case None => default
  }

  /** `opts || {}` followed by the four defaulting lines. */
  function Resolve(opts: Option<Options>): (s: Settings)
    ensures opts.None? ==> s == Settings(DefaultDurationMs, DefaultParticleCount, DefaultGravity, DefaultScalar)
    ensures opts.Some? ==> s.duration == OrDefault(opts.value.durationMs, DefaultDurationMs)
    ensures opts.Some? ==> s.particleCount == OrDefault(opts.value.particleCount, DefaultParticleCount)
    ensures opts.Some? ==> s.gravity == OrDefault(opts.value.gravity, DefaultGravity)
    ensures opts.Some? ==> s.scalar == OrDefault(opts.value.scalar, DefaultScalar)
  {
    var o := opts.GetOr(Options(None, None, None, None));
    Settings(OrDefault(o.durationMs, DefaultDurationMs), OrDefault(o.particleCount, DefaultParticleCount),
             OrDefault(o.gravity, DefaultGravity), OrDefault(o.scalar, DefaultScalar))
  }

  /** Settings written back as a fully populated options object. */
  function AsOptions(s: Settings): Options
  {
    Options(Some(s.duration), Some(s.particleCount), Some(s.gravity), Some(s.scalar))
  }

  /** Supplying zeros is not the same as leaving the fields out: every zero is kept. */
  lemma ZerosAreHonoured()
    ensures Resolve(Some(Options(Some(0.0), Some(0.0), Some(0.0), Some(0.0)))) == Settings(0.0, 0.0, 0.0, 0.0)
    ensures Resolve(Some(Options(None, None, None, None))) == Resolve(None)
  {
  }

  /** Resolving already-resolved settings changes nothing. */
  lemma ResolveIdempotent(opts: Option<Options>)
    ensures Resolve(Some(AsOptions(Resolve(opts)))) == Resolve(opts)
  {
  }

  /** A device pixel ratio, after clamping. */
  type Dpr = r: real | 1.0 <= r <= 2.0 witness 1.0

  /** `Math.max(1, Math.min(2, window.devicePixelRatio || 1))`; a missing or zero ratio counts as 1. */
  function DevicePixelRatio(reported: Option<real>): (dpr: Dpr)
    ensures reported.None? || reported.value == 0.0 ==> dpr == 1.0
    ensures reported.Some? && 1.0 <= reported.value <= 2.0 ==> dpr == reported.value
    ensures reported.Some? && reported.value > 2.0 ==> dpr == 2.0
    ensures reported.Some? && reported.value < 1.0 ==> dpr == 1.0
  {
    var raw := if reported.None? || reported.value == 0.0 then 1.0 else reported.value;
    var capped := if raw < 2.0 then raw else 2.0;
    if capped > 1.0 then capped else 1.0
  }

  /** `Math.floor(css * dpr)`: the backing-store length for a CSS length. */
  function BackingSize(css: nat, dpr: Dpr): (n: int)
    ensures n as real <= css as real * dpr < n as real + 1.0
    ensures css <= n <= 2 * css
  {
    (css as real * dpr).Floor
  }

  /** How many times `for (i = 0; i < particleCount; i++)` runs. */
  function SpawnCount(particleCount: real): (n: nat)
    ensures particleCount <= n as real
    ensures n == 0 || ((n - 1) as real) < particleCount
  {
    if particleCount <= 0.0 then 0
    else -((-particleCount).Floor)
  }

  /** One piece of confetti: position, velocity, size, rotation, spin and hue. */
  datatype Particle = Particle(x: real, y: real, vx: real, vy: real,
                               w: real, h: real, r: real, spin: real, hue: real)

  /** `rand(min, max)` for a uniform draw u. */
  function Rand(u: real, min: real, max: real): real
  {
    u * (max - min) + min
  }

  lemma RandRange(u: real, min: real, max: real)
    requires 0.0 <= u < 1.0 && min < max
    ensures min <= Rand(u, min, max) < max
  {
    FractionOf(u, max - min);
    assert Rand(u, min, max) == Times(u, max - min) + min;
  }

  /** `rand(min, max) * scalar * dpr`: a particle dimension. */
  function Size(u: real, min: real, max: real, scalar: real, dpr: Dpr): real
  {
    Rand(u, min, max) * scalar * dpr
  }

  lemma SizeRange(u: real, min: real, max: real, scalar: real, dpr: Dpr)
    requires 0.0 <= u < 1.0 && min < max && scalar > 0.0
    ensures min * scalar * dpr <= Size(u, min, max, scalar, dpr) < max * scalar * dpr
  {
    RandRange(u, min, max);
    ScaledRange(Rand(u, min, max), min, max, scalar, dpr);
  }

  /** The index of the first of the seven draws that particle i consumes. */
  function DrawBase(i: nat): nat
  {
    7 * i
  }

  /** `rand(-Math.PI, 0)`: particle i's launch angle. */
  function LaunchAngle(i: nat, random: nat -> real): real
  {
    Rand(random(DrawBase(i)), -Pi, 0.0)
  }

  /** `rand(3, 7)`: particle i's launch speed. */
  function LaunchSpeed(i: nat, random: nat -> real): real
  {
    Rand(random(DrawBase(i) + 1), 3.0, 7.0)
  }

  /**
   * Particle i, built from draws 7i .. 7i+6 in the order the source makes
   * them: angle, speed, w, h, r, spin, hue.
   */
  function MakeParticle(i: nat, width: int, height: int, dpr: Dpr, scalar: real,
                        random: nat -> real, cos: real -> real, sin: real -> real): (p: Particle)
    ensures p.x == width as real / 2.0 && p.y == height as real * 0.2
  {
    var b := DrawBase(i);
    var angle := LaunchAngle(i, random);
    var speed := LaunchSpeed(i, random);
    Particle(width as real / 2.0, height as real * 0.2,
             cos(angle) * speed * dpr, sin(angle) * speed * dpr,
             Size(random(b + 2), 4.0, 7.0, scalar, dpr),
             Size(random(b + 3), 6.0, 10.0, scalar, dpr),
             Rand(random(b + 4), 0.0, Pi * 2.0),
             Rand(random(b + 5), -0.25, 0.25),
             Rand(random(b + 6), 0.0, 360.0))
  }

  /**
   * With draws in [0, 1), every particle's width and height lie in [4, 7) and
   * [6, 10) times scalar·dpr. The scalar is used as given, so a zero or
   * negative one makes both dimensions zero or negative.
   */
  lemma ParticleSizes(i: nat, width: int, height: int, dpr: Dpr, scalar: real,
                      random: nat -> real, cos: real -> real, sin: real -> real)
    requires forall k: nat :: 0.0 <= random(k) < 1.0
    ensures var p := MakeParticle(i, width, height, dpr, scalar, random, cos, sin);
      scalar > 0.0 ==>
        4.0 * scalar * dpr <= p.w < 7.0 * scalar * dpr &&
        6.0 * scalar * dpr <= p.h < 10.0 * scalar * dpr
    ensures var p := MakeParticle(i, width, height, dpr, scalar, random, cos, sin);
      scalar <= 0.0 ==> p.w <= 0.0 && p.h <= 0.0
  {
    var b := DrawBase(i);
    RandRange(random(b + 2), 4.0, 7.0);
    RandRange(random(b + 3), 6.0, 10.0);
    if scalar > 0.0 {
      SizeRange(random(b + 2), 4.0, 7.0, scalar, dpr);
      SizeRange(random(b + 3), 6.0, 10.0, scalar, dpr);
    } else {
      MulNonPos(Rand(random(b + 2), 4.0, 7.0), scalar, dpr);
      MulNonPos(Rand(random(b + 3), 6.0, 10.0), scalar, dpr);
    }
  }

  /** With draws in [0, 1), every particle's rotation, spin and hue lie in [0, 2π), [-0.25, 0.25) and [0, 360). */
  lemma ParticleTurns(i: nat, width: int, height: int, dpr: Dpr, scalar: real,
                      random: nat -> real, cos: real -> real, sin: real -> real)
    requires forall k: nat :: 0.0 <= random(k) < 1.0
    ensures var p := MakeParticle(i, width, height, dpr, scalar, random, cos, sin);
      0.0 <= p.r < 2.0 * Pi && -0.25 <= p.spin < 0.25 && 0.0 <= p.hue < 360.0
  {
    var b := DrawBase(i);
    RandRange(random(b + 4), 0.0, Pi * 2.0);
    RandRange(random(b + 5), -0.25, 0.25);
    RandRange(random(b + 6), 0.0, 360.0);
  }

  /**
   * Particles fly upwards: the launch angle lies in [-π, 0) and the speed in
   * [3, 7), and the velocity is the injected cosine and sine of that angle
   * times the speed and the pixel ratio.
   */
  lemma ParticleLaunch(i: nat, width: int, height: int, dpr: Dpr, scalar: real,
                       random: nat -> real, cos: real -> real, sin: real -> real)
    requires forall k: nat :: 0.0 <= random(k) < 1.0
    ensures -Pi <= LaunchAngle(i, random) < 0.0 && 3.0 <= LaunchSpeed(i, random) < 7.0
    ensures var p := MakeParticle(i, width, height, dpr, scalar, random, cos, sin);
      p.vx == cos(LaunchAngle(i, random)) * LaunchSpeed(i, random) * dpr &&
      p.vy == sin(LaunchAngle(i, random)) * LaunchSpeed(i, random) * dpr
  {
    RandRange(random(DrawBase(i)), -Pi, 0.0);
    RandRange(random(DrawBase(i) + 1), 3.0, 7.0);
  }

  /** The spawn loop: one `push` per iteration, for as many iterations as `i < particleCount` allows. */
  method Spawn(particleCount: real, width: int, height: int, dpr: Dpr, scalar: real,
               random: nat -> real, cos: real -> real, sin: real -> real) returns (ps: seq<Particle>)
    ensures |ps| == SpawnCount(particleCount)
    ensures forall i | 0 <= i < |ps| :: ps[i] == MakeParticle(i, width, height, dpr, scalar, random, cos, sin)
    ensures forall i | 0 <= i < |ps| :: ps[i].x == width as real / 2.0 && ps[i].y == height as real * 0.2
  {
    ps := [];
    var i: nat := 0;
    while (i as real) < particleCount
      invariant i <= SpawnCount(particleCount)
      invariant |ps| == i
      invariant forall j | 0 <= j < i :: ps[j] == MakeParticle(j, width, height, dpr, scalar, random, cos, sin)
      decreases SpawnCount(particleCount) - i
    {
      ps := ps + [MakeParticle(i, width, height, dpr, scalar, random, cos, sin)];
      i := i + 1;
    }
  }

  /** One frame for one particle: gravity into vy first, then the position moves by the new velocity, then the spin. */
  function Step(p: Particle, gravity: real, dpr: Dpr): (q: Particle)
    ensures q.vy - p.vy == gravity * dpr
    ensures q.x - p.x == p.vx && q.y - p.y == q.vy && q.r - p.r == p.spin
    ensures q.vx == p.vx && q.w == p.w && q.h == p.h && q.spin == p.spin && q.hue == p.hue
  {
    var vy := p.vy + gravity * dpr;
    p.(vy := vy, x := p.x + p.vx, y := p.y + vy, r := p.r + p.spin)
  }

  /** One frame for every particle. */
  function StepAll(ps: seq<Particle>, gravity: real, dpr: Dpr): (qs: seq<Particle>)
    ensures |qs| == |ps|
    ensures forall i | 0 <= i < |ps| :: qs[i] == Step(ps[i], gravity, dpr)
  {
    seq(|ps|, i requires 0 <= i < |ps| => Step(ps[i], gravity, dpr))
  }

  /** n frames for one particle. */
  function StepN(p: Particle, n: nat, gravity: real, dpr: Dpr): Particle
  {
    if n == 0 then p else Step(StepN(p, n - 1, gravity, dpr), gravity, dpr)
  }

  /**
   * After n frames vy has gained n·g (g = gravity·dpr), x has moved n·vx and
   * r has turned n·spin; vx, the size, the spin and the hue never change.
   */
  lemma {:induction false} StepNDrift(p: Particle, n: nat, gravity: real, dpr: Dpr)
    ensures var q := StepN(p, n, gravity, dpr); var m := n as real;
      q.vy == p.vy + m * (gravity * dpr) && q.x == p.x + m * p.vx && q.r == p.r + m * p.spin &&
      q.vx == p.vx && q.w == p.w && q.h == p.h && q.spin == p.spin && q.hue == p.hue
  {
    if n > 0 {
      StepNDrift(p, n - 1, gravity, dpr);
      var m := n as real;
      OneMore(gravity * dpr, m);
      OneMore(p.vx, m);
      OneMore(p.spin, m);
    }
  }

  /**
   * After n frames y has moved n·vy + g·n(n+1)/2: each frame moves by the
   * already-updated velocity, so even the first frame feels gravity.
   */
  lemma {:induction false} StepNHeight(p: Particle, n: nat, gravity: real, dpr: Dpr)
    ensures var g := gravity * dpr; var m := n as real;
      StepN(p, n, gravity, dpr).y == p.y + m * p.vy + g * m * (m + 1.0) / 2.0
  {
    if n > 0 {
      StepNHeight(p, n - 1, gravity, dpr);
      StepNDrift(p, n - 1, gravity, dpr);
      var g := gravity * dpr;
      var m := n as real;
      var q0 := StepN(p, n - 1, gravity, dpr);
      assert StepN(p, n, gravity, dpr).y == q0.y + q0.vy + g;
      FallDistance(p.vy, g, m);
    }
  }

  /** n frames for every particle. */
  function StepAllN(ps: seq<Particle>, n: nat, gravity: real, dpr: Dpr): (qs: seq<Particle>)
    ensures |qs| == |ps|
  {
    if n == 0 then ps else StepAll(StepAllN(ps, n - 1, gravity, dpr), gravity, dpr)
  }

  /** Frames act on each particle separately: n frames of the burst are n steps of every particle. */
  lemma {:induction false} StepAllNEach(ps: seq<Particle>, n: nat, gravity: real, dpr: Dpr)
    ensures |StepAllN(ps, n, gravity, dpr)| == |ps|
    ensures forall i | 0 <= i < |ps| :: StepAllN(ps, n, gravity, dpr)[i] == StepN(ps[i], n, gravity, dpr)
  {
    if n > 0 {
      StepAllNEach(ps, n - 1, gravity, dpr);
    }
  }

  /** A JS number that may be one of the non-finite results of a division. */
  datatype Ratio = Finite(value: real) | PosInfinity | NegInfinity | NotANumber

  /** IEEE division of finite numbers as JS performs it, including division by zero. */
  function Divide(a: real, b: real): (q: Ratio)
    ensures b != 0.0 ==> q == Finite(a / b)
    ensures b == 0.0 ==> (q == PosInfinity <==> a > 0.0) && (q == NegInfinity <==> a < 0.0) && (q == NotANumber <==> a == 0.0)
  {
    if b != 0.0 then Finite(a / b)
    else if a > 0.0 then PosInfinity
    else if a < 0.0 then NegInfinity
    else NotANumber
  }

  /** `Math.min(1, x)`, NaN propagating. */
  function MinOne(x: Ratio): (m: Ratio)
    ensures m.Finite? ==> m.value <= 1.0
    ensures m != PosInfinity
    ensures x.Finite? && x.value <= 1.0 ==> m == x
    ensures x.NotANumber? <==> m.NotANumber?
  {
    match x
    case Finite(v) => Finite(if v < 1.0 then v else 1.0)
    case PosInfinity => Finite(1.0)
    case NegInfinity => NegInfinity
    case NotANumber => NotANumber
  }

  /** `x < 1` on a JS number: false for NaN and +Infinity. */
  predicate LessThanOne(x: Ratio)
  {
    match x
    case Finite(v) => v < 1.0
    case NegInfinity => true
    case PosInfinity => false
    case NotANumber => false
  }

  /** `Math.min(1, (now - start) / duration)`. */
  function Progress(now: real, start: real, duration: real): (p: Ratio)
    ensures p.Finite? ==> p.value <= 1.0
    ensures p != PosInfinity
  {
    MinOne(Divide(now - start, duration))
  }

  /** Whether the frame requests another frame. */
  predicate KeepAnimating(now: real, start: real, duration: real)
  {
    LessThanOne(Progress(now, start, duration))
  }

  /**
   * The burst keeps going exactly while less than `duration` has elapsed; a
   * zero duration (which the defaulting keeps) stops at the first frame not
   * earlier than the start, and a negative one keeps going while the elapsed
   * time is above it.
   */
  lemma KeepAnimatingExactly(now: real, start: real, duration: real)
    ensures KeepAnimating(now, start, duration) <==>
      (duration > 0.0 && now - start < duration) ||
      (duration == 0.0 && now < start) ||
      (duration < 0.0 && now - start > duration)
  {
    var e := now - start;
    if duration != 0.0 {
      QuotientBelowOne(e, duration);
    }
  }

  /**
   * One burst while it is on screen: its canvas, its resize listener, its
   * particles and its animation frame. `cleanups` counts how many times
   * `cleanup` has run.
   */
  class Burst {
    const dpr: Dpr
    const gravity: real
    const duration: real
    const start: real
    const particles: array<Particle>
    var width: int
    var height: int
    var frameScheduled: bool
    var resizeListening: bool
    var canvasAttached: bool
    var cleanups: nat

    /** Either still running with everything in place, or cleaned up exactly once with nothing left behind. */
    ghost predicate Valid()
      reads this
    {
      (frameScheduled && resizeListening && canvasAttached && cleanups == 0) ||
      (!frameScheduled && !resizeListening && !canvasAttached && cleanups == 1)
    }

    /** Canvas attached, sized, listener added, particles spawned and the first frame requested. */
    constructor Start(s: Settings, dpr: Dpr, clientWidth: nat, clientHeight: nat, ps: seq<Particle>, start: real)
      ensures Valid() && frameScheduled && cleanups == 0
      ensures this.dpr == dpr && gravity == s.gravity && duration == s.duration && this.start == start
      ensures width == BackingSize(clientWidth, dpr) && height == BackingSize(clientHeight, dpr)
      ensures fresh(particles) && particles[..] == ps
    {
      this.dpr := dpr;
      gravity := s.gravity;
      duration := s.duration;
      this.start := start;
      particles := new Particle[|ps|](i requires 0 <= i < |ps| => ps[i]);
      width := BackingSize(clientWidth, dpr);
      height := BackingSize(clientHeight, dpr);
      frameScheduled := true;
      resizeListening := true;
      canvasAttached := true;
      cleanups := 0;
    }

    /** A window resize: the listener re-derives the backing size while it is registered. */
    method OnWindowResize(clientWidth: nat, clientHeight: nat)
      modifies this
      ensures resizeListening == old(resizeListening) && frameScheduled == old(frameScheduled)
      ensures canvasAttached == old(canvasAttached) && cleanups == old(cleanups)
      ensures resizeListening ==> width == BackingSize(clientWidth, dpr) && height == BackingSize(clientHeight, dpr)
      ensures !resizeListening ==> width == old(width) && height == old(height)
    {
      if resizeListening {
        width := BackingSize(clientWidth, dpr);
        height := BackingSize(clientHeight, dpr);
      }
    }

    /**
     * An animation frame at time `now`: every particle advances one step in
     * place; then either the next frame is requested, or the listener and the
     * canvas are removed.
     */
    method Tick(now: real)
      requires Valid() && frameScheduled
      modifies this, particles
      ensures Valid()
      ensures particles[..] == StepAll(old(particles[..]), gravity, dpr)
      ensures frameScheduled <==> KeepAnimating(now, start, duration)
      ensures cleanups == if KeepAnimating(now, start, duration) then 0 else 1
      ensures width == old(width) && height == old(height)
    {
      var i := 0;
      while i < particles.Length
        modifies particles
        invariant 0 <= i <= particles.Length
        invariant forall j | 0 <= j < i :: particles[j] == Step(old(particles[j]), gravity, dpr)
        invariant forall j | i <= j < particles.Length :: particles[j] == old(particles[j])
      {
        particles[i] := Step(particles[i], gravity, dpr);
        i := i + 1;
      }
      if !KeepAnimating(now, start, duration) {
        Cleanup();
      }
    }

    /** Removes the resize listener and the canvas. */
    method Cleanup()
      requires frameScheduled && resizeListening && canvasAttached && cleanups == 0
      modifies this
      ensures !frameScheduled && !resizeListening && !canvasAttached && cleanups == 1
      ensures width == old(width) && height == old(height)
    {
      frameScheduled := false;
      resizeListening := false;
      canvasAttached := false;
      cleanups := cleanups + 1;
    }
  }

  /**
   * `fireConfetti(opts)`: nothing at all under reduced motion; otherwise a
   * running burst with exactly the spawned particles, all at the launch point.
   */
  method FireConfetti(opts: Option<Options>, reducedMotion: bool, reportedDpr: Option<real>,
                      clientWidth: nat, clientHeight: nat,
                      random: nat -> real, cos: real -> real, sin: real -> real, start: real)
    returns (burst: Option<Burst>)
    ensures burst.None? <==> reducedMotion
    ensures burst.Some? ==> fresh(burst.value) && fresh(burst.value.particles) && burst.value.Valid()
    ensures burst.Some? ==>
      var b := burst.value; var s := Resolve(opts);
      b.frameScheduled && b.dpr == DevicePixelRatio(reportedDpr) &&
      b.gravity == s.gravity && b.duration == s.duration && b.start == start &&
      b.width == BackingSize(clientWidth, b.dpr) && b.height == BackingSize(clientHeight, b.dpr) &&
      b.particles.Length == SpawnCount(s.particleCount) &&
      forall i | 0 <= i < b.particles.Length ::
        b.particles[i] == MakeParticle(i, b.width, b.height, b.dpr, s.scalar, random, cos, sin)
  {
    if reducedMotion {
      return None;
    }
    var s := Resolve(opts);
    var dpr := DevicePixelRatio(reportedDpr);
    var width, height := BackingSize(clientWidth, dpr), BackingSize(clientHeight, dpr);
    var ps := Spawn(s.particleCount, width, height, dpr, s.scalar, random, cos, sin);
    var b := new Burst.Start(s, dpr, clientWidth, clientHeight, ps, start);
    burst := Some(b);
  }
}
