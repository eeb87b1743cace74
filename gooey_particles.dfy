/**
 * The arithmetic of one GooeyNav particle burst: the jitter function, the
 * particle descriptors, and the timers one burst registers.
 *
 * Randomness is injected: every draw of the browser's random source is a
 * parameter `r` with 0 <= r < 1.  The cosine/sine step that turns an angle
 * into pixel offsets is not modelled; particle end points stay in polar form.
 */
module GooeyParticles {

  /** The widget properties that drive a burst. */
  datatype Config = Config(
    animationTime: real,
    particleCount: nat,
    nearDistance: real,   // particleDistances[0]
    farDistance: real,    // particleDistances[1]
    radius: real,         // particleR
    timeVariance: real)

  /** The property defaults of the widget. */
  const DefaultConfig := Config(600.0, 15, 90.0, 10.0, 100.0, 300.0)

  /** A value of the random source: uniform in [0, 1). */
  predicate IsUnit(r: real) { 0.0 <= r < 1.0 }

  /**
   * The six draws one particle consumes, in the order the widget evaluates
   * them: its lifetime, its rotation, the angle of its start point, the
   * distance and then the angle of its end point, and its scale.
   */
  datatype Draws = Draws(
    time: real, rotate: real, startAngle: real,
    endDistance: real, endAngle: real, scale: real)

  predicate ValidDraws(d: Draws)
  {
    IsUnit(d.time) && IsUnit(d.rotate) && IsUnit(d.startAngle) &&
    IsUnit(d.endDistance) && IsUnit(d.endAngle) && IsUnit(d.scale)
  }

  predicate AllValid(ds: seq<Draws>)
  {
    forall k :: 0 <= k < |ds| ==> ValidDraws(ds[k])
  }

  /** A random draw scaled to [0, n): the `Math.random() * n` of the jitter. */
  function Scaled(r: real, n: real): (m: real)
    requires IsUnit(r)
    ensures 0.0 <= n ==> m <= n
    ensures 0.0 <= n ==> 0.0 <= m
    ensures 0.0 < n ==> m < n
  {
    ScaledAtMost(r, n);
    ScaledNonNegative(r, n);
    ScaledBelow(r, n);
    r * n
  }

  // One fact per lemma: the solver handles each product alone, not together.
  lemma ScaledAtMost(r: real, n: real)
    requires IsUnit(r)
    ensures 0.0 <= n ==> r * n <= n
  {}

  lemma ScaledNonNegative(r: real, n: real)
    requires IsUnit(r)
    ensures 0.0 <= n ==> 0.0 <= r * n
  {}

  lemma ScaledBelow(r: real, n: real)
    requires IsUnit(r)
    ensures 0.0 < n ==> r * n < n
  {}

  /** Jitter of amplitude n: n/2 - r*n, which lies in (-n/2, n/2]. */
  function Noise(n: real, r: real): (v: real)
    requires IsUnit(r)
    ensures 0.0 <= n ==> -n / 2.0 <= v <= n / 2.0
    ensures 0.0 < n ==> -n / 2.0 < v
    ensures n == 0.0 ==> v == 0.0
  {
    n / 2.0 - Scaled(r, n)
  }

  /** A point given by its distance from the centre and its angle in degrees. */
  datatype Polar = Polar(distance: real, angle: real)

  /**
   * The point of slot `pointIndex` out of `totalPoints`: a full turn, jittered
   * by up to 4 degrees either way, divided evenly among the slots.
   */
  function SlotPoint(distance: real, pointIndex: nat, totalPoints: nat, r: real): (p: Polar)
    requires IsUnit(r) && 0 < totalPoints
    ensures p.distance == distance
    ensures 356.0 * pointIndex as real / totalPoints as real <= p.angle
    ensures p.angle <= 364.0 * pointIndex as real / totalPoints as real
  {
    var turn := 360.0 + Noise(8.0, r);
    SlotAngleBound(turn, pointIndex, totalPoints);
    Polar(distance, turn / totalPoints as real * pointIndex as real)
  }

  lemma SlotAngleBound(turn: real, pointIndex: nat, totalPoints: nat)
    requires 356.0 <= turn <= 364.0 && 0 < totalPoints
    ensures 356.0 * pointIndex as real / totalPoints as real <= turn / totalPoints as real * pointIndex as real
    ensures turn / totalPoints as real * pointIndex as real <= 364.0 * pointIndex as real / totalPoints as real
  {
    var n, p := totalPoints as real, pointIndex as real;
    assert turn / n * p == turn * p / n;
    assert 356.0 * p <= turn * p <= 364.0 * p;
    DivMonotone(356.0 * p, turn * p, n);
    DivMonotone(turn * p, 364.0 * p, n);
  }

  lemma DivMonotone(a: real, b: real, n: real)
    requires a <= b && 0.0 < n
    ensures a / n <= b / n
  {}

  /**
   * The rotation of a particle: jitter of amplitude radius/10, pushed a
   * further radius/20 away from zero in the direction of its sign, times 10.
   */
  function Rotation(radius: real, r: real): (deg: real)
    requires IsUnit(r)
    ensures 0.0 <= radius ==> (deg > 0.0 <==> Noise(radius / 10.0, r) > 0.0)
    ensures 0.0 <= radius && deg > 0.0 ==> radius / 2.0 < deg <= radius
    ensures 0.0 <= radius && deg <= 0.0 ==> -radius <= deg <= -radius / 2.0
  {
    var rotate := Noise(radius / 10.0, r);
    if rotate > 0.0 then (rotate + radius / 20.0) * 10.0 else (rotate - radius / 20.0) * 10.0
  }

  /** The lifetime of one particle: twice the animation time plus jitter of amplitude twice the variance. */
  function Lifetime(c: Config, r: real): (t: real)
    requires IsUnit(r)
    ensures 0.0 <= c.timeVariance ==>
      2.0 * c.animationTime - c.timeVariance <= t <= 2.0 * c.animationTime + c.timeVariance
    ensures 0.0 < c.timeVariance ==> 2.0 * c.animationTime - c.timeVariance < t
  {
    2.0 * c.animationTime + Noise(2.0 * c.timeVariance, r)
  }

  /** How long the highlight glows for one burst, before the final 120 ms: the longest a particle can live. */
  function BubbleTime(c: Config): (b: real)
    ensures forall r :: IsUnit(r) && 0.0 <= c.timeVariance ==> Lifetime(c, r) <= b
  {
    2.0 * c.animationTime + c.timeVariance
  }

  /** What one particle looks like when it is spawned. */
  datatype Particle = Particle(start: Polar, end: Polar, time: real, scale: real, rotate: real)

  /**
   * Particle `i` of a burst with lifetime `t`.  Slots are taken in reverse
   * index order: particle i sits in slot particleCount - i.
   */
  function CreateParticle(c: Config, i: nat, t: real, d: Draws): (p: Particle)
    requires i < c.particleCount && ValidDraws(d)
    ensures p.time == t
    ensures p.start.distance == c.nearDistance
    ensures c.farDistance - 3.5 < p.end.distance <= c.farDistance + 3.5
    ensures 0.9 < p.scale <= 1.1
    ensures 0.0 <= c.radius ==> (p.rotate > 0.0 <==> Noise(c.radius / 10.0, d.rotate) > 0.0)
    ensures var slot := (c.particleCount - i) as real;
      && 356.0 * slot / c.particleCount as real <= p.start.angle <= 364.0 * slot / c.particleCount as real
      && 356.0 * slot / c.particleCount as real <= p.end.angle <= 364.0 * slot / c.particleCount as real
  {
    var slot := c.particleCount - i;
    Particle(
      SlotPoint(c.nearDistance, slot, c.particleCount, d.startAngle),
      SlotPoint(c.farDistance + Noise(7.0, d.endDistance), slot, c.particleCount, d.endAngle),
      t,
      1.0 + Noise(0.2, d.scale),
      Rotation(c.radius, d.rotate))
  }

  /** What a pending timer does when it fires. */
  datatype Action =
    | Spawn(particle: Particle)   // create the particle node, then schedule its removal
    | RemoveParticle(node: nat)   // remove particle node `node`
    | GlowOff                     // take the highlight out of its active state

  /** A timer registered with the browser: its id, its delay in ms and its callback. */
  datatype Timer = Timer(id: nat, delay: real, action: Action)

  /** The spawn timer of particle i: delay 30 + 12*i, id firstId + i. */
  function SpawnTimer(c: Config, draws: seq<Draws>, firstId: nat, i: nat): (t: Timer)
    requires |draws| == c.particleCount && AllValid(draws) && i < c.particleCount
    ensures t.id == firstId + i && 30.0 <= t.delay && t.action.Spawn?
    ensures t.action.particle.start.distance == c.nearDistance
    ensures 0.0 <= c.timeVariance ==> t.action.particle.time <= BubbleTime(c)
  {
    var t := Lifetime(c, draws[i].time);
    Timer(firstId + i, (30 + 12 * i) as real, Spawn(CreateParticle(c, i, t, draws[i])))
  }

  /** The spawn timers of particles 0 .. n-1, in the order they are registered. */
  function SpawnTimers(c: Config, draws: seq<Draws>, firstId: nat, n: nat): (ts: seq<Timer>)
    requires |draws| == c.particleCount && AllValid(draws) && n <= c.particleCount
    ensures |ts| == n
  {
    if n == 0 then [] else SpawnTimers(c, draws, firstId, n - 1) + [SpawnTimer(c, draws, firstId, n - 1)]
  }

  /** The final timer of a burst: glow off after the bubble time plus 120 ms. */
  function GlowOffTimer(c: Config, id: nat): (t: Timer)
    ensures t.id == id && t.action == GlowOff
    ensures forall r :: IsUnit(r) && 0.0 <= c.timeVariance ==> Lifetime(c, r) + 120.0 <= t.delay
  {
    Timer(id, BubbleTime(c) + 120.0, GlowOff)
  }

  /** Every timer one burst registers, in registration order, ids from firstId. */
  function Burst(c: Config, draws: seq<Draws>, firstId: nat): (b: seq<Timer>)
    requires |draws| == c.particleCount && AllValid(draws)
    ensures |b| == c.particleCount + 1 && b[c.particleCount].action == GlowOff
    ensures forall k :: 0 <= k < |b| ==> b[k].id == firstId + k
    ensures forall k :: 0 <= k < c.particleCount ==> b[k].action.Spawn?
  {
    SpawnTimersAt(c, draws, firstId, c.particleCount);
    SpawnTimers(c, draws, firstId, c.particleCount) + [GlowOffTimer(c, firstId + c.particleCount)]
  }

  lemma {:induction false} SpawnTimersAt(c: Config, draws: seq<Draws>, firstId: nat, n: nat)
    requires |draws| == c.particleCount && AllValid(draws) && n <= c.particleCount
    ensures forall i :: 0 <= i < n ==> SpawnTimers(c, draws, firstId, n)[i] == SpawnTimer(c, draws, firstId, i)
  {
    if n > 0 {
      SpawnTimersAt(c, draws, firstId, n - 1);
    }
  }

  /**
   * A burst is particleCount spawn timers, particle i at delay 30 + 12*i
   * with id firstId + i, followed by one glow-off timer at the bubble time
   * plus 120 ms; every particle's lifetime lies within the variance.
   */
  lemma BurstShape(c: Config, draws: seq<Draws>, firstId: nat)
    requires |draws| == c.particleCount && AllValid(draws)
    ensures var b := Burst(c, draws, firstId);
      && |b| == c.particleCount + 1
      && (forall i :: 0 <= i < |b| ==> b[i].id == firstId + i)
      && (forall i :: 0 <= i < c.particleCount ==> b[i].delay == (30 + 12 * i) as real && b[i].action.Spawn?)
      && b[c.particleCount] == Timer(firstId + c.particleCount, 2.0 * c.animationTime + c.timeVariance + 120.0, GlowOff)
  {
    SpawnTimersAt(c, draws, firstId, c.particleCount);
  }

  /** The spawn delays of a burst strictly increase. */
  lemma BurstSpawnOrder(c: Config, draws: seq<Draws>, firstId: nat, i: nat, j: nat)
    requires |draws| == c.particleCount && AllValid(draws)
    requires i < j < c.particleCount
    ensures Burst(c, draws, firstId)[i].delay < Burst(c, draws, firstId)[j].delay
  {
    BurstShape(c, draws, firstId);
  }

  /** The particle every spawn timer of a burst carries has a lifetime within the variance. */
  lemma BurstLifetimes(c: Config, draws: seq<Draws>, firstId: nat, i: nat)
    requires |draws| == c.particleCount && AllValid(draws)
    requires i < c.particleCount && 0.0 <= c.timeVariance
    ensures var a := Burst(c, draws, firstId)[i].action;
      && a.Spawn?
      && 2.0 * c.animationTime - c.timeVariance <= a.particle.time <= 2.0 * c.animationTime + c.timeVariance
      && a.particle.start.distance == c.nearDistance
  {
    SpawnTimersAt(c, draws, firstId, c.particleCount);
  }
}
