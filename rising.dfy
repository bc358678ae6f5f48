/**
 * The rising background particles of js/scripts2.js: 60 particles drift
 * upwards across the window while their life runs down, and a particle
 * whose life is used up or that has left the top by more than 10 pixels
 * starts again from a fresh random state. Each frame first links every pair
 * closer than 100 pixels, with an alpha that falls with the distance and is
 * scaled by both particles' lives, and then updates every particle.
 */
module Rising {
  import opened Js
  import opened Connections

  const ParticleCount: nat := 60
  const LinkDist: real := 100.0

  /** The two colours a particle draws with: '0,255,122' and '0,221,255'. */
  datatype Tint = Green | Blue

  /** The fields of a Particle. */
  datatype Mote = Mote(
    x: real, y: real, size: real, speedX: real, speedY: real,
    opacity: real, tint: Tint, life: real, decay: real)

  /** The eight Math.random() results reset uses, in the order it draws them. */
  datatype Draws = Draws(x: real, y: real, size: real, speedX: real, speedY: real, opacity: real, tint: real, decay: real)

  predicate ValidDraws(d: Draws) {
    && InUnit(d.x) && InUnit(d.y) && InUnit(d.size) && InUnit(d.speedX)
    && InUnit(d.speedY) && InUnit(d.opacity) && InUnit(d.tint) && InUnit(d.decay)
  }

  /** The ranges every freshly reset particle keeps: its speeds, fade rate and the life it has left. */
  predicate InRange(m: Mote) {
    && -0.15 <= m.speedX < 0.15
    && -0.5 < m.speedY <= -0.1
    && 0.001 <= m.decay < 0.004
    && 0.0 < m.life <= 1.0
  }

  /** Particle.reset on a canvas of cw by ch pixels. */
  function ResetMote(d: Draws, cw: real, ch: real): (m: Mote)
    requires ValidDraws(d) && 0.0 <= cw && 0.0 <= ch
    ensures InRange(m) && m.life == 1.0
    ensures 0.0 <= m.x <= cw && 0.0 <= m.y <= ch
    ensures 0.5 <= m.size < 2.5 && 0.1 <= m.opacity < 0.6
    ensures m.tint == Green <==> 0.5 < d.tint
  {
    Mote(
      DrawIn(d.x, cw), DrawIn(d.y, ch),
      d.size * 2.0 + 0.5,
      (d.speedX - 0.5) * 0.3,
      -(d.speedY * 0.4 + 0.1),
      d.opacity * 0.5 + 0.1,
      if d.tint > 0.5 then Green else Blue,
      1.0,
      d.decay * 0.003 + 0.001)
  }

  /** Whether update ends in reset: the life is used up or the particle is above y = -10. */
  predicate Expired(m: Mote) {
    m.life <= 0.0 || m.y < -10.0
  }

  /** The move and fade of update, before the reset test. */
  function Moved(m: Mote): Mote {
    m.(x := m.x + m.speedX, y := m.y + m.speedY, life := m.life - m.decay)
  }

  /** Particle.update; the draws are only used when it resets. */
  function Updated(m: Mote, d: Draws, cw: real, ch: real): (r: Mote)
    requires ValidDraws(d) && 0.0 <= cw && 0.0 <= ch
    ensures 0.0 < r.life && -10.0 <= r.y
    ensures Expired(Moved(m)) ==> r == ResetMote(d, cw, ch)
    ensures !Expired(Moved(m)) ==> r == Moved(m)
  {
    var n := Moved(m);
    if n.life <= 0.0 || n.y < -10.0 then ResetMote(d, cw, ch) else n
  }

  /** Every update, reset or not, keeps a particle within its ranges. */
  lemma UpdateKeepsRange(m: Mote, d: Draws, cw: real, ch: real)
    requires InRange(m) && ValidDraws(d) && 0.0 <= cw && 0.0 <= ch
    ensures InRange(Updated(m, d, cw, ch))
  {
  }

  /** Without a reset a particle rises by at least 0.1 pixel and fades by at least 0.001. */
  lemma RisesAndFades(m: Mote, d: Draws, cw: real, ch: real)
    requires InRange(m) && ValidDraws(d) && 0.0 <= cw && 0.0 <= ch && !Expired(Moved(m))
    ensures Updated(m, d, cw, ch).y <= m.y - 0.1
    ensures Updated(m, d, cw, ch).life <= m.life - 0.001
    ensures Updated(m, d, cw, ch).speedY == m.speedY && Updated(m, d, cw, ch).decay == m.decay
  {
  }

  /** A particle fed only non-resetting updates: the states of its next n frames. */
  function Fade(m: Mote, n: nat): Mote {
    if n == 0 then m else Moved(Fade(m, n - 1))
  }

  /** Its life after n frames without a reset is the original life less n times the decay. */
  lemma {:induction false} FadeLife(m: Mote, n: nat)
    ensures Fade(m, n).life == m.life - (n as real) * m.decay
    ensures Fade(m, n).decay == m.decay
  {
    if n > 0 {
      FadeLife(m, n - 1);
    }
  }

  /** So within 1000 frames every particle has reset: its life would otherwise reach 0. */
  lemma ResetWithinThousand(m: Mote)
    requires InRange(m)
    ensures Fade(m, 1000).life <= 0.0
  {
    FadeLife(m, 1000);
  }

  /** The distance part of a line's alpha: 0.12 at distance 0, falling linearly to 0 at LINK_DIST. */
  function Closeness(dist: real): (c: real)
    ensures 0.0 <= dist < LinkDist ==> 0.0 < c <= 0.12
  {
    (1.0 - dist / LinkDist) * 0.12
  }

  /** The globalAlpha of a line between particles dist apart with lives lifeI and lifeJ. */
  function LinkAlpha(dist: real, lifeI: real, lifeJ: real): real {
    Closeness(dist) * lifeI * lifeJ
  }

  /** For a drawn pair of live particles the alpha is positive and at most the distance part. */
  lemma LinkAlphaRange(dist: real, lifeI: real, lifeJ: real)
    requires 0.0 <= dist < LinkDist && 0.0 < lifeI <= 1.0 && 0.0 < lifeJ <= 1.0
    ensures 0.0 < LinkAlpha(dist, lifeI, lifeJ) <= Closeness(dist) <= 0.12
  {
    ScaleDown(Closeness(dist), lifeI);
    ScaleDown(Closeness(dist) * lifeI, lifeJ);
  }

  /** Scaling a positive number by a factor in (0, 1] keeps it positive and no larger. */
  lemma ScaleDown(x: real, f: real)
    requires 0.0 < x && 0.0 < f <= 1.0
    ensures 0.0 < x * f <= x
  {
    MulPos(x, f);
    MulLe(f, 1.0, x);
    assert f * x == x * f;
  }

  /** Every line a frame draws between two live particles has an alpha in (0, 0.12]. */
  lemma DrawnAlphaRange(ms: seq<Mote>, pts: seq<Point>, sqrt: real -> real, l: Link)
    requires IsSqrt(sqrt) && |ms| == |pts|
    requires forall k :: 0 <= k < |ms| ==> 0.0 < ms[k].life <= 1.0
    requires Kept(pts, l, LinkDist, sqrt)
    ensures l.i < l.j < |ms| && 0.0 < LinkAlpha(l.dist, ms[l.i].life, ms[l.j].life) <= 0.12
  {
    KeptDistRange(pts, LinkDist, sqrt, l);
    LinkAlphaRange(l.dist, ms[l.i].life, ms[l.j].life);
  }

  /** A particle of the background canvas. */
  class Particle {
    var x: real
    var y: real
    var size: real
    var speedX: real
    var speedY: real
    var opacity: real
    var tint: Tint
    var life: real
    var decay: real

    function State(): Mote
      reads this
    {
      Mote(x, y, size, speedX, speedY, opacity, tint, life, decay)
    }

    /** new Particle() followed by `p.y = Math.random() * canvas.height`, as the start-up loop does. */
    constructor (d: Draws, yDraw: real, cw: real, ch: real)
      requires ValidDraws(d) && InUnit(yDraw) && 0.0 <= cw && 0.0 <= ch
      ensures State() == ResetMote(d, cw, ch).(y := DrawIn(yDraw, ch))
    {
      x := DrawIn(d.x, cw);
      y := DrawIn(d.y, ch);
      size := d.size * 2.0 + 0.5;
      speedX := (d.speedX - 0.5) * 0.3;
      speedY := -(d.speedY * 0.4 + 0.1);
      opacity := d.opacity * 0.5 + 0.1;
      tint := if d.tint > 0.5 then Green else Blue;
      life := 1.0;
      decay := d.decay * 0.003 + 0.001;
      new;
      y := DrawIn(yDraw, ch);
    }

    /** reset(). */
    method Reset(d: Draws, cw: real, ch: real)
      requires ValidDraws(d) && 0.0 <= cw && 0.0 <= ch
      modifies this
      ensures State() == ResetMote(d, cw, ch)
    {
      x := DrawIn(d.x, cw);
      y := DrawIn(d.y, ch);
      size := d.size * 2.0 + 0.5;
      speedX := (d.speedX - 0.5) * 0.3;
      speedY := -(d.speedY * 0.4 + 0.1);
      opacity := d.opacity * 0.5 + 0.1;
      tint := if d.tint > 0.5 then Green else Blue;
      life := 1.0;
      decay := d.decay * 0.003 + 0.001;
    }

    /** update(). */
    method Update(d: Draws, cw: real, ch: real)
      requires ValidDraws(d) && 0.0 <= cw && 0.0 <= ch
      modifies this
      ensures State() == Updated(old(State()), d, cw, ch)
      ensures 0.0 < life && -10.0 <= y
    {
      x := x + speedX;
      y := y + speedY;
      life := life - decay;
      if life <= 0.0 || y < -10.0 {
        Reset(d, cw, ch);
      }
    }
  }

  /** The canvas: its size and the particles. */
  class Field {
    const particles: seq<Particle>
    var cw: real
    var ch: real

    /** The canvas size is non-negative, the particles are distinct, and each keeps its ranges. */
    ghost predicate Valid()
      reads this, particles
    {
      && 0.0 <= cw && 0.0 <= ch
      && (forall a, b :: 0 <= a < b < |particles| ==> particles[a] != particles[b])
      && (forall k :: 0 <= k < |particles| ==> InRange(particles[k].State()))
    }

    function Positions(): (pts: seq<Point>)
      reads this, particles
      ensures |pts| == |particles|
      ensures forall k :: 0 <= k < |particles| ==> pts[k] == Point(particles[k].x, particles[k].y)
    {
      seq(|particles|, k reads particles requires 0 <= k < |particles| => Point(particles[k].x, particles[k].y))
    }

    function States(): (ms: seq<Mote>)
      reads this, particles
      ensures |ms| == |particles|
      ensures forall k :: 0 <= k < |particles| ==> ms[k] == particles[k].State()
    {
      seq(|particles|, k reads particles requires 0 <= k < |particles| => particles[k].State())
    }

    /** resizeCanvas() and the start-up loop that creates PARTICLE_COUNT particles. */
    constructor (cw: real, ch: real, draws: seq<Draws>, yDraws: seq<real>)
      requires 0.0 <= cw && 0.0 <= ch
      requires |draws| == ParticleCount && |yDraws| == ParticleCount
      requires forall k :: 0 <= k < ParticleCount ==> ValidDraws(draws[k]) && InUnit(yDraws[k])
      ensures Valid() && this.cw == cw && this.ch == ch && |particles| == ParticleCount
      ensures forall k :: 0 <= k < |particles| ==>
        particles[k].State() == ResetMote(draws[k], cw, ch).(y := DrawIn(yDraws[k], ch))
    {
      this.cw := cw;
      this.ch := ch;
      var ps: seq<Particle> := [];
      while |ps| < ParticleCount
        invariant |ps| <= ParticleCount
        invariant forall a, b :: 0 <= a < b < |ps| ==> ps[a] != ps[b]
        invariant forall k :: 0 <= k < |ps| ==> ps[k].State() == ResetMote(draws[k], cw, ch).(y := DrawIn(yDraws[k], ch))
      {
        var p := new Particle(draws[|ps|], yDraws[|ps|], cw, ch);
        ps := ps + [p];
      }
      particles := ps;
    }

    /** resizeCanvas() on a window resize. */
    method Resize(innerWidth: real, innerHeight: real)
      requires Valid() && 0.0 <= innerWidth && 0.0 <= innerHeight
      modifies this
      ensures Valid() && cw == innerWidth && ch == innerHeight
    {
      cw := innerWidth;
      ch := innerHeight;
    }

    /**
     * One call of animateParticles(): the links of the frame's positions, then
     * every particle updated in order, draws[k] being the reset draws
     * particle k would use.
     */
    method Animate(sqrt: real -> real, draws: seq<Draws>) returns (links: seq<Link>)
      requires Valid() && |draws| == |particles|
      requires forall k :: 0 <= k < |draws| ==> ValidDraws(draws[k])
      modifies particles
      ensures forall l :: l in links <==> Kept(old(Positions()), l, LinkDist, sqrt)
      ensures InDrawOrder(links)
      ensures forall k :: 0 <= k < |particles| ==>
        particles[k].State() == Updated(old(States())[k], draws[k], cw, ch)
      ensures forall k :: 0 <= k < |particles| ==> 0.0 < particles[k].life && -10.0 <= particles[k].y
      ensures IsSqrt(sqrt) ==> forall l :: l in links ==>
        l.i < l.j < |particles| && 0.0 < LinkAlpha(l.dist, old(States())[l.i].life, old(States())[l.j].life) <= 0.12
      ensures Valid()
    {
      links := Scan(Positions(), LinkDist, sqrt);
      ghost var ms := States();
      if IsSqrt(sqrt) {
        forall l | l in links
          ensures l.i < l.j < |particles| && 0.0 < LinkAlpha(l.dist, ms[l.i].life, ms[l.j].life) <= 0.12
        {
          DrawnAlphaRange(ms, Positions(), sqrt, l);
        }
      }
      UpdateAll(draws);
    }

    /** The forEach of animateParticles(): each particle updates once, in order. */
    method UpdateAll(draws: seq<Draws>)
      requires Valid() && |draws| == |particles|
      requires forall k :: 0 <= k < |draws| ==> ValidDraws(draws[k])
      modifies particles
      ensures forall k :: 0 <= k < |particles| ==>
        particles[k].State() == Updated(old(States())[k], draws[k], cw, ch)
      ensures forall k :: 0 <= k < |particles| ==> 0.0 < particles[k].life && -10.0 <= particles[k].y
      ensures Valid()
    {
      ghost var before := States();
      var i := 0;
      while i < |particles|
        invariant 0 <= i <= |particles|
        invariant forall k :: 0 <= k < i ==> particles[k].State() == Updated(before[k], draws[k], cw, ch)
        invariant forall k :: i <= k < |particles| ==> particles[k].State() == before[k]
        invariant Valid()
      {
        UpdateKeepsRange(before[i], draws[i], cw, ch);
        particles[i].Update(draws[i], cw, ch);
        i := i + 1;
      }
    }
  }
}
