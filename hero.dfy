/**
 * The particle network of js/hero.js: 90 particles over the hero section,
 * each pulled gently towards the pointer when it is within 200 pixels,
 * damped by 0.98 per frame and wrapped to the opposite edge when it leaves
 * the canvas by more than 20 pixels; every frame first draws a line between
 * each pair closer than 160 pixels, with an alpha falling linearly with
 * the distance.
 */
module Hero {
  import opened Js
  import opened Connections

  const ParticleCount: nat := 90
  const ConnectionDist: real := 160.0
  const MouseDist: real := 200.0
  /** The pointer position after mouseleave (and before the first mousemove). */
  const Sentinel: real := -9999.0

  datatype Color = Green | Cyan

  /** The fields of a Particle. */
  datatype ParticleState = ParticleState(x: real, y: real, vx: real, vy: real, r: real, color: Color, alpha: real)

  /** The seven Math.random() results reset uses, in the order it draws them. */
  datatype Draws = Draws(x: real, y: real, vx: real, vy: real, r: real, color: real, alpha: real)

  predicate ValidDraws(d: Draws) {
    InUnit(d.x) && InUnit(d.y) && InUnit(d.vx) && InUnit(d.vy) && InUnit(d.r) && InUnit(d.color) && InUnit(d.alpha)
  }

  /** Particle.reset with the canvas size w by h. */
  function ResetState(d: Draws, w: real, h: real): (p: ParticleState)
    requires ValidDraws(d) && 0.0 <= w && 0.0 <= h
    ensures 0.0 <= p.x <= w && (0.0 < w ==> p.x < w)
    ensures 0.0 <= p.y <= h && (0.0 < h ==> p.y < h)
    ensures -0.175 <= p.vx < 0.175 && -0.175 <= p.vy < 0.175
    ensures 0.6 <= p.r < 2.4
    ensures 0.3 <= p.alpha < 0.8
    ensures p.color == Green <==> 0.5 < d.color
  {
    ParticleState(
      DrawIn(d.x, w), DrawIn(d.y, h),
      (d.vx - 0.5) * 0.35, (d.vy - 0.5) * 0.35,
      d.r * 1.8 + 0.6,
      if d.color > 0.5 then Green else Cyan,
      d.alpha * 0.5 + 0.3)
  }

  /** The wrap of one coordinate against a canvas side of length size. */
  function Wrap(c: real, size: real): (r: real)
    ensures 0.0 <= size ==> -20.0 <= r <= size + 20.0
    ensures -20.0 <= c <= size + 20.0 ==> r == c
    ensures c < -20.0 && 0.0 <= size ==> r == size + 20.0
    ensures size + 20.0 < c && 0.0 <= size ==> r == -20.0
  {
    var c1 := if c < -20.0 then size + 20.0 else c;
    if c1 > size + 20.0 then -20.0 else c1
  }

  /** The pull strength at distance dist. */
  function Force(dist: real): (f: real)
    ensures 0.0 <= dist < MouseDist ==> 0.0 < f <= 0.012
  {
    (MouseDist - dist) / MouseDist * 0.012
  }

  /** Particle.update with the pointer at (mx, my), on a w by h canvas. */
  function Updated(p: ParticleState, mx: real, my: real, w: real, h: real, sqrt: real -> real): (q: ParticleState)
    ensures 0.0 <= w ==> -20.0 <= q.x <= w + 20.0
    ensures 0.0 <= h ==> -20.0 <= q.y <= h + 20.0
    ensures q.r == p.r && q.color == p.color && q.alpha == p.alpha
  {
    var dist := sqrt(PointerDist2(p, mx, my));
    var vx1 := if dist < MouseDist then Pull(p.vx, mx - p.x, dist) else p.vx;
    var vy1 := if dist < MouseDist then Pull(p.vy, my - p.y, dist) else p.vy;
    var vx2 := vx1 * 0.98;
    var vy2 := vy1 * 0.98;
    p.(x := Wrap(p.x + vx2, w), y := Wrap(p.y + vy2, h), vx := vx2, vy := vy2)
  }

  /** The squared pointer distance update compares (through Math.sqrt) with MOUSE_DIST. */
  function PointerDist2(p: ParticleState, mx: real, my: real): real {
    Hypot2(mx - p.x, my - p.y)
  }

  /** `v += d * force * 0.1` for one velocity component, d being that component of the way to the pointer. */
  function Pull(v: real, d: real, dist: real): real {
    v + d * Force(dist) * 0.1
  }

  /** Beyond MOUSE_DIST there is no pull: the velocity is only damped. */
  lemma NoPullBeyondReach(p: ParticleState, mx: real, my: real, w: real, h: real, sqrt: real -> real)
    requires IsSqrt(sqrt) && MouseDist * MouseDist <= PointerDist2(p, mx, my)
    ensures Updated(p, mx, my, w, h, sqrt).vx == 0.98 * p.vx
    ensures Updated(p, mx, my, w, h, sqrt).vy == 0.98 * p.vy
  {
    var d2 := PointerDist2(p, mx, my);
    RootBelow(sqrt(d2), d2, MouseDist);
  }

  /** Within MOUSE_DIST the pull adds to each velocity component in the direction of the pointer. */
  lemma PullTowardsPointer(p: ParticleState, mx: real, my: real, w: real, h: real, sqrt: real -> real)
    requires IsSqrt(sqrt) && PointerDist2(p, mx, my) < MouseDist * MouseDist
    ensures var q := Updated(p, mx, my, w, h, sqrt);
      && (p.x < mx ==> 0.98 * p.vx < q.vx)
      && (mx < p.x ==> q.vx < 0.98 * p.vx)
      && (mx == p.x ==> q.vx == 0.98 * p.vx)
      && (p.y < my ==> 0.98 * p.vy < q.vy)
      && (my < p.y ==> q.vy < 0.98 * p.vy)
      && (my == p.y ==> q.vy == 0.98 * p.vy)
  {
    var d2 := PointerDist2(p, mx, my);
    RootBelow(sqrt(d2), d2, MouseDist);
    var f := Force(sqrt(d2));
    PullSign(mx - p.x, f);
    PullSign(my - p.y, f);
  }

  lemma PullSign(d: real, f: real)
    requires 0.0 < f
    ensures 0.0 < d ==> 0.0 < d * f * 0.1
    ensures d < 0.0 ==> d * f * 0.1 < 0.0
    ensures d == 0.0 ==> d * f * 0.1 == 0.0
  {
    if 0.0 < d {
      MulPos(d, f);
    } else if d < 0.0 {
      MulPos(-d, f);
    }
  }

  function Speed2(p: ParticleState): real {
    p.vx * p.vx + p.vy * p.vy
  }

  /** Without a pull the squared speed shrinks by 0.98 squared, so a moving particle always slows down. */
  lemma NoPullSlowsDown(p: ParticleState, mx: real, my: real, w: real, h: real, sqrt: real -> real)
    requires IsSqrt(sqrt) && MouseDist * MouseDist <= PointerDist2(p, mx, my)
    ensures Speed2(Updated(p, mx, my, w, h, sqrt)) == 0.9604 * Speed2(p)
    ensures 0.0 < Speed2(p) ==> Speed2(Updated(p, mx, my, w, h, sqrt)) < Speed2(p)
  {
    NoPullBeyondReach(p, mx, my, w, h, sqrt);
    var q := Updated(p, mx, my, w, h, sqrt);
    assert q.vx * q.vx == 0.9604 * (p.vx * p.vx);
    assert q.vy * q.vy == 0.9604 * (p.vy * p.vy);
  }

  /** After mouseleave the pointer sits at (-9999, -9999), out of reach of every particle inside the wrap box. */
  lemma SentinelOutOfReach(p: ParticleState, w: real, h: real, sqrt: real -> real)
    requires IsSqrt(sqrt) && -20.0 <= p.x && -20.0 <= p.y
    ensures Updated(p, Sentinel, Sentinel, w, h, sqrt).vx == 0.98 * p.vx
    ensures Updated(p, Sentinel, Sentinel, w, h, sqrt).vy == 0.98 * p.vy
  {
    var dx, dy := Sentinel - p.x, Sentinel - p.y;
    SquareLe(9979.0, -dx);
    assert (-dx) * (-dx) == dx * dx;
    SquareNonneg(dy);
    assert MouseDist * MouseDist <= 9979.0 * 9979.0;
    NoPullBeyondReach(p, Sentinel, Sentinel, w, h, sqrt);
  }

  /** The alpha of a line between particles dist apart. */
  function LineAlpha(dist: real): real {
    (1.0 - dist / ConnectionDist) * 0.25
  }

  /** The alpha falls linearly from 0.25 at distance 0 towards 0 at CONNECTION_DIST. */
  lemma LineAlphaLinear(d1: real, d2: real)
    ensures LineAlpha(d2) - LineAlpha(d1) == (d1 - d2) / 640.0
    ensures LineAlpha(0.0) == 0.25 && LineAlpha(ConnectionDist) == 0.0
  {
  }

  /** Every line drawn has an alpha in (0, 0.25]. */
  lemma DrawnAlphaRange(pts: seq<Point>, sqrt: real -> real, l: Link)
    requires IsSqrt(sqrt) && Kept(pts, l, ConnectionDist, sqrt)
    ensures 0.0 < LineAlpha(l.dist) <= 0.25
  {
    KeptDistRange(pts, ConnectionDist, sqrt, l);
  }

  /** A particle of the network. */
  class Particle {
    var x: real
    var y: real
    var vx: real
    var vy: real
    var r: real
    var color: Color
    var alpha: real

    function State(): ParticleState
      reads this
    {
      ParticleState(x, y, vx, vy, r, color, alpha)
    }

    /** new Particle(): the constructor calls reset. */
    constructor (d: Draws, w: real, h: real)
      requires ValidDraws(d) && 0.0 <= w && 0.0 <= h
      ensures State() == ResetState(d, w, h)
    {
      x := DrawIn(d.x, w);
      y := DrawIn(d.y, h);
      vx := (d.vx - 0.5) * 0.35;
      vy := (d.vy - 0.5) * 0.35;
      r := d.r * 1.8 + 0.6;
      color := if d.color > 0.5 then Green else Cyan;
      alpha := d.alpha * 0.5 + 0.3;
    }

    /** reset(). */
    method Reset(d: Draws, w: real, h: real)
      requires ValidDraws(d) && 0.0 <= w && 0.0 <= h
      modifies this
      ensures State() == ResetState(d, w, h)
    {
      x := DrawIn(d.x, w);
      y := DrawIn(d.y, h);
      vx := (d.vx - 0.5) * 0.35;
      vy := (d.vy - 0.5) * 0.35;
      r := d.r * 1.8 + 0.6;
      color := if d.color > 0.5 then Green else Cyan;
      alpha := d.alpha * 0.5 + 0.3;
    }

    /** update(). */
    method Update(mx: real, my: real, w: real, h: real, sqrt: real -> real)
      modifies this
      ensures State() == Updated(old(State()), mx, my, w, h, sqrt)
    {
      var dx := mx - x;
      var dy := my - y;
      var dist := sqrt(Hypot2(dx, dy));
      if dist < MouseDist {
        vx := Pull(vx, dx, dist);
        vy := Pull(vy, dy, dist);
      }
      vx := vx * 0.98;
      vy := vy * 0.98;
      x := x + vx;
      y := y + vy;
      if x < -20.0 {
        x := w + 20.0;
      }
      if x > w + 20.0 {
        x := -20.0;
      }
      if y < -20.0 {
        y := h + 20.0;
      }
      if y > h + 20.0 {
        y := -20.0;
      }
    }
  }

  /** The canvas: its size, the pointer and the particles. */
  class Network {
    const particles: seq<Particle>
    var w: real
    var h: real
    var mouseX: real
    var mouseY: real

    ghost predicate Valid()
      reads this
    {
      && 0.0 <= w && 0.0 <= h
      && forall a, b :: 0 <= a < b < |particles| ==> particles[a] != particles[b]
    }

    function Positions(): (pts: seq<Point>)
      reads this, particles
      ensures |pts| == |particles|
      ensures forall k :: 0 <= k < |particles| ==> pts[k] == Point(particles[k].x, particles[k].y)
    {
      seq(|particles|, k reads particles requires 0 <= k < |particles| => Point(particles[k].x, particles[k].y))
    }

    /** The script's start: resize(), the sentinel pointer and PARTICLE_COUNT new particles. */
    constructor (w: real, h: real, draws: seq<Draws>)
      requires 0.0 <= w && 0.0 <= h
      requires |draws| == ParticleCount && forall k :: 0 <= k < |draws| ==> ValidDraws(draws[k])
      ensures Valid() && this.w == w && this.h == h
      ensures mouseX == Sentinel && mouseY == Sentinel
      ensures |particles| == ParticleCount
      ensures forall k :: 0 <= k < |particles| ==> particles[k].State() == ResetState(draws[k], w, h)
    {
      this.w := w;
      this.h := h;
      mouseX := Sentinel;
      mouseY := Sentinel;
      var ps: seq<Particle> := [];
      while |ps| < |draws|
        invariant |ps| <= |draws|
        invariant forall a, b :: 0 <= a < b < |ps| ==> ps[a] != ps[b]
        invariant forall k :: 0 <= k < |ps| ==> ps[k].State() == ResetState(draws[k], w, h)
      {
        var p := new Particle(draws[|ps|], w, h);
        ps := ps + [p];
      }
      particles := ps;
    }

    /** resize(): W and H follow the hero's size. */
    method Resize(offsetWidth: real, offsetHeight: real)
      requires Valid() && 0.0 <= offsetWidth && 0.0 <= offsetHeight
      modifies this
      ensures Valid() && w == offsetWidth && h == offsetHeight
      ensures mouseX == old(mouseX) && mouseY == old(mouseY)
    {
      w := offsetWidth;
      h := offsetHeight;
    }

    /** mousemove on the hero: the pointer relative to the hero's top-left corner. */
    method MouseMove(clientX: real, clientY: real, left: real, top: real)
      requires Valid()
      modifies this
      ensures Valid() && mouseX == clientX - left && mouseY == clientY - top
      ensures w == old(w) && h == old(h)
    {
      mouseX := clientX - left;
      mouseY := clientY - top;
    }

    /** mouseleave on the hero. */
    method MouseLeave()
      requires Valid()
      modifies this
      ensures Valid() && mouseX == Sentinel && mouseY == Sentinel
      ensures w == old(w) && h == old(h)
    {
      mouseX := Sentinel;
      mouseY := Sentinel;
    }

    /** The particles' fields, in order. */
    function States(): (ss: seq<ParticleState>)
      reads this, particles
      ensures |ss| == |particles|
      ensures forall k :: 0 <= k < |particles| ==> ss[k] == particles[k].State()
    {
      seq(|particles|, k reads particles requires 0 <= k < |particles| => particles[k].State())
    }

    /** One call of animate(): the lines of the frame's positions, then every particle updated in order. */
    method Animate(sqrt: real -> real) returns (links: seq<Link>)
      requires Valid()
      modifies particles
      ensures forall l :: l in links <==> Kept(old(Positions()), l, ConnectionDist, sqrt)
      ensures InDrawOrder(links)
      ensures forall k :: 0 <= k < |particles| ==>
        particles[k].State() == Updated(old(States())[k], mouseX, mouseY, w, h, sqrt)
      ensures forall k :: 0 <= k < |particles| ==>
        -20.0 <= particles[k].x <= w + 20.0 && -20.0 <= particles[k].y <= h + 20.0
    {
      links := Scan(Positions(), ConnectionDist, sqrt);
      UpdateAll(sqrt);
    }

    /** The update loop of animate(): each particle steps once, in order. */
    method UpdateAll(sqrt: real -> real)
      requires Valid()
      modifies particles
      ensures forall k :: 0 <= k < |particles| ==>
        particles[k].State() == Updated(old(States())[k], mouseX, mouseY, w, h, sqrt)
      ensures forall k :: 0 <= k < |particles| ==>
        -20.0 <= particles[k].x <= w + 20.0 && -20.0 <= particles[k].y <= h + 20.0
    {
      ghost var before := States();
      var i := 0;
      while i < |particles|
        invariant 0 <= i <= |particles|
        invariant forall k :: 0 <= k < i ==>
          particles[k].State() == Updated(before[k], mouseX, mouseY, w, h, sqrt)
        invariant forall k :: i <= k < |particles| ==> particles[k].State() == before[k]
      {
        particles[i].Update(mouseX, mouseY, w, h, sqrt);
        i := i + 1;
      }
    }
  }
}
