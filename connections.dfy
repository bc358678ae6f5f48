/**
 * The pairwise scan that both particle canvases draw their connecting lines
 * with (`drawConnections` in js/hero.js and in js/scripts2.js): for every
 * i and every j > i, compute dx, dy and dist = Math.sqrt(dx*dx + dy*dy) and
 * keep the pair when dist is below the connection distance. The two scripts
 * differ only in that distance and in the alpha they draw a kept pair with,
 * which their own modules define.
 */
module Connections {
  import opened Js

  /** A particle's position on the canvas. */
  datatype Point = Point(x: real, y: real)

  /** A kept pair: the two particle indices, i < j, and their distance. */
  datatype Link = Link(i: nat, j: nat, dist: real)

  /** dx*dx + dy*dy, the argument both scripts hand to Math.sqrt. */
  function Hypot2(dx: real, dy: real): (d2: real)
    ensures 0.0 <= d2
  {
    SquareNonneg(dx);
    SquareNonneg(dy);
    dx * dx + dy * dy
  }

  /** The squared distance between two particles. */
  function Dist2(a: Point, b: Point): real {
    Hypot2(a.x - b.x, a.y - b.y)
  }

  lemma SquareNonneg(x: real)
    ensures 0.0 <= x * x
  {
    if x < 0.0 {
      MulPos(-x, -x);
    } else {
      MulNonneg(x, x);
    }
  }

  /** The distance drawConnections computes for particles i and j. */
  function PairDist(pts: seq<Point>, i: nat, j: nat, sqrt: real -> real): real
    requires i < |pts| && j < |pts|
  {
    sqrt(Dist2(pts[i], pts[j]))
  }

  /** The rule for one pair: indices in loop order, distance recorded, distance below the bound. */
  predicate Kept(pts: seq<Point>, l: Link, maxDist: real, sqrt: real -> real) {
    && l.i < l.j < |pts|
    && l.dist == PairDist(pts, l.i, l.j, sqrt)
    && l.dist < maxDist
  }

  /** The nested loops visit (a.i, a.j) before (b.i, b.j). */
  predicate Before(a: Link, b: Link) {
    a.i < b.i || (a.i == b.i && a.j < b.j)
  }

  /** The lines in the order the loops draw them. */
  predicate InDrawOrder(links: seq<Link>) {
    forall a, b :: 0 <= a < b < |links| ==> Before(links[a], links[b])
  }

  /**
   * A pair obeys the rule exactly when i < j and the two particles are
   * closer than maxDist, which with an exact square root is the comparison
   * of the squared distance with maxDist squared.
   */
  lemma KeptExactly(pts: seq<Point>, maxDist: real, sqrt: real -> real, l: Link)
    requires 0.0 < maxDist && IsSqrt(sqrt)
    ensures Kept(pts, l, maxDist, sqrt) <==>
      && l.i < l.j < |pts|
      && Dist2(pts[l.i], pts[l.j]) < maxDist * maxDist
      && l.dist == sqrt(Dist2(pts[l.i], pts[l.j]))
  {
    if l.i < l.j < |pts| {
      var d2 := Dist2(pts[l.i], pts[l.j]);
      RootBelow(sqrt(d2), d2, maxDist);
    }
  }

  /** Every kept distance lies in [0, maxDist). */
  lemma KeptDistRange(pts: seq<Point>, maxDist: real, sqrt: real -> real, l: Link)
    requires IsSqrt(sqrt) && Kept(pts, l, maxDist, sqrt)
    ensures 0.0 <= l.dist < maxDist
  {
    assert IsRoot(sqrt(Dist2(pts[l.i], pts[l.j])), Dist2(pts[l.i], pts[l.j]));
  }

  /** Lines in draw order join each pair at most once. */
  lemma DrawOrderNoRepeats(links: seq<Link>, a: nat, b: nat)
    requires InDrawOrder(links) && a < b < |links|
    ensures links[a].i != links[b].i || links[a].j != links[b].j
  {
  }

  /**
   * The drawn lines are fixed by the rule: two lists in draw order with the
   * same members are the same list.
   */
  lemma {:induction false} DrawOrderUnique(xs: seq<Link>, ys: seq<Link>)
    requires InDrawOrder(xs) && InDrawOrder(ys)
    requires forall l :: l in xs <==> l in ys
    ensures xs == ys
    decreases |xs|
  {
    if xs != [] && ys != [] {
      var x, y := xs[0], ys[0];
      assert x in ys && y in xs;
      if x != y {
        assert false;
      }
      forall l
        ensures l in xs[1..] <==> l in ys[1..]
      {
        if l in xs[1..] {
          var k :| 1 <= k < |xs| && xs[k] == l;
          assert Before(x, l) && l in ys;
          var k2 :| 0 <= k2 < |ys| && ys[k2] == l;
          assert ys[1..][k2 - 1] == l;
        }
        if l in ys[1..] {
          var k :| 1 <= k < |ys| && ys[k] == l;
          assert Before(y, l) && l in xs;
          var k2 :| 0 <= k2 < |xs| && xs[k2] == l;
          assert xs[1..][k2 - 1] == l;
        }
      }
      DrawOrderUnique(xs[1..], ys[1..]);
      assert xs == [x] + xs[1..];
      assert ys == [y] + ys[1..];
    } else if xs != [] {
      HeadIn(xs);
      assert false;
    } else if ys != [] {
      HeadIn(ys);
      assert false;
    }
  }

  lemma HeadIn(s: seq<Link>)
    ensures s != [] ==> s[0] in s
  {
  }

  /** The nested loops of drawConnections: every pair obeying the rule, each once, in loop order. */
  method Scan(pts: seq<Point>, maxDist: real, sqrt: real -> real) returns (links: seq<Link>)
    ensures forall l :: l in links <==> Kept(pts, l, maxDist, sqrt)
    ensures InDrawOrder(links)
  {
    links := [];
    var i := 0;
    while i < |pts|
      invariant 0 <= i <= |pts|
      invariant forall l :: l in links <==> l.i < i && Kept(pts, l, maxDist, sqrt)
      invariant InDrawOrder(links)
    {
      links := ScanRow(pts, i, maxDist, sqrt, links);
      i := i + 1;
    }
  }

  /** The inner loop for one i: j runs from i+1 to the end, appending to the lines so far. */
  method ScanRow(pts: seq<Point>, i: nat, maxDist: real, sqrt: real -> real, prefix: seq<Link>) returns (links: seq<Link>)
    requires i < |pts| && InDrawOrder(prefix)
    requires forall k :: 0 <= k < |prefix| ==> prefix[k].i < i
    ensures forall l :: l in links <==> l in prefix || (l.i == i && Kept(pts, l, maxDist, sqrt))
    ensures InDrawOrder(links)
  {
    links := prefix;
    var j := i + 1;
    while j < |pts|
      invariant i + 1 <= j <= |pts|
      invariant forall l :: l in links <==> l in prefix || (l.i == i && l.j < j && Kept(pts, l, maxDist, sqrt))
      invariant forall k :: 0 <= k < |links| ==> Before(links[k], Link(i, j, 0.0))
      invariant InDrawOrder(links)
    {
      var dx := pts[i].x - pts[j].x;
      var dy := pts[i].y - pts[j].y;
      var dist := sqrt(Hypot2(dx, dy));
      assert dist == PairDist(pts, i, j, sqrt);
      if dist < maxDist {
        links := links + [Link(i, j, dist)];
      }
      j := j + 1;
    }
  }
}
