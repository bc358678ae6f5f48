/**
 * The page indicator of the horizontally scrolling 3D mockup stage
 * (js/dots.js): on every scroll the page under the viewport is the scroll
 * offset divided by the stage width, rounded, and exactly the dot with that
 * index is marked active.
 */
module StageDots {
  import opened Js

  /**
   * Math.round(scrollLeft / offsetWidth). A stage of width 0 gives Infinity
   * or NaN, which equals no dot index; that case is None.
   */
  function ScrollIndex(scrollLeft: real, offsetWidth: real): (idx: Option<int>)
    ensures idx.None? <==> offsetWidth == 0.0
    ensures idx.Some? ==> idx.value as real - 0.5 <= scrollLeft / offsetWidth < idx.value as real + 0.5
  {
    if offsetWidth == 0.0 then None else Some(Round(scrollLeft / offsetWidth))
  }

  /** Scrolled exactly k stage widths, the stage shows page k. */
  lemma ScrollIndexAtPage(k: int, offsetWidth: real)
    requires offsetWidth != 0.0
    ensures ScrollIndex(k as real * offsetWidth, offsetWidth) == Some(k)
  {
    assert k as real * offsetWidth / offsetWidth == k as real;
  }

  /** The toggle for dot i: active exactly when i is the scroll index. */
  predicate Lit(idx: Option<int>, i: int) {
    idx == Some(i)
  }

  /** The dots with the stage they indicate. */
  class Stage {
    const dots: array<bool>

    /** The `.dot` elements with their `active` classes as the markup has them. */
    constructor (dots: seq<bool>)
      ensures this.dots[..] == dots && fresh(this.dots)
    {
      this.dots := new bool[|dots|](i requires 0 <= i < |dots| => dots[i]);
    }

    /** The scroll listener: rewrites every dot's `active` class from one computed index. */
    method OnScroll(scrollLeft: real, offsetWidth: real)
      modifies dots
      ensures forall i :: 0 <= i < dots.Length ==> (dots[i] <==> Lit(ScrollIndex(scrollLeft, offsetWidth), i))
      ensures dots[..] == Highlight(dots.Length, ScrollIndex(scrollLeft, offsetWidth))
      ensures CountTrue(dots[..]) <= 1
    {
      var idx := ScrollIndex(scrollLeft, offsetWidth);
      var i := 0;
      while i < dots.Length
        invariant 0 <= i <= dots.Length
        invariant forall k :: 0 <= k < i ==> (dots[k] <==> Lit(idx, k))
      {
        dots[i] := Lit(idx, i);
        i := i + 1;
      }
      assert dots[..] == Highlight(dots.Length, idx);
      HighlightExclusive(dots.Length, idx);
    }
  }

  /** The flags the listener leaves, as a value: one per dot. */
  function Highlight(count: nat, idx: Option<int>): (flags: seq<bool>)
    ensures |flags| == count
    ensures forall i :: 0 <= i < count ==> (flags[i] <==> Lit(idx, i))
  {
    if count == 0 then [] else Highlight(count - 1, idx) + [Lit(idx, count - 1)]
  }

  /** At most one dot is active; exactly one when the index names a dot, none when it is out of range. */
  lemma HighlightExclusive(count: nat, idx: Option<int>)
    ensures CountTrue(Highlight(count, idx)) <= 1
    ensures CountTrue(Highlight(count, idx)) == 1 <==> idx.Some? && 0 <= idx.value < count
  {
    CountExclusive(Highlight(count, idx), if idx.Some? then idx.value else -1);
  }
}
