/**
 * The dot carousel of js/slider2.js. A global index `myIndex` names the
 * visible slide; every `.my-slide` carries an `active` class and an inline
 * display style, every `.my-dot` an `active` class. `showMySlide` settles the
 * requested index and then rewrites the flags of every slide and of the dot
 * with the same position. The next and previous buttons, a dot click and the
 * 5-second autoplay timer all go through `showMySlide`.
 */
module DotSlider {
  import opened Js

  /** The inline `style.display` of a slide; Unset until showMySlide first writes it. */
  datatype Display = Unset | Block | NoDisplay

  /**
   * The index showMySlide settles on when asked for `index` with `count`
   * slides: past the end wraps to the first slide, before the start to the
   * last, anything else is taken as it is (this is not a modulo).
   */
  function Normalize(index: int, count: nat): (r: int)
    ensures count > 0 ==> 0 <= r < count
    ensures index >= count ==> r == 0
    ensures index < 0 ==> r == count - 1
    ensures 0 <= index < count ==> r == index
  {
    if index >= count then 0 else if index < 0 then count - 1 else index
  }

  /** Stepping forward or back from a slide in range agrees with arithmetic modulo the count. */
  lemma StepIsModular(k: int, count: nat)
    requires 0 <= k < count
    ensures Normalize(k + 1, count) == (k + 1) % count
    ensures Normalize(k - 1, count) == (k - 1 + count) % count
  {
    if k + 1 == count {
      ModUnique(k + 1, count, 1, 0);
    } else {
      ModUnique(k + 1, count, 0, k + 1);
    }
    if k == 0 {
      ModUnique(k - 1 + count, count, 0, count - 1);
    } else {
      ModUnique(k - 1 + count, count, 1, k - 1);
    }
  }

  /** The index after `steps` presses of next (or autoplay ticks) from `start`. */
  function AfterNexts(start: int, count: nat, steps: nat): int {
    if steps == 0 then start else Normalize(AfterNexts(start, count, steps - 1) + 1, count)
  }

  /** The index after `steps` presses of prev from `start`. */
  function AfterPrevs(start: int, count: nat, steps: nat): int {
    if steps == 0 then start else Normalize(AfterPrevs(start, count, steps - 1) - 1, count)
  }

  /** From a slide in range, k nexts land k slides further on, cyclically. */
  lemma {:induction false} AfterNextsIsModular(start: int, count: nat, steps: nat)
    requires 0 <= start < count
    ensures AfterNexts(start, count, steps) == (start + steps) % count
  {
    if steps > 0 {
      AfterNextsIsModular(start, count, steps - 1);
      var k := (start + steps - 1) % count;
      StepIsModular(k, count);
      ModSucc(start + steps - 1, count);
    }
  }

  /** From a slide in range, k prevs land k slides back, cyclically. */
  lemma {:induction false} AfterPrevsIsModular(start: int, count: nat, steps: nat)
    requires 0 <= start < count
    ensures AfterPrevs(start, count, steps) == (start - steps) % count
  {
    if steps > 0 {
      AfterPrevsIsModular(start, count, steps - 1);
      var k := (start - (steps - 1)) % count;
      StepIsModular(k, count);
      ModPred(start - (steps - 1), count);
    }
  }

  /** A full round of `count` nexts, or of `count` prevs, shows the starting slide again. */
  lemma FullRound(start: int, count: nat)
    requires 0 <= start < count
    ensures AfterNexts(start, count, count) == start
    ensures AfterPrevs(start, count, count) == start
  {
    AfterNextsIsModular(start, count, count);
    AfterPrevsIsModular(start, count, count);
    ModUnique(start + count, count, 1, start);
    ModUnique(start - count, count, -1, start);
  }

  /** The carousel's state: the index and the flags of every slide and dot. */
  class Carousel {
    var myIndex: int
    /** `classList.contains('active')` of each `.my-slide`. */
    const slideActive: array<bool>
    /** `style.display` of each `.my-slide`. */
    const slideDisplay: array<Display>
    /** `classList.contains('active')` of each `.my-dot`. */
    const dotActive: array<bool>

    ghost predicate Valid()
      reads this
    {
      slideActive.Length == slideDisplay.Length && slideActive != dotActive
    }

    /** Slide k alone is active and displayed, and among the first count dots, dot k alone is active. */
    ghost predicate ShowsExactly(k: int)
      reads this, slideActive, slideDisplay, dotActive
      requires Valid()
    {
      && (forall i :: 0 <= i < slideActive.Length ==> slideActive[i] == (i == k))
      && (forall i :: 0 <= i < slideDisplay.Length ==> slideDisplay[i] == if i == k then Block else NoDisplay)
      && (forall i :: 0 <= i < slideActive.Length && i < dotActive.Length ==> dotActive[i] == (i == k))
    }

    /**
     * The effect of showMySlide(index). `ok` is false when the call throws:
     * with no slides `mySlides[myIndex]` is undefined, and with fewer dots than
     * slides `myDots[i]` is undefined for the first missing dot, after slide i
     * has already been hidden. Dots past the last slide are never touched.
     */
    twostate predicate Showed(index: int, ok: bool)
      reads this, slideActive, slideDisplay, dotActive
      requires Valid()
    {
      var n, m := slideActive.Length, dotActive.Length;
      && myIndex == Normalize(index, n)
      && (ok <==> 0 < n <= m)
      && (forall i :: 0 <= i < n ==>
            slideActive[i] == if i <= m then ok && i == myIndex else old(slideActive[i]))
      && (forall i :: 0 <= i < n ==>
            slideDisplay[i] == if m < i then old(slideDisplay[i]) else if ok && i == myIndex then Block else NoDisplay)
      && (forall i :: 0 <= i < m ==>
            dotActive[i] == if i < n then ok && i == myIndex else old(dotActive[i]))
    }

    /** The page load: the markup's flags, myIndex = 0, then showMySlide(myIndex). */
    constructor (slides: seq<bool>, displays: seq<Display>, dots: seq<bool>)
      requires |slides| == |displays|
      ensures Valid()
      ensures slideActive.Length == |slides| && dotActive.Length == |dots|
      ensures myIndex == Normalize(0, |slides|)
      ensures 0 < |slides| <= |dots| ==> ShowsExactly(0)
    {
      myIndex := 0;
      slideActive := new bool[|slides|](i requires 0 <= i < |slides| => slides[i]);
      slideDisplay := new Display[|displays|](i requires 0 <= i < |displays| => displays[i]);
      dotActive := new bool[|dots|](i requires 0 <= i < |dots| => dots[i]);
      new;
      var ok := Show(myIndex);
    }

    /** showMySlide(index). */
    method Show(index: int) returns (ok: bool)
      requires Valid()
      modifies this, slideActive, slideDisplay, dotActive
      ensures Valid()
      ensures Showed(index, ok)
      ensures ok ==> ShowsExactly(myIndex) && CountTrue(slideActive[..]) == 1
    {
      var n := slideActive.Length;
      if index >= n {
        myIndex := 0;
      } else if index < 0 {
        myIndex := n - 1;
      } else {
        myIndex := index;
      }
      ok := true;
      var i := 0;
      while i < n
        invariant 0 <= i <= n && i <= dotActive.Length
        invariant myIndex == Normalize(index, n)
        invariant forall k :: 0 <= k < n ==> slideActive[k] == if k < i then false else old(slideActive[k])
        invariant forall k :: 0 <= k < n ==> slideDisplay[k] == if k < i then NoDisplay else old(slideDisplay[k])
        invariant forall k :: 0 <= k < dotActive.Length ==> dotActive[k] == if k < i then false else old(dotActive[k])
      {
        slideActive[i] := false;
        slideDisplay[i] := NoDisplay;
        if i >= dotActive.Length {
          ok := false;
          return;
        }
        dotActive[i] := false;
        i := i + 1;
      }
      if n == 0 {
        ok := false;
        return;
      }
      slideActive[myIndex] := true;
      slideDisplay[myIndex] := Block;
      dotActive[myIndex] := true;
      CountExclusive(slideActive[..], myIndex);
    }

    /** The `.my-next` button. */
    method Next() returns (ok: bool)
      requires Valid()
      modifies this, slideActive, slideDisplay, dotActive
      ensures Valid()
      ensures Showed(old(myIndex) + 1, ok)
    {
      ok := Show(myIndex + 1);
    }

    /** The `.my-prev` button. */
    method Prev() returns (ok: bool)
      requires Valid()
      modifies this, slideActive, slideDisplay, dotActive
      ensures Valid()
      ensures Showed(old(myIndex) - 1, ok)
    {
      ok := Show(myIndex - 1);
    }

    /** A click on dot i. */
    method ClickDot(i: nat) returns (ok: bool)
      requires Valid() && i < dotActive.Length
      modifies this, slideActive, slideDisplay, dotActive
      ensures Valid()
      ensures Showed(i, ok)
      ensures i < slideActive.Length ==> myIndex == i
    {
      ok := Show(i);
    }

    /** One tick of the 5000 ms autoplay interval: exactly what the next button does. */
    method Autoplay() returns (ok: bool)
      requires Valid()
      modifies this, slideActive, slideDisplay, dotActive
      ensures Valid()
      ensures Showed(old(myIndex) + 1, ok)
    {
      ok := Next();
    }
  }
}
