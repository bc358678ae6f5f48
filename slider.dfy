/**
 * The translate-based slider of js/slider.js: a global `index` over the
 * children of `.slider-track`, moved by the next and prev buttons with
 * JavaScript's `%`, and a track shifted left by `index * 100` percent.
 */
module TrackSlider {
  import opened Js

  /** The next button: (index + 1) % slides.length. */
  function NextIndex(index: int, count: nat): int
    requires count > 0
  {
    IntRem(index + 1, count)
  }

  /** The prev button: (index - 1 + slides.length) % slides.length. */
  function PrevIndex(index: int, count: nat): int
    requires count > 0
  {
    IntRem(index - 1 + count, count)
  }

  /** The leftward shift of the track, in percent: translateX(-(index * 100)%). */
  function Offset(index: int): int {
    index * 100
  }

  /** Both buttons keep an index in [0, count) in range, wrapping at either end. */
  lemma StepsStayInRange(k: int, count: nat)
    requires 0 <= k < count
    ensures 0 <= NextIndex(k, count) < count && 0 <= PrevIndex(k, count) < count
    ensures NextIndex(k, count) == if k == count - 1 then 0 else k + 1
    ensures PrevIndex(k, count) == if k == 0 then count - 1 else k - 1
  {
    if k == count - 1 {
      ModUnique(k + 1, count, 1, 0);
    } else {
      ModUnique(k + 1, count, 0, k + 1);
    }
    if k == 0 {
      ModUnique(k - 1 + count, count, 0, count - 1);
    } else {
      ModUnique(k - 1 + count, count, 1, k - 1);
    }
  }

  /** prev undoes next and next undoes prev. */
  lemma PrevUndoesNext(k: int, count: nat)
    requires 0 <= k < count
    ensures PrevIndex(NextIndex(k, count), count) == k
    ensures NextIndex(PrevIndex(k, count), count) == k
  {
    StepsStayInRange(k, count);
    StepsStayInRange(NextIndex(k, count), count);
    StepsStayInRange(PrevIndex(k, count), count);
  }

  /** The index after `steps` clicks of next from `start`. */
  function AfterNexts(start: int, count: nat, steps: nat): int
    requires count > 0
  {
    if steps == 0 then start else NextIndex(AfterNexts(start, count, steps - 1), count)
  }

  /** From an index in range, k clicks of next move k slides on, modulo the count. */
  lemma {:induction false} AfterNextsIsModular(start: int, count: nat, steps: nat)
    requires 0 <= start < count
    ensures AfterNexts(start, count, steps) == (start + steps) % count
  {
    if steps > 0 {
      AfterNextsIsModular(start, count, steps - 1);
      var prev := AfterNexts(start, count, steps - 1);
      assert 0 <= prev;
      assert AfterNexts(start, count, steps) == (prev + 1) % count;
      ModSucc(start + steps - 1, count);
    }
  }

  /** `count` clicks of next bring the slider back to where it started. */
  lemma FullRound(start: int, count: nat)
    requires 0 <= start < count
    ensures AfterNexts(start, count, count) == start
  {
    AfterNextsIsModular(start, count, count);
    ModUnique(start + count, count, 1, start);
  }

  /** The shift of an index in range lies between 0 and (count - 1) * 100 percent. */
  lemma OffsetRange(k: int, count: nat)
    requires 0 <= k < count
    ensures 0 <= Offset(k) <= (count - 1) * 100
  {
  }

  /** The slider's state: the index, the slide count and the track's transform. */
  class Slider {
    var index: int
    /** slides.length, fixed when the script loads. */
    const count: nat
    /** The shift written into track.style.transform; None until the first click. */
    var shift: Option<int>

    ghost predicate Valid()
      reads this
    {
      0 < count && 0 <= index < count && (shift.Some? ==> shift.value == Offset(index))
    }

    /** The page load: index = 0 and the transform left as the stylesheet has it. */
    constructor (count: nat)
      requires count > 0
      ensures Valid() && this.count == count && index == 0 && shift == None
    {
      this.count := count;
      index := 0;
      shift := None;
    }

    /** updateSlider(). */
    method UpdateSlider()
      modifies this
      ensures index == old(index)
      ensures shift == Some(Offset(index))
    {
      shift := Some(index * 100);
    }

    /** A click on `.next`. */
    method Next()
      requires Valid()
      modifies this
      ensures Valid()
      ensures index == NextIndex(old(index), count)
      ensures shift == Some(Offset(index))
    {
      index := IntRem(index + 1, count);
      StepsStayInRange(old(index), count);
      UpdateSlider();
    }

    /** A click on `.prev`. */
    method Prev()
      requires Valid()
      modifies this
      ensures Valid()
      ensures index == PrevIndex(old(index), count)
      ensures shift == Some(Offset(index))
    {
      index := IntRem(index - 1 + count, count);
      StepsStayInRange(old(index), count);
      UpdateSlider();
    }
  }
}
