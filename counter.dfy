/**
 * The count-up animation of js/counter.js (and of `counter` in
 * js/scripts.js, which differs only in its duration and in how it gets its
 * suffix). Each animation frame at time `now` writes
 * floor(ease(p) * target) followed by the suffix, where
 * p = min((now - t0) / dur, 1) and ease(p) = 1 - (1 - p)^3, and schedules
 * the next frame while p < 1. A `.counter-item` starts its animation at most
 * once: the first intersection flags its `[data-counter]` child as animated
 * and stops observing the container.
 */
module CountUp {
  import opened Js

  /** `dur` of the `.counter-item` animation. */
  const CounterDuration: real := 1800.0
  /** `dur` of `counter(el, target, suffix)` for the hero stats. */
  const StatsDuration: real := 1600.0

  lemma DivAtLeastOne(x: real, d: real)
    requires 0.0 < d
    ensures 1.0 <= x / d <==> d <= x
    ensures 0.0 <= x ==> 0.0 <= x / d
  {
    assert (x / d) * d == x;
  }

  lemma DivMono(x: real, y: real, d: real)
    requires 0.0 < d && x <= y
    ensures x / d <= y / d
  {
    assert (x / d) * d == x;
    assert (y / d) * d == y;
  }

  /** The animation's progress: the elapsed share of the duration, capped at 1. */
  function Progress(now: real, t0: real, dur: real): (p: real)
    requires 0.0 < dur
    ensures p <= 1.0
    ensures t0 <= now ==> 0.0 <= p
    ensures p == 1.0 <==> t0 + dur <= now
  {
    DivAtLeastOne(now - t0, dur);
    Min((now - t0) / dur, 1.0)
  }

  /** Progress never goes back as time goes on. */
  lemma ProgressMonotone(now1: real, now2: real, t0: real, dur: real)
    requires 0.0 < dur && now1 <= now2
    ensures Progress(now1, t0, dur) <= Progress(now2, t0, dur)
  {
    DivMono(now1 - t0, now2 - t0, dur);
  }

  /** Math.pow(x, 3). */
  function Cube(x: real): real {
    x * x * x
  }

  /** The ease-out cubic: 1 - (1 - p)^3. */
  function Ease(p: real): real {
    1.0 - Cube(1.0 - p)
  }

  lemma CubeMonotone(a: real, b: real)
    requires 0.0 <= a <= b
    ensures Cube(a) <= Cube(b)
  {
    MulNonneg(a, a);
    MulNonneg(a, b);
    MulNonneg(b, b);
    MulNonneg(b - a, a * a + a * b + b * b);
    assert (b - a) * (a * a + a * b + b * b) == b * b * b - a * a * a;
  }

  /** On [0, 1] the easing is increasing, starts at 0 and ends at exactly 1. */
  lemma EaseMonotone(p1: real, p2: real)
    requires 0.0 <= p1 <= p2 <= 1.0
    ensures 0.0 <= Ease(p1) <= Ease(p2) <= 1.0
    ensures p2 == 1.0 ==> Ease(p2) == 1.0
  {
    CubeMonotone(1.0 - p2, 1.0 - p1);
    CubeMonotone(1.0 - p1, 1.0);
    CubeMonotone(0.0, 1.0 - p2);
  }

  /** Math.floor(e * target). */
  function FloorTimes(e: real, target: real): int {
    (e * target).Floor
  }

  /** Scaling a non-negative target by a factor in [0, 1] and flooring is monotone in the factor and capped by the target. */
  lemma FloorTimesMonotone(e1: real, e2: real, target: real)
    requires 0.0 <= e1 <= e2 <= 1.0 && 0.0 <= target
    ensures 0 <= FloorTimes(e1, target) <= FloorTimes(e2, target) <= target.Floor
  {
    MulNonneg(e1, target);
    MulLe(e1, e2, target);
    MulAtMostOne(e2, target);
    FloorChain(e1 * target, e2 * target, target);
  }

  lemma MulAtMostOne(e: real, x: real)
    requires e <= 1.0 && 0.0 <= x
    ensures e * x <= x
  {
    MulLe(e, 1.0, x);
  }

  lemma FloorChain(a: real, b: real, c: real)
    requires 0.0 <= a <= b <= c
    ensures 0 <= a.Floor <= b.Floor <= c.Floor
  {
  }

  /** The number a frame shows: Math.floor(ease * target). */
  function Shown(p: real, target: real): int {
    FloorTimes(Ease(p), target)
  }

  /** For a non-negative target the shown number grows with progress, from 0 up to at most the target. */
  lemma ShownMonotone(p1: real, p2: real, target: real)
    requires 0.0 <= p1 <= p2 <= 1.0 && 0.0 <= target
    ensures 0 <= Shown(p1, target) <= Shown(p2, target) <= target.Floor
  {
    EaseMonotone(p1, p2);
    FloorTimesMonotone(Ease(p1), Ease(p2), target);
  }

  /** At full progress the shown number is the target itself (its floor when not an integer). */
  lemma ShownAtEnd(target: real)
    ensures Shown(1.0, target) == target.Floor
    ensures target == target.Floor as real ==> Shown(1.0, target) as real == target
  {
    EaseMonotone(1.0, 1.0);
    assert FloorTimes(1.0, target) == target.Floor;
  }

  /** The number shown by the frame at `now`. */
  function Displayed(now: real, t0: real, dur: real, target: real): int
    requires 0.0 < dur
  {
    Shown(Progress(now, t0, dur), target)
  }

  /** Later frames never show a smaller number, and no frame shows more than the target. */
  lemma DisplayedMonotone(now1: real, now2: real, t0: real, dur: real, target: real)
    requires 0.0 < dur && t0 <= now1 <= now2 && 0.0 <= target
    ensures 0 <= Displayed(now1, t0, dur, target) <= Displayed(now2, t0, dur, target) <= target.Floor
  {
    ProgressMonotone(now1, now2, t0, dur);
    ShownMonotone(Progress(now1, t0, dur), Progress(now2, t0, dur), target);
  }

  /** Every frame from t0 + dur on shows the target, whatever the duration. */
  lemma DisplayedAtEnd(now: real, t0: real, dur: real, target: int)
    requires 0.0 < dur && t0 + dur <= now
    ensures Displayed(now, t0, dur, target as real) == target
  {
    ShownAtEnd(target as real);
  }

  /** The text of the frame at `now`: the number in decimal followed by the suffix. */
  function FrameText(now: real, t0: real, dur: real, target: real, suffix: string): string
    requires 0.0 < dur
  {
    IntText(Displayed(now, t0, dur, target)) + suffix
  }

  /** The frame text starts with the decimal digits of the number and ends with the suffix. */
  lemma FrameTextParts(now: real, t0: real, dur: real, target: real, suffix: string)
    requires 0.0 < dur
    ensures var text, n := FrameText(now, t0, dur, target, suffix), |IntText(Displayed(now, t0, dur, target))|;
      && n <= |text| && text[n..] == suffix
      && 1 <= n && TextValue(text[..n]) == Displayed(now, t0, dur, target)
  {
    var d := Displayed(now, t0, dur, target);
    IntTextRoundTrip(d);
    assert FrameText(now, t0, dur, target, suffix)[..|IntText(d)|] == IntText(d);
  }

  /**
   * One running count-up: the `step` closure with its captured t0, dur,
   * target and suffix, the element's textContent, and whether a
   * requestAnimationFrame(step) is outstanding.
   */
  class Animation {
    const t0: real
    const dur: real
    const target: real
    const suffix: string
    var text: string
    var pending: bool

    ghost predicate Valid()
      reads this
    {
      0.0 < dur
    }

    /** Capture t0 = performance.now() and call requestAnimationFrame(step) once. */
    constructor (t0: real, dur: real, target: real, suffix: string, text: string)
      requires 0.0 < dur
      ensures Valid() && pending
      ensures this.t0 == t0 && this.dur == dur && this.target == target && this.suffix == suffix
      ensures this.text == text
    {
      this.t0 := t0;
      this.dur := dur;
      this.target := target;
      this.suffix := suffix;
      this.text := text;
      pending := true;
    }

    /** step(now): write the frame's text and reschedule unless the progress has reached 1. */
    method Step(now: real)
      requires Valid() && pending
      modifies this
      ensures Valid()
      ensures text == FrameText(now, t0, dur, target, suffix)
      ensures pending <==> now < t0 + dur
      ensures !pending ==> text == IntText((target).Floor) + suffix
    {
      var p := Min((now - t0) / dur, 1.0);
      var ease := 1.0 - Cube(1.0 - p);
      text := IntText(FloorTimes(ease, target)) + suffix;
      pending := p < 1.0;
      if !pending {
        ShownAtEnd(target);
      }
    }
  }

  /** The `[data-counter]` child of a `.counter-item`: its data-animated flag, data-counter and data-suffix. */
  datatype CounterEl = CounterEl(animated: bool, target: real, suffix: Option<string>)

  /** A `.counter-item`: whether the observer still watches it, and its `[data-counter]` child, if any. */
  datatype Item = Item(observed: bool, el: Option<CounterEl>)

  /** An IntersectionObserver entry for the item, delivered at time `now`. */
  datatype Entry = Entry(intersecting: bool, now: real)

  /** What a start hands to the animation: t0, duration, target and suffix. */
  datatype Start = Start(t0: real, dur: real, target: real, suffix: string)

  /** `el.dataset.suffix || ""`: a missing or empty suffix becomes "". */
  function DefaultSuffix(suffix: Option<string>): (s: string)
    ensures suffix.None? ==> s == ""
    ensures suffix.Some? ==> s == suffix.value
  {
    suffix.GetOr("")
  }

  /** An item that a first intersection would animate. */
  predicate Armed(item: Item) {
    item.el.Some? && !item.el.value.animated
  }

  /**
   * The observer callback on one entry: the item afterwards and the
   * animation it starts, if any. There is no test of `observed`: a second
   * entry for the item in the same batch, handled after the unobserve, is
   * stopped by the `animated` flag alone.
   */
  function OnEntry(item: Item, e: Entry): (r: (Item, Option<Start>))
    ensures r.1.Some? <==> e.intersecting && Armed(item)
    ensures r.1.None? ==> r.0 == item
    ensures r.1.Some? ==> !Armed(r.0) && !r.0.observed && r.0.el == Some(item.el.value.(animated := true))
    ensures r.1.Some? ==> r.1.value == Start(e.now, CounterDuration, item.el.value.target, DefaultSuffix(item.el.value.suffix))
  {
    if !e.intersecting then (item, None)
    else match item.el
      case None => (item, None)
      case Some(el) =>
        if el.animated then (item, None)
        else (Item(false, Some(el.(animated := true))), Some(Start(e.now, CounterDuration, el.target, DefaultSuffix(el.suffix))))
  }

  /** The number of animations a sequence of entries starts. */
  function Starts(item: Item, es: seq<Entry>): nat
    decreases |es|
  {
    if es == [] then 0
    else
      var r := OnEntry(item, es[0]);
      (if r.1.Some? then 1 else 0) + Starts(r.0, es[1..])
  }

  /** The item after a sequence of entries. */
  function After(item: Item, es: seq<Entry>): Item
    decreases |es|
  {
    if es == [] then item else After(OnEntry(item, es[0]).0, es[1..])
  }

  /** However many entries arrive, an item starts at most one animation, and none unless it was armed. */
  lemma {:induction false} AtMostOnce(item: Item, es: seq<Entry>)
    ensures Starts(item, es) <= if Armed(item) then 1 else 0
    decreases |es|
  {
    if es != [] {
      AtMostOnce(OnEntry(item, es[0]).0, es[1..]);
    }
  }

  /** Once an item has started its animation, the item is never watched again and the flag stays set. */
  lemma {:induction false} StartedStaysDone(item: Item, es: seq<Entry>)
    requires Starts(item, es) == 1
    ensures !After(item, es).observed
    ensures After(item, es).el.Some? && After(item, es).el.value.animated
    decreases |es|
  {
    var r := OnEntry(item, es[0]);
    if r.1.Some? {
      NotArmedIsStable(r.0, es[1..]);
    } else {
      StartedStaysDone(r.0, es[1..]);
    }
  }

  /** An item that is not armed is left exactly as it is. */
  lemma {:induction false} NotArmedIsStable(item: Item, es: seq<Entry>)
    requires !Armed(item)
    ensures After(item, es) == item && Starts(item, es) == 0
    decreases |es|
  {
    if es != [] {
      NotArmedIsStable(item, es[1..]);
    }
  }

  /** Handling one more entry after a sequence of them. */
  lemma {:induction false} AfterSnoc(item: Item, es: seq<Entry>, e: Entry)
    ensures After(item, es + [e]) == OnEntry(After(item, es), e).0
    ensures Starts(item, es + [e]) == Starts(item, es) + (if OnEntry(After(item, es), e).1.Some? then 1 else 0)
    decreases |es|
  {
    if es == [] {
      assert [e][1..] == [];
    } else {
      assert (es + [e])[0] == es[0];
      assert (es + [e])[1..] == es[1..] + [e];
      AfterSnoc(OnEntry(item, es[0]).0, es[1..], e);
    }
  }

  /** A `.counter-item` with the observer's view of it. */
  class CounterItem {
    var observed: bool
    var el: Option<CounterEl>

    function State(): Item
      reads this
    {
      Item(observed, el)
    }

    /** `ciObs.observe(el)` at load time. */
    constructor (el: Option<CounterEl>)
      ensures State() == Item(true, el)
    {
      observed := true;
      this.el := el;
    }

    /** The observer's callback on one batch: the forEach over its entries, in order. */
    method OnEntries(es: seq<Entry>) returns (started: seq<Start>)
      modifies this
      ensures State() == After(old(State()), es)
      ensures |started| == Starts(old(State()), es)
      ensures |started| <= 1
    {
      started := [];
      var k := 0;
      while k < |es|
        invariant 0 <= k <= |es|
        invariant State() == After(old(State()), es[..k])
        invariant |started| == Starts(old(State()), es[..k])
      {
        assert es[..k + 1] == es[..k] + [es[k]];
        AfterSnoc(old(State()), es[..k], es[k]);
        var s := OnIntersection(es[k]);
        if s.Some? {
          started := started + [s.value];
        }
        k := k + 1;
      }
      assert es[..|es|] == es;
      AtMostOnce(old(State()), es);
    }

    /** The callback's body for one entry about this item. */
    method OnIntersection(e: Entry) returns (started: Option<Start>)
      modifies this
      ensures (State(), started) == OnEntry(old(State()), e)
    {
      started := None;
      if e.intersecting {
        match el {
          case None =>
          case Some(c) =>
            if !c.animated {
              el := Some(c.(animated := true));
              started := Some(Start(e.now, CounterDuration, c.target, DefaultSuffix(c.suffix)));
              observed := false;
            }
        }
      }
    }
  }
}
