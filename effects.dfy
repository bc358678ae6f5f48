/**
 * The scroll-derived values and small pieces of state in js/scripts2.js:
 * the section-progress dots, the mockup tilt clamp, the parallax orb speeds,
 * the clip-path reveal, the rotating CTA border angle, the eyebrow's
 * per-character spans, the service-card entrance delay and the
 * counter-item stagger of the file's second copy. DOM reads (scroll
 * position, element offsets and bounding rectangles) are parameters.
 */
module ScrollEffects {
  import opened Js

  // ---------------------------------------------------------------------
  // Section-progress dots (onScroll, js/scripts2.js:154-161)
  // ---------------------------------------------------------------------

  /** A page section as onScroll reads it: offsetTop and offsetHeight. */
  datatype Section = Section(top: real, height: real)

  /** How far ahead of a section its dot lights up. */
  const LeadIn: real := 100.0

  /** The dot of section s is active when the scroll position is in [top - 100, top + height). */
  predicate DotActive(sy: real, s: Section) {
    s.top - LeadIn <= sy && sy < s.top + s.height
  }

  /**
   * For two sections laid out one after the other (the second starts where
   * the first ends), both dots are lit exactly during the 100 pixels before
   * the second section, provided the first is at least that tall.
   */
  lemma BothLitBeforeNext(a: Section, b: Section, sy: real)
    requires b.top == a.top + a.height && LeadIn <= a.height && 0.0 < b.height
    ensures DotActive(sy, a) && DotActive(sy, b) <==> b.top - LeadIn <= sy < b.top
  {
  }

  /**
   * For sections laid out one after the other, the dot of the second lights
   * up no later than the dot of the first goes out: some dot is lit at every
   * scroll position between the first section's lead-in and the end of the second.
   */
  lemma NoGapBetween(a: Section, b: Section, sy: real)
    requires b.top == a.top + a.height && 0.0 <= a.height
    requires a.top - LeadIn <= sy < b.top + b.height
    ensures DotActive(sy, a) || DotActive(sy, b)
  {
  }

  /**
   * One pass of the section loop: els[i] is the element which
   * document.querySelector found for the i-th section id (None when it is
   * missing, which skips that dot), and dots[i] is the i-th `.sp-dot`; a
   * section with no dot at its index is skipped by the optional chaining
   * `spDots[i]?.`. Dots past the section list are left alone.
   */
  method UpdateSectionDots(dots: array<bool>, els: seq<Option<Section>>, sy: real)
    modifies dots
    ensures forall i :: 0 <= i < dots.Length ==>
      dots[i] == if i < |els| && els[i].Some? then DotActive(sy, els[i].value) else old(dots[i])
  {
    var i := 0;
    while i < |els|
      invariant 0 <= i <= |els|
      invariant forall k :: 0 <= k < dots.Length ==>
        dots[k] == if k < i && els[k].Some? then DotActive(sy, els[k].value) else old(dots[k])
    {
      if els[i].Some? && i < dots.Length {
        dots[i] := DotActive(sy, els[i].value);
      }
      i := i + 1;
    }
  }

  // ---------------------------------------------------------------------
  // Mockup tilt clamp (js/scripts2.js:186-188)
  // ---------------------------------------------------------------------

  /** The tilt amount, Math.max(-0.3, Math.min(0.3, progress - 0.2)). */
  function Clamped(progress: real): (c: real)
    ensures -0.3 <= c <= 0.3
    ensures -0.1 <= progress <= 0.5 ==> c == progress - 0.2
    ensures progress < -0.1 ==> c == -0.3
    ensures 0.5 < progress ==> c == 0.3
  {
    Max(-0.3, Min(0.3, progress - 0.2))
  }

  /** Scrolling further never tilts the screens back. */
  lemma ClampedMonotone(p: real, q: real)
    requires p <= q
    ensures Clamped(p) <= Clamped(q)
  {
  }

  // ---------------------------------------------------------------------
  // Parallax orb speeds (js/scripts2.js:165-168)
  // ---------------------------------------------------------------------

  /** The literal speed table. */
  const OrbSpeeds: seq<real> := [0.08, -0.06, 0.04]

  /** The speed used when the table gives none. */
  const DefaultOrbSpeed: real := 0.05

  /** Indexing a JavaScript array: undefined past its end. */
  function At(s: seq<real>, i: nat): (r: Option<real>)
    ensures r.Some? <==> i < |s|
    ensures r.Some? ==> r.value == s[i]
  {
    if i < |s| then Some(s[i]) else None
  }

  /** `x || d` on a number that may be undefined: undefined and 0 are falsy and give d. */
  function OrElse(x: Option<real>, d: real): (r: real)
    ensures x.Some? && x.value != 0.0 ==> r == x.value
    ensures x.None? || x.value == 0.0 ==> r == d
    ensures r == d || x == Some(r)
    ensures d != 0.0 ==> r != 0.0
  {
    if x.Some? && x.value != 0.0 then x.value else d
  }

  /** The speed of the i-th orb. */
  function OrbSpeed(i: nat): real {
    OrElse(At(OrbSpeeds, i), DefaultOrbSpeed)
  }

  /** Orbs 0, 1, 2 take 0.08, -0.06, 0.04 and every later orb 0.05. */
  lemma OrbSpeedTable(i: nat)
    ensures i == 0 ==> OrbSpeed(i) == 0.08
    ensures i == 1 ==> OrbSpeed(i) == -0.06
    ensures i == 2 ==> OrbSpeed(i) == 0.04
    ensures 3 <= i ==> OrbSpeed(i) == DefaultOrbSpeed
  {
  }

  /** No orb stands still, and none moves faster than 0.08 pixels per scrolled pixel. */
  lemma OrbSpeedBounds(i: nat)
    ensures OrbSpeed(i) != 0.0
    ensures -0.08 <= OrbSpeed(i) <= 0.08
  {
    OrbSpeedTable(i);
  }

  // ---------------------------------------------------------------------
  // Clip-path reveal (js/scripts2.js:195-199)
  // ---------------------------------------------------------------------

  /** An element is revealed when its top edge is above 85% of the viewport height. */
  predicate InRevealBand(top: real, innerHeight: real) {
    top < innerHeight * 0.85
  }

  /**
   * The reveal flags after one scroll: prev[i] is whether element i already
   * has `revealed`, tops[i] its bounding-rectangle top. Elements already
   * revealed are not selected and so keep the class.
   */
  function ClipStep(prev: seq<bool>, tops: seq<real>, innerHeight: real): (next: seq<bool>)
    requires |tops| == |prev|
    ensures |next| == |prev|
    ensures forall i :: 0 <= i < |prev| ==> (next[i] <==> prev[i] || InRevealBand(tops[i], innerHeight))
  {
    if prev == [] then []
    else
      var n := |prev| - 1;
      ClipStep(prev[..n], tops[..n], innerHeight) + [prev[n] || InRevealBand(tops[n], innerHeight)]
  }

  /** Reveals are only ever added. */
  lemma ClipNeverHides(prev: seq<bool>, tops: seq<real>, innerHeight: real, i: nat)
    requires |tops| == |prev| && i < |prev| && prev[i]
    ensures ClipStep(prev, tops, innerHeight)[i]
  {
  }

  /** Handling the same scroll position twice is the same as handling it once. */
  lemma ClipIdempotent(prev: seq<bool>, tops: seq<real>, innerHeight: real)
    requires |tops| == |prev|
    ensures ClipStep(ClipStep(prev, tops, innerHeight), tops, innerHeight) == ClipStep(prev, tops, innerHeight)
  {
    var once := ClipStep(prev, tops, innerHeight);
    var twice := ClipStep(once, tops, innerHeight);
    assert |twice| == |once|;
    forall i | 0 <= i < |once|
      ensures twice[i] == once[i]
    {
    }
  }

  /** The clip-reveal loop of onScroll over the elements' flags. */
  method ClipReveal(revealed: array<bool>, tops: seq<real>, innerHeight: real)
    requires |tops| == revealed.Length
    modifies revealed
    ensures revealed[..] == ClipStep(old(revealed[..]), tops, innerHeight)
  {
    ghost var prev := revealed[..];
    var i := 0;
    while i < revealed.Length
      invariant 0 <= i <= revealed.Length
      invariant forall k :: 0 <= k < i ==> (revealed[k] <==> prev[k] || InRevealBand(tops[k], innerHeight))
      invariant forall k :: i <= k < revealed.Length ==> revealed[k] == prev[k]
    {
      if !revealed[i] && InRevealBand(tops[i], innerHeight) {
        revealed[i] := true;
      }
      i := i + 1;
    }
    assert revealed[..] == ClipStep(prev, tops, innerHeight);
  }

  // ---------------------------------------------------------------------
  // Rotating CTA border (js/scripts2.js:348-353)
  // ---------------------------------------------------------------------

  /** One interval tick: (angle + 0.5) % 360. */
  function AngleStep(angle: real): real {
    Rem(angle + 0.5, 360.0)
  }

  /** JavaScript's % 360 on a value in [0, 360]: itself below 360, and 0 at 360. */
  lemma Rem360(x: real)
    requires 0.0 <= x <= 360.0
    ensures x < 360.0 ==> Rem(x, 360.0) == x
    ensures x == 360.0 ==> Rem(x, 360.0) == 0.0
  {
    var t := Trunc(x / 360.0);
    if x < 360.0 {
      assert x / 360.0 < 1.0;
      assert t == 0;
    } else {
      assert x / 360.0 == 1.0;
      assert t == 1;
    }
  }

  /** The angle after k ticks from 0: the k-th half degree, counted modulo 720 ticks. */
  function AngleAt(k: nat): (a: real)
    ensures 0.0 <= a < 360.0
  {
    ((k % 720) as real) * 0.5
  }

  /** A tick moves the angle from its k-th value to its (k+1)-th. */
  lemma {:induction false} AngleStepAdvances(k: nat)
    ensures AngleStep(AngleAt(k)) == AngleAt(k + 1)
  {
    var r := k % 720;
    ModSucc(k, 720);
    assert AngleAt(k) + 0.5 == ((r + 1) as real) * 0.5;
    Rem360(AngleAt(k) + 0.5);
    if r + 1 < 720 {
      assert (r + 1) % 720 == r + 1;
    } else {
      assert (r + 1) % 720 == 0;
    }
  }

  /** The border angle with the number of ticks so far. */
  class CtaBorder {
    var angle: real
    ghost var ticks: nat

    ghost predicate Valid()
      reads this
    {
      angle == AngleAt(ticks)
    }

    constructor ()
      ensures Valid() && ticks == 0 && angle == 0.0
    {
      angle := 0.0;
      ticks := 0;
    }

    /** The setInterval callback; the angle stays a half degree in [0, 360). */
    method Tick()
      requires Valid()
      modifies this
      ensures Valid() && ticks == old(ticks) + 1
      ensures angle == AngleStep(old(angle))
      ensures 0.0 <= angle < 360.0
    {
      AngleStepAdvances(ticks);
      angle := AngleStep(angle);
      ticks := ticks + 1;
    }
  }

  // ---------------------------------------------------------------------
  // Eyebrow letters (js/scripts2.js:128-137)
  // ---------------------------------------------------------------------

  /** One generated span: its transition delay in seconds and the markup inside it. */
  datatype Span = Span(delay: real, html: string)

  /** The markup for one character: a space becomes &nbsp;, anything else goes in unescaped. */
  function CharHtml(c: char): (h: string)
    ensures c == ' ' ==> h == "&nbsp;"
    ensures c != ' ' ==> h == [c]
  {
    if c == ' ' then "&nbsp;" else [c]
  }

  /** The span for the character at position i. */
  function SpanOf(c: char, i: nat): Span {
    Span(i as real * 0.03, CharHtml(c))
  }

  /** The spans of the eyebrow text, one per character in order. */
  function Eyebrow(text: string): (spans: seq<Span>)
    ensures |spans| == |text|
    ensures forall i :: 0 <= i < |text| ==> spans[i].delay == i as real * 0.03
    ensures forall i :: 0 <= i < |text| ==> spans[i].html == CharHtml(text[i])
  {
    if text == [] then []
    else
      var n := |text| - 1;
      Eyebrow(text[..n]) + [SpanOf(text[n], n)]
  }

  /**
   * The character the page shows for a text character c: a space is written
   * as `&nbsp;`, a no-break space (U+00A0), and the parser's newline
   * normalisation turns a carriage return into a line feed.
   */
  function Shown(c: char): char {
    if c == ' ' then '\U{A0}' else if c == '\r' then '\n' else c
  }

  /**
   * The character a span shows once its markup is parsed: `&nbsp;` is U+00A0,
   * a lone carriage return becomes a line feed, and a lone `<` or `&` before
   * `</span>` is read as text.
   */
  function CharOf(h: string): char {
    if h == "&nbsp;" || |h| != 1 then '\U{A0}' else if h[0] == '\r' then '\n' else h[0]
  }

  /** Every character's markup shows as that character, a space as a no-break space and a carriage return as a line feed. */
  lemma CharOfHtml(c: char)
    ensures CharOf(CharHtml(c)) == Shown(c)
  {
    if c != ' ' {
      assert CharHtml(c) != "&nbsp;";
    }
  }

  /** Distinct characters get distinct markup. */
  lemma CharHtmlInjective(c: char, d: char)
    requires CharHtml(c) == CharHtml(d)
    ensures c == d
  {
    if c != ' ' && d != ' ' {
      assert CharHtml(c)[0] == c && CharHtml(d)[0] == d;
    }
  }

  /** The text the spans display, one character per span. */
  function Unsplit(spans: seq<Span>): (text: string)
    ensures |text| == |spans|
    ensures forall i :: 0 <= i < |spans| ==> text[i] == CharOf(spans[i].html)
  {
    if spans == [] then [] else Unsplit(spans[..|spans| - 1]) + [CharOf(spans[|spans| - 1].html)]
  }

  /** The spans display the text character by character, as `Shown` says. */
  lemma EyebrowShows(text: string)
    ensures |Unsplit(Eyebrow(text))| == |text|
    ensures forall i :: 0 <= i < |text| ==> Unsplit(Eyebrow(text))[i] == Shown(text[i])
  {
    var back := Unsplit(Eyebrow(text));
    forall i | 0 <= i < |text|
      ensures back[i] == Shown(text[i])
    {
      CharOfHtml(text[i]);
    }
  }

  /** The spans determine the text: no character is lost, added or moved. */
  lemma EyebrowInjective(a: string, b: string)
    requires Eyebrow(a) == Eyebrow(b)
    ensures a == b
  {
    assert |a| == |b|;
    forall i | 0 <= i < |a|
      ensures a[i] == b[i]
    {
      assert Eyebrow(a)[i].html == Eyebrow(b)[i].html;
      CharHtmlInjective(a[i], b[i]);
    }
  }

  /** Later letters start later: the delays strictly increase along the text. */
  lemma EyebrowDelaysIncrease(text: string, i: nat, j: nat)
    requires i < j < |text|
    ensures Eyebrow(text)[i].delay < Eyebrow(text)[j].delay
  {
  }

  // ---------------------------------------------------------------------
  // Service-card entrance delay (js/scripts2.js:277-282)
  // ---------------------------------------------------------------------

  /** Array.prototype.indexOf: the first position of x, or -1 when it is absent. */
  function IndexOf<T(==)>(s: seq<T>, x: T): (r: int)
    ensures -1 <= r < |s|
    ensures r == -1 <==> x !in s
    ensures 0 <= r ==> s[r] == x && x !in s[..r]
  {
    if s == [] then -1
    else if s[0] == x then 0
    else
      var r := IndexOf(s[1..], x);
      if r == -1 then -1
      else
        assert s[..r + 1] == [s[0]] + s[1..][..r];
        r + 1
  }

  /** The setTimeout delay in milliseconds for the card that intersected. */
  function CardDelay<T(==)>(cards: seq<T>, target: T): int {
    IndexOf(cards, target) * 70
  }

  /** With distinct cards, the k-th card waits 70k ms; a card not in the list gets -70. */
  lemma CardDelayStagger<T>(cards: seq<T>, k: nat, other: T)
    requires k < |cards|
    requires forall a, b :: 0 <= a < b < |cards| ==> cards[a] != cards[b]
    requires other !in cards
    ensures CardDelay(cards, cards[k]) == 70 * k
    ensures CardDelay(cards, other) == -70
  {
  }

  // ---------------------------------------------------------------------
  // Counter-item stagger, second copy only (js/scripts2.js:628-635)
  // ---------------------------------------------------------------------

  /**
   * The delays the second onScroll schedules: item i, whose rectangle top
   * is tops[i], gets a timeout of 80i ms when its top is above 90% of the
   * viewport, and none otherwise.
   */
  function Stagger(tops: seq<real>, innerHeight: real): (delays: seq<Option<int>>)
    ensures |delays| == |tops|
    ensures forall i :: 0 <= i < |tops| ==>
      (delays[i].Some? <==> tops[i] < innerHeight * 0.9) && (delays[i].Some? ==> delays[i].value == i * 80)
  {
    if tops == [] then []
    else
      var n := |tops| - 1;
      Stagger(tops[..n], innerHeight) + [if tops[n] < innerHeight * 0.9 then Some(n * 80) else None]
  }
}
