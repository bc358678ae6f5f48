/**
 * The page behaviour of js/scripts.js: the lagging cursor ring, the navbar's
 * scrolled class, the hamburger menu, the add-only scroll reveal and the
 * once-only start of the hero stats counters.
 */
module Scripts {
  import opened Js
  import opened CountUp

  // ---------------------------------------------------------------- cursor

  /** One frame of the ring: it moves 13% of the way towards the pointer. */
  function Follow(r: real, m: real): (next: real)
    ensures m - next == 0.87 * (m - r)
    ensures r <= m ==> r <= next <= m
    ensures m <= r ==> m <= next <= r
  {
    r + (m - r) * 0.13
  }

  function Pow(x: real, n: nat): real {
    if n == 0 then 1.0 else x * Pow(x, n - 1)
  }

  lemma {:induction false} PowInUnit(x: real, n: nat)
    requires 0.0 <= x <= 1.0
    ensures 0.0 <= Pow(x, n) <= 1.0
    ensures 0 < n && x < 1.0 ==> Pow(x, n) < 1.0
  {
    if n > 0 {
      PowInUnit(x, n - 1);
      var p := Pow(x, n - 1);
      assert Pow(x, n) == x * p;
      MulNonneg(x, p);
      MulAtMostOne(x, p);
      if n == 1 {
        assert p == 1.0;
      }
    }
  }

  /** The ring's coordinate after n frames with the pointer held at m. */
  function Chase(r: real, m: real, n: nat): real {
    if n == 0 then r else Follow(Chase(r, m, n - 1), m)
  }

  /** After n frames the gap to a still pointer is 0.87^n of the original gap. */
  lemma {:induction false} ChaseGap(r: real, m: real, n: nat)
    ensures m - Chase(r, m, n) == Pow(0.87, n) * (m - r)
  {
    if n > 0 {
      ChaseGap(r, m, n - 1);
      var g := m - r;
      assert m - Chase(r, m, n) == 0.87 * (Pow(0.87, n - 1) * g);
      assert 0.87 * (Pow(0.87, n - 1) * g) == (0.87 * Pow(0.87, n - 1)) * g;
    }
  }

  /** The ring approaches a still pointer from its own side and never passes it. */
  lemma {:induction false} ChaseNeverOvershoots(r: real, m: real, n: nat)
    ensures r <= m ==> r <= Chase(r, m, n) <= m
    ensures m <= r ==> m <= Chase(r, m, n) <= r
  {
    if n > 0 {
      ChaseNeverOvershoots(r, m, n - 1);
    }
  }

  /** The pointer position (mx, my) and the ring position (rx, ry). */
  class Cursor {
    var mx: real
    var my: real
    var rx: real
    var ry: real

    constructor ()
      ensures mx == 0.0 && my == 0.0 && rx == 0.0 && ry == 0.0
    {
      mx, my, rx, ry := 0.0, 0.0, 0.0, 0.0;
    }

    /** The mousemove listener: the pointer jumps, the ring stays. */
    method MouseMove(clientX: real, clientY: real)
      modifies this
      ensures mx == clientX && my == clientY
      ensures rx == old(rx) && ry == old(ry)
    {
      mx, my := clientX, clientY;
    }

    /** One call of `ani`: both ring coordinates follow the pointer. */
    method Frame()
      modifies this
      ensures rx == Follow(old(rx), mx) && ry == Follow(old(ry), my)
      ensures mx == old(mx) && my == old(my)
    {
      rx := rx + (mx - rx) * 0.13;
      ry := ry + (my - ry) * 0.13;
    }
  }

  // ---------------------------------------------------------------- navbar

  /** The navbar, whose `sc` class the scroll listener sets from scrollY alone. */
  class Navbar {
    var scrolled: bool

    constructor (scrolled: bool)
      ensures this.scrolled == scrolled
    {
      this.scrolled := scrolled;
    }

    /** nav.classList.toggle('sc', scrollY > 50). */
    method OnScroll(scrollY: real)
      modifies this
      ensures scrolled <==> 50.0 < scrollY
    {
      scrolled := scrollY > 50.0;
    }
  }

  // ---------------------------------------------------------------- hamburger

  /** The inline transform of a hamburger bar: '' or one of the two fixed rotations. */
  datatype Transform = NoTransform | RotateDown | RotateUp

  /** The inline style of a bar: its transform and whether opacity is '0' (rather than ''). */
  datatype Bar = Bar(transform: Transform, transparent: bool)

  const Cleared := Bar(NoTransform, false)

  /** A bar with both inline properties reset to ''. */
  predicate IsCleared(b: Bar) {
    b == Cleared
  }

  /**
   * The open branch of the click handler: the first bar rotates down, the
   * second turns transparent, the third rotates up; each assignment touches
   * one property of one bar and nothing else. With fewer than three bars the
   * handler stops at the first missing one.
   */
  function OpenBars(s: seq<Bar>): (r: seq<Bar>)
    ensures |r| == |s|
    ensures 3 <= |s| ==> r[0].transform == RotateDown && r[1].transparent && r[2].transform == RotateUp
    ensures 1 <= |s| ==> r[0].transparent == s[0].transparent
    ensures 2 <= |s| ==> r[1].transform == s[1].transform
    ensures 3 <= |s| ==> r[2].transparent == s[2].transparent
    ensures forall i :: 3 <= i < |s| ==> r[i] == s[i]
  {
    var s0 := if 1 <= |s| then s[0 := s[0].(transform := RotateDown)] else s;
    var s1 := if 2 <= |s| then s0[1 := s0[1].(transparent := true)] else s0;
    if 3 <= |s| then s1[2 := s1[2].(transform := RotateUp)] else s1
  }

  /** Every bar reset, as the `forEach` in both reset paths leaves them. */
  function ClearedBars(n: nat): (r: seq<Bar>)
    ensures |r| == n && forall i :: 0 <= i < n ==> IsCleared(r[i])
  {
    seq(n, _ => Cleared)
  }

  /** Opening from closed and closing again leaves the bars as they were. */
  lemma OpenThenCloseRestores(s: seq<Bar>)
    requires forall i :: 0 <= i < |s| ==> IsCleared(s[i])
    ensures ClearedBars(|OpenBars(s)|) == s
  {
  }

  /** An opened menu of three bars or more shows the cross: its bars are not all cleared. */
  lemma OpenShowsCross(s: seq<Bar>)
    requires 3 <= |s|
    ensures !IsCleared(OpenBars(s)[1])
    ensures OpenBars(s)[0] != OpenBars(s)[2]
  {
  }

  /** The menu: whether `#nm` has class `open`, and the inline styles of the bars inside `#ham`. */
  class Menu {
    var open: bool
    const bars: array<Bar>

    /** The page load: `#nm`'s class and the bars' inline styles as the markup has them. */
    constructor (open: bool, bars: seq<Bar>)
      ensures this.open == open && this.bars[..] == bars
    {
      this.open := open;
      this.bars := new Bar[|bars|](i requires 0 <= i < |bars| => bars[i]);
    }

    /** The forEach that resets transform and opacity of every bar. */
    method ResetBars()
      modifies bars
      ensures bars[..] == ClearedBars(bars.Length)
    {
      var i := 0;
      while i < bars.Length
        invariant 0 <= i <= bars.Length
        invariant forall k :: 0 <= k < i ==> bars[k] == Cleared
      {
        bars[i] := bars[i].(transform := NoTransform).(transparent := false);
        i := i + 1;
      }
    }

    /** A click on the hamburger; `ok` is false when the open branch runs out of bars and throws. */
    method Toggle() returns (ok: bool)
      modifies this, bars
      ensures open == !old(open)
      ensures open ==> bars[..] == OpenBars(old(bars[..])) && (ok <==> 3 <= bars.Length)
      ensures !open ==> bars[..] == ClearedBars(bars.Length) && ok
    {
      open := !open;
      ok := true;
      if open {
        if 1 <= bars.Length {
          bars[0] := bars[0].(transform := RotateDown);
        }
        if 2 <= bars.Length {
          bars[1] := bars[1].(transparent := true);
        }
        if 3 <= bars.Length {
          bars[2] := bars[2].(transform := RotateUp);
        } else {
          ok := false;
        }
      } else {
        ResetBars();
      }
    }

    /** A click on any link in the menu closes it and resets every bar, whatever the state before. */
    method ClickLink()
      modifies this, bars
      ensures !open
      ensures bars[..] == ClearedBars(bars.Length)
    {
      open := false;
      ResetBars();
    }
  }

  // ---------------------------------------------------------------- reveal

  /** An entry of the `.reveal` observer: which element, and whether it intersects. */
  datatype RevealEntry = RevealEntry(target: nat, intersecting: bool)

  predicate Targets(es: seq<RevealEntry>, n: nat) {
    forall k :: 0 <= k < |es| ==> es[k].target < n
  }

  /** Some entry reported element i as intersecting. */
  predicate Seen(es: seq<RevealEntry>, i: nat) {
    exists k :: 0 <= k < |es| && es[k] == RevealEntry(i, true)
  }

  /** The `vis` flags after the callback has handled the entries in order. */
  function Revealed(vis: seq<bool>, es: seq<RevealEntry>): (r: seq<bool>)
    requires Targets(es, |vis|)
    ensures |r| == |vis|
    ensures forall i :: 0 <= i < |vis| ==> (r[i] <==> vis[i] || Seen(es, i))
  {
    if es == [] then vis
    else
      var prev := Revealed(vis, es[..|es| - 1]);
      var e := es[|es| - 1];
      assert forall i :: Seen(es, i) <==> Seen(es[..|es| - 1], i) || e == RevealEntry(i, true) by {
        forall i
          ensures Seen(es, i) <==> Seen(es[..|es| - 1], i) || e == RevealEntry(i, true)
        {
          if Seen(es, i) {
            var k :| 0 <= k < |es| && es[k] == RevealEntry(i, true);
            if k < |es| - 1 {
              assert es[..|es| - 1][k] == es[k];
            }
          }
          if Seen(es[..|es| - 1], i) {
            var k :| 0 <= k < |es| - 1 && es[..|es| - 1][k] == RevealEntry(i, true);
            assert es[k] == RevealEntry(i, true);
          }
        }
      }
      if e.intersecting then prev[e.target := true] else prev
  }

  /** A flag once set is never cleared, and handling the same entries again changes nothing. */
  lemma RevealIdempotent(vis: seq<bool>, es: seq<RevealEntry>)
    requires Targets(es, |vis|)
    ensures forall i :: 0 <= i < |vis| && vis[i] ==> Revealed(vis, es)[i]
    ensures Revealed(Revealed(vis, es), es) == Revealed(vis, es)
  {
  }

  /** The `.reveal` elements and their `vis` classes. */
  class Reveal {
    const vis: array<bool>

    constructor (vis: seq<bool>)
      ensures this.vis[..] == vis
    {
      this.vis := new bool[|vis|](i requires 0 <= i < |vis| => vis[i]);
    }

    /** One call of the observer's callback. */
    method OnEntries(es: seq<RevealEntry>)
      requires Targets(es, vis.Length)
      modifies vis
      ensures vis[..] == Revealed(old(vis[..]), es)
    {
      var k := 0;
      while k < |es|
        invariant 0 <= k <= |es|
        invariant vis[..] == Revealed(old(vis[..]), es[..k])
      {
        assert es[..k + 1][..k] == es[..k];
        if es[k].intersecting {
          vis[es[k].target] := true;
        }
        k := k + 1;
      }
      assert es[..|es|] == es;
    }
  }

  // ---------------------------------------------------------------- hero stats

  /** A `[data-target]` child of `.h-stats`: its data-target and data-suffix. */
  datatype Stat = Stat(target: real, suffix: Option<string>)

  /**
   * One call `counter(el, target, suffix)`: the time it captures as t0, the
   * target and the suffix exactly as the caller handed it over.
   */
  datatype StatRun = StatRun(t0: real, target: real, suffix: Option<string>)

  /**
   * The text `counter` writes for the number n when it was handed
   * el.dataset.suffix as it is: a number plus `undefined` is NaN.
   */
  function StatTextAsWritten(n: int, suffix: Option<string>): string {
    match suffix
    case None => "NaN"
    case Some(s) => IntText(n) + s
  }

  /** The text the frame at `now` of a run writes; with a suffix it is the count-up frame text. */
  function StatFrameText(run: StatRun, now: real): (text: string)
    ensures run.suffix.None? ==> text == "NaN"
    ensures run.suffix.Some? ==> text == FrameText(now, run.t0, StatsDuration, run.target, run.suffix.value)
  {
    StatTextAsWritten(Displayed(now, run.t0, StatsDuration, run.target), run.suffix)
  }

  /** The run the stats observer starts for a stat at time now, as written: the raw suffix. */
  function StatRunOf(stat: Stat, now: real): StatRun {
    StatRun(now, stat.target, stat.suffix)
  }

  /** The counter a stat should start at time now, with the suffix defaulting to "" as in js/counter.js. */
  function StatStart(stat: Stat, now: real): (r: Start)
    ensures r.t0 == now && r.dur == StatsDuration && r.target == stat.target
    ensures r.suffix == DefaultSuffix(stat.suffix)
  {
    Start(now, StatsDuration, stat.target, DefaultSuffix(stat.suffix))
  }

  /** Corrected, a stat without data-suffix shows its number alone on every frame. */
  lemma StatStartShowsNumber(stat: Stat, now: real, t: real)
    requires stat.suffix.None?
    ensures var r := StatStart(stat, now);
      FrameText(t, r.t0, r.dur, r.target, r.suffix) == IntText(Displayed(t, now, StatsDuration, stat.target))
  {
    assert IntText(Displayed(t, now, StatsDuration, stat.target)) + "" == IntText(Displayed(t, now, StatsDuration, stat.target));
  }

  /** As written, a stat without data-suffix shows NaN on every frame, never the number the corrected start shows. */
  lemma StatTextAsWrittenShowsNaN(stat: Stat, now: real, t: real)
    requires stat.suffix.None?
    ensures StatFrameText(StatRunOf(stat, now), t) == "NaN"
    ensures var r := StatStart(stat, now);
      StatFrameText(StatRunOf(stat, now), t) != FrameText(t, r.t0, r.dur, r.target, r.suffix)
  {
    var n := Displayed(t, now, StatsDuration, stat.target);
    StatStartShowsNumber(stat, now, t);
    if n < 0 {
      assert IntText(n)[0] == '-';
    } else {
      assert '0' <= IntText(n)[0] <= '9';
    }
  }

  /** The inner forEach for one entry: one run per stat, in document order. */
  function RunsOf(stats: seq<Stat>, now: real): (runs: seq<StatRun>)
    ensures |runs| == |stats|
    ensures forall i :: 0 <= i < |stats| ==> runs[i] == StatRunOf(stats[i], now)
  {
    seq(|stats|, i requires 0 <= i < |stats| => StatRunOf(stats[i], now))
  }

  /** The number of intersecting entries in a batch. */
  function Hits(es: seq<Entry>): nat {
    if es == [] then 0 else Hits(es[..|es| - 1]) + (if es[|es| - 1].intersecting then 1 else 0)
  }

  /**
   * The outer forEach over one batch of entries: every intersecting entry
   * starts every stat again. `unobserve` at js/scripts.js:72 does not drop
   * the entries of the batch already being handled.
   */
  function BatchRuns(stats: seq<Stat>, es: seq<Entry>): (runs: seq<StatRun>)
    ensures |runs| == Hits(es) * |stats|
  {
    if es == [] then []
    else
      var e := es[|es| - 1];
      var prev := BatchRuns(stats, es[..|es| - 1]);
      assert (Hits(es[..|es| - 1]) + 1) * |stats| == Hits(es[..|es| - 1]) * |stats| + |stats|;
      prev + (if e.intersecting then RunsOf(stats, e.now) else [])
  }

  /** A batch holding two intersecting entries starts every counter twice, once per entry. */
  lemma BatchStartsPerEntry(stats: seq<Stat>, t1: real, t2: real)
    ensures BatchRuns(stats, [Entry(true, t1), Entry(true, t2)]) == RunsOf(stats, t1) + RunsOf(stats, t2)
    ensures |BatchRuns(stats, [Entry(true, t1), Entry(true, t2)])| == 2 * |stats|
  {
    var es := [Entry(true, t1), Entry(true, t2)];
    assert es[..1] == [Entry(true, t1)];
    assert es[..1][..0] == [];
  }

  /**
   * One call of the callback. The browser queues entries only for observed
   * targets, so a batch delivered after the unobserve holds no entry for the
   * block: nothing starts.
   */
  function Callback(observed: bool, stats: seq<Stat>, es: seq<Entry>): seq<StatRun> {
    if observed then BatchRuns(stats, es) else []
  }

  /** The runs a sequence of batches starts, the block being unobserved after the first batch with an intersecting entry. */
  function AllRuns(observed: bool, stats: seq<Stat>, bs: seq<seq<Entry>>): seq<StatRun>
    decreases |bs|
  {
    if bs == [] then [] else Callback(observed, stats, bs[0]) + AllRuns(observed && Hits(bs[0]) == 0, stats, bs[1..])
  }

  /** The first batch with an intersecting entry, or |bs| when there is none. */
  function FirstHit(bs: seq<seq<Entry>>): (k: nat)
    ensures k <= |bs|
    ensures k < |bs| ==> 0 < Hits(bs[k])
    ensures forall j :: 0 <= j < k ==> Hits(bs[j]) == 0
  {
    if bs == [] then 0 else if 0 < Hits(bs[0]) then 0 else 1 + FirstHit(bs[1..])
  }

  /** Once the block is unobserved no batch starts anything. */
  lemma {:induction false} NoRunsOnceUnobserved(stats: seq<Stat>, bs: seq<seq<Entry>>)
    ensures AllRuns(false, stats, bs) == []
    decreases |bs|
  {
    if bs != [] {
      NoRunsOnceUnobserved(stats, bs[1..]);
    }
  }

  /**
   * Every counter the stats block ever starts is started by the first batch
   * that holds an intersecting entry; no later batch starts any.
   */
  lemma {:induction false} StatsOnce(stats: seq<Stat>, bs: seq<seq<Entry>>)
    ensures AllRuns(true, stats, bs) == if FirstHit(bs) < |bs| then BatchRuns(stats, bs[FirstHit(bs)]) else []
    decreases |bs|
  {
    if bs != [] {
      if 0 < Hits(bs[0]) {
        NoRunsOnceUnobserved(stats, bs[1..]);
      } else {
        assert BatchRuns(stats, bs[0]) == [];
        StatsOnce(stats, bs[1..]);
        assert FirstHit(bs) == 1 + FirstHit(bs[1..]);
        if FirstHit(bs[1..]) < |bs[1..]| {
          assert bs[FirstHit(bs)] == bs[1..][FirstHit(bs[1..])];
        }
      }
    }
  }

  /** `.h-stats` with the observer's view of it. */
  class StatsBlock {
    var observed: bool
    const stats: seq<Stat>

    /** statsObs.observe(hs), when the page has a `.h-stats`. */
    constructor (stats: seq<Stat>)
      ensures observed && this.stats == stats
    {
      observed := true;
      this.stats := stats;
    }

    /** The observer's callback on one batch: the forEach over the entries as written. */
    method OnEntries(es: seq<Entry>) returns (runs: seq<StatRun>)
      modifies this
      ensures runs == Callback(old(observed), stats, es)
      ensures observed <==> old(observed) && Hits(es) == 0
    {
      runs := [];
      if !observed {
        return;
      }
      var k := 0;
      while k < |es|
        invariant 0 <= k <= |es|
        invariant runs == BatchRuns(stats, es[..k])
        invariant observed <==> Hits(es[..k]) == 0
      {
        assert es[..k + 1][..k] == es[..k];
        var e := es[k];
        if e.intersecting {
          runs := StartAll(runs, e.now);
          observed := false;
        }
        k := k + 1;
      }
      assert es[..|es|] == es;
    }

    /** The inner forEach: `counter` once for every `[data-target]` child, in document order. */
    method StartAll(before: seq<StatRun>, now: real) returns (runs: seq<StatRun>)
      ensures runs == before + RunsOf(stats, now)
    {
      runs := before;
      var i := 0;
      while i < |stats|
        invariant 0 <= i <= |stats|
        invariant runs == before + RunsOf(stats[..i], now)
      {
        assert RunsOf(stats[..i + 1], now) == RunsOf(stats[..i], now) + [StatRunOf(stats[i], now)];
        runs := runs + [StatRunOf(stats[i], now)];
        i := i + 1;
      }
      assert stats[..|stats|] == stats;
    }
  }
}
