# Landing-page effect scripts, modelled in Dafny

The repository is a set of browser scripts for a landing page:
- two carousels;
- count-up counters triggered by an IntersectionObserver;
- a lagging cursor ring, the navbar threshold and the hamburger menu;
- two particle canvases with connecting lines;
- a handful of scroll-derived effects.

Most of each script is DOM and canvas plumbing. This project models the rules underneath.

One Dafny module per script, plus two shared modules:

- `Js` (js.dfy) holds JavaScript number semantics:
  - `Math.round`, truncation, truncating `%`, and `Option` for `undefined`;
  - the decimal text of an integer, with its round trip;
  - a counter of `true` flags;
  - a characterisation of `Math.sqrt` as a parameter (`IsSqrt`).
- `Connections` (connections.dfy) holds the pair scan that both particle canvases run (`drawConnections`). It is specified by:
  - which pairs it keeps;
  - the order in which it draws them.
- `TrackSlider` (slider.js): the track slider's modular next/prev and the track offset.
- `DotSlider` (slider2.js): `showMySlide` normalisation and exclusive activation over slide and dot flags. Next, prev, dot clicks and autoplay.
- `CountUp` (counter.js):
  - the eased count-up frame and its self-rescheduling `step`;
  - the `data-animated` once-only guard, and where `unobserve` is reached.
- `Scripts` (scripts.js): cursor ring, navbar, hamburger, `.reveal`, and the stats counters with their observer.
- `Hero` (hero.js): particle reset, update (pull, damping, wrap) and the line alpha, on a `Network` class holding the particles.
- `Rising` (scripts2.js, background canvas): particle reset and update with life decay and respawn, and the line alpha weighted by both lives.
- `ScrollEffects` (scripts2.js, the rest of the core):
  - the section dots, the mockup clamp, the orb speed table and the monotone clip reveal (all scroll-derived);
  - the CTA border angle, the eyebrow character spans, the service-card delay and the counter-item stagger.
- `StageDots` (dots.js): the scroll index of the mockup stage and the exclusive dot highlight.

Each script's state is modelled in the form the script keeps it:
- State that the script updates in place lives in classes with `modifies` clauses: slider indices, per-slide and per-dot flags, particles, the cursor ring, menu bars, counter items and the CTA angle.
- Each callback becomes a method, and each method is tied to a pure function of the old state.
- The properties are proved about those functions.

The browser's inputs are handled as follows:
- Browser scheduling (requestAnimationFrame, setTimeout, setInterval, observers, event listeners) becomes explicit step methods that a caller invokes.
- `Math.random()` results are parameters, each required to lie in `[0, 1)`.
- `Math.sqrt` is a parameter `sqrt` with `Js.IsSqrt(sqrt)`: it returns the non-negative root. Lemmas then turn each `sqrt(d2) < D` test into `d2 < D*D`.
- DOM reads (sizes, offsets, scroll positions, bounding rectangles) are parameters.
- Numbers are `real`.

Behaviour of the source worth noting:
- slider2.js autoplays on a fixed 5000 ms interval, and manual navigation does not reset it.
- slider2.js has no modulo wrap: a request of `length + 5` shows slide 0.
- scripts.js starts the stats counters without the `|| ""` suffix default that counter.js uses (see Findings). The stats block is modelled as written, with the raw suffix, and `Scripts.StatStart` is the corrected start.
- The stats observer of scripts.js handles a whole batch of entries and has no guard after `unobserve`: a batch with two intersecting entries for `.h-stats` starts every counter twice (`Scripts.BatchStartsPerEntry`). The counter.js observer is protected by its `data-animated` flag instead.
- js/scripts2.js repeats its whole body from line 418 on. This model follows one copy.
  - The repeat re-declares top-level `const`s, for instance `grain` at line 15 and again at line 419. In a classic script that is a redeclaration error.
  - The second copy's `onScroll` adds the counter-item stagger at lines 628-635. It is modelled as `ScrollEffects.Stagger`.
  - The two portfolio transforms (lines 305 and 743) belong to the portfolio fly-in, left out below.

## Model

| member | source | states |
|---|---|---|
| Js.Round | js/dots.js:5 | `Math.round(x)`: the result is the integer `n` with `n - 0.5 <= x < n + 0.5` |
| Js.Trunc | js/scripts2.js:353 | truncation toward zero: the result is within 1 of x and on x's side of 0 |
| Js.IntRem | js/slider.js:12 | JavaScript `%` on integers: the Euclidean remainder for a non-negative dividend, and a value in `(-n, 0]` for a negative one |
| Js.NatTextRoundTrip | js/counter.js:16 | the decimal text of a natural number reads back as that number |
| Js.IntTextRoundTrip | js/scripts.js:61 | the text of an integer (a leading `-` for negatives) reads back as that integer |
| Js.RootBelow | js/hero.js:97-99 | for the non-negative root s of v and a positive bound D: `s < D` exactly when `v < D*D` |
| Js.RootUnique | js/hero.js:60 | a non-negative square root is unique |
| Js.CountExclusive | js/slider2.js:16-18 | flags that are true only at index k count 1 when k is in range and 0 otherwise |
| TrackSlider.StepsStayInRange | js/slider.js:11-19 | from an index in `[0, n)`, both `next` and `prev` stay in `[0, n)`; next wraps the last index to 0 and prev wraps 0 to the last index |
| TrackSlider.PrevUndoesNext | js/slider.js:11-19 | prev after next, and next after prev, restore the index |
| TrackSlider.AfterNextsIsModular | js/slider.js:12 | k next clicks from index s give `(s + k) mod n` |
| TrackSlider.FullRound | js/slider.js:12 | n next clicks return to the starting index |
| TrackSlider.OffsetRange | js/slider.js:8 | the track shift `index*100` lies in `[0, (n-1)*100]` |
| TrackSlider.Slider.constructor | js/slider.js:3-5 | the index starts at 0 with `n > 0` slides, and no transform has been written yet |
| TrackSlider.Slider.UpdateSlider | js/slider.js:7-9 | the written shift is `index*100` and the index is unchanged |
| TrackSlider.Slider.Next | js/slider.js:11-14 | the index becomes `(index + 1) % n`, stays in range, and the shift follows it |
| TrackSlider.Slider.Prev | js/slider.js:16-19 | the index becomes `(index - 1 + n) % n`, stays in range, and the shift follows it |
| DotSlider.Normalize | js/slider2.js:5-8 | a request `>= length` gives 0, a negative one gives `length - 1`, one in range is kept, and the result is in `[0, length)` when there are slides |
| DotSlider.StepIsModular | js/slider2.js:5-27 | from an in-range index, next and prev coincide with `(k ± 1) mod n` |
| DotSlider.AfterNextsIsModular | js/slider2.js:21-23 | k next clicks from an in-range index give `(s + k) mod n` |
| DotSlider.AfterPrevsIsModular | js/slider2.js:25-27 | k prev clicks from an in-range index give `(s - k) mod n` |
| DotSlider.FullRound | js/slider2.js:21-27 | n next clicks, or n prev clicks, return to the starting slide |
| DotSlider.Carousel.constructor | js/slider2.js:39 | the markup's flags, then `showMySlide(0)`: slide 0 and dot 0 alone are active when there are slides and enough dots |
| DotSlider.Carousel.Show | js/slider2.js:5-19 | the index is normalised. With `0 < slides <= dots`, exactly slide and dot `myIndex` are active and slide `myIndex` alone is displayed. Otherwise the call throws after hiding the slides the loop reached. Dots past the last slide are never touched |
| DotSlider.Carousel.Next | js/slider2.js:21-23 | `showMySlide(myIndex + 1)` |
| DotSlider.Carousel.Prev | js/slider2.js:25-27 | `showMySlide(myIndex - 1)` |
| DotSlider.Carousel.ClickDot | js/slider2.js:29-31 | `showMySlide(i)`: dot i selects slide i whenever slide i exists |
| DotSlider.Carousel.Autoplay | js/slider2.js:34-36 | one autoplay tick is exactly the next button |
| CountUp.Progress | js/counter.js:14 | `p = min((now - t0)/dur, 1)` never exceeds 1, is non-negative from t0 on, and is 1 exactly from `t0 + dur` on |
| CountUp.ProgressMonotone | js/counter.js:14 | progress never decreases with time |
| CountUp.EaseMonotone | js/counter.js:15 | the cubic ease-out `1 - (1 - p)^3` is non-decreasing on `[0, 1]`, stays in `[0, 1]`, and is exactly 1 at p = 1 |
| CountUp.ShownMonotone | js/counter.js:15-16 | for `target >= 0` the shown number `floor(ease*target)` is non-decreasing in p and at most `floor(target)` |
| CountUp.ShownAtEnd | js/counter.js:15-16 | at p = 1 the shown number is `floor(target)`, which is the target itself for an integer target |
| CountUp.DisplayedMonotone | js/counter.js:13-16 | from t0 on, later frames never show a smaller number, and no frame shows more than the target |
| CountUp.DisplayedAtEnd | js/counter.js:11-16 | every frame from `t0 + dur` on shows an integer target exactly |
| CountUp.FrameTextParts | js/counter.js:16 | the frame text is the decimal digits of the shown number followed by the suffix |
| CountUp.Animation.constructor | js/counter.js:11-19 | t0 is captured and one frame is scheduled |
| CountUp.Animation.Step | js/counter.js:13-18 | the text becomes the frame text. `step` reschedules itself exactly while `now < t0 + dur`. The last frame shows the target's floor and the suffix |
| CountUp.OnEntry | js/counter.js:4-21 | an animation starts exactly on an intersecting entry for an armed item: one with a `[data-counter]` child not yet flagged. That path flags the child and unobserves the item, with duration 1800 and the defaulted suffix. Every other path changes nothing, and in particular skips `unobserve` |
| CountUp.AtMostOnce | js/counter.js:6-20 | any sequence of entries starts at most one animation for an item, and none for an item that is not armed |
| CountUp.StartedStaysDone | js/counter.js:7-20 | after the start the item is unobserved and its child flagged |
| CountUp.NotArmedIsStable | js/counter.js:6 | an item without a child, or with a flagged child, is never changed |
| CountUp.CounterItem.constructor | js/counter.js:23 | every `.counter-item` starts observed |
| CountUp.AfterSnoc | js/counter.js:3-21 | handling one more entry after a sequence is one more `OnEntry` step |
| CountUp.CounterItem.OnEntries | js/counter.js:2-22 | the callback's forEach over a batch leaves the item as `After` says and starts as many animations as `Starts` counts, at most one even when the batch repeats the item |
| CountUp.CounterItem.OnIntersection | js/counter.js:3-21 | the body for one entry updates the item and starts an animation as `OnEntry` says |
| Scripts.Follow | js/scripts.js:10 | one ring step: the gap to the pointer shrinks to 0.87 of itself, and the ring stays between its old place and the pointer |
| Scripts.PowInUnit | js/scripts.js:10 | powers of a factor in `[0, 1]` stay in `[0, 1]`, and below 1 for a factor below 1 |
| Scripts.ChaseGap | js/scripts.js:9-13 | after n frames with the pointer still, the gap is `0.87^n` times the first gap |
| Scripts.ChaseNeverOvershoots | js/scripts.js:9-13 | the ring approaches a still pointer from its own side and never passes it |
| Scripts.Cursor.constructor | js/scripts.js:4 | pointer and ring start at (0, 0) |
| Scripts.Cursor.MouseMove | js/scripts.js:5-8 | the pointer jumps to the event position and the ring stays where it is |
| Scripts.Cursor.Frame | js/scripts.js:9-13 | both ring coordinates take one `Follow` step and the pointer is unchanged |
| Scripts.Navbar.constructor | js/scripts.js:26 | the nav's class as in the markup |
| Scripts.Navbar.OnScroll | js/scripts.js:27 | the nav has `sc` exactly when `scrollY > 50` |
| Scripts.OpenBars | js/scripts.js:35-38 | bar 0 gets the down rotation, bar 1 opacity 0 and bar 2 the up rotation. Nothing else in any bar changes |
| Scripts.OpenThenCloseRestores | js/scripts.js:32-41 | opening from the page-load state and closing again restores the bars |
| Scripts.OpenShowsCross | js/scripts.js:35-38 | an opened menu of three bars or more shows the cross: bar 1 is hidden and bars 0 and 2 differ |
| Scripts.Menu.constructor | js/scripts.js:30-31 | the menu's `open` class and the bars' inline styles as the markup has them |
| Scripts.Menu.ResetBars | js/scripts.js:40-45 | every bar is reset |
| Scripts.Menu.Toggle | js/scripts.js:32-42 | `open` flips. The open path writes `OpenBars`, and throws when there are fewer than three bars. The close path resets every bar |
| Scripts.Menu.ClickLink | js/scripts.js:43-46 | whatever the state before, the menu ends closed with every bar reset |
| Scripts.Revealed | js/scripts.js:49-51 | after the callback, an element has `vis` exactly when it had it before or an entry reported it intersecting |
| Scripts.RevealIdempotent | js/scripts.js:50 | `vis` is never removed, and handling the same entries again changes nothing |
| Scripts.Reveal.constructor | js/scripts.js:52 | the `.reveal` elements with their markup classes |
| Scripts.Reveal.OnEntries | js/scripts.js:49-51 | one callback leaves the flags `Revealed` gives |
| Scripts.StatFrameText | js/scripts.js:58-62 | as written, a frame shows `NaN` when the run was handed no suffix, and otherwise the count-up frame text with that suffix |
| Scripts.StatTextAsWrittenShowsNaN | js/scripts.js:61-70 | as written, a stat without `data-suffix` shows `NaN` on every frame, never the number the corrected start shows |
| Scripts.StatStartShowsNumber | js/scripts.js:58-62 | corrected, a stat without `data-suffix` shows its number alone on every frame |
| Scripts.BatchRuns | js/scripts.js:67-73 | each intersecting entry of a batch starts every stat again, so a batch starts `hits * stats` counters |
| Scripts.BatchStartsPerEntry | js/scripts.js:67-73 | a batch with two intersecting entries starts every counter twice |
| Scripts.FirstHit | js/scripts.js:68 | the index of the first batch holding an intersecting entry, or the number of batches when none does |
| Scripts.NoRunsOnceUnobserved | js/scripts.js:72 | after `unobserve`, no later batch starts anything |
| Scripts.StatsOnce | js/scripts.js:66-75 | every counter the block ever starts comes from the first batch holding an intersecting entry |
| Scripts.StatsBlock.constructor | js/scripts.js:76-77 | `.h-stats` starts observed |
| Scripts.StatsBlock.OnEntries | js/scripts.js:66-75 | the callback's forEach over a batch starts `Callback` of the batch. The block stays observed exactly when it was and no entry intersected |
| Scripts.StatsBlock.StartAll | js/scripts.js:69-71 | the inner forEach appends one run per stat, in order |
| Js.ScaleDraw | js/hero.js:47-48 | `Math.random() * size` lies in `[0, size]`, below size when size is positive |
| Js.DrawIn | js/scripts2.js:56-57 | `Math.random() * size`: a random coordinate lies on the canvas |
| Hero.ResetState | js/hero.js:46-54 | x and y lie on the canvas; vx and vy lie in `[-0.175, 0.175)`, r in `[0.6, 2.4)` and alpha in `[0.3, 0.8)`; the colour is green exactly when the draw exceeds 0.5 |
| Hero.Wrap | js/hero.js:71-74 | a wrapped coordinate lies in `[-20, size + 20]`. A coordinate already inside is kept, one below jumps to `size + 20`, and one above jumps to -20 |
| Hero.Force | js/hero.js:62 | within MOUSE_DIST the force lies in `(0, 0.012]` |
| Hero.Updated | js/hero.js:56-75 | after update, x lies in `[-20, W + 20]` and y in `[-20, H + 20]`; radius, colour and alpha are unchanged |
| Hero.NoPullBeyondReach | js/hero.js:61-67 | at distance 200 or more there is no pull: each velocity component is only damped by 0.98 |
| Hero.PullTowardsPointer | js/hero.js:61-65 | within 200 the pull adds to each velocity component in the pointer's direction, the force being positive |
| Hero.PullSign | js/hero.js:63-64 | a positive force keeps the sign of each pull term |
| Hero.NoPullSlowsDown | js/hero.js:66-67 | without a pull the squared speed becomes 0.9604 times itself, so a moving particle strictly slows down |
| Hero.SentinelOutOfReach | js/hero.js:27-30 | with the pointer at the sentinel (-9999, -9999), no particle inside the wrap box is pulled |
| Hero.LineAlphaLinear | js/hero.js:100 | the line alpha `(1 - dist/160)*0.25` is linear in dist: 0.25 at 0 and 0 at 160 |
| Hero.DrawnAlphaRange | js/hero.js:99-100 | every drawn line has alpha in `(0, 0.25]` |
| Hero.Particle.constructor | js/hero.js:44 | a new particle is reset |
| Hero.Particle.Reset | js/hero.js:46-54 | the fields become `ResetState` of the draws |
| Hero.Particle.Update | js/hero.js:56-75 | the fields become `Updated` of the old fields |
| Hero.Network.constructor | js/hero.js:88 | the canvas size, the sentinel pointer, and 90 particles, each reset from its own draws |
| Hero.Network.Resize | js/hero.js:13-17 | W and H follow the hero's size and the pointer is unchanged |
| Hero.Network.MouseMove | js/hero.js:22-26 | the pointer becomes the client position relative to the hero |
| Hero.Network.MouseLeave | js/hero.js:27-30 | the pointer goes back to the sentinel |
| Hero.Network.Animate | js/hero.js:115-120 | the lines drawn are exactly the pairs `i < j` of the frame's positions, taken before any particle moves, closer than 160, in loop order. Then every particle takes one `Updated` step and lands in the wrap box |
| Hero.Network.UpdateAll | js/hero.js:118 | every particle takes exactly one update step, in order |
| Connections.Hypot2 | js/hero.js:97 | `dx*dx + dy*dy` is non-negative |
| Connections.KeptExactly | js/hero.js:91-99 | a pair is kept exactly when `i < j`, the squared distance is below `D*D`, and dist is the root of the squared distance |
| Connections.KeptDistRange | js/hero.js:99 | a kept pair's distance lies in `[0, D)` |
| Connections.DrawOrderNoRepeats | js/hero.js:91-92 | pairs in loop order never repeat |
| Connections.DrawOrderUnique | js/hero.js:91-92 | two loop-ordered lists holding the same pairs are equal, so the pair set and the loop order determine the lines drawn |
| Connections.Scan | js/hero.js:90-113 | the nested loops keep exactly the pairs `Kept` describes, in loop order |
| Connections.ScanRow | js/hero.js:92-111 | the inner loop for row i appends exactly that row's kept pairs to the earlier rows, preserving loop order |
| Rising.ResetMote | js/scripts2.js:55-65 | life is 1; decay lies in `[0.001, 0.004)`, speedY in `(-0.5, -0.1]`, speedX in `[-0.15, 0.15)`, size in `[0.5, 2.5)` and opacity in `[0.1, 0.6)`; the position lies on the canvas |
| Rising.Updated | js/scripts2.js:66-71 | after update, `life > 0` and `y >= -10` whether or not it reset. An expired particle is reset, any other one is moved and faded |
| Rising.UpdateKeepsRange | js/scripts2.js:55-71 | every update keeps a particle's speeds, decay and life in their ranges |
| Rising.RisesAndFades | js/scripts2.js:67-69 | without a reset, y falls by at least 0.1 and life by at least 0.001 |
| Rising.FadeLife | js/scripts2.js:69 | after n updates without a reset, life is the first life minus n times decay |
| Rising.ResetWithinThousand | js/scripts2.js:64-70 | a particle cannot go 1000 frames without resetting |
| Rising.Closeness | js/scripts2.js:99 | below LINK_DIST the distance factor `(1 - dist/100)*0.12` lies in `(0, 0.12]` |
| Rising.LinkAlphaRange | js/scripts2.js:99 | for live particles the line alpha is positive and at most the distance factor |
| Rising.ScaleDown | js/scripts2.js:99 | scaling by a life in `(0, 1]` keeps the alpha positive and no larger |
| Rising.DrawnAlphaRange | js/scripts2.js:92-99 | every line drawn between live particles has alpha in `(0, 0.12]` |
| Rising.Particle.constructor | js/scripts2.js:84-88 | a fresh particle is reset and then given a random y on the canvas |
| Rising.Particle.Reset | js/scripts2.js:55-65 | the fields become `ResetMote` of the draws |
| Rising.Particle.Update | js/scripts2.js:66-71 | the fields become `Updated` of the old fields, so `life > 0` and `y >= -10` |
| Rising.Field.constructor | js/scripts2.js:84-88 | the canvas size and 60 particles, each reset with a redrawn y |
| Rising.Field.Resize | js/scripts2.js:43-46 | the canvas follows the window size |
| Rising.Field.Animate | js/scripts2.js:112-117 | the lines drawn are exactly the pairs `i < j` of the frame's positions closer than 100, in loop order, each with alpha in `(0, 0.12]` from the lives before the update. Then every particle takes one update, keeps `life > 0` and `y >= -10`, and stays within its ranges |
| Rising.Field.UpdateAll | js/scripts2.js:115 | every particle takes exactly one update, in order, and keeps its speeds, decay and life in range |
| ScrollEffects.BothLitBeforeNext | js/scripts2.js:160 | for adjacent sections, both dots are lit exactly in the 100 px lead-in before the next section |
| ScrollEffects.NoGapBetween | js/scripts2.js:160 | between the first section's lead-in and the end of the next one, some dot is always lit |
| ScrollEffects.UpdateSectionDots | js/scripts2.js:153-161 | dot i is active exactly when `top - 100 <= sy < top + height`. It is untouched when its section is missing. Dots past the sections are untouched |
| ScrollEffects.Clamped | js/scripts2.js:188 | the clamp lies in `[-0.3, 0.3]` and is `progress - 0.2` between the two bounds |
| ScrollEffects.ClampedMonotone | js/scripts2.js:188 | the clamp is monotone in progress |
| ScrollEffects.OrElse | js/scripts2.js:167 | `x \|\| d` gives either the default or the value present, and never a falsy 0 when the default is truthy |
| ScrollEffects.OrbSpeedTable | js/scripts2.js:167 | orbs 0, 1 and 2 move at 0.08, -0.06 and 0.04, and every later orb at 0.05 |
| ScrollEffects.OrbSpeedBounds | js/scripts2.js:167 | no orb speed is 0, and every speed lies within ±0.08 |
| ScrollEffects.ClipStep | js/scripts2.js:196-199 | an element is revealed after the pass exactly when it was before or its top is above 85% of the viewport |
| ScrollEffects.ClipNeverHides | js/scripts2.js:196-198 | a revealed element stays revealed |
| ScrollEffects.ClipIdempotent | js/scripts2.js:196-199 | a second pass at the same scroll position changes nothing |
| ScrollEffects.ClipReveal | js/scripts2.js:196-199 | the loop leaves the flags `ClipStep` gives |
| ScrollEffects.Rem360 | js/scripts2.js:353 | below 360 the `% 360` keeps the angle, and 360 itself becomes 0 |
| ScrollEffects.AngleAt | js/scripts2.js:351-353 | the angle after k ticks lies in `[0, 360)` |
| ScrollEffects.AngleStepAdvances | js/scripts2.js:353 | one step of `(angle + 0.5) % 360` from the angle after k ticks gives the angle after k + 1 ticks |
| ScrollEffects.CtaBorder.constructor | js/scripts2.js:351 | the angle starts at 0 |
| ScrollEffects.CtaBorder.Tick | js/scripts2.js:352-353 | one interval tick steps the angle by 0.5 modulo 360 and keeps it in `[0, 360)` |
| ScrollEffects.Eyebrow | js/scripts2.js:133-136 | one span per character, in order, span i with delay `i*0.03` and that character's HTML |
| ScrollEffects.CharOfHtml | js/scripts2.js:135 | a span shows its character, where a space shows as the no-break space U+00A0 that `&nbsp;` stands for and a carriage return as the line feed the parser normalises it to |
| ScrollEffects.CharHtmlInjective | js/scripts2.js:135 | distinct characters get distinct span markup |
| ScrollEffects.Unsplit | js/scripts2.js:135-136 | reading the spans back gives one character per span |
| ScrollEffects.EyebrowShows | js/scripts2.js:133-136 | the spans show the text character by character, with every space shown as U+00A0 and every carriage return as a line feed |
| ScrollEffects.EyebrowInjective | js/scripts2.js:133-136 | the spans determine the text: no character is lost, added or moved |
| ScrollEffects.EyebrowDelaysIncrease | js/scripts2.js:135 | delays strictly increase along the text |
| ScrollEffects.IndexOf | js/scripts2.js:278 | `indexOf`: -1 exactly when absent, otherwise the first position holding the element |
| ScrollEffects.CardDelayStagger | js/scripts2.js:277-282 | among distinct cards, card k enters after `70k` ms. A target not among the cards gets -70 |
| ScrollEffects.Stagger | js/scripts2.js:628-635 | counter item i is scheduled at `i*80` ms exactly when its top is above 90% of the viewport, and not at all otherwise |
| StageDots.ScrollIndex | js/dots.js:5 | the index is `round(scrollLeft / offsetWidth)`, and none for a zero-width stage |
| StageDots.ScrollIndexAtPage | js/dots.js:5 | scrolled exactly k widths, the index is k |
| StageDots.Stage.constructor | js/dots.js:2 | the `.dot` elements with their `active` classes as the markup has them |
| StageDots.Stage.OnScroll | js/dots.js:4-9 | dot i is active exactly when i is the scroll index, and at most one dot is active |
| StageDots.Highlight | js/dots.js:6-8 | the flags the toggle loop leaves, one per dot, true only at the index |
| StageDots.HighlightExclusive | js/dots.js:6-8 | at most one dot is active: exactly one when the index names a dot, none when it is out of range or missing |

## Left out

- js/email.js: a thin wrapper over the external `emailjs.sendForm` relay, whose behaviour is outside this repository.
- js/scroll.js: a single `scrollY > 400` test and a `scrollTo` call. It adds nothing beyond the navbar threshold.
- Ripple, card tilt, magnetic buttons, hero glow and 3D stage mouse tracking (js/scripts2.js:205-270, 379-403). These are one-shot affine maps into CSS strings with no invariant.
- The cursor hover sizes (js/scripts.js:14-23), smooth scrolling (js/scripts.js:80-86) and the timed form-button swap (js/scripts.js:89-102): cosmetic DOM writes and timer plumbing.
- The portfolio fly-in (js/scripts2.js:294-310), the why-items and process-step observers (js/scripts2.js:312-346), the ticker hover glow (js/scripts2.js:365-377) and the circuit-line observer (js/scripts2.js:406-416): each sets fixed styles or classes once per element and unobserves it, with no rule beyond that of `.reveal`.
- ScrollEffects.CharOfHtml: a U+0000 character inserted at js/scripts2.js:135 is dropped by the HTML parser, leaving its span empty; the model reads it back as itself. A lone `<` or `&` before `</span>` is read as text, as the model has it.
- Scripts.StatsBlock.StartAll: every `counter` call of one entry takes the entry's time as t0; the microseconds between the successive `performance.now()` calls are not modelled.
- `splitText` (js/scripts2.js:539-556): it is never called, and its delays are random.
- The mobile gating and the reading-bar width (js/scripts2.js:7, 151). The reading bar divides by a DOM-derived height that can be 0.
- The hero title shift and the 3D screen transforms (js/scripts2.js:170-191): only the clamp they share is modelled, with `progress` as an input. The orb scale term `1 + sy*0.00005` is a CSS string and is not modelled.
- The outline text reveal (js/hero.js:124-129): a single class added after a timeout.
- CSS and colour strings (`colorStr`, gradients, `rgba(...)`) and every canvas drawing call. Lines are modelled as the pairs drawn and their alpha, and particles as their fields.
- The browser scheduler: requestAnimationFrame, setTimeout, setInterval, IntersectionObserver and event listeners. Each callback is a method that the caller steps. The delays (`idx*70`, `i*80`, 300 ms, 5000 ms) are returned as numbers, not waited for. A browser treats the negative delay -70 as 0.
- `Math.random()`: each draw is a parameter required to lie in `[0, 1)`.
- IEEE floating point: numbers are exact reals. Rounding error, overflow, NaN and Infinity are not modelled, except where noted: the NaN of the stats suffix, and the zero-width stage of dots.js as `None`.
- Hero.Network.Animate and Rising.Field.Animate: `Math.sqrt` is a parameter that returns the exact non-negative root, not the correctly rounded one.
- Attribute parsing: `data-counter` and `data-target` are given as numbers. A non-numeric attribute, which gives NaN, is not modelled.
- Number to text: `Js.IntText` covers integers only. The shown values are always floors, and JavaScript's exponent notation for magnitudes of 1e21 and more is not modelled.
- TrackSlider.Slider.constructor: requires at least one slide. With none, `% 0` gives NaN in JavaScript, and that state is not modelled.
- Connections.Scan: its result is specified by membership and order rather than as a list-valued function. Connections.DrawOrderUnique shows that these two facts fix the list.
- The duplicate second half of js/scripts2.js (from line 418): one copy of each rule is modelled, since the redeclared top-level `const`s make the file fail to load as a classic script.

## Findings

| source | as written | input that shows it | evidently intended | confidence | as-written member | corrected member |
|---|---|---|---|---|---|---|
| js/scripts.js:70 | the stats observer passes `el.dataset.suffix` straight to `counter`. A missing attribute is `undefined`, and `Math.floor(ease*target) + undefined` is `NaN` on every frame | a `[data-target]` child of `.h-stats` without `data-suffix` | the suffix defaults to "", as `el.dataset.suffix \|\| ""` does in js/counter.js:9 | not executed | Scripts.StatTextAsWrittenShowsNaN | Scripts.StatStart |
