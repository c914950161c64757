/**
  The collapse/expand state machine of the floating bar.

  The state is the bar's vertical offset, the last drag translation the
  ratchet accepted, and the `collapsed` flag. Events arrive already
  recognised by the framework: a long press, a drag sample, the end of a
  drag, and a tap on the reveal button. An animated assignment is modelled
  as a plain assignment, and the `collapsed` change handler runs at once,
  and only when the flag actually changes value.
 */
module Collapse {

  /** How far one accepted drag sample moves the bar down. */
  const DragStep: real := 0.25

  /** The offset the bar settles at once it is collapsed. */
  const CollapsedRest: real := 150.0

  /** A released drag keeps its offset when it got at least this far. */
  const StickyThreshold: real := 1.0

  datatype Offsets = Offsets(yOffset: real, lastYOffset: real, collapsed: bool)

  /** The state the widget starts in. */
  const Initial: Offsets := Offsets(0.0, 0.0, false)

  /** The events the gesture recognisers and the reveal button deliver. */
  datatype Gesture =
    | LongPressed
    | DragMoved(translation: real)
    | DragReleased
    | RevealTapped

  function Max(a: real, b: real): real {
    if a >= b then a else b
  }

  /** The offset gained by `n` accepted drag samples. */
  function Steps(n: nat): real {
    n as real * DragStep
  }

  /** `y` is a whole number of drag steps. */
  predicate OnQuarterGrid(y: real) {
    (4.0 * y).Floor as real == 4.0 * y
  }

  /** Where the settle handler puts the bar for a given value of the flag. */
  function RestOffset(collapsed: bool): real {
    if collapsed then CollapsedRest else 0.0
  }

  /**
    The invariant every reachable state keeps: both offsets are
    non-negative, the bar offset is a whole number of drag steps, and a
    collapsed bar has `yOffset >= 150`, at or past its collapsed rest.
    There is no upper bound: nothing clamps the offset.
   */
  predicate Valid(s: Offsets) {
    && s.yOffset >= 0.0
    && s.lastYOffset >= 0.0
    && OnQuarterGrid(s.yOffset)
    && (s.collapsed ==> s.yOffset >= CollapsedRest)
  }

  /**
    One drag sample. The ratchet test is non-strict: a sample at least as
    far down as the last accepted one moves the bar one step and becomes
    the new mark, so the mark is always the highest sample seen.
   */
  function DragChanged(s: Offsets, translation: real): (r: Offsets)
    ensures r.collapsed == s.collapsed
    ensures r.yOffset > s.yOffset <==> translation >= s.lastYOffset
    ensures r.yOffset == s.yOffset || r.yOffset == s.yOffset + DragStep
    ensures r.lastYOffset == Max(s.lastYOffset, translation)
  {
    if translation - s.lastYOffset >= 0.0 then
      s.(yOffset := s.yOffset + DragStep, lastYOffset := translation)
    else
      s
  }

  /**
    The end of a drag: a drag that got at least one point down sticks
    where it is, mark included; a shorter one snaps both offsets back to 0.
   */
  function DragEnded(s: Offsets): (r: Offsets)
    ensures r.collapsed == s.collapsed
    ensures r.yOffset == 0.0 || r.yOffset >= StickyThreshold
    ensures s.yOffset >= StickyThreshold ==> r == s
    ensures s.yOffset < StickyThreshold ==> r.yOffset == 0.0 && r.lastYOffset == 0.0
  {
    if s.yOffset >= StickyThreshold then s
    else s.(yOffset := 0.0, lastYOffset := 0.0)
  }

  /**
    Assigning the flag. The change handler runs only when the value
    differs, and then moves the bar to the rest offset of the new value
    and clears the mark.
   */
  function SetCollapsed(s: Offsets, v: bool): (r: Offsets)
    ensures r.collapsed == v
    ensures r == s <==> v == s.collapsed
    ensures v != s.collapsed ==> r.yOffset == RestOffset(v) && r.lastYOffset == 0.0
  {
    if v == s.collapsed then s
    else Offsets(RestOffset(v), 0.0, v)
  }

  /**
    One gesture. A long press always leaves the bar collapsed and a reveal
    tap always leaves it expanded; each changes nothing when the flag
    already holds its value, so a reveal tap on an expanded bar held at a
    partial drag offset leaves it there.
   */
  function Apply(s: Offsets, g: Gesture): (r: Offsets)
    ensures g.LongPressed? ==> r.collapsed
    ensures g.LongPressed? && s.collapsed ==> r == s
    ensures g.RevealTapped? ==> !r.collapsed
    ensures g.RevealTapped? && !s.collapsed ==> r == s
    ensures g.RevealTapped? && s.collapsed ==> r == Initial
  {
    match g
    case LongPressed => SetCollapsed(s, true)
    case DragMoved(t) => DragChanged(s, t)
    case DragReleased => DragEnded(s)
    case RevealTapped => SetCollapsed(s, false)
  }

  function Run(s: Offsets, gs: seq<Gesture>): Offsets
    decreases |gs|
  {
    if |gs| == 0 then s else Run(Apply(s, gs[0]), gs[1..])
  }

  /** The drag samples `xs`, delivered in order. */
  function Drags(xs: seq<real>): seq<Gesture> {
    seq(|xs|, i requires 0 <= i < |xs| => DragMoved(xs[i]))
  }

  /** The highest of `mark` and every sample of `xs`. */
  function HighWater(mark: real, xs: seq<real>): real
    decreases |xs|
  {
    if |xs| == 0 then mark else HighWater(Max(mark, xs[0]), xs[1..])
  }

  /** How many samples of `xs` reach the highest value seen before them. */
  function NewHighs(mark: real, xs: seq<real>): nat
    decreases |xs|
  {
    if |xs| == 0 then 0
    else (if xs[0] >= mark then 1 else 0) + NewHighs(Max(mark, xs[0]), xs[1..])
  }

  lemma StepOnGrid(y: real)
    requires OnQuarterGrid(y)
    ensures OnQuarterGrid(y + DragStep)
  {
    var k := (4.0 * y).Floor;
    assert 4.0 * (y + DragStep) == (k + 1) as real;
    assert ((k + 1) as real).Floor == k + 1;
  }

  /** Every event keeps the invariant. */
  lemma ApplyPreservesValid(s: Offsets, g: Gesture)
    requires Valid(s)
    ensures Valid(Apply(s, g))
  {
    match g
    case DragMoved(t) =>
      if t - s.lastYOffset >= 0.0 {
        StepOnGrid(s.yOffset);
      }
    case LongPressed =>
      assert OnQuarterGrid(CollapsedRest);
    case DragReleased =>
    case RevealTapped =>
  }

  /** Across any sequence of events from a valid state, the invariant holds. */
  lemma {:induction false} RunPreservesValid(s: Offsets, gs: seq<Gesture>)
    requires Valid(s)
    ensures Valid(Run(s, gs))
    decreases |gs|
  {
    if |gs| > 0 {
      ApplyPreservesValid(s, gs[0]);
      RunPreservesValid(Apply(s, gs[0]), gs[1..]);
    }
  }

  /**
    The ratchet is a high-water mark: after any run of drag samples the
    mark is the highest of the old mark and the samples, the flag is
    untouched, and the bar moved one step for each sample that reached
    the highest value seen before it (ties included).
   */
  lemma {:induction false} DragRunIsHighWater(s: Offsets, xs: seq<real>)
    ensures Run(s, Drags(xs)) == s.(yOffset := s.yOffset + Steps(NewHighs(s.lastYOffset, xs)),
                                    lastYOffset := HighWater(s.lastYOffset, xs))
    decreases |xs|
  {
    if |xs| > 0 {
      var s1 := DragChanged(s, xs[0]);
      assert Drags(xs)[1..] == Drags(xs[1..]);
      DragRunIsHighWater(s1, xs[1..]);
    }
  }

  /** The sample run [2, 5, 9, 9, 15] from rest takes five steps, the repeated 9 included. */
  lemma RatchetSampleRun()
    ensures Run(Initial, Drags([2.0, 5.0, 9.0, 9.0, 15.0])) == Offsets(1.25, 15.0, false)
  {
    DragRunIsHighWater(Initial, [2.0, 5.0, 9.0, 9.0, 15.0]);
  }

  /** The sample `x` delivered `n` times. */
  function Repeat(x: real, n: nat): seq<real> {
    seq(n, i => x)
  }

  /**
    Nothing bounds the offset: holding a drag at the mark keeps moving
    the bar one step per sample, collapsed or not, past the collapsed rest.
   */
  lemma {:induction false} HeldDragKeepsMoving(s: Offsets, n: nat)
    ensures Run(s, Drags(Repeat(s.lastYOffset, n))) == s.(yOffset := s.yOffset + Steps(n))
    decreases n
  {
    if n > 0 {
      var xs := Repeat(s.lastYOffset, n);
      var s1 := DragChanged(s, s.lastYOffset);
      assert Drags(xs)[1..] == Drags(Repeat(s.lastYOffset, n - 1));
      HeldDragKeepsMoving(s1, n - 1);
    }
  }

  /** A release after a release changes nothing. */
  lemma ReleaseIdempotent(s: Offsets)
    ensures DragEnded(DragEnded(s)) == DragEnded(s)
  {
  }

  /**
    A long press collapses the bar to its rest from any expanded state,
    whatever partial drag offset it holds.
   */
  lemma LongPressOverridesDrag(s: Offsets)
    ensures !s.collapsed ==> Apply(s, LongPressed) == Offsets(CollapsedRest, 0.0, true)
  {
  }
}
