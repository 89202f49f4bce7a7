/**
  The Experience timeline: each entry animates over its own step of the
  scroll range; cards alternate above and below the line on wide
  screens and slide in from the left on narrow ones.  Only the ramp
  endpoints handed to the animation library are modelled, not the
  interpolated values.
 */
module Experience {
  import opened Partition
  import Projects

  /** Number of entries in the timeline. */
  const EntryCount := 2

  /** Viewports narrower than this many CSS pixels are "mobile". */
  const MobileBreakpointPx := 768

  datatype Interval = Interval(start: real, end: real)

  /** The scroll interval of entry `idx`: from the previous entry's
      threshold (0 for the first entry) to its own threshold. */
  function ItemInterval(t: seq<real>, idx: nat): Interval
    requires idx < |t|
  {
    Interval(if idx == 0 then 0.0 else t[idx - 1], t[idx])
  }

  /** The intervals tile [0, 1]: the first starts at 0, each one ends
      where the next starts, and the last ends at 1. */
  lemma IntervalsTile(n: nat)
    requires n >= 1
    ensures ItemInterval(Thresholds(n), 0).start == 0.0
    ensures ItemInterval(Thresholds(n), n - 1).end == 1.0
    ensures forall i :: 0 <= i < n - 1 ==>
      ItemInterval(Thresholds(n), i).end == ItemInterval(Thresholds(n), i + 1).start
  {
    ThresholdsInUnitRange(n);
  }

  /** Every interval is non-empty and exactly one step (1/n) wide. */
  lemma IntervalsNonEmpty(n: nat)
    ensures forall i :: 0 <= i < n ==>
      ItemInterval(Thresholds(n), i).start < ItemInterval(Thresholds(n), i).end
    ensures forall i :: 0 <= i < n ==>
      ItemInterval(Thresholds(n), i).end - ItemInterval(Thresholds(n), i).start == 1.0 / n as real
  {
    ThresholdsInUnitRange(n);
    ThresholdsEqualSteps(n);
    var t := Thresholds(n);
    forall i | 0 <= i < n
      ensures ItemInterval(t, i).end - ItemInterval(t, i).start == 1.0 / n as real
    {
      if i > 0 {
        assert t[i - 1 + 1] - t[i - 1] == 1.0 / n as real;
      }
    }
  }

  /** Intervals of different entries overlap at most in a shared endpoint. */
  lemma IntervalsOrdered(n: nat, i: nat, j: nat)
    requires i < j < n
    ensures ItemInterval(Thresholds(n), i).end <= ItemInterval(Thresholds(n), j).start
  {
    ThresholdsSorted(n);
  }

  /** The entry the Projects resolver would call active for progress `p`
      is one whose interval contains `p`: the same partition drives both
      scenes, and every p in [0, 1] falls into some interval. */
  lemma ActiveEntryContainsProgress(n: nat, p: real)
    requires n >= 1 && 0.0 <= p <= 1.0
    ensures 0 <= Projects.ActiveIndex(Thresholds(n), p) < n
    ensures ItemInterval(Thresholds(n), Projects.ActiveIndex(Thresholds(n), p)).start <= p
    ensures p <= ItemInterval(Thresholds(n), Projects.ActiveIndex(Thresholds(n), p)).end
  {
    Projects.FallbackUnusedInUnitRange(n, p);
  }

  /** Entries with even positions are drawn above the line. */
  predicate IsAbove(idx: nat) {
    idx % 2 == 0
  }

  /** Placement alternates: the first is above, then below, above, ... */
  lemma PlacementAlternates(idx: nat)
    ensures IsAbove(0)
    ensures IsAbove(idx) != IsAbove(idx + 1)
  {
  }

  datatype Layout = Desktop | Mobile
  datatype Axis = Vertical | Horizontal

  /** A value animated from `from` at progress `start` to `to` at progress
      `end` (what is handed to the animation library). */
  datatype Ramp = Ramp(start: real, end: real, from: real, to: real)

  /** The animated values of one entry in one layout: the marker's scale
      and opacity, the card's opacity, and the card's shift along `axis`. */
  datatype EntryAnimation = EntryAnimation(
    markerScale: Ramp, markerOpacity: Ramp, cardOpacity: Ramp, axis: Axis, cardShift: Ramp)

  function FadeIn(iv: Interval): Ramp {
    Ramp(iv.start, iv.end, 0.0, 1.0)
  }

  /** The animations of entry `idx`: the desktop card moves vertically
      from +30 (above) or -30 (below); the mobile card moves
      horizontally from -24; all settle at 0. */
  function EntryAnimationOf(t: seq<real>, idx: nat, layout: Layout): EntryAnimation
    requires idx < |t|
  {
    var iv := ItemInterval(t, idx);
    var cardY := Ramp(iv.start, iv.end, if IsAbove(idx) then 30.0 else -30.0, 0.0);
    var cardX := Ramp(iv.start, iv.end, -24.0, 0.0);
    EntryAnimation(FadeIn(iv), FadeIn(iv), FadeIn(iv),
                   if layout == Desktop then Vertical else Horizontal,
                   if layout == Desktop then cardY else cardX)
  }

  predicate DrivenBy(r: Ramp, iv: Interval) {
    r.start == iv.start && r.end == iv.end
  }

  /** All four animations of an entry run over that entry's interval; the
      marker and the card fade and grow from 0 to 1; the card always comes
      to rest at offset 0. */
  lemma EntryAnimationEndpoints(t: seq<real>, idx: nat, layout: Layout)
    requires idx < |t|
    ensures var a := EntryAnimationOf(t, idx, layout);
      var iv := ItemInterval(t, idx);
      && DrivenBy(a.markerScale, iv) && DrivenBy(a.markerOpacity, iv)
      && DrivenBy(a.cardOpacity, iv) && DrivenBy(a.cardShift, iv)
      && a.markerScale.from == a.markerOpacity.from == a.cardOpacity.from == 0.0
      && a.markerScale.to == a.markerOpacity.to == a.cardOpacity.to == 1.0
      && a.cardShift.to == 0.0
  {
  }

  /** On the desktop the card moves vertically, starting 30 below its
      resting place when above the line and 30 above it when below; on
      mobile it moves horizontally, starting 24 to the left. Two
      neighbouring desktop cards start from opposite offsets. */
  lemma CardShiftFollowsLayout(t: seq<real>, idx: nat)
    requires idx < |t|
    ensures var d := EntryAnimationOf(t, idx, Desktop);
      d.axis == Vertical && (d.cardShift.from == 30.0 <==> IsAbove(idx)) &&
      (d.cardShift.from == -30.0 <==> !IsAbove(idx))
    ensures idx + 1 < |t| ==>
      EntryAnimationOf(t, idx, Desktop).cardShift.from == -EntryAnimationOf(t, idx + 1, Desktop).cardShift.from
    ensures var m := EntryAnimationOf(t, idx, Mobile);
      m.axis == Horizontal && m.cardShift.from == -24.0
  {
  }

  /** Whether a viewport of the given width counts as mobile. */
  predicate IsMobileWidth(widthPx: int) {
    widthPx < MobileBreakpointPx
  }

  /** The layout the style sheet shows: the desktop timeline is visible
      from the 768 px breakpoint up, the mobile one below it. */
  function VisibleLayout(widthPx: int): Layout {
    if widthPx >= 768 then Desktop else Mobile
  }

  /** The scene height the script chooses agrees with the timeline the
      style sheet shows, at every width. */
  lemma BreakpointsAgree(widthPx: int)
    ensures IsMobileWidth(widthPx) <==> VisibleLayout(widthPx) == Mobile
  {
  }

  /** The scroll scene height in vh: 100 * n * 1.6 on mobile and
      100 * n * 1.2 otherwise. */
  function SceneHeightVh(isMobile: bool, n: nat): (h: real)
    ensures h == (if isMobile then 160 * n else 120 * n) as real
  {
    if isMobile then 100.0 * n as real * 1.6 else 100.0 * n as real * 1.2
  }

  /** The height applied, given the scene's 120vh minimum. */
  function RenderedHeightVh(isMobile: bool, n: nat): real {
    var h := SceneHeightVh(isMobile, n);
    if h < 120.0 then 120.0 else h
  }

  /** With at least one entry the 120vh minimum never takes effect. */
  lemma MinimumHeightInactive(isMobile: bool, n: nat)
    requires n >= 1
    ensures RenderedHeightVh(isMobile, n) == SceneHeightVh(isMobile, n)
    ensures RenderedHeightVh(isMobile, n) >= 120.0
  {
  }

  /** The mobile flag, recomputed from the window width on every resize. */
  class Viewport {
    var isMobile: bool

    /** Mounting: the effect measures the width at once. */
    constructor (widthPx: int)
      ensures isMobile == IsMobileWidth(widthPx)
    {
      isMobile := widthPx < MobileBreakpointPx;
    }

    method OnResize(widthPx: int)
      modifies this
      ensures isMobile == IsMobileWidth(widthPx)
    {
      isMobile := widthPx < MobileBreakpointPx;
    }

    method HeightVh() returns (h: real)
      ensures h == SceneHeightVh(isMobile, EntryCount)
      ensures h == if isMobile then 320.0 else 240.0
    {
      h := SceneHeightVh(isMobile, EntryCount);
    }
  }
}
