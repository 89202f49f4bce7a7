/**
  The fixed navigation bar's show/hide behaviour.  While the home
  section is in view the bar is forced visible; elsewhere it hides when
  scrolling down and shows when scrolling up, and a 3000 ms timer
  armed on every upward scroll hides it again.

  The scroll handler is registered by an effect that depends on the
  forced flag, and that effect's cleanup clears the hide timer: so a
  change of the forced flag cancels a pending hide.  Timers are explicit
  fields, and time is an integer millisecond input to each event.
 */
module Navbar {

  const HideDelayMs := 3000

  class NavbarState {
    var visible: bool
    var forceVisible: bool
    var lastScrollY: int
    /** A hide timer is pending, due at `hideAt`. */
    var hideArmed: bool
    var hideAt: int

    /** The bar is never hidden, and no hide is pending, while forced. */
    ghost predicate Valid()
      reads this
    {
      forceVisible ==> visible && !hideArmed
    }

    constructor ()
      ensures visible && !forceVisible && lastScrollY == 0 && !hideArmed
      ensures Valid()
    {
      visible := true;
      forceVisible := false;
      lastScrollY := 0;
      hideArmed := false;
      hideAt := 0;
    }

    /** The intersection observer reports whether the home section is
      (at least 10%) in view. Entering forces the bar visible; leaving
      only lifts the force. A flip of the forced flag re-runs the scroll
      effect, whose cleanup cancels the pending hide. */
    method OnHomeIntersection(isIntersecting: bool)
      requires Valid()
      modifies this
      ensures Valid()
      ensures forceVisible == isIntersecting
      ensures visible == (isIntersecting || old(visible))
      ensures hideArmed == (old(hideArmed) && isIntersecting == old(forceVisible))
      ensures lastScrollY == old(lastScrollY) && hideAt == old(hideAt)
    {
      var wasForced := forceVisible;
      if isIntersecting {
        forceVisible := true;
        visible := true;
      } else {
        forceVisible := false;
      }
      if forceVisible != wasForced {
        hideArmed := false;
      }
    }

    /** The window scrolled to `currentScrollY` at time `now`. */
    method OnScroll(now: int, currentScrollY: int)
      requires Valid()
      modifies this
      ensures Valid()
      ensures forceVisible == old(forceVisible)
      ensures old(forceVisible) ==>
        visible && lastScrollY == old(lastScrollY) &&
        hideArmed == old(hideArmed) && hideAt == old(hideAt)
      ensures !old(forceVisible) ==> lastScrollY == currentScrollY
      ensures !old(forceVisible) && currentScrollY > old(lastScrollY) ==>
        !visible && hideArmed == old(hideArmed) && hideAt == old(hideAt)
      ensures !old(forceVisible) && currentScrollY <= old(lastScrollY) ==>
        visible && hideArmed && hideAt == now + HideDelayMs
    {
      if forceVisible {
        visible := true;
        return;
      }
      if currentScrollY > lastScrollY {
        visible := false;
      } else {
        visible := true;
        hideArmed := true;
        hideAt := now + HideDelayMs;
      }
      lastScrollY := currentScrollY;
    }

    /** Time passes to `now`; a hide timer that is due fires. */
    method OnClock(now: int)
      requires Valid()
      modifies this
      ensures Valid()
      ensures forceVisible == old(forceVisible) && lastScrollY == old(lastScrollY) && hideAt == old(hideAt)
      ensures old(hideArmed) && hideAt <= now ==> !visible && !hideArmed
      ensures !(old(hideArmed) && hideAt <= now) ==> visible == old(visible) && hideArmed == old(hideArmed)
    {
      if hideArmed && hideAt <= now {
        visible := false;
        hideArmed := false;
      }
    }

    /** The component unmounts: the pending hide is cancelled. */
    method Teardown()
      requires Valid()
      modifies this`hideArmed
      ensures Valid() && !hideArmed
    {
      hideArmed := false;
    }
  }

  /** Entering home after an upward scroll: the hide that the scroll armed
      is cancelled, so the bar stays visible however much time passes. */
  method ScenarioHomeCancelsHide(t0: int, later: int)
    requires t0 <= later
  {
    var nav := new NavbarState();
    nav.OnScroll(t0, 0);
    assert nav.visible && nav.hideArmed;
    nav.OnHomeIntersection(true);
    assert !nav.hideArmed;
    nav.OnClock(later + HideDelayMs);
    assert nav.visible;
  }

  /** Outside home, scrolling down hides the bar; scrolling back up shows
      it, and 3000 ms later it hides again. */
  method ScenarioHideAfterIdle(t0: int)
  {
    var nav := new NavbarState();
    nav.OnScroll(t0, 500);
    assert !nav.visible;
    nav.OnScroll(t0 + 10, 400);
    assert nav.visible && nav.hideArmed;
    nav.OnClock(t0 + 10 + 2999);
    assert nav.visible;
    nav.OnClock(t0 + 10 + 3000);
    assert !nav.visible;
  }
}
