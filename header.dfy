/**
  The site header's scroll behaviour: it hides when the page scrolls down
  past a threshold, shows again on a clear scroll up or near the top, casts
  a shadow once scrolled, and draws a progress bar over the first 300 px.
*/
module Header {

  const ScrollThreshold: real := 10.0
  const HideThreshold: real := 50.0

  datatype Direction = Up | Down

  /** `min(100, max(0, y / 300 * 100))`. */
  function ScrollProgress(y: real): (p: real)
    ensures 0.0 <= p <= 100.0
    ensures y <= 0.0 ==> p == 0.0
    ensures y >= 300.0 ==> p == 100.0
    ensures 0.0 <= y <= 300.0 ==> p == y / 3.0
  {
    var raw := y / 300.0 * 100.0;
    var low := if raw > 0.0 then raw else 0.0;
    if low < 100.0 then low else 100.0
  }

  /** Scrolling further never shrinks the bar. */
  lemma ProgressMonotone(y1: real, y2: real)
    requires y1 <= y2
    ensures ScrollProgress(y1) <= ScrollProgress(y2)
  {
  }

  /**
    Whether the header shows after a scroll from `last` to `current`: going
    down it may only hide, going up (or not moving) it may only show.
  */
  function NextVisible(visible: bool, last: real, current: real): (v: bool)
    ensures current > last ==> (v <==> visible && !(current - last > ScrollThreshold && current > HideThreshold))
    ensures current <= last ==> (v <==> visible || last - current > ScrollThreshold || current < HideThreshold)
  {
    if current > last then
      if current - last > ScrollThreshold && current > HideThreshold then false else visible
    else
      if last - current > ScrollThreshold then true
      else if current < HideThreshold then true
      else visible
  }

  /** Scrolling down never brings the header back, scrolling up never hides it. */
  lemma DirectionDecidesChange(visible: bool, last: real, current: real)
    ensures current > last && !visible ==> !NextVisible(visible, last, current)
    ensures current <= last && visible ==> NextVisible(visible, last, current)
  {
  }

  /** The header component's scroll and menu state. */
  class HeaderState {
    var open: bool
    var scrolled: bool
    var visible: bool
    var direction: Direction
    var progress: real
    var lastScrollY: real

    /**
      The shadow and the bar follow the last position, and the header is
      hidden only while the page sits at least 50 px down.
    */
    ghost predicate Valid()
      reads this
    {
      && (scrolled <==> lastScrollY > 5.0)
      && progress == ScrollProgress(lastScrollY)
      && (!visible ==> lastScrollY >= HideThreshold)
    }

    constructor ()
      ensures Valid()
      ensures !open && !scrolled && visible && direction == Up && progress == 0.0 && lastScrollY == 0.0
    {
      open := false;
      scrolled := false;
      visible := true;
      direction := Up;
      progress := 0.0;
      lastScrollY := 0.0;
    }

    /** `handleScroll` with the page at `current`. */
    method HandleScroll(current: real)
      requires Valid()
      modifies this
      ensures Valid()
      ensures direction == (if current > old(lastScrollY) then Down else Up)
      ensures visible == NextVisible(old(visible), old(lastScrollY), current)
      ensures scrolled == (current > 5.0)
      ensures progress == ScrollProgress(current)
      ensures lastScrollY == current
      ensures open == old(open)
    {
      if current > lastScrollY {
        if direction != Down {
          direction := Down;
        }
        if current - lastScrollY > ScrollThreshold && current > HideThreshold {
          visible := false;
        }
      } else {
        if direction != Up {
          direction := Up;
        }
        if lastScrollY - current > ScrollThreshold {
          visible := true;
        }
        if current < HideThreshold {
          visible := true;
        }
      }
      scrolled := current > 5.0;
      progress := ScrollProgress(current);
      lastScrollY := current;
    }

    /** `handleLinkClick`: the header shows and the mobile menu closes. */
    method HandleLinkClick()
      requires Valid()
      modifies this`visible, this`open
      ensures Valid() && visible && !open
    {
      visible := true;
      open := false;
    }

    /** The overlay behind the mobile menu closes it. */
    method CloseMenu()
      requires Valid()
      modifies this`open
      ensures Valid() && !open
    {
      open := false;
    }

    /** The mobile menu button: the menu flips and the header shows. */
    method ToggleMenu()
      requires Valid()
      modifies this`open, this`visible
      ensures Valid() && open == !old(open) && visible
    {
      open := !open;
      visible := true;
    }
  }

  /** A 100 px scroll down from the top hides the header; a 20 px scroll back up shows it again. */
  method HideAndShow() returns (hiddenAfterDown: bool, shownAfterUp: bool, bar: real)
    ensures hiddenAfterDown && shownAfterUp && bar == 80.0 / 3.0
  {
    var h := new HeaderState();
    h.HandleScroll(100.0);
    hiddenAfterDown := !h.visible;
    h.HandleScroll(80.0);
    shownAfterUp := h.visible;
    bar := h.progress;
  }

  /** A slow scroll down in 10 px steps never hides the header: each step is not more than the threshold. */
  method SlowScrollKeepsHeader() returns (shown: bool)
    ensures shown
  {
    var h := new HeaderState();
    var y := 0.0;
    while y < 500.0
      invariant h.Valid() && h.visible && h.lastScrollY == y
      decreases 500.0 - y
    {
      y := y + 10.0;
      h.HandleScroll(y);
    }
    shown := h.visible;
  }
}
