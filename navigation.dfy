/**
 The auto-hiding navigation bar (script.js, initNavigation and updateNav).

 The controller remembers the last scroll position it saw and the direction
 of the last decisive move. A move down past the hide threshold hides the
 bar; any move up shows it again; anything else leaves it as it is. Scroll
 events are throttled: an event requests one update for the next animation
 frame unless one is already pending.

 Scroll positions are plain integers supplied by the caller.
 */
module Navigation {

  datatype Direction = Up | Down

  /** A downward move hides the bar only beyond this position. */
  const HideThreshold: int := 100

  /** What an update reads and writes: the last position seen, the recorded
      direction, and whether the bar carries the `hidden` class. */
  datatype NavState = NavState(lastScrollY: int, direction: Direction, hidden: bool)

  /** The bar's class agrees with the recorded direction. */
  predicate Consistent(s: NavState)
  {
    s.hidden <==> s.direction == Down
  }

  /** The state when the page loads: at the top, scrolling up, bar shown. */
  const Initial: NavState := NavState(0, Up, false)

  /** One update for the scroll position `current`. The class and the
      direction are only ever changed together, so consistency is kept. */
  function Step(s: NavState, current: int): (r: NavState)
    ensures r.lastScrollY == current
    ensures Consistent(s) ==> Consistent(r)
  {
    if current > s.lastScrollY && current > HideThreshold then
      if s.direction != Down then NavState(current, Down, true)
      else s.(lastScrollY := current)
    else if current < s.lastScrollY then
      if s.direction != Up then NavState(current, Up, false)
      else s.(lastScrollY := current)
    else
      s.(lastScrollY := current)
  }

  /** The updates for a series of scroll positions, in order. */
  function Run(s: NavState, samples: seq<int>): NavState
    decreases samples
  {
    if samples == [] then s else Run(Step(s, samples[0]), samples[1..])
  }

  /** After any series of updates the class still agrees with the direction. */
  lemma {:induction false} RunKeepsConsistent(s: NavState, samples: seq<int>)
    requires Consistent(s)
    ensures Consistent(Run(s, samples))
    decreases samples
  {
    if samples != [] {
      RunKeepsConsistent(Step(s, samples[0]), samples[1..]);
    }
  }

  /** A run ends remembering its last position. */
  lemma {:induction false} RunRemembersLast(s: NavState, samples: seq<int>)
    ensures Run(s, samples).lastScrollY == if samples == [] then s.lastScrollY else samples[|samples| - 1]
    decreases samples
  {
    if samples != [] {
      RunRemembersLast(Step(s, samples[0]), samples[1..]);
    }
  }

  /** Running a series and then one more position is one more update. */
  lemma {:induction false} RunSnoc(s: NavState, samples: seq<int>, x: int)
    ensures Run(s, samples + [x]) == Step(Run(s, samples), x)
    decreases samples
  {
    if samples != [] {
      assert (samples + [x])[1..] == samples[1..] + [x];
      RunSnoc(Step(s, samples[0]), samples[1..], x);
    }
  }

  /** Whatever came before, a final move up leaves the bar shown. */
  lemma UpwardMoveShows(s: NavState, samples: seq<int>, x: int)
    requires Consistent(s) && samples != [] && x < samples[|samples| - 1]
    ensures Run(s, samples + [x]).direction == Up
    ensures !Run(s, samples + [x]).hidden
  {
    RunSnoc(s, samples, x);
    RunRemembersLast(s, samples);
    RunKeepsConsistent(s, samples);
  }

  /** Whatever came before, a final move down past the threshold leaves the
      bar hidden. */
  lemma DownwardMoveHides(s: NavState, samples: seq<int>, x: int)
    requires Consistent(s) && samples != []
    requires x > samples[|samples| - 1] && x > HideThreshold
    ensures Run(s, samples + [x]).direction == Down
    ensures Run(s, samples + [x]).hidden
  {
    RunSnoc(s, samples, x);
    RunRemembersLast(s, samples);
    RunKeepsConsistent(s, samples);
  }

  /** Scrolling that never goes past the threshold never hides a shown bar. */
  lemma {:induction false} NoHideWithinThreshold(s: NavState, samples: seq<int>)
    requires s.direction == Up && !s.hidden
    requires forall k :: 0 <= k < |samples| ==> samples[k] <= HideThreshold
    ensures Run(s, samples).direction == Up && !Run(s, samples).hidden
    decreases samples
  {
    if samples != [] {
      NoHideWithinThreshold(Step(s, samples[0]), samples[1..]);
    }
  }

  /** The controller's state. `lastScrollY` and `scrollDirection` are
      module-level in the page, `ticking` is the throttle flag, `hidden`
      is the bar's class. */
  class NavBar {
    var lastScrollY: int
    var scrollDirection: Direction
    var hidden: bool
    /** An update is already requested for the next animation frame. */
    var ticking: bool

    function State(): NavState
      reads this
    {
      NavState(lastScrollY, scrollDirection, hidden)
    }

    ghost predicate Valid()
      reads this
    {
      Consistent(State())
    }

    constructor ()
      ensures Valid()
      ensures State() == Initial && !ticking
    {
      lastScrollY := 0;
      scrollDirection := Up;
      hidden := false;
      ticking := false;
    }

    /** A scroll event: requests an update unless one is pending. */
    method OnScroll() returns (requested: bool)
      modifies this`ticking
      ensures requested <==> !old(ticking)
      ensures ticking
    {
      requested := !ticking;
      if requested {
        ticking := true;
      }
    }

    /** The update run in the requested frame, for the position `current`. */
    method UpdateNav(current: int)
      requires Valid()
      modifies this
      ensures Valid()
      ensures State() == Step(old(State()), current)
      ensures lastScrollY == current && !ticking
      ensures current > old(lastScrollY) && current > HideThreshold ==>
        scrollDirection == Down && hidden
      ensures current < old(lastScrollY) ==> scrollDirection == Up && !hidden
      ensures !(current > old(lastScrollY) && current > HideThreshold) && current >= old(lastScrollY) ==>
        scrollDirection == old(scrollDirection) && hidden == old(hidden)
    {
      if current > lastScrollY && current > HideThreshold {
        if scrollDirection != Down {
          hidden := true;
          scrollDirection := Down;
        }
      } else if current < lastScrollY {
        if scrollDirection != Up {
          hidden := false;
          scrollDirection := Up;
        }
      }
      lastScrollY := current;
      ticking := false;
    }
  }
}
