/**
 The preloader of the portfolio page (script.js, initPreloader).

 A counter shows how much of a fixed two-second duration has elapsed, as a
 percentage capped at 100. Each animation frame recomputes the percentage and,
 while it is below 100, asks for another frame; the frame that reaches 100
 starts the fade-out of the loading screen instead, and the fade's completion
 hides the screen and runs the page's initialization sequence.

 Time is an input: `elapsed` is the number of whole milliseconds since the
 preloader started, and animation frames are explicit calls.
 */
module Preloader {

  /** Length of the counting phase in milliseconds. */
  const Duration: nat := 2000

  /** The percentage shown after `elapsed` ms of a `duration`-ms count:
      the floor of elapsed * 100 / duration, capped at 100. */
  function Progress(elapsed: nat, duration: nat): (p: nat)
    requires duration > 0
    ensures p <= 100
    ensures p < 100 ==> p * duration <= elapsed * 100 < (p + 1) * duration
    ensures p == 100 <==> elapsed >= duration
  {
    var q := (elapsed * 100) / duration;
    assert q * duration <= elapsed * 100 < (q + 1) * duration;
    assert q >= 100 <==> elapsed >= duration by {
      if elapsed >= duration {
        assert elapsed * 100 >= duration * 100;
        DivBoundAt(100, duration, q + 1);
      } else {
        assert elapsed * 100 < duration * 100;
        DivBoundAt(q, duration, 100);
      }
    }
    if q < 100 then q else 100
  }

  /** If a * d < b * d for a positive d, then a < b. */
  lemma DivBoundAt(a: int, d: int, b: int)
    requires d > 0 && a * d < b * d
    ensures a < b
  {
  }

  /** The counter never goes backwards while time moves forward. */
  lemma ProgressMonotone(e1: nat, e2: nat, duration: nat)
    requires duration > 0 && e1 <= e2
    ensures Progress(e1, duration) <= Progress(e2, duration)
  {
    var p1, p2 := Progress(e1, duration), Progress(e2, duration);
    if p2 < 100 {
      assert p1 < 100;
      assert p1 * duration <= e1 * 100 <= e2 * 100 < (p2 + 1) * duration;
      DivBoundAt(p1, duration, p2 + 1);
    }
  }

  /** The state of the loading screen and of its frame loop. */
  class Loader {
    /** The value last written to the counter (its text is `progress%`). */
    var progress: nat
    /** A call of the counter update is due (the first direct call, or an animation frame). */
    var frameRequested: bool
    /** How many times the fade-out branch was entered. */
    var handOffs: nat
    /** The fade-out tween is running and has not completed. */
    var fadeRunning: bool
    /** The loading screen has been removed from the layout. */
    var displayNone: bool
    /** How many times the page's initialization sequence has run. */
    var initAllRuns: nat

    /** The frame loop runs until the single hand-off; the hand-off happens
        only at 100%, and the initialization sequence runs at most once,
        exactly when the screen is hidden. */
    ghost predicate Valid()
      reads this
    {
      && progress <= 100
      && handOffs <= 1
      && (frameRequested <==> handOffs == 0)
      && (frameRequested ==> progress < 100)
      && (handOffs == 1 ==> progress == 100)
      && initAllRuns <= handOffs
      && (fadeRunning <==> handOffs == 1 && initAllRuns == 0)
      && (displayNone <==> initAllRuns == 1)
    }

    /** Starting the preloader: the counter is 0 and the first update is due. */
    constructor ()
      ensures Valid()
      ensures progress == 0 && frameRequested && handOffs == 0
      ensures !fadeRunning && !displayNone && initAllRuns == 0
    {
      progress := 0;
      frameRequested := true;
      handOffs := 0;
      fadeRunning := false;
      displayNone := false;
      initAllRuns := 0;
    }

    /** One run of the counter update, `elapsed` ms after the start. Below 100%
        it requests the next frame; at 100% it starts the fade-out instead. */
    method UpdateCounter(elapsed: nat)
      requires Valid() && frameRequested
      modifies this
      ensures Valid()
      ensures progress == Progress(elapsed, Duration)
      ensures frameRequested <==> progress < 100
      ensures fadeRunning <==> progress == 100
      ensures handOffs == if progress == 100 then 1 else 0
      ensures displayNone == old(displayNone) && initAllRuns == old(initAllRuns)
    {
      progress := Progress(elapsed, Duration);
      if progress < 100 {
        frameRequested := true;
      } else {
        frameRequested := false;
        handOffs := handOffs + 1;
        fadeRunning := true;
      }
    }

    /** Completion of the fade-out: the screen is hidden and the page is
        initialized, once. */
    method CompleteFade()
      requires Valid() && fadeRunning
      modifies this
      ensures Valid()
      ensures displayNone && initAllRuns == 1 && !fadeRunning
      ensures progress == old(progress) && frameRequested == old(frameRequested)
      ensures handOffs == old(handOffs)
    {
      fadeRunning := false;
      displayNone := true;
      initAllRuns := initAllRuns + 1;
    }

    /** Drives the frame loop with the elapsed times of successive frames, as
        long as a frame is requested and times remain. Returns the successive
        counter values shown: they climb monotonically, and the loop hands off
        exactly at the first time at or past the duration. */
    method RunFrames(clock: seq<nat>) returns (shown: seq<nat>)
      requires Valid() && frameRequested
      requires forall i, j :: 0 <= i < j < |clock| ==> clock[i] <= clock[j]
      modifies this
      ensures Valid()
      ensures |shown| <= |clock|
      ensures forall k :: 0 <= k < |shown| ==> shown[k] == Progress(clock[k], Duration)
      ensures forall k, m :: 0 <= k < m < |shown| ==> shown[k] <= shown[m]
      ensures forall k :: 0 <= k < |shown| - 1 ==> shown[k] < 100
      ensures frameRequested <==> |shown| == |clock| && forall k :: 0 <= k < |clock| ==> clock[k] < Duration
      ensures handOffs == 1 <==> exists k :: 0 <= k < |clock| && clock[k] >= Duration
      ensures handOffs == 1 ==> |shown| > 0 && shown[|shown| - 1] == 100
      ensures |shown| > 0 ==> progress == shown[|shown| - 1]
      ensures |clock| == 0 ==> progress == old(progress)
      ensures !displayNone && initAllRuns == 0
    {
      shown := [];
      var i := 0;
      while i < |clock| && frameRequested
        invariant Valid()
        invariant 0 <= i <= |clock| && |shown| == i
        invariant forall k :: 0 <= k < i ==> shown[k] == Progress(clock[k], Duration)
        invariant forall k, m :: 0 <= k < m < i ==> shown[k] <= shown[m]
        invariant i > 0 ==> progress == shown[i - 1]
        invariant i == 0 ==> progress == old(progress)
        invariant frameRequested ==> forall k :: 0 <= k < i ==> clock[k] < Duration
        invariant !frameRequested ==> i > 0 && clock[i - 1] >= Duration
        invariant !frameRequested ==> forall k :: 0 <= k < i - 1 ==> clock[k] < Duration
        invariant initAllRuns == 0
      {
        UpdateCounter(clock[i]);
        forall k | 0 <= k < i
          ensures shown[k] <= progress
        {
          ProgressMonotone(clock[k], clock[i], Duration);
        }
        shown := shown + [progress];
        i := i + 1;
      }
    }
  }
}
