/**
 * The `Ticker` widget as an object whose methods update its fields in place.
 *
 * The DOM is abstracted away: child i has a measured height `heights[i]`, a
 * vertical margin `margins[i]` and a `top` offset `tops[i]`; the child with
 * the "current" class is `current`. Calls to the host's `setTimeout` are
 * recorded in `scheduled` (the host hands out ids 1, 2, 3, ...) and calls to
 * `clearTimeout` in `cleared`.
 */
module TickerWidget {
  import opened Wrappers
  import opened Config
  import opened Layout

  /** What a scheduled callback does when it fires. */
  datatype TimerKind = ScrollTimer | RelayoutTimer

  /** One call to the host's `setTimeout`: the handle it returned and the delay in ms. */
  datatype Timer = Timer(id: nat, delay: int, kind: TimerKind)

  /** The vendor-prefixed style map `applyCSS` writes: the same value under five keys. */
  function PrefixedStyle(prop: string, val: string): (style: map<string, string>)
    ensures style.Keys == {"-webkit-" + prop, "-moz-" + prop, "-ms-" + prop, "-o-" + prop, prop}
    ensures |style| == 5
    ensures forall k :: k in style ==> style[k] == val
  {
    var keys := ["-webkit-" + prop, "-moz-" + prop, "-ms-" + prop, "-o-" + prop, prop];
    assert forall i, j :: 0 <= i < j < 5 ==> |keys[i]| != |keys[j]|;
    map["-webkit-" + prop := val, "-moz-" + prop := val, "-ms-" + prop := val, "-o-" + prop := val, prop := val]
  }

  class Ticker {
    /** The number of children, fixed when the widget is built. */
    const n: nat
    const options: Options
    /** Each child's `ticker-duration` data value, None when it has none. */
    const durations: seq<Option<int>>

    /** The heights measured by the most recent `RefreshMaxHeight`. */
    var heights: seq<real>
    var maxHeight: real
    var margins: seq<real>
    var containerHeight: real
    var overflowHidden: bool
    var tops: seq<real>
    var current: Option<nat>
    var isAnimating: bool
    /** Timestamp of the first frame of a frame-driven transition; None when idle. */
    var start: Option<real>
    var timeoutHandles: seq<nat>
    var scheduled: seq<Timer>
    var cleared: seq<nat>

    /** One entry per child, and the marker on one of the children or on none. */
    ghost predicate Sized()
      reads this`heights, this`margins, this`tops, this`current
    {
      n >= 1 && |durations| == n && |heights| == n && |margins| == n && |tops| == n &&
      Within(current, n)
    }

    /** The host issued handles 1, 2, 3, ... in order; every recorded or cancelled handle is one of them. */
    ghost predicate HandlesIssued()
      reads this`scheduled, this`timeoutHandles, this`cleared
    {
      (forall i :: 0 <= i < |scheduled| ==> scheduled[i].id == i + 1) &&
      (forall h :: h in timeoutHandles ==> 1 <= h <= |scheduled|) &&
      (forall h :: h in cleared ==> 1 <= h <= |scheduled|)
    }

    ghost predicate Shaped()
      reads this`heights, this`margins, this`tops, this`current
      reads this`scheduled, this`timeoutHandles, this`cleared
    {
      Sized() && HandlesIssued()
    }

    /**
     * The layout computed from the last measurement: `maxHeight` is the largest
     * measured height, every child is centred by its margins, and the container
     * is exactly one row high and clips the rest.
     */
    ghost predicate Measured()
      reads this`heights, this`maxHeight, this`margins, this`containerHeight, this`overflowHidden
    {
      |heights| == n >= 1 && |margins| == n &&
      maxHeight == MaxHeight(heights) &&
      (forall i :: 0 <= i < n ==> margins[i] == Margin(maxHeight, heights[i])) &&
      containerHeight == maxHeight && overflowHidden
    }

    /** The object invariant once a layout has been computed. */
    ghost predicate Valid()
      reads this`heights, this`margins, this`tops, this`current
      reads this`scheduled, this`timeoutHandles, this`cleared
      reads this`maxHeight, this`containerHeight, this`overflowHidden
    {
      Shaped() && Measured()
    }

    /**
     * With two or more children some child carries the marker, and then exactly
     * one does (`MarksCount`). A single child loses it on its first transition.
     */
    ghost predicate OneCurrent()
      reads this`current
    {
      n >= 2 ==> current.Some?
    }

    /** Every child sits at its resting offset for the current marker. */
    ghost predicate AtRest()
      reads this`heights, this`margins, this`tops, this`current, this`maxHeight
      requires Sized()
    {
      LaidOut(tops, current, maxHeight)
    }

    /**
     * The `ticker-duration` data read from a set of at most one child: the data of
     * the child carrying the marker, undefined when no child carries it.
     */
    function ItemDuration(child: Option<nat>): (r: Option<int>)
      requires Within(child, |durations|)
      ensures forall i :: 0 <= i < |durations| && Marks(|durations|, child)[i] ==> r == durations[i]
      ensures (forall i :: 0 <= i < |durations| ==> !Marks(|durations|, child)[i]) ==> r.None?
    {
      if child.Some? then
        assert Marks(|durations|, child)[child.value];
        durations[child.value]
      else None
    }

    /** Attaches the widget to a container whose children have the given heights and data, then runs `Init`. */
    constructor (measured: seq<real>, itemDurations: seq<Option<int>>, user: UserOptions)
      requires |measured| >= 1 && |itemDurations| == |measured|
      ensures Valid() && AtRest() && OneCurrent()
      ensures n == |measured| && durations == itemDurations && options == Configure(user)
      ensures heights == measured && current == Some(0)
      ensures !isAnimating && start == None
      ensures scheduled == [Timer(1, 0, RelayoutTimer), Timer(2, TimeoutDuration(options, itemDurations[0]), ScrollTimer)]
      ensures timeoutHandles == [2] && cleared == []
    {
      n := |measured|;
      options := Configure(user);
      durations := itemDurations;
      heights := measured;
      maxHeight := 0.0;
      margins := seq(|measured|, _ => 0.0);
      containerHeight := 0.0;
      overflowHidden := false;
      tops := seq(|measured|, _ => 0.0);
      current := None;
      isAnimating := false;
      start := None;
      timeoutHandles := [];
      scheduled := [];
      cleared := [];
      new;
      Init(measured);
    }

    /** The host's `setTimeout`: records the call and returns the next handle. */
    method SetTimeout(delay: int, kind: TimerKind) returns (id: nat)
      requires Shaped()
      modifies this`scheduled
      ensures Shaped()
      ensures id == |old(scheduled)| + 1
      ensures scheduled == old(scheduled) + [Timer(id, delay, kind)]
    {
      id := |scheduled| + 1;
      scheduled := scheduled + [Timer(id, delay, kind)];
    }

    /** Schedules an advance after `delay` ms and records its handle for later cancelling. */
    method PushScrollTimer(delay: int) returns (id: nat)
      requires Shaped()
      modifies this`scheduled, this`timeoutHandles
      ensures Shaped()
      ensures id == |old(scheduled)| + 1
      ensures scheduled == old(scheduled) + [Timer(id, delay, ScrollTimer)]
      ensures timeoutHandles == old(timeoutHandles) + [id]
    {
      id := SetTimeout(delay, ScrollTimer);
      timeoutHandles := timeoutHandles + [id];
    }

    /**
     * Initial layout: compute the row height and margins, give child 0 top 0 and
     * child i > 0 top -(i-1)*maxHeight, mark child 0 and schedule the first advance.
     */
    method Init(measured: seq<real>)
      requires Shaped() && |measured| == n && current.None?
      modifies this`heights, this`maxHeight, this`margins, this`containerHeight, this`overflowHidden
      modifies this`scheduled, this`tops, this`current, this`timeoutHandles
      ensures Valid() && AtRest() && OneCurrent()
      ensures heights == measured && current == Some(0)
      ensures scheduled == old(scheduled) + [
        Timer(|old(scheduled)| + 1, if isAnimating then options.animationDuration else 0, RelayoutTimer),
        Timer(|old(scheduled)| + 2, TimeoutDuration(options, durations[0]), ScrollTimer)]
      ensures timeoutHandles == old(timeoutHandles) + [|old(scheduled)| + 2]
    {
      RefreshMaxHeight(measured);
      PlaceInitially();
      current := Some(0);
      InitialLayoutIsResting(tops, maxHeight);
      // the first advance, after child 0's hold time; its handle is kept
      var id := KeepScrollTimeout();
    }

    /** The `.each` loop of `init`: child 0 at top 0, child i > 0 at -(i-1)*maxHeight. */
    method PlaceInitially()
      requires Sized()
      modifies this`tops
      ensures Sized()
      ensures forall i :: 0 <= i < n ==> tops[i] == InitTop(i, maxHeight)
    {
      var i := 0;
      while i < n
        invariant 0 <= i <= n && |tops| == n
        invariant forall j :: 0 <= j < i ==> tops[j] == InitTop(j, maxHeight)
      {
        tops := tops[i := if i == 0 then 0.0 else -((i as real) - 1.0) * maxHeight];
        i := i + 1;
      }
    }

    /**
     * Layout on (re)measurement: `maxHeight` becomes the largest height, each
     * child is centred by equal top and bottom margins, the container is one row
     * high with overflow hidden, and the re-layout of the tops is deferred by the
     * transition time while a transition runs, else by 0 ms.
     */
    method RefreshMaxHeight(measured: seq<real>)
      requires Shaped() && |measured| == n
      modifies this`heights, this`maxHeight, this`margins, this`containerHeight, this`overflowHidden, this`scheduled
      ensures Valid()
      ensures heights == measured
      ensures scheduled == old(scheduled) +
        [Timer(|old(scheduled)| + 1, if isAnimating then options.animationDuration else 0, RelayoutTimer)]
      ensures old(Valid()) && old(AtRest()) && maxHeight == old(maxHeight) ==> AtRest()
    {
      heights := measured;
      maxHeight := MaxHeight(heights);
      CentreChildren();
      containerHeight := maxHeight;
      overflowHidden := true;
      var relayoutId := SetTimeout(if isAnimating then options.animationDuration else 0, RelayoutTimer);
    }

    /** The margin `.each` loop of `refreshMaxHeight`: equal top and bottom margins centre each child. */
    method CentreChildren()
      requires |heights| == n && |margins| == n
      modifies this`margins
      ensures |margins| == n
      ensures forall i :: 0 <= i < n ==> margins[i] == Margin(maxHeight, heights[i])
    {
      var i := 0;
      while i < n
        invariant 0 <= i <= n && |margins| == n
        invariant forall j :: 0 <= j < i ==> margins[j] == Margin(maxHeight, heights[j])
      {
        var vMargin := (maxHeight - heights[i]) / 2.0;
        margins := margins[i := vMargin];
        i := i + 1;
      }
    }

    /**
     * The deferred re-layout: with the marker and row height as they are when it
     * fires, the current child goes to -index*maxHeight and every other child to
     * -(index-1)*maxHeight.
     */
    method RelayoutChildren()
      requires Valid()
      modifies this`tops
      ensures Valid() && AtRest()
    {
      var i := 0;
      while i < n
        invariant 0 <= i <= n && |tops| == n
        invariant forall j :: 0 <= j < i ==> tops[j] == RestingTop(j, current == Some(j), maxHeight)
        modifies this`tops
      {
        tops := tops[i := if current == Some(i) then -(i as real) * maxHeight else -((i as real) - 1.0) * maxHeight];
        i := i + 1;
      }
    }

    /** Schedules the next advance after the current item's hold time. */
    method SetScrollTimeout() returns (id: nat)
      requires Shaped()
      modifies this`scheduled
      ensures Shaped()
      ensures id == |old(scheduled)| + 1
      ensures scheduled == old(scheduled) + [Timer(id, TimeoutDuration(options, ItemDuration(current)), ScrollTimer)]
    {
      id := SetTimeout(TimeoutDuration(options, ItemDuration(current)), ScrollTimer);
    }

    /** Schedules the next advance after the current item's hold time and records its handle. */
    method KeepScrollTimeout() returns (id: nat)
      requires Shaped()
      modifies this`scheduled, this`timeoutHandles
      ensures Shaped()
      ensures id == |old(scheduled)| + 1
      ensures scheduled == old(scheduled) + [Timer(id, TimeoutDuration(options, ItemDuration(current)), ScrollTimer)]
      ensures timeoutHandles == old(timeoutHandles) + [id]
    {
      id := SetScrollTimeout();
      timeoutHandles := timeoutHandles + [id];
    }

    /** Cancels every recorded handle, in order, and forgets them. */
    method ClearTimeouts()
      requires Shaped()
      modifies this`cleared, this`timeoutHandles
      ensures Shaped()
      ensures timeoutHandles == []
      ensures cleared == old(cleared) + old(timeoutHandles)
    {
      var i := 0;
      while i < |timeoutHandles|
        invariant 0 <= i <= |timeoutHandles|
        invariant cleared == old(cleared) + timeoutHandles[..i]
        invariant forall h :: h in cleared ==> 1 <= h <= |scheduled|
        modifies this`cleared
      {
        assert timeoutHandles[i] in timeoutHandles;
        cleared := cleared + [timeoutHandles[i]];
        i := i + 1;
      }
      assert timeoutHandles[..i] == timeoutHandles;
      timeoutHandles := [];
    }

    /** Pointer enters the container (bound only with `pauseOnHover`): cancel pending advances. */
    method MouseEnter()
      requires Valid() && options.pauseOnHover
      modifies this`cleared, this`timeoutHandles
      ensures Valid()
      ensures timeoutHandles == []
      ensures cleared == old(cleared) + old(timeoutHandles)
    {
      ClearTimeouts();
    }

    /**
     * Pointer leaves the container: cancel whatever is recorded and schedule one
     * fresh advance, so exactly one uncancelled handle is recorded.
     */
    method MouseLeave() returns (id: nat)
      requires Valid() && options.pauseOnHover
      modifies this`cleared, this`timeoutHandles, this`scheduled
      ensures Valid()
      ensures cleared == old(cleared) + old(timeoutHandles)
      ensures id == |old(scheduled)| + 1
      ensures timeoutHandles == [id] && id !in cleared
      ensures scheduled == old(scheduled) + [Timer(id, TimeoutDuration(options, ItemDuration(current)), ScrollTimer)]
    {
      ClearTimeouts();
      id := KeepScrollTimeout();
    }

    /**
     * The last frame of a frame-driven transition (`progress >= 1`): the old
     * current child takes its non-current offset and loses the marker, the next
     * child takes its current offset and gains it, the animation state returns
     * to idle and the next advance is scheduled after the next child's hold time.
     * With a negative `animationDuration` the progress never reaches 1, so this
     * last frame is reached only when the duration is at least 0.
     */
    method CompleteFrameTransition()
      requires Shaped()
      requires options.animationDuration >= 0
      modifies this`tops, this`current, this`isAnimating, this`start, this`timeoutHandles, this`scheduled
      ensures Shaped()
      ensures current == Successor(n, old(current))
      ensures tops == FrameTops(old(tops), old(current), current, maxHeight)
      ensures !isAnimating && start == None
      ensures scheduled == old(scheduled) +
        [Timer(|old(scheduled)| + 1, TimeoutDuration(options, ItemDuration(current)), ScrollTimer)]
      ensures timeoutHandles == old(timeoutHandles) + [|old(scheduled)| + 1]
      ensures old(AtRest()) ==> AtRest()
      ensures old(OneCurrent()) ==> OneCurrent()
    {
      var curr := current;
      var next := Successor(n, curr);
      ghost var finalTops := FrameTops(tops, curr, next, maxHeight);
      isAnimating := true;
      if curr.Some? {
        RetireCurrent(curr.value);
      }
      if next.Some? {
        tops := tops[next.value := RestingTop(next.value, true, maxHeight)];  // -index * maxHeight
        current := next;
      }
      assert tops == finalTops;
      isAnimating := false;
      start := None;
      var id := PushScrollTimer(TimeoutDuration(options, ItemDuration(next)));
      if old(AtRest()) {
        FrameTransitionRestores(old(tops), curr, maxHeight);
      }
    }

    /**
     * The fallback transition when the host has no animation-frame callback,
     * after both `animate` calls have run to completion: both children move up
     * one row; the old current child is then reset and loses the marker; the next
     * child gains the marker, `isAnimating` is cleared and the next advance is
     * scheduled. With no next child its completion callback never runs.
     */
    method CompleteFallbackTransition()
      requires Shaped()
      modifies this`tops, this`current, this`isAnimating, this`timeoutHandles, this`scheduled
      ensures Shaped()
      ensures current == Successor(n, old(current))
      ensures tops == FallbackTops(old(tops), old(current), current, maxHeight)
      ensures old(AtRest()) ==> AtRest() && tops == FrameTops(old(tops), old(current), current, maxHeight)
      ensures isAnimating <==> current.None?
      ensures current.Some? ==>
        scheduled == old(scheduled) + [Timer(|old(scheduled)| + 1, TimeoutDuration(options, ItemDuration(current)), ScrollTimer)]
      ensures current.Some? ==> timeoutHandles == old(timeoutHandles) + [|old(scheduled)| + 1]
      ensures current.None? ==> scheduled == old(scheduled) && timeoutHandles == old(timeoutHandles)
      ensures old(OneCurrent()) ==> OneCurrent()
    {
      var curr := current;
      var next := Successor(n, curr);
      isAnimating := true;
      // both slide animations, one row up each, run to their end
      tops := SlideUp(SlideUp(tops, curr, maxHeight), next, maxHeight);
      if curr.Some? {
        RetireCurrent(curr.value);
      }
      if next.Some? {
        var id := NextAnimationDone(next.value);
      }
      if old(AtRest()) {
        FallbackAgreesWithFrame(old(tops), curr, maxHeight);
        FrameTransitionRestores(old(tops), curr, maxHeight);
      }
    }

    /**
     * A completed transition, on whichever path the host supports: with
     * animation-frame callbacks the frame-driven finaliser, otherwise the
     * `animate` fallback. From rest both end in the same resting layout.
     */
    method CompleteTransition(frameCallbacks: bool)
      requires Shaped()
      requires frameCallbacks ==> options.animationDuration >= 0
      modifies this`tops, this`current, this`isAnimating, this`start, this`timeoutHandles, this`scheduled
      ensures Shaped()
      ensures current == Successor(n, old(current))
      ensures old(AtRest()) ==> AtRest() && tops == FrameTops(old(tops), old(current), current, maxHeight)
      ensures old(OneCurrent()) ==> OneCurrent()
      ensures current.Some? ==> !isAnimating
      ensures current.Some? ==>
        scheduled == old(scheduled) + [Timer(|old(scheduled)| + 1, TimeoutDuration(options, ItemDuration(current)), ScrollTimer)]
      ensures current.Some? ==> timeoutHandles == old(timeoutHandles) + [|old(scheduled)| + 1]
      ensures frameCallbacks ==> start == None && !isAnimating
      ensures frameCallbacks ==> tops == FrameTops(old(tops), old(current), current, maxHeight)
      ensures frameCallbacks ==>
        scheduled == old(scheduled) + [Timer(|old(scheduled)| + 1, TimeoutDuration(options, ItemDuration(current)), ScrollTimer)] &&
        timeoutHandles == old(timeoutHandles) + [|old(scheduled)| + 1]
      ensures !frameCallbacks ==> tops == FallbackTops(old(tops), old(current), current, maxHeight)
      ensures !frameCallbacks ==> (isAnimating <==> current.None?)
      ensures !frameCallbacks ==> start == old(start)
      ensures !frameCallbacks && current.None? ==> scheduled == old(scheduled) && timeoutHandles == old(timeoutHandles)
    {
      if frameCallbacks {
        CompleteFrameTransition();
      } else {
        CompleteFallbackTransition();
      }
    }

    /**
     * What both paths do to the old current child once its transition is over:
     * its top becomes -(index - 1) * maxHeight and it loses the marker.
     */
    method RetireCurrent(curr: nat)
      requires Sized() && curr < n
      modifies this`tops, this`current
      ensures Sized()
      ensures tops == old(tops)[curr := RestingTop(curr, false, maxHeight)]
      ensures current == if old(current) == Some(curr) then None else old(current)
    {
      tops := tops[curr := RestingTop(curr, false, maxHeight)];  // -(index - 1) * maxHeight
      if current == Some(curr) {
        current := None;
      }
    }

    /**
     * Completion callback of the next child's animation: mark it current, end the
     * transition and schedule the next advance after its hold time.
     */
    method NextAnimationDone(next: nat) returns (id: nat)
      requires Shaped() && next < n
      modifies this`current, this`isAnimating, this`scheduled, this`timeoutHandles
      ensures Shaped()
      ensures current == Some(next) && !isAnimating
      ensures id == |old(scheduled)| + 1
      ensures scheduled == old(scheduled) + [Timer(id, TimeoutDuration(options, durations[next]), ScrollTimer)]
      ensures timeoutHandles == old(timeoutHandles) + [id]
    {
      current := Some(next);
      isAnimating := false;
      id := PushScrollTimer(TimeoutDuration(options, durations[next]));
    }
  }
}
