/** Client code: what a caller can conclude from the contracts alone. */
module Scenarios {
  import opened Wrappers
  import opened Config
  import opened Layout
  import opened TickerWidget
  import opened Plugin

  /**
   * Three children, default options, the second child holding for 500 ms:
   * child 0 is current first and holds 2000 ms; one transition later child 1
   * is current, child 0 is not, and the next advance comes after 500 ms.
   */
  method ThreeChildren() {
    var t := new Ticker([20.0, 30.0, 25.0], [None, Some(500), None], NoUserOptions);
    assert t.current == Some(0);
    assert t.maxHeight == 30.0;
    assert t.scheduled[1].delay == 2000 && t.timeoutHandles == [2];
    t.RelayoutChildren();
    t.CompleteFrameTransition();
    assert t.Valid() && t.AtRest();
    assert t.current == Some(1);
    assert t.scheduled[2] == Timer(3, 500, ScrollTimer);
    assert t.tops[0] == 30.0 && t.tops[1] == -30.0;
    t.CompleteFallbackTransition();
    assert t.current == Some(2) && !t.isAnimating;
    t.CompleteFrameTransition();
    assert t.current == Some(0) && t.AtRest();
  }

  /**
   * Two children through the dispatcher: on either path each completed
   * transition moves the marker and records exactly one new advance.
   */
  method TwoChildrenEitherPath() {
    var t := new Ticker([10.0, 14.0], [Some(800), None], NoUserOptions);
    t.CompleteTransition(false);
    assert t.current == Some(1) && t.OneCurrent();
    assert |t.scheduled| == 3 && t.scheduled[2].delay == 2000 && t.timeoutHandles == [2, 3];
    t.CompleteTransition(true);
    assert t.current == Some(0) && t.start == None;
    assert t.scheduled[3] == Timer(4, 800, ScrollTimer);
  }

  /** A single child: the first transition clears the marker and, on the fallback path, never finishes. */
  method OneChildFallback() {
    var t := new Ticker([12.0], [None], NoUserOptions);
    t.CompleteTransition(false);
    assert t.current == None && t.isAnimating && t.start == None;
    assert |t.scheduled| == 2 && t.timeoutHandles == [2];
    assert t.AtRest();
  }

  /** A single child on the frame path: the marker is lost, yet the transition ends and the cycle goes on. */
  method OneChildFrame() {
    var t := new Ticker([12.0], [Some(300)], NoUserOptions);
    t.CompleteTransition(true);
    assert t.current == None && !t.isAnimating;
    assert |t.scheduled| == 3 && t.scheduled[2].delay == 2000;
  }

  /** Hovering cancels the recorded handles; leaving records exactly one new one. */
  method HoverPause() {
    var t := new Ticker([10.0, 10.0], [None, None], UserOptions(None, None, Some(true)));
    t.MouseEnter();
    assert t.timeoutHandles == [] && t.cleared == [2];
    var id := t.MouseLeave();
    assert t.timeoutHandles == [3] && id == 3 && t.cleared == [2];
  }

  /** Binding the plugin twice to the same element keeps the first instance. */
  method BindTwice() {
    var r := new Registry();
    var e := Element(7, [10.0, 15.0], [None, None]);
    r.BindTicker([e], NoUserOptions);
    var first := r.instances[7];
    r.BindTicker([e], UserOptions(Some(100), None, None));
    assert r.instances[7] == first;
    assert r.instances.Keys == {7};
  }
}
