/**
 * The arithmetic under the ticker's layout and its cycle, on values.
 *
 * Children are numbered 0 .. n-1 in document order. The "current" class is a
 * child index `cur: Option<nat>`; None stands for "no child has the class".
 * Heights, margins and `top` offsets are JavaScript numbers, modelled as reals.
 */
module Layout {
  import opened Wrappers

  /** `cur` names one of `n` children, or none. */
  predicate Within(cur: Option<nat>, n: nat) {
    cur.Some? ==> cur.value < n
  }

  /** `Math.max` over the measured heights of a non-empty set of children. */
  function MaxHeight(heights: seq<real>): (m: real)
    requires |heights| >= 1
    ensures forall i :: 0 <= i < |heights| ==> heights[i] <= m
    ensures exists i :: 0 <= i < |heights| && heights[i] == m
  {
    if |heights| == 1 then heights[0]
    else
      var rest := MaxHeight(heights[1..]);
      if heights[0] >= rest then heights[0] else rest
  }

  /** The top and bottom margin that centres a child of height `h` in a box of height `maxHeight`. */
  function Margin(maxHeight: real, h: real): (v: real)
    ensures h + 2.0 * v == maxHeight
    ensures h <= maxHeight ==> v >= 0.0
  {
    (maxHeight - h) / 2.0
  }

  /**
   * The resting `top` of child `index`: the current child is pulled up by its own
   * index times the row height, every other child sits one row lower.
   *
   * Measured in rows, `top + index * maxHeight` is 0 for the current child and
   * one row for every other child. If child `index` started `index` rows down,
   * that would put the current child in the visible row and the others in the
   * row below; collapsing margins between children can break that reading.
   */
  function RestingTop(index: int, isCurrent: bool, maxHeight: real): (r: real)
    ensures r + (index as real) * maxHeight == if isCurrent then 0.0 else maxHeight
  {
    if isCurrent then -(index as real) * maxHeight else -((index as real) - 1.0) * maxHeight
  }

  /** Every child is at its resting offset for marker `cur`. */
  ghost predicate LaidOut(tops: seq<real>, cur: Option<nat>, maxHeight: real) {
    forall i :: 0 <= i < |tops| ==> tops[i] == RestingTop(i, cur == Some(i), maxHeight)
  }

  /** The `top` the initial layout gives child `index`, before any child is marked. */
  function InitTop(index: int, maxHeight: real): (r: real)
    ensures r == RestingTop(index, index == 0, maxHeight)
  {
    if index == 0 then 0.0 else -((index as real) - 1.0) * maxHeight
  }

  /** The initial tops, followed by marking child 0, are the resting layout for child 0. */
  lemma InitialLayoutIsResting(tops: seq<real>, maxHeight: real)
    requires forall i :: 0 <= i < |tops| ==> tops[i] == InitTop(i, maxHeight)
    ensures LaidOut(tops, Some(0), maxHeight)
  {
  }

  /** Child `j` is one of the siblings of child `c` among `n` children. */
  predicate IsSibling(n: nat, c: nat, j: nat) {
    j < n && j != c
  }

  /** The first child other than child `c` in document order, if any (`siblings().eq(0)`). */
  function FirstSibling(n: nat, c: nat): (r: Option<nat>)
    ensures r.Some? ==> IsSibling(n, c, r.value)
    ensures r.Some? ==> forall j: nat :: j < r.value ==> !IsSibling(n, c, j)
    ensures r.None? <==> (n == 0 || (n == 1 && c == 0))
  {
    if c != 0 && n > 0 then Some(0)
    else if n > 1 then Some(if c == 0 then 1 else 0)
    else None
  }

  /**
   * The child that becomes current: the element right after the current one,
   * or, when it is the last, its first sibling. An empty current set has neither.
   */
  function Successor(n: nat, cur: Option<nat>): (r: Option<nat>)
    requires Within(cur, n)
    ensures Within(r, n)
    ensures r.Some? ==> r != cur
    ensures cur.Some? && n >= 2 ==> r == Some((cur.value + 1) % n)
    ensures n == 1 || cur.None? ==> r.None?
  {
    match cur
    case None => None
    case Some(c) => if c + 1 < n then Some(c + 1) else FirstSibling(n, c)
  }

  /** The current marker after `k` completed transitions. */
  function AdvanceTimes(n: nat, cur: Option<nat>, k: nat): (r: Option<nat>)
    requires Within(cur, n)
    ensures Within(r, n)
  {
    if k == 0 then cur else Successor(n, AdvanceTimes(n, cur, k - 1))
  }

  lemma {:induction false} MulAtLeast(n: int, d: int)
    requires n >= 1 && d >= 1
    ensures n * d >= n
  {
    if d > 1 {
      MulAtLeast(n, d - 1);
      assert n * d == n * (d - 1) + n;
    }
  }

  /** Euclidean remainder is determined by any decomposition `a == n * q + r` with `0 <= r < n`. */
  lemma ModUnique(a: int, n: int, q: int, r: int)
    requires n >= 1 && 0 <= r < n && a == n * q + r
    ensures a % n == r
  {
    var q0, r0 := a / n, a % n;
    assert a == n * q0 + r0;
    if q0 > q {
      MulAtLeast(n, q0 - q);
    } else if q0 < q {
      MulAtLeast(n, q - q0);
    }
  }

  lemma ModSuccessor(x: nat, n: nat)
    requires n >= 1
    ensures (x % n + 1) % n == (x + 1) % n
  {
    var q, r := x / n, x % n;
    if r + 1 < n {
      ModUnique(x + 1, n, q, r + 1);
      ModUnique(r + 1, n, 0, r + 1);
    } else {
      ModUnique(x + 1, n, q + 1, 0);
      ModUnique(r + 1, n, 1, 0);
    }
  }

  /**
   * With at least two children the marker goes round: after `k` transitions
   * from child `c` the current child is `(c + k) mod n`.
   */
  lemma {:induction false} AdvanceTimesRotates(n: nat, c: nat, k: nat)
    requires 2 <= n && c < n
    ensures AdvanceTimes(n, Some(c), k) == Some((c + k) % n)
  {
    if k > 0 {
      AdvanceTimesRotates(n, c, k - 1);
      ModSuccessor(c + k - 1, n);
    } else {
      ModUnique(c, n, 0, c);
    }
  }

  /** After `n` transitions every ticker of two or more children is back where it started. */
  lemma FullCycleReturns(n: nat, c: nat)
    requires 2 <= n && c < n
    ensures AdvanceTimes(n, Some(c), n) == Some(c)
  {
    AdvanceTimesRotates(n, c, n);
    ModUnique(c + n, n, 1, c);
  }

  /** A single child loses the marker on its first transition and never gets it back. */
  lemma {:induction false} SingleChildLosesMarker(k: nat)
    requires k >= 1
    ensures AdvanceTimes(1, Some(0), k) == None
  {
    if k > 1 {
      SingleChildLosesMarker(k - 1);
    }
  }

  /** Which children carry the "current" class. */
  function Marks(n: nat, cur: Option<nat>): seq<bool> {
    seq(n, i => cur == Some(i))
  }

  /** How many children carry the class. */
  function CountCurrent(marks: seq<bool>): nat {
    if marks == [] then 0
    else CountCurrent(marks[..|marks| - 1]) + (if marks[|marks| - 1] then 1 else 0)
  }

  /** A marker on one of the children is carried by exactly one child; no marker by none. */
  lemma {:induction false} MarksCount(n: nat, cur: Option<nat>)
    ensures CountCurrent(Marks(n, cur)) == if cur.Some? && cur.value < n then 1 else 0
  {
    if n > 0 {
      assert Marks(n, cur)[..n - 1] == Marks(n - 1, cur);
      MarksCount(n - 1, cur);
    }
  }

  /**
   * With two or more children a completed transition from child `c` leaves
   * exactly one child current, `(c + 1) mod n`, and clears `c`.
   */
  lemma TransitionKeepsOneCurrent(n: nat, c: nat)
    requires 2 <= n && c < n
    ensures Successor(n, Some(c)) == Some((c + 1) % n)
    ensures CountCurrent(Marks(n, Successor(n, Some(c)))) == 1
    ensures !Marks(n, Successor(n, Some(c)))[c] && Marks(n, Successor(n, Some(c)))[(c + 1) % n]
  {
    MarksCount(n, Successor(n, Some(c)));
  }

  /** The last child hands over to the first. */
  lemma LastWrapsToFirst(n: nat)
    requires n >= 2
    ensures Successor(n, Some(n - 1)) == Some(0)
  {
  }

  /**
   * The frame-driven finaliser's tops: the old current child goes to its
   * non-current offset, the new current child to its current offset.
   */
  function FrameTops(tops: seq<real>, cur: Option<nat>, next: Option<nat>, maxHeight: real): (r: seq<real>)
    requires Within(cur, |tops|) && Within(next, |tops|)
    ensures |r| == |tops|
    ensures next.Some? ==> r[next.value] == RestingTop(next.value, true, maxHeight)
    ensures cur.Some? && cur != next ==> r[cur.value] == RestingTop(cur.value, false, maxHeight)
  {
    var afterCur := if cur.Some? then tops[cur.value := RestingTop(cur.value, false, maxHeight)] else tops;
    if next.Some? then afterCur[next.value := RestingTop(next.value, true, maxHeight)] else afterCur
  }

  /** `top` moved up by one row, as a completed `animate({top: '-=' + maxHeight})` leaves it. */
  function SlideUp(tops: seq<real>, child: Option<nat>, maxHeight: real): (r: seq<real>)
    requires Within(child, |tops|)
    ensures |r| == |tops|
    ensures child.Some? ==> r[child.value] == tops[child.value] - maxHeight
    ensures forall j :: 0 <= j < |tops| && child != Some(j) ==> r[j] == tops[j]
  {
    if child.Some? then tops[child.value := tops[child.value] - maxHeight] else tops
  }

  /**
   * The fallback finaliser's tops: both children slide up one row, then the
   * old current child is reset to its non-current offset.
   */
  function FallbackTops(tops: seq<real>, cur: Option<nat>, next: Option<nat>, maxHeight: real): (r: seq<real>)
    requires Within(cur, |tops|) && Within(next, |tops|)
    ensures |r| == |tops|
    ensures cur.Some? ==> r[cur.value] == RestingTop(cur.value, false, maxHeight)
    ensures next.Some? && next != cur ==> r[next.value] == tops[next.value] - maxHeight
  {
    var slid := SlideUp(SlideUp(tops, cur, maxHeight), next, maxHeight);
    if cur.Some? then slid[cur.value := RestingTop(cur.value, false, maxHeight)] else slid
  }

  /**
   * A completed transition touches only the old and the new current child;
   * every other child keeps its `top`.
   */
  lemma FrameTopsTouchOnlyTwo(tops: seq<real>, cur: Option<nat>, next: Option<nat>, maxHeight: real, j: nat)
    requires Within(cur, |tops|) && Within(next, |tops|)
    requires j < |tops| && cur != Some(j) && next != Some(j)
    ensures FrameTops(tops, cur, next, maxHeight)[j] == tops[j]
    ensures FallbackTops(tops, cur, next, maxHeight)[j] == tops[j]
  {
  }

  /**
   * From the resting layout, the frame-driven finaliser re-establishes the
   * resting layout for the successor (whatever the number of children, one included).
   */
  lemma FrameTransitionRestores(tops: seq<real>, cur: Option<nat>, maxHeight: real)
    requires Within(cur, |tops|) && LaidOut(tops, cur, maxHeight)
    ensures LaidOut(FrameTops(tops, cur, Successor(|tops|, cur), maxHeight), Successor(|tops|, cur), maxHeight)
  {
    var next := Successor(|tops|, cur);
    var r := FrameTops(tops, cur, next, maxHeight);
    forall i | 0 <= i < |tops|
      ensures r[i] == RestingTop(i, next == Some(i), maxHeight)
    {
      if cur != Some(i) && next != Some(i) {
        FrameTopsTouchOnlyTwo(tops, cur, next, maxHeight, i);
      }
    }
  }

  /** From the resting layout, the fallback finaliser reaches the same tops as the frame-driven one. */
  lemma FallbackAgreesWithFrame(tops: seq<real>, cur: Option<nat>, maxHeight: real)
    requires Within(cur, |tops|) && LaidOut(tops, cur, maxHeight)
    ensures FallbackTops(tops, cur, Successor(|tops|, cur), maxHeight)
         == FrameTops(tops, cur, Successor(|tops|, cur), maxHeight)
  {
    var next := Successor(|tops|, cur);
    var a := FallbackTops(tops, cur, next, maxHeight);
    var b := FrameTops(tops, cur, next, maxHeight);
    forall i | 0 <= i < |tops|
      ensures a[i] == b[i]
    {
      if next == Some(i) {
        var x := i as real;
        assert tops[i] == -(x - 1.0) * maxHeight;
        assert -(x - 1.0) * maxHeight - maxHeight == -x * maxHeight;
      } else if cur != Some(i) {
        FrameTopsTouchOnlyTwo(tops, cur, next, maxHeight, i);
      }
    }
  }
}
