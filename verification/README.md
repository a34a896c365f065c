# Ticker: a verified model of the layout and cycle of a jQuery ticker widget

The `Ticker` widget (`js/ticker.js`) takes a container with stacked children and
shows one child at a time. It moves to the next child on a timer and animates a
vertical scroll between them. Under the DOM calls sits a small state machine:

- `refreshMaxHeight` measures the children and takes the largest height as the row height.
- It centres every child in that row with equal top and bottom margins.
- It makes the container one row high, clips the overflow and lays out each child's `top`.
- `init` places the children and marks child 0 "current".
- On each advance the `current` marker moves to the next child, wrapping from the last to the first.
- The two children's `top` offsets are reset to their resting values for the new current child.

This project models that state machine in Dafny. Here is how each part is represented:

- The DOM is abstracted away. Child `i` has a measured height `heights[i]`, a margin
  `margins[i]` and an offset `tops[i]`, all `real`, because JavaScript numbers and `/ 2`
  produce halves.
- The "current" class is `current: Option<nat>`. `None` means that no child carries the class.
- Calls to the host's `setTimeout` are recorded in `scheduled`, as a handle, a delay and a
  kind. The host hands out handles 1, 2, 3, … Calls to `clearTimeout` are recorded in `cleared`.

The modules follow the source:

- `Config`: the defaults and how the caller's options override them, plus `timeoutDuration`.
- `Layout`: the arithmetic, as pure functions and lemmas.
  - the maximum height;
  - the centring margin;
  - the resting offsets;
  - the successor of the current child (`next()`, or else `siblings().eq(0)`);
  - the tops each finaliser leaves behind;
  - the cycle lemmas.
- `TickerWidget`: the `Ticker` object, whose methods update its fields in place, plus `applyCSS`.
- `Plugin`: the `$.fn.ticker` guard, over a registry from element to instance.
- `Scenarios`: client code that checks a three-child cycle, two children through either
  path, a single child on each path, hover and double binding against the contracts.

The central invariant is `AtRest`. The current child `c` sits at `-c * maxHeight`. Every
other child `i` sits at `-(i - 1) * maxHeight`.

- The initial layout establishes `AtRest`.
- The deferred re-layout establishes it.
- Both transition finalisers preserve it.
- From rest, the two finalisers reach the same tops.
- With two or more children the marker moves to `(c + 1) mod n`, and exactly one child stays marked.
- After `n` transitions the marker is back where it started.

Two behaviours of the code are easy to misread; the model follows the code as written:

- **One child.** The code looks for the next child with `next()` and then `siblings().eq(0)`
  (js/ticker.js:139). With a single child both come back empty, so a transition removes the
  marker and adds it to nothing. The only child then rests at `top = +maxHeight`, below the
  clipped row, and is no longer current. On the fallback path the completion callback of the
  empty `$next` never runs, so `isAnimating` stays true and no further advance is scheduled.
  `Successor`, `SingleChildLosesMarker`, `CompleteFallbackTransition` and the
  `OneChildFallback` scenario state this. The marker does not wrap back to the same child.
  With two or more children the class invariant `OneCurrent` holds throughout: some child
  carries the marker, and by `MarksCount` exactly one does.
- **The two finalisers.** From rest, the fallback path and the frame path produce the same
  tops (`FallbackAgreesWithFrame`). The fallback path subtracts a row from both children and
  then resets the old one. The frame path assigns both tops directly. What does differ:
  - the fallback path never touches `start`;
  - with one child, the fallback path leaves `isAnimating` set.

## Model

| member | source | states |
|---|---|---|
| Config.Configure | js/ticker.js:10-19 | each option is the caller's value when given, else the default (2000 ms hold, 500 ms transition, no hover pause) |
| Config.ConfigureWithoutOptions | js/ticker.js:10-19 | with no options given, the configuration is exactly the defaults 2000 / 500 / false |
| Config.TimeoutDuration | js/ticker.js:122-125 | the hold time is the item's own `ticker-duration` when present (0 included), otherwise `tickerDefaultDuration` |
| Config.HoldTimeUnderConfiguration | js/ticker.js:117-125 | through the whole configuration, the hold time is the per-item value, else the caller's default, else 2000 ms |
| Layout.MaxHeight | js/ticker.js:72-76 | for a non-empty set of children, the row height is at least every child's height and equals one of them |
| Layout.Margin | js/ticker.js:79-87 | the vertical margin `v` satisfies `h + 2v = maxHeight`, and it is non-negative whenever `h <= maxHeight` |
| Layout.RestingTop | js/ticker.js:102 | the resting offset plus `index * maxHeight` is 0 for the current child and exactly one row (`maxHeight`) for every other child |
| Layout.InitTop | js/ticker.js:43 | the initial offset of each child is its resting offset, with child 0 the current one |
| Layout.InitialLayoutIsResting | js/ticker.js:41-47 | the initial tops (0 for child 0, `-(i-1)*maxHeight` otherwise), with child 0 marked, are exactly the resting layout |
| Layout.FirstSibling | js/ticker.js:139 | `siblings().eq(0)` is a child other than `c`, every child before it in document order is `c` itself, and it is absent exactly when `c` is the only child |
| Layout.Successor | js/ticker.js:139 | the next current child is never the old one; with n >= 2 it is `(c+1) mod n`; with one child, or no marked child, there is none |
| Layout.LastWrapsToFirst | js/ticker.js:139 | with n >= 2 the last child hands over to child 0 |
| Layout.AdvanceTimesRotates | js/ticker.js:139 | with n >= 2, after k completed transitions from child c, child `(c+k) mod n` is current |
| Layout.FullCycleReturns | js/ticker.js:139 | with n >= 2, after n transitions the starting child is current again |
| Layout.SingleChildLosesMarker | js/ticker.js:159-166 | with one child, every transition leaves no child marked current |
| Layout.MarksCount | js/ticker.js:162-166 | a marker on one of the children is carried by exactly one child, and no marker by none |
| Layout.TransitionKeepsOneCurrent | js/ticker.js:159-166 | with n >= 2, a transition from c clears c, marks `(c+1) mod n` and leaves exactly one child current |
| Layout.FrameTops | js/ticker.js:159-166 | the frame finaliser puts the new current child at its current resting offset and the old one, when different, at its non-current offset; `FrameTopsTouchOnlyTwo` adds that no other child moves |
| Layout.SlideUp | js/ticker.js:181-191 | a completed `animate` with `top: '-=' + maxHeight` moves its one child up by exactly one row and leaves every other child where it was |
| Layout.FallbackTops | js/ticker.js:181-191 | after the fallback, the old current child is at its non-current offset and the next child, when different, is one row above where it started; `FallbackAgreesWithFrame` proves that from rest this is the frame finaliser's layout |
| Layout.FrameTopsTouchOnlyTwo | js/ticker.js:159-166 | either finaliser changes only the old and the new current child's tops; every other child keeps its top |
| Layout.FrameTransitionRestores | js/ticker.js:159-166 | from the resting layout, the frame finaliser's tops are the resting layout for the successor (any n, one included) |
| Layout.FallbackAgreesWithFrame | js/ticker.js:181-191 | from the resting layout, sliding both children up a row and then resetting the old one gives the frame finaliser's tops |
| TickerWidget.PrefixedStyle | js/ticker.js:205-214 | `applyCSS` writes one value under exactly five keys: the property and its -webkit-, -moz-, -ms- and -o- forms |
| TickerWidget.Ticker.ItemDuration | js/ticker.js:118 | the `ticker-duration` read from a set of at most one child is the data of the child carrying the marker, and undefined when no child carries it (also used for `$next` at lines 175 and 199) |
| TickerWidget.Ticker.constructor | js/ticker.js:16-32 | a new ticker holds the merged options, is laid out at rest with child 0 current (so `OneCurrent` holds), is idle, and has exactly the relayout timer and one advance handle recorded |
| TickerWidget.Ticker.SetTimeout | js/ticker.js:111 | the host's `setTimeout` records the call and returns the next handle |
| TickerWidget.Ticker.PushScrollTimer | js/ticker.js:196-200 | scheduling an advance and keeping its handle records exactly one new advance timer with its delay, and that timer's handle |
| TickerWidget.Ticker.Init | js/ticker.js:34-66 | from a state with no child marked, after init the layout invariant holds, child 0 is current and at rest, and the first advance waits for child 0's hold time |
| TickerWidget.Ticker.PlaceInitially | js/ticker.js:41-46 | child 0 gets top 0 and child i > 0 gets `-(i-1)*maxHeight` |
| TickerWidget.Ticker.RefreshMaxHeight | js/ticker.js:68-106 | the row height is the maximum of the new heights, every child is centred, the container is one row high with overflow hidden, and the re-layout is deferred by `animationDuration` while animating, else 0 |
| TickerWidget.Ticker.CentreChildren | js/ticker.js:79-87 | every child's margin is `(maxHeight - h) / 2` |
| TickerWidget.Ticker.RelayoutChildren | js/ticker.js:97-104 | the deferred re-layout puts every child at its resting offset for the marker and row height at the moment it fires |
| TickerWidget.Ticker.SetScrollTimeout | js/ticker.js:108-120 | the next advance is scheduled after the current item's hold time (the default when no child is marked) |
| TickerWidget.Ticker.KeepScrollTimeout | js/ticker.js:50 | pushing the result of `setScrollTimeout` schedules exactly one advance after the current item's hold time and records its handle (also used at line 58) |
| TickerWidget.Ticker.ClearTimeouts | js/ticker.js:127-133 | every recorded handle is cancelled, in order, and the list is left empty |
| TickerWidget.Ticker.MouseEnter | js/ticker.js:53-55 | hovering cancels every recorded handle and leaves none |
| TickerWidget.Ticker.MouseLeave | js/ticker.js:56-59 | after the pointer leaves, exactly one uncancelled handle is recorded, scheduled after the current item's hold time, and all earlier handles are cancelled |
| TickerWidget.Ticker.CompleteFrameTransition | js/ticker.js:157-177 | the marker moves to the successor, the tops are the frame finaliser's, `isAnimating` is false and `start` is null, one advance is scheduled after the new item's hold time, rest and `OneCurrent` are preserved; reached only with a non-negative `animationDuration` (line 150) |
| TickerWidget.Ticker.CompleteFallbackTransition | js/ticker.js:179-202 | the marker moves to the successor and the tops are the fallback's; from rest they equal the frame path's and rest is preserved; the transition ends and reschedules only when there is a next child |
| TickerWidget.Ticker.CompleteTransition | js/ticker.js:144-202 | the marker moves to the successor and `OneCurrent` is preserved. On the frame path the tops are the frame finaliser's, `isAnimating` is false, `start` is null, and one advance is always scheduled after the new item's hold time, one child included. On the fallback path the tops are the fallback's, `start` is untouched, and the transition ends and reschedules exactly when a child is current again; otherwise nothing is scheduled or recorded. From rest both paths end in the same resting layout |
| TickerWidget.Ticker.RetireCurrent | js/ticker.js:159-162 | the old current child's top becomes `-(index-1)*maxHeight` and it loses the marker |
| TickerWidget.Ticker.NextAnimationDone | js/ticker.js:191-201 | the next child becomes current, the transition ends and one advance is scheduled after that child's hold time |
| Plugin.Registry.BindTicker | js/ticker.js:216-222 | an element that already has an instance keeps it, and every other selected element gets a fresh instance built with the caller's options |

## Left out

- DOM measurement and style writes. Heights are inputs, and margins, tops and the container's height and overflow are fields. `position: relative` is not modelled, and a single margin stands for the equal top and bottom margins.
- Feature detection and patching of `requestAnimationFrame` / `cancelAnimationFrame`, because they are platform probing. The choice of path is the `frameCallbacks` argument of `CompleteTransition`. `requestAniID` and the `cancelAnimationFrame` call are not modelled.
- Frame-by-frame interpolation, because it depends on floating-point timestamps and host timing. This covers `progress`, the `translateY` transform and the intermediate frames of jQuery `animate`. Only completed transitions are modelled. `start` is therefore only ever reset, and the per-child transform, which is empty outside a transition, is not a field.
- Timers and event binding. Firing a timer, the resize listener and the hover listeners are not modelled as events. Their handlers are methods a caller invokes: `RelayoutChildren` when a relayout timer fires, `CompleteTransition` when an advance completes, `RefreshMaxHeight` on resize, and `MouseEnter`/`MouseLeave`. Interleavings, such as a resize during a transition, are event-loop ordering and are not modelled. The hover methods require `pauseOnHover`, because the handlers are bound only then.
- Timer handles are numbered per instance. The host's ids are page-wide.
- The zero-children case. `Math.max` of no heights is `-Infinity`. Every ticker requires at least one child.
- `.stop()` on a running `animate`: one transition at a time is modelled.
- `$.extend` copies any extra keys. Only the three recognised options are modelled, typed as integers and a boolean.
- Per-item `ticker-duration` data is typed `Option<int>`: present as an integer, or undefined. jQuery `.data()` can also return a fraction, a string or `null`. With `null`, `timeoutDuration` returns `null` rather than the default (line 123). The model does not represent those values.
- The visual reading of the resting offsets. The model proves that `top + index * maxHeight` is 0 for the current child and one row for the others. Reading that as "the current child is in the visible row" assumes that child `index` starts `index` rows down. Adjacent vertical margins collapse under CSS block layout, which can break that assumption. The model does not capture the rendered position.
- Numbers are reals, not IEEE doubles. Over doubles, `h + 2v == maxHeight` in `Margin` can be off by one rounding step. The fallback's `-(i-1)*m - m` can also differ from the frame path's `-i*m` in the last bit, so `FallbackAgreesWithFrame` holds exactly only over reals. jQuery `animate` also reads `top` back from the computed style, which the model does not do.
- A `current` class already present in the markup. Lines 41-47 add the class to child 0 without removing it from other children, so two children could carry it. `current: Option<nat>` can only represent one marked child, and the constructor assumes the markup carries no `current` class. For the same reason `Init` requires that no child is marked. A second run of `init` after a transition would leave two children marked, and is not modelled.
- A negative `animationDuration`. With one, the frame path's `progress` stays below 1 for ever (line 150), so that finaliser never runs. `CompleteFrameTransition`, and `CompleteTransition` on the frame path, therefore require a duration of at least 0. The `animate` fallback finishes at once in that case and is not restricted.
- Layout.AdvanceTimes: states only that the marker stays on one of the children. Its rotation property is proved separately in `AdvanceTimesRotates`.
- TickerWidget.Ticker.CompleteFrameTransition: requires and ensures only the shape of the state, not the measured layout. Its frame excludes the measured fields, so `Valid` is kept by any caller that held it, as the `ThreeChildren` scenario shows.
- TickerWidget.Ticker.CompleteFallbackTransition: the same as for `CompleteFrameTransition`.
- Plugin.Registry.BindTicker: promises freshness and the merged options for new instances. The rest of their initial state is promised by the `Ticker` constructor.
