/**
 * One capture from start to finish: the coordinator starts a capture, the overlay
 * turns mouse and key events into delegate calls, and the coordinator reacts to
 * them. The lemmas here connect the two state machines.
 */
module Session {
  import opened Geometry
  import opened Overlay
  import opened Capture

  lemma {:induction false} ReactAllAppend(c: Coordinator, a: seq<DelegateEvent>, b: seq<DelegateEvent>,
                                         recognition: Recognition, clock: real)
    ensures var ta := ReactAll(c, a, recognition, clock);
      var tb := ReactAll(ta.state, b, recognition, clock);
      ReactAll(c, a + b, recognition, clock) == Transition(tb.state, ta.effects + tb.effects)
    decreases |a|
  {
    if a == [] {
      assert a + b == b;
    } else {
      var first := React(c, a[0], recognition, clock);
      assert (a + b)[0] == a[0];
      assert (a + b)[1..] == a[1..] + b;
      ReactAllAppend(first.state, a[1..], b, recognition, clock);
      var ta := ReactAll(first.state, a[1..], recognition, clock);
      var tb := ReactAll(ta.state, b, recognition, clock);
      assert ReactAll(c, a + b, recognition, clock) == Transition(tb.state, first.effects + (ta.effects + tb.effects));
      assert first.effects + (ta.effects + tb.effects) == (first.effects + ta.effects) + tb.effects;
    }
  }

  predicate AllUpdates(es: seq<DelegateEvent>)
  {
    forall i | 0 <= i < |es| :: es[i].DidUpdateSelection?
  }

  predicate AllCancels(es: seq<DelegateEvent>)
  {
    forall i | 0 <= i < |es| :: es[i] == DidCancel
  }

  /** Updates only record the point: no effect, and window, mode and language stay. */
  lemma {:induction false} UpdatesOnlyRecord(c: Coordinator, es: seq<DelegateEvent>, recognition: Recognition, clock: real)
    requires AllUpdates(es)
    ensures var t := ReactAll(c, es, recognition, clock);
      t.effects == [] && t.state.window == c.window && t.state.mode == c.mode && t.state.language == c.language
    decreases |es|
  {
    if es != [] {
      UpdatesOnlyRecord(React(c, es[0], recognition, clock).state, es[1..], recognition, clock);
    }
  }

  /** Once the window slot is empty, further cancellations do nothing visible. */
  lemma {:induction false} CancelsWhenClosed(c: Coordinator, es: seq<DelegateEvent>, recognition: Recognition, clock: real)
    requires c.window.None? && AllCancels(es)
    ensures var t := ReactAll(c, es, recognition, clock); t.effects == [] && t.state == c
    decreases |es|
  {
    if es != [] {
      CancelsWhenClosed(React(c, es[0], recognition, clock).state, es[1..], recognition, clock);
    }
  }

  /**
   * The delegate calls of a completed gesture: the coordinator does what
   * `endCapture` does from the slots it had before the gesture.
   */
  lemma CompletedSelection(s: Coordinator, p: Point, updates: seq<DelegateEvent>, rect: Rect,
                           recognition: Recognition, clock: real)
    requires AllUpdates(updates)
    ensures var done := ReactAll(s, [DidStartSelection(p)] + updates + [DidEndSelection(rect)], recognition, clock);
      done.state.window.None? && done.state.mode == s.mode &&
      done.effects == End(s, rect, recognition, clock).effects
  {
    var afterStart := React(s, DidStartSelection(p), recognition, clock).state;
    assert ReactAll(s, [DidStartSelection(p)], recognition, clock) == Transition(afterStart, []);
    ReactAllAppend(s, [DidStartSelection(p)], updates, recognition, clock);
    UpdatesOnlyRecord(afterStart, updates, recognition, clock);
    var beforeEnd := ReactAll(afterStart, updates, recognition, clock).state;
    ReactAllAppend(s, [DidStartSelection(p)] + updates, [DidEndSelection(rect)], recognition, clock);
    assert ReactAll(beforeEnd, [DidEndSelection(rect)], recognition, clock) == End(beforeEnd, rect, recognition, clock);
    EndDependsOnSlotsOnly(beforeEnd, s, rect, recognition, clock);
  }

  /** The delegate calls of a press, drags and a release, split into their three parts. */
  lemma GestureCalls(t: Tracker, p: Point, drags: seq<InputEvent>, q: Point)
    requires AllDrags(drags)
    ensures var sent := Run(t, [MouseDown(p)] + drags + [MouseUp(q)]).sent;
      |sent| == |drags| + 2 && AllUpdates(sent[1..|drags| + 1]) &&
      sent == [DidStartSelection(p)] + sent[1..|drags| + 1] + [DidEndSelection(SelectionRect(p, q))]
  {
    var sent := Run(t, [MouseDown(p)] + drags + [MouseUp(q)]).sent;
    GestureEnd(t, p, drags, q);
    var n := |drags|;
    var updates := sent[1..n + 1];
    assert AllUpdates(updates) by {
      forall i | 0 <= i < |updates| ensures updates[i].DidUpdateSelection? {
        assert updates[i] == sent[i + 1];
        assert sent[i + 1] == DidUpdateSelection(drags[i].location);
      }
    }
    assert sent == [sent[0]] + updates + [sent[n + 1]];
  }

  /** `endCapture` right after `startCapture(mode)`, on a rectangle with non-negative sides. */
  lemma EndAfterStart(c: Coordinator, mode: CaptureMode, window: WindowId, r: Rect, recognition: Recognition, clock: real)
    requires IsStandard(r)
    ensures var effects := End(Start(c, mode, window).state, r, recognition, clock).effects;
      effects == [WindowClosed(window)] +
        (if IsEmpty(r) then [] else [ScreenshotTaken(r), Dispatched(mode, r)] + ModeEffects(mode, recognition, c.language, clock)) &&
      Dispatches(effects) == if IsEmpty(r) then [] else [Dispatched(mode, r)]
  {
    NormalizeKeepsStandard(r);
    EndDispatch(Start(c, mode, window).state, r, recognition, clock);
  }

  /**
   * Start a capture, press, drag and release: the window is closed, and the rectangle
   * spanned by the press and the release is shot and handed to the handler of the
   * started mode, unless it is empty, in which case nothing else happens.
   */
  lemma GestureDispatch(c: Coordinator, mode: CaptureMode, window: WindowId, t: Tracker,
                        p: Point, drags: seq<InputEvent>, q: Point, recognition: Recognition, clock: real)
    requires AllDrags(drags)
    ensures var started := Start(c, mode, window).state;
      var gesture := Run(t, [MouseDown(p)] + drags + [MouseUp(q)]);
      var r := SelectionRect(p, q);
      var done := ReactAll(started, gesture.sent, recognition, clock);
      done.state.window.None? && done.state.mode == mode &&
      done.effects == [WindowClosed(window)] +
        (if IsEmpty(r) then [] else [ScreenshotTaken(r), Dispatched(mode, r)] + ModeEffects(mode, recognition, c.language, clock)) &&
      Dispatches(done.effects) == if IsEmpty(r) then [] else [Dispatched(mode, r)]
  {
    var started := Start(c, mode, window).state;
    var sent := Run(t, [MouseDown(p)] + drags + [MouseUp(q)]).sent;
    var r := SelectionRect(p, q);
    GestureCalls(t, p, drags, q);
    var updates := sent[1..|drags| + 1];
    CompletedSelection(started, p, updates, r, recognition, clock);
    assert ReactAll(started, sent, recognition, clock).effects == End(started, r, recognition, clock).effects;
    EndAfterStart(c, mode, window, r, recognition, clock);
  }

  /** The delegate calls of a press, drags, escape and later events without a press, in their parts. */
  lemma CancelCalls(t: Tracker, p: Point, drags: seq<InputEvent>, later: seq<InputEvent>)
    requires AllDrags(drags) && NoMouseDown(later)
    ensures var sent := Run(t, [MouseDown(p)] + drags + [KeyDown(EscKeyCode)] + later).sent;
      exists updates, tail :: AllUpdates(updates) && AllCancels(tail) &&
        sent == [DidStartSelection(p)] + updates + [DidCancel] + tail
  {
    var down := Step(t, MouseDown(p));
    assert Run(t, [MouseDown(p)]) == Reaction(down.tracker, [DidStartSelection(p)]);
    RunAppend(t, [MouseDown(p)], drags);
    DragsWhileSelecting(down.tracker, drags);
    var dragged := Run(down.tracker, drags);
    RunAppend(t, [MouseDown(p)] + drags, [KeyDown(EscKeyCode)]);
    var esc := Run(dragged.tracker, [KeyDown(EscKeyCode)]);
    assert esc.sent == [DidCancel] && !esc.tracker.isSelecting;
    RunAppend(t, [MouseDown(p)] + drags + [KeyDown(EscKeyCode)], later);
    NothingEndsWithoutPress(esc.tracker, later);
    var tail := Run(esc.tracker, later).sent;
    assert AllUpdates(dragged.sent) && AllCancels(tail);
  }

  /** Start, updates, a cancel and more cancels: the coordinator only closes the window it held. */
  lemma CancelledSelection(s: Coordinator, p: Point, updates: seq<DelegateEvent>, tail: seq<DelegateEvent>,
                           recognition: Recognition, clock: real)
    requires AllUpdates(updates) && AllCancels(tail)
    ensures var done := ReactAll(s, [DidStartSelection(p)] + updates + [DidCancel] + tail, recognition, clock);
      done.state.window.None? && done.effects == CloseEffects(s.window)
  {
    var afterStart := React(s, DidStartSelection(p), recognition, clock).state;
    assert ReactAll(s, [DidStartSelection(p)], recognition, clock) == Transition(afterStart, []);
    ReactAllAppend(s, [DidStartSelection(p)], updates, recognition, clock);
    UpdatesOnlyRecord(afterStart, updates, recognition, clock);
    var beforeCancel := ReactAll(afterStart, updates, recognition, clock).state;
    ReactAllAppend(s, [DidStartSelection(p)] + updates, [DidCancel], recognition, clock);
    var closed := React(beforeCancel, DidCancel, recognition, clock);
    assert ReactAll(beforeCancel, [DidCancel], recognition, clock) == closed;
    ReactAllAppend(s, [DidStartSelection(p)] + updates + [DidCancel], tail, recognition, clock);
    CancelsWhenClosed(closed.state, tail, recognition, clock);
  }

  /**
   * Start a capture, press, drag and press escape: the window is closed and nothing
   * else ever happens, whatever drags, releases or keys follow before a new press.
   */
  lemma GestureCancel(c: Coordinator, mode: CaptureMode, window: WindowId, t: Tracker,
                      p: Point, drags: seq<InputEvent>, later: seq<InputEvent>, recognition: Recognition, clock: real)
    requires AllDrags(drags) && NoMouseDown(later)
    ensures var started := Start(c, mode, window).state;
      var gesture := Run(t, [MouseDown(p)] + drags + [KeyDown(EscKeyCode)] + later);
      var done := ReactAll(started, gesture.sent, recognition, clock);
      done.state.window.None? && done.effects == [WindowClosed(window)]
  {
    CancelCalls(t, p, drags, later);
    var updates, tail :| AllUpdates(updates) && AllCancels(tail) &&
      Run(t, [MouseDown(p)] + drags + [KeyDown(EscKeyCode)] + later).sent == [DidStartSelection(p)] + updates + [DidCancel] + tail;
    CancelledSelection(Start(c, mode, window).state, p, updates, tail, recognition, clock);
  }

  /**
   * A second `startCapture` before the first capture ends replaces it: the gesture
   * goes to the latest mode and only the latest window is ever closed.
   */
  lemma RestartKeepsLatest(c: Coordinator, first: CaptureMode, w1: WindowId, second: CaptureMode, w2: WindowId,
                           t: Tracker, p: Point, drags: seq<InputEvent>, q: Point, recognition: Recognition, clock: real)
    requires AllDrags(drags) && w1 != w2
    ensures var restarted := Start(Start(c, first, w1).state, second, w2).state;
      var done := ReactAll(restarted, Run(t, [MouseDown(p)] + drags + [MouseUp(q)]).sent, recognition, clock);
      var r := SelectionRect(p, q);
      Dispatches(done.effects) == (if IsEmpty(r) then [] else [Dispatched(second, r)]) &&
      WindowClosed(w1) !in done.effects
  {
    assert Start(Start(c, first, w1).state, second, w2).state == Start(c, second, w2).state;
    GestureDispatch(c, second, w2, t, p, drags, q, recognition, clock);
    assert WindowClosed(w1) !in ModeEffects(second, recognition, c.language, clock);
  }

  /** Text mode, dragging from (100, 100) to (300, 250): one text dispatch on (100, 100, 200, 150). */
  lemma TextDragScenario(c: Coordinator, window: WindowId, t: Tracker, recognition: Recognition, clock: real)
    ensures var gesture := Run(t, [MouseDown(Point(100.0, 100.0)), MouseUp(Point(300.0, 250.0))]);
      var done := ReactAll(Start(c, Text, window).state, gesture.sent, recognition, clock);
      Dispatches(done.effects) == [Dispatched(Text, Rect(100.0, 100.0, 200.0, 150.0))]
  {
    var p, q := Point(100.0, 100.0), Point(300.0, 250.0);
    assert [MouseDown(p)] + [] + [MouseUp(q)] == [MouseDown(p), MouseUp(q)];
    GestureDispatch(c, Text, window, t, p, [], q, recognition, clock);
  }

  /** Image mode, a click at (50, 50) without moving: the window closes and nothing else happens. */
  lemma EmptyImageScenario(c: Coordinator, window: WindowId, t: Tracker, recognition: Recognition, clock: real)
    ensures var gesture := Run(t, [MouseDown(Point(50.0, 50.0)), MouseUp(Point(50.0, 50.0))]);
      var done := ReactAll(Start(c, Image, window).state, gesture.sent, recognition, clock);
      done.effects == [WindowClosed(window)]
  {
    var p := Point(50.0, 50.0);
    assert [MouseDown(p)] + [] + [MouseUp(p)] == [MouseDown(p), MouseUp(p)];
    GestureDispatch(c, Image, window, t, p, [], p, recognition, clock);
  }
}
