/**
 * The selection gesture of the capture overlay (CaptureOverlayView): a two-state
 * tracker, selecting or not, over a start point and a current point. Every mouse or
 * key event it reacts to sends exactly one call to its delegate.
 */
module Overlay {
  import opened Geometry

  /** The virtual key code of the escape key. */
  const EscKeyCode := 53

  /** The NSEvents the view handles, with the location or key code it reads from each. */
  datatype InputEvent =
    | MouseDown(location: Point)
    | MouseDragged(location: Point)
    | MouseUp(location: Point)
    | KeyDown(keyCode: int)

  /** The calls of CaptureOverlayViewDelegate. */
  datatype DelegateEvent =
    | DidStartSelection(point: Point)
    | DidUpdateSelection(point: Point)
    | DidEndSelection(rect: Rect)
    | DidCancel

  /** The view's state: `isSelecting`, `startPoint` and `currentPoint`. */
  datatype Tracker = Tracker(isSelecting: bool, startPoint: Point, currentPoint: Point)

  /** The state of a freshly created view. */
  const Idle := Tracker(false, Zero, Zero)

  /** A new state and the delegate calls made on the way to it, oldest first. */
  datatype Reaction = Reaction(tracker: Tracker, sent: seq<DelegateEvent>)

  /**
   * The rectangle spanned by the two points. On each axis the rectangle runs from
   * one of the points to the other, with a non-negative side.
   */
  function SelectionRect(start: Point, current: Point): (r: Rect)
    ensures IsStandard(r)
    ensures (r.x == start.x && r.x + r.width == current.x) || (r.x == current.x && r.x + r.width == start.x)
    ensures (r.y == start.y && r.y + r.height == current.y) || (r.y == current.y && r.y + r.height == start.y)
  {
    Rect(Min(start.x, current.x), Min(start.y, current.y),
         Abs(current.x - start.x), Abs(current.y - start.y))
  }

  /** The rectangle does not depend on which of the two points came first. */
  lemma SelectionRectSymmetric(a: Point, b: Point)
    ensures SelectionRect(a, b) == SelectionRect(b, a)
  {
  }

  /** Its origin is the component-wise minimum, its sides the distances of the points. */
  lemma SelectionRectSides(start: Point, current: Point)
    ensures var r := SelectionRect(start, current);
      r.x == Min(start.x, current.x) && r.y == Min(start.y, current.y) &&
      r.width == Abs(current.x - start.x) && r.height == Abs(current.y - start.y)
  {
  }

  /** One input event: the new state and the delegate calls it causes. */
  function Step(t: Tracker, e: InputEvent): (r: Reaction)
    ensures |r.sent| <= 1
    ensures r.sent != [] <==>
      e.MouseDown? || (t.isSelecting && (e.MouseDragged? || e.MouseUp?)) || e == KeyDown(EscKeyCode)
    ensures r.sent == [] ==> r.tracker == t
    ensures r.tracker.isSelecting <==>
      e.MouseDown? || (t.isSelecting && !e.MouseUp? && e != KeyDown(EscKeyCode))
    ensures r.tracker.startPoint == if e.MouseDown? then e.location else t.startPoint
  {
    match e
    case MouseDown(p) =>
      Reaction(t.(startPoint := p, isSelecting := true), [DidStartSelection(p)])
    case MouseDragged(p) =>
      if t.isSelecting then Reaction(t.(currentPoint := p), [DidUpdateSelection(p)])
      else Reaction(t, [])
    case MouseUp(p) =>
      if t.isSelecting then
        Reaction(t.(currentPoint := p, isSelecting := false), [DidEndSelection(SelectionRect(t.startPoint, p))])
      else Reaction(t, [])
    case KeyDown(code) =>
      if code == EscKeyCode then Reaction(t.(isSelecting := false), [DidCancel])
      else Reaction(t, [])
  }

  /** A sequence of input events, handled in order. */
  function Run(t: Tracker, es: seq<InputEvent>): (r: Reaction)
    ensures |r.sent| <= |es|
    decreases |es|
  {
    if es == [] then Reaction(t, [])
    else
      var first := Step(t, es[0]);
      var rest := Run(first.tracker, es[1..]);
      Reaction(rest.tracker, first.sent + rest.sent)
  }

  /** Handling `a + b` is handling `a`, then `b` from where `a` left the view. */
  lemma {:induction false} RunAppend(t: Tracker, a: seq<InputEvent>, b: seq<InputEvent>)
    ensures var ra := Run(t, a); var rb := Run(ra.tracker, b);
      Run(t, a + b) == Reaction(rb.tracker, ra.sent + rb.sent)
    decreases |a|
  {
    if a == [] {
      assert a + b == b;
    } else {
      assert (a + b)[0] == a[0];
      assert (a + b)[1..] == a[1..] + b;
      RunAppend(Step(t, a[0]).tracker, a[1..], b);
    }
  }

  predicate AllDrags(es: seq<InputEvent>)
  {
    forall i | 0 <= i < |es| :: es[i].MouseDragged?
  }

  predicate NoMouseDown(es: seq<InputEvent>)
  {
    forall i | 0 <= i < |es| :: !es[i].MouseDown?
  }

  /**
   * Drags while selecting keep the selection and its start point, and report each
   * location, in order, to the delegate.
   */
  lemma {:induction false} DragsWhileSelecting(t: Tracker, drags: seq<InputEvent>)
    requires t.isSelecting && AllDrags(drags)
    ensures var r := Run(t, drags);
      r.tracker.isSelecting && r.tracker.startPoint == t.startPoint &&
      |r.sent| == |drags| &&
      forall i | 0 <= i < |drags| :: r.sent[i] == DidUpdateSelection(drags[i].location)
    decreases |drags|
  {
    if drags != [] {
      var first := Step(t, drags[0]);
      DragsWhileSelecting(first.tracker, drags[1..]);
      var rest := Run(first.tracker, drags[1..]);
      assert Run(t, drags).sent == [DidUpdateSelection(drags[0].location)] + rest.sent;
    }
  }

  /**
   * A press, any number of drags and a release: the delegate hears one start with
   * the press location, one update per drag and one end whose rectangle depends on
   * the press and release locations only; afterwards the view is not selecting.
   */
  lemma GestureEnd(t: Tracker, p: Point, drags: seq<InputEvent>, q: Point)
    requires AllDrags(drags)
    ensures var r := Run(t, [MouseDown(p)] + drags + [MouseUp(q)]);
      !r.tracker.isSelecting &&
      |r.sent| == |drags| + 2 &&
      r.sent[0] == DidStartSelection(p) &&
      (forall i | 0 <= i < |drags| :: r.sent[i + 1] == DidUpdateSelection(drags[i].location)) &&
      r.sent[|drags| + 1] == DidEndSelection(SelectionRect(p, q))
  {
    var down := Step(t, MouseDown(p));
    assert Run(t, [MouseDown(p)]) == Reaction(down.tracker, [DidStartSelection(p)]);
    RunAppend(t, [MouseDown(p)], drags);
    DragsWhileSelecting(down.tracker, drags);
    var dragged := Run(down.tracker, drags);
    RunAppend(t, [MouseDown(p)] + drags, [MouseUp(q)]);
    assert Run(dragged.tracker, [MouseUp(q)]).sent == [DidEndSelection(SelectionRect(p, q))];
  }

  /**
   * While not selecting and without a new press, nothing changes and the delegate
   * hears at most cancellations: in particular no selection can end.
   */
  lemma {:induction false} NothingEndsWithoutPress(t: Tracker, es: seq<InputEvent>)
    requires !t.isSelecting && NoMouseDown(es)
    ensures var r := Run(t, es);
      r.tracker == t && forall i | 0 <= i < |r.sent| :: r.sent[i] == DidCancel
    decreases |es|
  {
    if es != [] {
      NothingEndsWithoutPress(Step(t, es[0]).tracker, es[1..]);
    }
  }

  /** The number of end events in a list of delegate calls. */
  function EndCount(sent: seq<DelegateEvent>): (n: nat)
    ensures n <= |sent|
    ensures n == 0 <==> forall i | 0 <= i < |sent| :: !sent[i].DidEndSelection?
  {
    if sent == [] then 0
    else (if sent[0].DidEndSelection? then 1 else 0) + EndCount(sent[1..])
  }

  lemma {:induction false} EndCountAppend(a: seq<DelegateEvent>, b: seq<DelegateEvent>)
    ensures EndCount(a + b) == EndCount(a) + EndCount(b)
  {
    if a == [] {
      assert a + b == b;
    } else {
      assert (a + b)[1..] == a[1..] + b;
      EndCountAppend(a[1..], b);
    }
  }

  /** The number of presses in a list of input events. */
  function PressCount(es: seq<InputEvent>): (n: nat)
    ensures n <= |es|
  {
    if es == [] then 0
    else (if es[0].MouseDown? then 1 else 0) + PressCount(es[1..])
  }

  /**
   * Every end event is paid for by a press (or by the selection already under way):
   * no two ends without a new `mouseDown` between them.
   */
  lemma {:induction false} EndsNeedPresses(t: Tracker, es: seq<InputEvent>)
    ensures EndCount(Run(t, es).sent) <= PressCount(es) + (if t.isSelecting then 1 else 0)
    decreases |es|
  {
    if es != [] {
      var first := Step(t, es[0]);
      EndsNeedPresses(first.tracker, es[1..]);
      EndCountAppend(first.sent, Run(first.tracker, es[1..]).sent);
    }
  }

  /** The view, its three fields and the delegate calls it has made. */
  class CaptureOverlayView {
    var isSelecting: bool
    var startPoint: Point
    var currentPoint: Point
    /** Every call made on the delegate so far, oldest first. */
    ghost var sent: seq<DelegateEvent>

    function State(): Tracker
      reads this
    {
      Tracker(isSelecting, startPoint, currentPoint)
    }

    constructor ()
      ensures State() == Idle && sent == []
    {
      isSelecting, startPoint, currentPoint := false, Zero, Zero;
      sent := [];
    }

    method MouseDown(location: Point)
      modifies this
      ensures isSelecting && startPoint == location && currentPoint == old(currentPoint)
      ensures sent == old(sent) + [DidStartSelection(location)]
      ensures var r := Step(old(State()), InputEvent.MouseDown(location)); State() == r.tracker && sent == old(sent) + r.sent
    {
      startPoint := location;
      isSelecting := true;
      sent := sent + [DidStartSelection(startPoint)];
    }

    method MouseDragged(location: Point)
      modifies this
      ensures old(isSelecting) ==> currentPoint == location && sent == old(sent) + [DidUpdateSelection(location)]
      ensures !old(isSelecting) ==> State() == old(State()) && sent == old(sent)
      ensures isSelecting == old(isSelecting) && startPoint == old(startPoint)
      ensures var r := Step(old(State()), InputEvent.MouseDragged(location)); State() == r.tracker && sent == old(sent) + r.sent
    {
      if isSelecting {
        currentPoint := location;
        sent := sent + [DidUpdateSelection(currentPoint)];
      }
    }

    method MouseUp(location: Point)
      modifies this
      ensures !isSelecting && startPoint == old(startPoint)
      ensures old(isSelecting) ==>
        currentPoint == location && sent == old(sent) + [DidEndSelection(SelectionRect(old(startPoint), location))]
      ensures !old(isSelecting) ==> State() == old(State()) && sent == old(sent)
      ensures var r := Step(old(State()), InputEvent.MouseUp(location)); State() == r.tracker && sent == old(sent) + r.sent
    {
      if isSelecting {
        currentPoint := location;
        isSelecting := false;
        var rect := SelectionRect(startPoint, currentPoint);
        sent := sent + [DidEndSelection(rect)];
      }
    }

    method KeyDown(keyCode: int)
      modifies this
      ensures keyCode == EscKeyCode ==> !isSelecting && sent == old(sent) + [DidCancel]
      ensures keyCode != EscKeyCode ==> isSelecting == old(isSelecting) && sent == old(sent)
      ensures startPoint == old(startPoint) && currentPoint == old(currentPoint)
      ensures var r := Step(old(State()), InputEvent.KeyDown(keyCode)); State() == r.tracker && sent == old(sent) + r.sent
    {
      if keyCode == EscKeyCode {
        isSelecting := false;
        sent := sent + [DidCancel];
      }
    }
  }
}
