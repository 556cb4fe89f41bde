/**
 * The mouse listener: press records `start`, drag sets `dragging` and `end`,
 * release overwrites `end` and, if a drag happened, zooms the viewport and asks
 * for a redraw. Also the selection overlay the render loop draws while dragging.
 */
module Selection {
  import opened Wrappers
  import opened Viewport

  /** An AWT `Point`: integer pixel coordinates, top-left origin. */
  datatype Point = Point(x: int, y: int)

  /** The listener's fields plus the viewport it updates; `None` is `null`. */
  datatype Controller = Controller(start: Option<Point>, end: Option<Point>, dragging: bool, size: Size)

  datatype Event = Pressed(at: Point) | Dragged(at: Point) | Released(at: Point)

  /**
   * What a handler does besides updating fields: nothing, a redraw of the image,
   * or a `NullPointerException` thrown out of the handler (a release while
   * `dragging` with `start` still null), which skips the rest of the handler.
   */
  datatype Effect = Quiet | Redraw | Fault

  datatype Transition = Transition(next: Controller, effect: Effect)

  /** The state before any event: no points, not dragging, the start-up viewport. */
  function Initial(): (s: Controller)
    ensures !s.dragging && s.start == None && s.end == None
    ensures s.size == [-2.0, -2.0, 4.0, 4.0]
  {
    Controller(None, None, false, InitialSize())
  }

  /** One listener call. */
  function Step(s: Controller, e: Event): (t: Transition)
    // only a release that follows a drag zooms and redraws
    ensures t.effect == Redraw <==> e.Released? && s.dragging && s.start.Some?
    ensures t.effect != Redraw ==> t.next.size == s.size
    ensures t.effect == Fault <==> e.Released? && s.dragging && s.start.None?
    // the zoom maps the recorded start and the release point, not the last drag point
    ensures t.effect == Redraw ==>
      Re(t.next.size, 0.0) == Re(s.size, s.start.value.x as real) &&
      Im(t.next.size, 0.0) == Im(s.size, s.start.value.y as real) &&
      Re(t.next.size, WIDTH as real) == Re(s.size, e.at.x as real) &&
      Im(t.next.size, HEIGHT as real) == Im(s.size, e.at.y as real)
    // a press only moves `start`
    ensures e.Pressed? ==> t.next == s.(start := Some(e.at))
    // a drag always arms, a completed release always disarms
    ensures e.Dragged? ==> t.next.dragging && t.next.end == Some(e.at)
    ensures e.Released? && t.effect != Fault ==> !t.next.dragging
    ensures t.effect == Fault ==> t.next.dragging && t.next.size == s.size
    ensures e.Released? ==> t.next.end == Some(e.at)
    ensures !e.Pressed? ==> t.next.start == s.start
  {
    match e
    case Pressed(p) => Transition(s.(start := Some(p)), Quiet)
    case Dragged(p) => Transition(s.(dragging := true, end := Some(p)), Quiet)
    case Released(p) =>
      var s1 := s.(end := Some(p));
      if !s.dragging then
        Transition(s1.(dragging := false), Quiet)
      else if s.start.None? then
        Transition(s1, Fault)
      else
        var a := s.start.value;
        Transition(s1.(dragging := false, size := Zoom(s.size, a.x, a.y, p.x, p.y)), Redraw)
  }

  /** Whatever the render loop reads while `dragging` is non-null. */
  predicate Valid(s: Controller) {
    s.dragging ==> s.start.Some? && s.end.Some?
  }

  /** What AWT guarantees: a drag is delivered only to a component that saw the press. */
  predicate DragsFollowPress(events: seq<Event>) {
    if events == [] then true
    else match events[0]
      case Pressed(_) => true
      case Dragged(_) => false
      case Released(_) => DragsFollowPress(events[1..])
  }

  datatype Trace = Trace(final: Controller, effects: seq<Effect>)

  /** The listener fed a sequence of events. */
  function Run(s: Controller, events: seq<Event>): (r: Trace)
    ensures |r.effects| == |events|
    ensures forall i :: 0 <= i < |events| && !events[i].Released? ==> r.effects[i] == Quiet
    decreases |events|
  {
    if events == [] then Trace(s, [])
    else
      var t := Step(s, events[0]);
      var rest := Run(t.next, events[1..]);
      Trace(rest.final, [t.effect] + rest.effects)
  }

  /** A handler call keeps `Valid`, provided drags come after some press. */
  lemma StepKeepsValid(s: Controller, e: Event)
    requires Valid(s)
    requires e.Dragged? ==> s.start.Some?
    ensures Valid(Step(s, e).next)
    ensures Step(s, e).effect != Fault
    ensures s.start.Some? ==> Step(s, e).next.start.Some?
  {
  }

  /** Under AWT's event order, no release ever faults and the state stays `Valid`. */
  lemma {:induction false} RunNeverFaults(s: Controller, events: seq<Event>)
    requires Valid(s)
    requires s.start.Some? || DragsFollowPress(events)
    ensures Valid(Run(s, events).final)
    ensures Fault !in Run(s, events).effects
    decreases |events|
  {
    if events != [] {
      var t := Step(s, events[0]);
      StepKeepsValid(s, events[0]);
      assert t.next.start.Some? || DragsFollowPress(events[1..]);
      RunNeverFaults(t.next, events[1..]);
      assert Run(s, events).effects == [t.effect] + Run(t.next, events[1..]).effects;
    }
  }

  /** Without a drag event, no sequence of presses and releases moves the viewport. */
  lemma {:induction false} NoDragNoZoom(s: Controller, events: seq<Event>)
    requires !s.dragging
    requires forall i :: 0 <= i < |events| ==> !events[i].Dragged?
    ensures Run(s, events).final.size == s.size
    ensures !Run(s, events).final.dragging
    ensures Redraw !in Run(s, events).effects
    decreases |events|
  {
    if events != [] {
      var t := Step(s, events[0]);
      assert !events[0].Dragged?;
      NoDragNoZoom(t.next, events[1..]);
      assert Run(s, events).effects == [t.effect] + Run(t.next, events[1..]).effects;
    }
  }

  /** A click (press and release, no move) leaves the viewport alone and redraws nothing. */
  lemma ClickIsNoOp(s: Controller, p: Point)
    requires !s.dragging
    ensures Run(s, [Pressed(p), Released(p)]).final.size == s.size
    ensures Run(s, [Pressed(p), Released(p)]).effects == [Quiet, Quiet]
  {
    var s1 := Step(s, Pressed(p)).next;
    var s2 := Step(s1, Released(p)).next;
    assert Run(s1, [Released(p)]) == Trace(s2, [Quiet]) by {
      assert [Released(p)][1..] == [];
    }
    assert [Pressed(p), Released(p)][1..] == [Released(p)];
  }

  /** A drag-select gesture zooms onto the press point and the release point. */
  lemma {:induction false} GestureZooms(s: Controller, a: Point, m: Point, b: Point)
    ensures Run(s, [Pressed(a), Dragged(m), Released(b)]).effects == [Quiet, Quiet, Redraw]
    ensures Run(s, [Pressed(a), Dragged(m), Released(b)]).final.size == Zoom(s.size, a.x, a.y, b.x, b.y)
    ensures !Run(s, [Pressed(a), Dragged(m), Released(b)]).final.dragging
  {
    var s1 := Step(s, Pressed(a)).next;
    var s2 := Step(s1, Dragged(m)).next;
    var s3 := Step(s2, Released(b)).next;
    assert s3.size == Zoom(s.size, a.x, a.y, b.x, b.y);
    assert Run(s2, [Released(b)]) == Trace(s3, [Redraw]) by {
      assert [Released(b)][1..] == [];
    }
    assert Run(s1, [Dragged(m), Released(b)]) == Trace(s3, [Quiet, Redraw]) by {
      assert [Dragged(m), Released(b)][1..] == [Released(b)];
    }
    assert [Pressed(a), Dragged(m), Released(b)][1..] == [Dragged(m), Released(b)];
  }

  /** The red rectangle `drawRect(start.x, start.y, end.x - start.x, end.y - start.y)`. */
  datatype Rect = Rect(x: int, y: int, w: int, h: int)

  /** What the render loop draws on top of the image. */
  function Overlay(s: Controller): (r: Option<Rect>)
    requires Valid(s)
    ensures r.Some? <==> s.dragging
    ensures r.Some? ==> Point(r.value.x, r.value.y) == s.start.value
    ensures r.Some? ==> Point(r.value.x + r.value.w, r.value.y + r.value.h) == s.end.value
  {
    if s.dragging then
      var a := s.start.value;
      var b := s.end.value;
      Some(Rect(a.x, a.y, b.x - a.x, b.y - a.y))
    else None
  }

  /** While a drag is in progress the overlay follows the mouse; a release hides it. */
  lemma OverlayTracksGesture(s: Controller, e: Event)
    requires Valid(s) && s.start.Some?
    ensures Valid(Step(s, e).next)
    ensures e.Dragged? ==> Overlay(Step(s, e).next) == Some(Rect(s.start.value.x, s.start.value.y, e.at.x - s.start.value.x, e.at.y - s.start.value.y))
    ensures e.Released? ==> Overlay(Step(s, e).next) == None
  {
  }
}
