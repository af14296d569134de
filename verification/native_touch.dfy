/**
 * `NativeTouchDevice`: Windows touch messages turned into WPF touch devices.
 * Static handlers keep an id registry and create a device on the first
 * message for an id; each device coalesces moves that come too soon after,
 * or too close to, the last reported one into a buffer of intermediate
 * points instead of reporting them.
 */
module NativeTouch {
  import opened Wrappers
  import opened Geometry
  import opened TouchReports

  /** A touch message from the window hook: id, location, contact rectangle, and its down and up flags. */
  datatype InteropEvent = InteropEvent(id: TouchId, location: Vec, boundingRect: Rect, isTouchDown: bool, isTouchUp: bool)

  datatype EventType = NoEvent | DownEvent | MoveEvent | IntermediateEvent | UpEvent

  /** A move is reported only this many milliseconds after the last reported event... */
  const TimeThreshold: int := 5

  /** ...and only when it moved at least this far (after rounding the distance up). */
  const MovementThreshold: int := 1

  /** One device: the last message it acted on, the buffered intermediate moves, and the last reported place and time. */
  datatype Device = Device(
    lastEventArgs: InteropEvent,
    intermediateEvents: seq<InteropEvent>,
    lastEventPosition: Vec,
    lastEventTime: int,
    lastEventType: EventType,
    isActive: bool)

  /** The constructor: only the message is recorded; the rest keeps its default. */
  function NewDevice(e: InteropEvent): Device
  {
    Device(e, [], Origin, 0, NoEvent, false)
  }

  /** The buffer as an event finds it: emptied unless the previous event was itself buffered. */
  function Carried(d: Device): seq<InteropEvent>
  {
    if d.lastEventType != IntermediateEvent then [] else d.intermediateEvents
  }

  /** `Math.Ceiling` on a real number. */
  function Ceiling(x: real): int { -((-x).Floor) }

  /** For a length, "rounded up it is below 1" means the length is exactly 0. */
  lemma CeilingBelowOne(length: real)
    requires length >= 0.0
    ensures Ceiling(length) < MovementThreshold <==> length == 0.0
  {
    if length > 0.0 {
      assert (-length).Floor <= -1;
    }
  }

  /**
   * The coalescing test: too soon after the last reported event, or no
   * displacement at all. A distance rounded up is below 1 exactly when it is
   * 0 (`CeilingBelowOne`), and a displacement has length 0 exactly when it is
   * the zero vector.
   */
  predicate TooSoonOrTooClose(d: Device, e: InteropEvent, now: int)
  {
    now - d.lastEventTime < TimeThreshold || Sub(e.location, d.lastEventPosition) == Origin
  }

  /** The instance `TouchDown`: record the message, place and time, activate, and report down. */
  function DeviceTouchDown(d: Device, e: InteropEvent, now: int): (r: (Device, Report))
    ensures r.0.isActive && r.0.lastEventType == DownEvent && r.0.lastEventArgs == e
    ensures r.0.lastEventPosition == e.location && r.0.lastEventTime == now
    ensures r.0.intermediateEvents == Carried(d)
    ensures r.1 == Report(Down, e.id, e.location)
  {
    (Device(e, Carried(d), e.location, now, DownEvent, true), Report(Down, e.id, e.location))
  }

  /**
   * `CoalesceEvents`: a move that is too soon or too close joins the buffer
   * and is not reported; any other move becomes the last reported event.
   */
  function CoalesceEvents(d: Device, e: InteropEvent, now: int): (r: (Device, Option<Report>))
    ensures r.1.None? <==> TooSoonOrTooClose(d, e, now)
    ensures r.1.None? ==> r.0 == d.(intermediateEvents := Carried(d) + [e], lastEventType := IntermediateEvent)
    ensures r.1.Some? ==>
      && r.1.value == Report(Move, e.id, e.location)
      && r.0 == d.(intermediateEvents := Carried(d), lastEventPosition := e.location, lastEventTime := now,
                   lastEventType := MoveEvent, lastEventArgs := e)
  {
    var buffer := Carried(d);
    if TooSoonOrTooClose(d, e, now) then
      (d.(intermediateEvents := buffer + [e], lastEventType := IntermediateEvent), None)
    else
      (d.(intermediateEvents := buffer, lastEventPosition := e.location, lastEventTime := now,
          lastEventType := MoveEvent, lastEventArgs := e),
       Some(Report(Move, e.id, e.location)))
  }

  /** The instance `TouchMove`: an inactive device ignores it; an active one coalesces. */
  function DeviceTouchMove(d: Device, e: InteropEvent, now: int): (r: (Device, Option<Report>))
    ensures !d.isActive ==> r == (d, None)
    ensures d.isActive ==> r == CoalesceEvents(d, e, now)
  {
    if !d.isActive then (d, None) else CoalesceEvents(d, e, now)
  }

  /**
   * The instance `TouchUp`: the buffer is cleared unless the previous event
   * was buffered, even on an inactive device, which then does nothing more;
   * an active device reports up and deactivates.
   */
  function DeviceTouchUp(d: Device, e: InteropEvent): (r: (Device, Option<Report>))
    ensures r.0.intermediateEvents == Carried(d)
    ensures !d.isActive ==> r == (d.(intermediateEvents := Carried(d)), None)
    ensures d.isActive ==> !r.0.isActive && r.0.lastEventType == UpEvent && r.0.lastEventArgs == e
    ensures d.isActive ==> r.1 == Some(Report(Up, e.id, e.location))
  {
    var cleared := d.(intermediateEvents := Carried(d));
    if !d.isActive then (cleared, None)
    else (cleared.(lastEventArgs := e, isActive := false, lastEventType := UpEvent), Some(Report(Up, e.id, e.location)))
  }

  /** The static registry and every report made so far. */
  datatype Native = Native(devices: map<TouchId, Device>, reports: seq<Report>)

  const Empty := Native(map[], [])

  function Append(reports: seq<Report>, report: Option<Report>): seq<Report>
  {
    if report.Some? then reports + [report.value] else reports
  }

  /** The static `TouchDown`: a new id gets a device, which reports down; a known id changes nothing. */
  function TouchDown(s: Native, e: InteropEvent, now: int): (r: Native)
    ensures e.id in s.devices ==> r == s
    ensures e.id !in s.devices ==>
      && r.devices.Keys == s.devices.Keys + {e.id}
      && r.reports == s.reports + [Report(Down, e.id, e.location)]
      && r.devices[e.id].isActive && r.devices[e.id].lastEventTime == now
      && r.devices[e.id].intermediateEvents == []
      && forall id :: id in s.devices ==> r.devices[id] == s.devices[id]
  {
    if e.id in s.devices then s
    else
      var created := DeviceTouchDown(NewDevice(e), e, now);
      Native(s.devices[e.id := created.0], s.reports + [created.1])
  }

  /** The static `TouchMove`: an unknown id is first touched down; then its device handles the move. */
  function TouchMove(s: Native, e: InteropEvent, now: int): (r: Native)
    ensures r.devices.Keys == s.devices.Keys + {e.id}
    ensures forall id :: id in s.devices && id != e.id ==> r.devices[id] == s.devices[id]
    ensures e.id in s.devices ==>
      var moved := DeviceTouchMove(s.devices[e.id], e, now);
      r.devices[e.id] == moved.0 && r.reports == Append(s.reports, moved.1)
  {
    var down := if e.id !in s.devices then TouchDown(s, e, now) else s;
    var moved := DeviceTouchMove(down.devices[e.id], e, now);
    Native(down.devices[e.id := moved.0], Append(down.reports, moved.1))
  }

  /** The static `TouchUp`: an unknown id is first touched down; then its device handles the up, and the id is always removed. */
  function TouchUp(s: Native, e: InteropEvent, now: int): (r: Native)
    ensures r.devices == s.devices - {e.id}
    ensures e.id in s.devices ==> r.reports == Append(s.reports, DeviceTouchUp(s.devices[e.id], e).1)
    ensures e.id !in s.devices ==> r.reports == s.reports + [Report(Down, e.id, e.location), Report(Up, e.id, e.location)]
  {
    var down := if e.id !in s.devices then TouchDown(s, e, now) else s;
    var lifted := DeviceTouchUp(down.devices[e.id], e);
    assert down.devices - {e.id} == s.devices - {e.id};
    Native(down.devices - {e.id}, Append(down.reports, lifted.1))
  }

  /**
   * The registry agrees with the reports (an id is registered iff a down was
   * reported with no up since, every id's reports are bracketed), and every
   * registered device is active.
   */
  predicate Inv(s: Native)
  {
    Consistent(s.devices, s.reports) && forall id :: id in s.devices ==> s.devices[id].isActive
  }

  lemma DownInv(s: Native, e: InteropEvent, now: int)
    requires Inv(s)
    ensures Inv(TouchDown(s, e, now))
  {
    if e.id !in s.devices {
      var created := DeviceTouchDown(NewDevice(e), e, now);
      ConsistentAfterDown(s.devices, s.reports, e.id, created.0, e.location);
    }
  }

  lemma MoveInv(s: Native, e: InteropEvent, now: int)
    requires Inv(s)
    ensures Inv(TouchMove(s, e, now))
  {
    if e.id in s.devices {
      RegisteredMoveInv(s, e, now);
    } else {
      var down := TouchDown(s, e, now);
      DownInv(s, e, now);
      assert TouchMove(s, e, now) == TouchMove(down, e, now);
      RegisteredMoveInv(down, e, now);
    }
  }

  lemma RegisteredMoveInv(s: Native, e: InteropEvent, now: int)
    requires Inv(s) && e.id in s.devices
    ensures Inv(TouchMove(s, e, now))
  {
    var d := s.devices[e.id];
    assert d.isActive;
    var moved := CoalesceEvents(d, e, now);
    assert TouchMove(s, e, now) == Native(s.devices[e.id := moved.0], Append(s.reports, moved.1));
    if moved.1.Some? {
      ConsistentAfterMove(s.devices, s.reports, e.id, moved.0, e.location);
    } else {
      assert s.devices[e.id := moved.0].Keys == s.devices.Keys;
    }
  }

  lemma UpInv(s: Native, e: InteropEvent, now: int)
    requires Inv(s)
    ensures Inv(TouchUp(s, e, now))
  {
    var down := if e.id !in s.devices then TouchDown(s, e, now) else s;
    DownInv(s, e, now);
    ConsistentAfterUp(down.devices, down.reports, e.id, e.location);
  }

  /** Through the static handlers a registered device is always active, so its moves are never ignored and every up reports up. */
  lemma UpAlwaysReports(s: Native, e: InteropEvent, now: int)
    requires Inv(s)
    ensures TouchUp(s, e, now).reports[|TouchUp(s, e, now).reports| - 1] == Report(Up, e.id, e.location)
  {
  }

  /**
   * A move for an id never touched down is preceded by a synthesised
   * touch-down at the same moment, so it is always buffered: only the down
   * is reported.
   */
  lemma MoveOfUnknownIdIsBuffered(s: Native, e: InteropEvent, now: int)
    requires e.id !in s.devices
    ensures TouchMove(s, e, now).reports == s.reports + [Report(Down, e.id, e.location)]
    ensures TouchMove(s, e, now).devices[e.id].intermediateEvents == [e]
  {
    var down := TouchDown(s, e, now);
    assert down.devices[e.id].lastEventTime == now;
  }

  /** After a reported move, a second move less than 5 ms later is buffered whatever its location. */
  lemma QuickSecondMoveIsBuffered(d: Device, e: InteropEvent, f: InteropEvent, now: int, later: int)
    requires d.isActive && DeviceTouchMove(d, e, now).1.Some? && later < now + TimeThreshold
    ensures var moved := DeviceTouchMove(d, e, now).0;
      DeviceTouchMove(moved, f, later).1.None? && DeviceTouchMove(moved, f, later).0.intermediateEvents == [f]
  {
  }

  /** The action a touch point carries: down, else up, else move. */
  datatype TouchAction = DownAction | MoveAction | UpAction

  function Action(e: InteropEvent): TouchAction
  {
    if e.isTouchDown then DownAction else if e.isTouchUp then UpAction else MoveAction
  }

  /** A 1 by 1 contact (a mouse-like touch with no real size) is widened to 20 by 20, centred on its corner. */
  function TouchRect(r: Rect): (w: Rect)
    ensures r.width == 1.0 && r.height == 1.0 ==>
      && w.width == 20.0 && w.height == 20.0
      && w.left + w.width / 2.0 == r.left && w.top + w.height / 2.0 == r.top
    ensures !(r.width == 1.0 && r.height == 1.0) ==> w == r
  {
    if r.width == 1.0 && r.height == 1.0 then
      var touchSize := 20.0;
      Rect(r.left - touchSize / 2.0, r.top - touchSize / 2.0, touchSize, touchSize)
    else r
  }

  datatype TouchPoint = TouchPoint(position: Vec, bounds: Rect, action: TouchAction)

  /** `GetTouchPoint` relative to the window: the last message's location, widened rectangle and action. */
  function GetTouchPoint(d: Device): (p: TouchPoint)
    ensures p.position == d.lastEventArgs.location
    ensures p.bounds == TouchRect(d.lastEventArgs.boundingRect)
    ensures p.action == Action(d.lastEventArgs)
  {
    TouchPoint(d.lastEventArgs.location, TouchRect(d.lastEventArgs.boundingRect), Action(d.lastEventArgs))
  }
}
