/**
 * `IGestureEngine`: the one interface the engine handlers drive. An engine is
 * one of the three recognisers; every operation only appends to its trace of
 * notifications, which is how a handler learns what the engine raised.
 */
module GestureEngine {
  import opened Geometry
  import opened Gestures
  import Tap = TapGesture
  import Hold = HoldGesture
  import DoubleTap = DoubleTapGesture

  datatype Engine =
    | TapEngine(tap: Tap.Tap)
    | HoldEngine(hold: Hold.Hold)
    | DoubleTapEngine(doubleTap: DoubleTap.DoubleTap)

  function Events(e: Engine): seq<Event>
  {
    match e
    case TapEngine(t) => t.events
    case HoldEngine(h) => h.events
    case DoubleTapEngine(d) => d.events
  }

  /** The engine has raised Completed or Aborted, after which its gesture is over. */
  predicate Terminal(e: Engine)
  {
    match e
    case TapEngine(t) => Tap.Terminal(t)
    case HoldEngine(h) => Hold.Terminal(h)
    case DoubleTapEngine(d) => DoubleTap.Terminal(d)
  }

  /** A terminal engine ignores touch-downs and moves. */
  function TrackTouchDown(e: Engine, position: Vec, timestamp: Time): (r: Engine)
    ensures Terminal(e) ==> r == e
    ensures Extends(Events(e), Events(r))
  {
    match e
    case TapEngine(t) => TapEngine(Tap.TrackTouchDown(t, position, timestamp))
    case HoldEngine(h) => HoldEngine(Hold.TrackTouchDown(h, position, timestamp))
    case DoubleTapEngine(d) => DoubleTapEngine(DoubleTap.TrackTouchDown(d, position, timestamp))
  }

  /** A terminal tap or double tap ignores a touch-up; a hold engine always aborts on one. */
  function TrackTouchUp(e: Engine, position: Vec, timestamp: Time, now: Time): (r: Engine)
    ensures Terminal(e) && !e.HoldEngine? ==> r == e
    ensures e.HoldEngine? ==> Events(r) == Events(e) + [Aborted]
    ensures Extends(Events(e), Events(r))
  {
    match e
    case TapEngine(t) => TapEngine(Tap.TrackTouchUp(t, position, timestamp, now))
    case HoldEngine(h) => HoldEngine(Hold.TrackTouchUp(h, position, timestamp))
    case DoubleTapEngine(d) => DoubleTapEngine(DoubleTap.TrackTouchUp(d, position, timestamp, now))
  }

  /** A terminal engine ignores moves; a move can only abort, never start or complete a gesture. */
  function TrackTouchMove(e: Engine, position: Vec, timestamp: Time): (r: Engine)
    ensures Terminal(e) ==> r == e
    ensures Events(r) == Events(e) || Events(r) == Events(e) + [Aborted]
  {
    match e
    case TapEngine(t) => TapEngine(Tap.TrackTouchMove(t, position, timestamp))
    case HoldEngine(h) => HoldEngine(Hold.TrackTouchMove(h, position, timestamp))
    case DoubleTapEngine(d) => DoubleTapEngine(DoubleTap.TrackTouchMove(d, position, timestamp))
  }

  /** Aborting always leaves the engine aborted; only the double tap ignores a second abort. */
  function AbortGesture(e: Engine): (r: Engine)
    ensures Terminal(r)
    ensures !Terminal(e) ==> Events(r) == Events(e) + [Aborted]
    ensures Extends(Events(e), Events(r))
  {
    match e
    case TapEngine(t) => TapEngine(Tap.AbortGesture(t))
    case HoldEngine(h) => HoldEngine(Hold.AbortGesture(h))
    case DoubleTapEngine(d) => DoubleTapEngine(DoubleTap.AbortGesture(d))
  }

  /** The timers an engine can run: a tap's or a hold's own timer, or one of a double tap's three. */
  datatype TimerId = EngineTimer | GapTimer | FirstTapTimer | SecondTapTimer

  predicate TimerArmed(e: Engine, id: TimerId)
  {
    match e
    case TapEngine(t) => id == EngineTimer && t.timerArmed
    case HoldEngine(h) => id == EngineTimer && h.timerArmed
    case DoubleTapEngine(d) =>
      match id
      case GapTimer => DoubleTap.TimerArmed(d, DoubleTap.GapTimer)
      case FirstTapTimer => DoubleTap.TimerArmed(d, DoubleTap.FirstTapTimer)
      case SecondTapTimer => DoubleTap.TimerArmed(d, DoubleTap.SecondTapTimer)
      case EngineTimer => false
  }

  /** A tick raises exactly one notification on a tap or hold engine, and at most one on a double tap. */
  function Tick(e: Engine, id: TimerId): (r: Engine)
    requires TimerArmed(e, id)
    ensures !e.DoubleTapEngine? ==> |Events(r)| == |Events(e)| + 1
    ensures |Events(r)| <= |Events(e)| + 1
    ensures Extends(Events(e), Events(r))
  {
    match e
    case TapEngine(t) => TapEngine(Tap.Tick(t))
    case HoldEngine(h) => HoldEngine(Hold.Tick(h))
    case DoubleTapEngine(d) =>
      match id
      case GapTimer => DoubleTapEngine(DoubleTap.Tick(d, DoubleTap.GapTimer))
      case FirstTapTimer => DoubleTapEngine(DoubleTap.Tick(d, DoubleTap.FirstTapTimer))
      case SecondTapTimer => DoubleTapEngine(DoubleTap.Tick(d, DoubleTap.SecondTapTimer))
  }
}
