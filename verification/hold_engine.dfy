/**
 * `HoldGestureEngine`: a touch kept down, without moving too far, until a
 * one-shot timer fires. Lifting the touch or moving too far first aborts it.
 * The engine never assigns its end point, so the movement test made when the
 * timer fires measures the start point against the origin.
 */
module HoldGesture {
  import opened Geometry
  import opened Gestures

  datatype Hold = Hold(
    timeoutMilliseconds: real,
    maxMovement: real,
    startPoint: Vec,
    endPoint: Vec,
    isStarted: bool,
    isCompleted: bool,
    isAborted: bool,
    timerArmed: bool,
    events: seq<Event>)

  /** The constructor: a negative movement limit becomes `Double.MaxValue`, that is, no limit. */
  function New(timeoutMilliseconds: real, maxMovement: real): (r: Hold)
    ensures maxMovement < 0.0 ==> r.maxMovement == DoubleMaxValue
    ensures maxMovement >= 0.0 ==> r.maxMovement == maxMovement
    ensures r.timeoutMilliseconds == timeoutMilliseconds
    ensures !Terminal(r) && !r.isStarted && !r.timerArmed && r.events == []
    ensures r.startPoint == Origin && r.endPoint == Origin
  {
    var limit := if maxMovement < 0.0 then DoubleMaxValue else maxMovement;
    Hold(timeoutMilliseconds, limit, Origin, Origin, false, false, false, false, [])
  }

  predicate Terminal(h: Hold) { h.isCompleted || h.isAborted }

  function Raise(h: Hold, e: Event): Hold { h.(events := h.events + [e]) }

  /**
   * `ProcessStatus` stops the one-shot timer, aborts when the touch moved too
   * far, and then raises Aborted if aborted and otherwise completes.
   */
  function ProcessStatus(h: Hold): (r: Hold)
    ensures !r.timerArmed
    ensures r.isAborted <==> h.isAborted || LongerThan(Sub(h.endPoint, h.startPoint), h.maxMovement)
    ensures r.isCompleted <==> h.isCompleted || !r.isAborted
    ensures r.events == h.events + [if r.isAborted then Aborted else Completed]
    ensures r.(timerArmed := h.timerArmed, isAborted := h.isAborted, isCompleted := h.isCompleted, events := h.events) == h
  {
    var stopped := h.(timerArmed := false);
    var checked := if LongerThan(Sub(stopped.endPoint, stopped.startPoint), stopped.maxMovement)
      then stopped.(isAborted := true) else stopped;
    if checked.isAborted then Raise(checked, Aborted)
    else Raise(checked.(isCompleted := true), Completed)
  }

  /** `AbortGesture`: stop the timer, set the aborted flag, and raise Aborted through `ProcessStatus`. */
  function AbortGesture(h: Hold): (r: Hold)
    ensures r.isAborted && !r.timerArmed && r.isCompleted == h.isCompleted
    ensures r.events == h.events + [Aborted]
    ensures r.(timerArmed := h.timerArmed, isAborted := h.isAborted, events := h.events) == h
  {
    ProcessStatus(h.(timerArmed := false, isAborted := true))
  }

  /** A touch-down before the engine is terminal records the start point and starts the timer. */
  function TrackTouchDown(h: Hold, position: Vec, timestamp: Time): (r: Hold)
    ensures Terminal(h) ==> r == h
    ensures !Terminal(h) ==>
      && r.startPoint == position && r.isStarted && r.timerArmed
      && r.events == h.events + [Started]
      && r.(startPoint := h.startPoint, isStarted := h.isStarted, timerArmed := h.timerArmed, events := h.events) == h
  {
    if Terminal(h) then h
    else Raise(h.(startPoint := position, isStarted := true, timerArmed := true), Started)
  }

  /** A touch-up aborts, with no guard: even a completed engine raises Aborted. */
  function TrackTouchUp(h: Hold, position: Vec, timestamp: Time): (r: Hold)
    ensures r.isAborted && !r.timerArmed && r.isCompleted == h.isCompleted
    ensures r.events == h.events + [Aborted]
    ensures r.(timerArmed := h.timerArmed, isAborted := h.isAborted, events := h.events) == h
  {
    AbortGesture(h)
  }

  /** A move before the engine is terminal aborts exactly when it is too far from the start point. */
  function TrackTouchMove(h: Hold, position: Vec, timestamp: Time): (r: Hold)
    ensures Terminal(h) ==> r == h
    ensures !Terminal(h) ==> (r.isAborted <==> LongerThan(Sub(position, h.startPoint), h.maxMovement))
    ensures !Terminal(h) && !r.isAborted ==> r == h
    ensures !Terminal(h) && r.isAborted ==>
      && !r.timerArmed && r.isCompleted == h.isCompleted
      && r.events == h.events + [Aborted]
      && r.(timerArmed := h.timerArmed, isAborted := h.isAborted, events := h.events) == h
  {
    if Terminal(h) then h
    else if LongerThan(Sub(position, h.startPoint), h.maxMovement) then AbortGesture(h)
    else h
  }

  /**
   * The timer's tick runs `ProcessStatus`: the hold completes unless the touch
   * ended too far from where it started, and exactly one outcome is raised.
   */
  function Tick(h: Hold): (r: Hold)
    requires h.timerArmed
    ensures !r.timerArmed
    ensures r.isAborted <==> h.isAborted || LongerThan(Sub(h.endPoint, h.startPoint), h.maxMovement)
    ensures r.isCompleted <==> h.isCompleted || !r.isAborted
    ensures r.events == h.events + [if r.isAborted then Aborted else Completed]
    ensures r.(timerArmed := h.timerArmed, isAborted := h.isAborted, isCompleted := h.isCompleted, events := h.events) == h
  {
    ProcessStatus(h)
  }

  /** One thing that can happen to an engine. */
  datatype Input =
    | Down(position: Vec, timestamp: Time)
    | Up(position: Vec, timestamp: Time)
    | Move(position: Vec, timestamp: Time)
    | Abort
    | TimerTick

  function Step(h: Hold, input: Input): Hold
  {
    match input
    case Down(p, ts) => TrackTouchDown(h, p, ts)
    case Up(p, ts) => TrackTouchUp(h, p, ts)
    case Move(p, ts) => TrackTouchMove(h, p, ts)
    case Abort => AbortGesture(h)
    case TimerTick => if h.timerArmed then Tick(h) else h
  }

  /**
   * What holds along every run from a new engine: the end point stays at the
   * origin, a terminal engine's timer is stopped, Completed was raised exactly
   * once if the engine completed and never otherwise, and Aborted was raised
   * iff the engine is aborted.
   */
  predicate Inv(h: Hold)
  {
    && h.endPoint == Origin
    && (Terminal(h) ==> !h.timerArmed)
    && Count(h.events, Completed) == (if h.isCompleted then 1 else 0)
    && (h.isAborted <==> Aborted in h.events)
  }

  lemma NewInv(timeoutMilliseconds: real, maxMovement: real)
    ensures Inv(New(timeoutMilliseconds, maxMovement))
  {
  }

  lemma StepPreservesInv(h: Hold, input: Input)
    requires Inv(h)
    ensures Inv(Step(h, input))
  {
    var r := Step(h, input);
    if r != h {
      assert r.events == h.events + (r.events[|h.events|..]) && |r.events| == |h.events| + 1;
      CountAppend(h.events, r.events[|h.events|..], Completed);
      assert Count([Started], Completed) == 0 && Count([Aborted], Completed) == 0;
      assert Count([Completed], Completed) == 1;
    }
  }

  /**
   * Because the end point stays at the origin, the timer's tick on an engine
   * that is not aborted completes iff the START point lies within the limit
   * of the origin, wherever the touch actually is.
   */
  lemma TickMeasuresFromOrigin(h: Hold)
    requires Inv(h) && h.timerArmed
    ensures !h.isAborted
    ensures Tick(h).isCompleted <==> !LongerThan(Sub(Origin, h.startPoint), h.maxMovement)
    ensures Tick(h).isCompleted ==> Tick(h).events == h.events + [Completed]
  {
  }

  /** Lifting the touch after the hold completed still raises Aborted. */
  lemma UpAfterCompletion(h: Hold, position: Vec, timestamp: Time)
    requires h.isCompleted
    ensures TrackTouchUp(h, position, timestamp).isCompleted && TrackTouchUp(h, position, timestamp).isAborted
    ensures TrackTouchUp(h, position, timestamp).events == h.events + [Aborted]
  {
  }

  /** With the default limit (no limit) a move aborts only beyond `Double.MaxValue`. */
  lemma DefaultLimitIsMaxValue(timeoutMilliseconds: real)
    ensures New(timeoutMilliseconds, HoldMaxMovement).maxMovement == DoubleMaxValue
  {
  }
}
