/**
 * `TapGestureEngine`: a touch that goes down and comes up again within a
 * time window and without moving too far. The engine's repeating timer fires
 * `maxMilliseconds` after the touch-down and aborts the gesture; nothing stops
 * it when the gesture completes.
 */
module TapGesture {
  import opened Geometry
  import opened Gestures

  /**
   * The engine's state. Both times start at the zero `DateTime`, written 0;
   * `timerArmed` says whether the dispatcher timer is running.
   */
  datatype Tap = Tap(
    minMilliseconds: real,
    maxMilliseconds: real,
    maxMovement: real,
    startPoint: Vec,
    endPoint: Vec,
    touchDownTime: Time,
    touchUpTime: Time,
    isStarted: bool,
    isCompleted: bool,
    isAborted: bool,
    timerArmed: bool,
    events: seq<Event>)

  /** The constructor: no flag set, points at the origin, timer created but not started. */
  function New(minMilliseconds: real, maxMilliseconds: real, maxMovement: real): (r: Tap)
    ensures !Terminal(r) && !r.isStarted && !r.timerArmed && r.events == []
    ensures r.minMilliseconds == minMilliseconds && r.maxMilliseconds == maxMilliseconds
    ensures r.maxMovement == maxMovement
  {
    Tap(minMilliseconds, maxMilliseconds, maxMovement, Origin, Origin, 0, 0, false, false, false, false, [])
  }

  /** Completed or aborted: the `Track*` calls ignore the engine from then on. */
  predicate Terminal(t: Tap) { t.isCompleted || t.isAborted }

  function Raise(t: Tap, e: Event): Tap { t.(events := t.events + [e]) }

  /** `TimeDelta`: up minus down once completed, the clock minus down while started, else zero. */
  function TimeDelta(t: Tap, now: Time): (r: real)
    ensures !t.isStarted ==> r == 0.0
    ensures t.isStarted && t.isCompleted ==> t.touchDownTime as real + r == t.touchUpTime as real
    ensures t.isStarted && !t.isCompleted ==> t.touchDownTime as real + r == now as real
  {
    if t.isStarted && t.isCompleted then (t.touchUpTime - t.touchDownTime) as real
    else if t.isStarted then (now - t.touchDownTime) as real
    else 0.0
  }

  /**
   * `ProcessStatus`: an aborted engine raises Aborted again; otherwise the
   * engine aborts when the time is outside [min, max] or the touch moved more
   * than `maxMovement` between down and up, and completes when neither holds.
   */
  function ProcessStatus(t: Tap, now: Time): (r: Tap)
    ensures r.isAborted <==>
      || t.isAborted
      || TimeDelta(t, now) < t.minMilliseconds || TimeDelta(t, now) > t.maxMilliseconds
      || LongerThan(Sub(t.endPoint, t.startPoint), t.maxMovement)
    ensures r.isCompleted <==> t.isCompleted || !r.isAborted
    ensures r.events == t.events + [if r.isAborted then Aborted else Completed]
    ensures r.(isAborted := t.isAborted, isCompleted := t.isCompleted, events := t.events) == t
  {
    if t.isAborted then Raise(t, Aborted)
    else
      var ms := TimeDelta(t, now);
      if ms < t.minMilliseconds || ms > t.maxMilliseconds then Raise(t.(isAborted := true), Aborted)
      else if LongerThan(Sub(t.endPoint, t.startPoint), t.maxMovement) then Raise(t.(isAborted := true), Aborted)
      else Raise(t.(isCompleted := true), Completed)
  }

  /** A touch-down before the engine is terminal records where and when, starts the gesture and its timer. */
  function TrackTouchDown(t: Tap, position: Vec, timestamp: Time): (r: Tap)
    ensures Terminal(t) ==> r == t
    ensures !Terminal(t) ==>
      && r.startPoint == position && r.touchDownTime == timestamp
      && r.isStarted && r.timerArmed
      && r.events == t.events + [Started]
      && r.(startPoint := t.startPoint, touchDownTime := t.touchDownTime, isStarted := t.isStarted,
            timerArmed := t.timerArmed, events := t.events) == t
  {
    if Terminal(t) then t
    else Raise(t.(touchDownTime := timestamp, startPoint := position, isStarted := true, timerArmed := true), Started)
  }

  /**
   * A touch-up before the engine is terminal records the end point and
   * decides the gesture. The up time is assigned to itself, so it never
   * changes; the elapsed time is the clock `now` minus the down time.
   */
  function TrackTouchUp(t: Tap, position: Vec, timestamp: Time, now: Time): (r: Tap)
    ensures Terminal(t) ==> r == t
    ensures !Terminal(t) ==>
      && r.endPoint == position
      && r.touchUpTime == t.touchUpTime
      && r.isCompleted != r.isAborted
      && r.events == t.events + [if r.isCompleted then Completed else Aborted]
      && r.(endPoint := t.endPoint, isCompleted := false, isAborted := false, events := t.events) == t
    ensures !Terminal(t) && t.isStarted ==>
      (r.isCompleted <==>
        && t.minMilliseconds <= (now - t.touchDownTime) as real <= t.maxMilliseconds
        && !LongerThan(Sub(position, t.startPoint), t.maxMovement))
  {
    if Terminal(t) then t
    else ProcessStatus(t.(touchUpTime := t.touchUpTime, endPoint := position), now)
  }

  /** A move before the engine is terminal aborts exactly when it is too far from the start point. */
  function TrackTouchMove(t: Tap, position: Vec, timestamp: Time): (r: Tap)
    ensures Terminal(t) ==> r == t
    ensures !Terminal(t) ==> (r.isAborted <==> LongerThan(Sub(position, t.startPoint), t.maxMovement))
    ensures !Terminal(t) && !r.isAborted ==> r == t
    ensures !Terminal(t) && r.isAborted ==> r.events == t.events + [Aborted]
    ensures r.endPoint == t.endPoint && r.startPoint == t.startPoint
  {
    if Terminal(t) then t
    else if LongerThan(Sub(position, t.startPoint), t.maxMovement) then AbortGesture(t)
    else t
  }

  /**
   * `AbortGesture` has no guard: every call stops the timer, sets the aborted
   * flag and raises Aborted, even on a completed or already aborted engine.
   */
  function AbortGesture(t: Tap): (r: Tap)
    ensures r.isAborted && !r.timerArmed
    ensures r.events == t.events + [Aborted]
    ensures r.(isAborted := t.isAborted, timerArmed := t.timerArmed, events := t.events) == t
  {
    Raise(t.(timerArmed := false, isAborted := true), Aborted)
  }

  /** Aborting is `ProcessStatus` on a stopped, aborted engine, which does not read the clock. */
  lemma AbortGestureIsProcessStatus(t: Tap, now: Time)
    ensures AbortGesture(t) == ProcessStatus(t.(timerArmed := false, isAborted := true), now)
  {
  }

  /** The timer's tick aborts the gesture, whatever state it is in, and stops the timer. */
  function Tick(t: Tap): (r: Tap)
    requires t.timerArmed
    ensures r.isAborted && !r.timerArmed && r.isCompleted == t.isCompleted
    ensures r.events == t.events + [Aborted]
    ensures r.(isAborted := t.isAborted, timerArmed := t.timerArmed, events := t.events) == t
  {
    AbortGesture(t)
  }

  /**
   * Completion leaves the timer running, so its tick later aborts the
   * completed engine: both flags end up set and Aborted follows Completed.
   */
  lemma CompletedThenAborted(t: Tap, position: Vec, timestamp: Time, now: Time)
    requires !Terminal(t) && t.isStarted && t.timerArmed
    requires t.minMilliseconds <= (now - t.touchDownTime) as real <= t.maxMilliseconds
    requires !LongerThan(Sub(position, t.startPoint), t.maxMovement)
    ensures TrackTouchUp(t, position, timestamp, now).isCompleted
    ensures TrackTouchUp(t, position, timestamp, now).timerArmed
    ensures var done := Tick(TrackTouchUp(t, position, timestamp, now));
      done.isCompleted && done.isAborted && done.events == t.events + [Completed, Aborted]
  {
  }

  /**
   * A touch-up that rejects the gesture sets the aborted flag but does not stop
   * the timer, whose tick then raises Aborted a second time.
   */
  lemma RejectedThenAbortedAgain(t: Tap, position: Vec, timestamp: Time, now: Time)
    requires !Terminal(t) && t.isStarted && t.timerArmed
    requires LongerThan(Sub(position, t.startPoint), t.maxMovement)
    ensures TrackTouchUp(t, position, timestamp, now).isAborted
    ensures TrackTouchUp(t, position, timestamp, now).timerArmed
    ensures Tick(TrackTouchUp(t, position, timestamp, now)).events == t.events + [Aborted, Aborted]
  {
  }

  /** One thing that can happen to an engine. */
  datatype Input =
    | Down(position: Vec, timestamp: Time)
    | Up(position: Vec, timestamp: Time)
    | Move(position: Vec, timestamp: Time)
    | Abort
    | TimerTick

  /** An input at clock time `now`; a tick of a stopped timer does not happen. */
  function Step(t: Tap, input: Input, now: Time): Tap
  {
    match input
    case Down(p, ts) => TrackTouchDown(t, p, ts)
    case Up(p, ts) => TrackTouchUp(t, p, ts, now)
    case Move(p, ts) => TrackTouchMove(t, p, ts)
    case Abort => AbortGesture(t)
    case TimerTick => if t.timerArmed then Tick(t) else t
  }

  /**
   * What the flags say about the notifications raised so far: Completed was
   * raised exactly once if the engine completed and never otherwise, Aborted
   * was raised iff the engine is aborted.
   */
  predicate Inv(t: Tap)
  {
    && Count(t.events, Completed) == (if t.isCompleted then 1 else 0)
    && (t.isAborted <==> Aborted in t.events)
  }

  lemma NewInv(minMilliseconds: real, maxMilliseconds: real, maxMovement: real)
    ensures Inv(New(minMilliseconds, maxMilliseconds, maxMovement))
  {
  }

  /** Every input keeps the flags and the raised notifications in step. */
  lemma StepPreservesInv(t: Tap, input: Input, now: Time)
    requires Inv(t)
    ensures Inv(Step(t, input, now))
  {
    var r := Step(t, input, now);
    if r != t {
      assert r.events == t.events + (r.events[|t.events|..]) && |r.events| == |t.events| + 1;
      CountAppend(t.events, r.events[|t.events|..], Completed);
      assert Count([Started], Completed) == 0 && Count([Aborted], Completed) == 0;
    }
  }

  /** Runs a sequence of inputs, each with its clock reading. */
  function Run(t: Tap, inputs: seq<(Input, Time)>): Tap
    decreases |inputs|
  {
    if |inputs| == 0 then t else Run(Step(t, inputs[0].0, inputs[0].1), inputs[1..])
  }

  /** From a new engine, along any inputs, Completed is raised at most once and only with the flag set. */
  lemma {:induction false} RunPreservesInv(t: Tap, inputs: seq<(Input, Time)>)
    requires Inv(t)
    ensures Inv(Run(t, inputs))
    ensures Count(Run(t, inputs).events, Completed) <= 1
    decreases |inputs|
  {
    if |inputs| > 0 {
      StepPreservesInv(t, inputs[0].0, inputs[0].1);
      RunPreservesInv(Step(t, inputs[0].0, inputs[0].1), inputs[1..]);
    }
  }
}
