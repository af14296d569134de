/**
 * `DoubleTapGestureEngine`: two taps in a row, each recognised by its own
 * tap engine, with a gap timer between them. The composite listens to its
 * sub-taps' Completed and Aborted notifications; since the taps notify
 * synchronously, a sub-tap operation is modelled as the operation followed by
 * the composite's reaction to the one notification it raised, if any.
 */
module DoubleTapGesture {
  import opened Wrappers
  import opened Geometry
  import opened Gestures
  import Tap = TapGesture

  /**
   * The composite's state. Its own start and end points and times are never
   * read by the recogniser and are left out.
   */
  datatype DoubleTap = DoubleTap(
    minMilliseconds: real,
    gapMilliseconds: real,
    maxMilliseconds: real,
    maxMovement: real,
    firstTap: Tap.Tap,
    secondTap: Tap.Tap,
    isStarted: bool,
    isCompleted: bool,
    isAborted: bool,
    gapTimerArmed: bool,
    events: seq<Event>)

  /** The constructor: two fresh tap engines with the same limits, gap timer not started. */
  function New(minMilliseconds: real, gapMilliseconds: real, maxMilliseconds: real, maxMovement: real): (r: DoubleTap)
    ensures r.firstTap == r.secondTap == Tap.New(minMilliseconds, maxMilliseconds, maxMovement)
    ensures !Terminal(r) && !r.isStarted && !r.gapTimerArmed && r.events == []
  {
    var tap := Tap.New(minMilliseconds, maxMilliseconds, maxMovement);
    DoubleTap(minMilliseconds, gapMilliseconds, maxMilliseconds, maxMovement, tap, tap,
              false, false, false, false, [])
  }

  predicate Terminal(d: DoubleTap) { d.isCompleted || d.isAborted }

  function Raise(d: DoubleTap, e: Event): DoubleTap { d.(events := d.events + [e]) }

  /** The notification a sub-tap operation raised: every tap operation raises at most one. */
  function Raised(before: Tap.Tap, after: Tap.Tap): (r: Option<Event>)
    requires Extends(before.events, after.events)
    ensures r.Some? <==> |after.events| > |before.events|
  {
    if |after.events| > |before.events| then Some(after.events[|before.events|]) else None
  }

  /**
   * `AbortGesture` is guarded: a completed or aborted composite is left alone.
   * Otherwise it sets its aborted flag first (so the sub-taps' Aborted
   * notifications that follow find it aborted and do nothing), stops the gap
   * timer, aborts both sub-taps and raises Aborted.
   */
  function AbortGesture(d: DoubleTap): (r: DoubleTap)
    ensures Terminal(d) ==> r == d
    ensures !Terminal(d) ==>
      && r.isAborted && !r.isCompleted && !r.gapTimerArmed
      && r.firstTap == Tap.AbortGesture(d.firstTap)
      && r.secondTap == Tap.AbortGesture(d.secondTap)
      && r.events == d.events + [Aborted]
      && r.isStarted == d.isStarted
  {
    if d.isAborted || d.isCompleted then d
    else
      var stopped := d.(isAborted := true, gapTimerArmed := false);
      Raise(stopped.(firstTap := Tap.AbortGesture(stopped.firstTap),
                     secondTap := Tap.AbortGesture(stopped.secondTap)), Aborted)
  }

  /** Aborting twice is aborting once. */
  lemma AbortGestureIdempotent(d: DoubleTap)
    ensures AbortGesture(AbortGesture(d)) == AbortGesture(d)
  {
  }

  /**
   * The reaction to the first tap: its completion starts the gap timer unless
   * the second tap has already started; its abort aborts the composite.
   */
  function OnFirstTap(d: DoubleTap, e: Option<Event>): (r: DoubleTap)
    ensures e == Some(Completed) ==> r == d.(gapTimerArmed := d.gapTimerArmed || !d.secondTap.isStarted)
    ensures e == Some(Aborted) ==> r == AbortGesture(d)
    ensures e.None? || e == Some(Started) ==> r == d
  {
    match e
    case Some(Completed) => if !d.secondTap.isStarted then d.(gapTimerArmed := true) else d
    case Some(Aborted) => AbortGesture(d)
    case _ => d
  }

  /** The reaction to the second tap: its completion completes the composite; its abort aborts it. */
  function OnSecondTap(d: DoubleTap, e: Option<Event>): (r: DoubleTap)
    ensures e == Some(Completed) ==> r == Raise(d.(isCompleted := true), Completed)
    ensures e == Some(Aborted) ==> r == AbortGesture(d)
    ensures e.None? || e == Some(Started) ==> r == d
  {
    match e
    case Some(Completed) => Raise(d.(isCompleted := true), Completed)
    case Some(Aborted) => AbortGesture(d)
    case _ => d
  }

  /** Replace the first tap by the result of an operation on it, then react to what it raised. */
  function WithFirst(d: DoubleTap, f: Tap.Tap): DoubleTap
    requires Extends(d.firstTap.events, f.events)
  {
    OnFirstTap(d.(firstTap := f), Raised(d.firstTap, f))
  }

  function WithSecond(d: DoubleTap, s: Tap.Tap): DoubleTap
    requires Extends(d.secondTap.events, s.events)
  {
    OnSecondTap(d.(secondTap := s), Raised(d.secondTap, s))
  }

  /**
   * A touch-down goes to the first tap if it has not started, raising Started
   * for the composite. Otherwise, while the second tap has not started, a
   * down too far from where the first tap ended aborts, and a near one stops
   * the gap timer and goes to the second tap. Any further down aborts.
   */
  function TrackTouchDown(d: DoubleTap, position: Vec, timestamp: Time): (r: DoubleTap)
    ensures Terminal(d) ==> r == d
    ensures !Terminal(d) && !d.firstTap.isStarted ==>
      && r == Raise(d.(firstTap := Tap.TrackTouchDown(d.firstTap, position, timestamp), isStarted := true), Started)
    ensures !Terminal(d) && d.firstTap.isStarted && !d.secondTap.isStarted ==>
      if LongerThan(Sub(position, d.firstTap.endPoint), d.maxMovement) then r == AbortGesture(d)
      else r == d.(gapTimerArmed := false, secondTap := Tap.TrackTouchDown(d.secondTap, position, timestamp))
    ensures !Terminal(d) && d.firstTap.isStarted && d.secondTap.isStarted ==> r == AbortGesture(d)
  {
    if Terminal(d) then d
    else if !d.firstTap.isStarted then
      var withFirst := WithFirst(d, Tap.TrackTouchDown(d.firstTap, position, timestamp));
      Raise(withFirst.(isStarted := true), Started)
    else if !d.secondTap.isStarted then
      if LongerThan(Sub(position, d.firstTap.endPoint), d.maxMovement) then AbortGesture(d)
      else WithSecond(d.(gapTimerArmed := false), Tap.TrackTouchDown(d.secondTap, position, timestamp))
    else AbortGesture(d)
  }

  /**
   * A touch-up goes to the first tap until it completes, then to the second
   * until it completes; the tap it does not go to is only touched by an abort.
   * The composite completes only on the second tap's completing touch-up.
   */
  function TrackTouchUp(d: DoubleTap, position: Vec, timestamp: Time, now: Time): (r: DoubleTap)
    ensures Terminal(d) ==> r == d
    ensures !Terminal(d) && !d.firstTap.isCompleted && !r.isAborted ==>
      r.firstTap == Tap.TrackTouchUp(d.firstTap, position, timestamp, now) && r.secondTap == d.secondTap
    ensures !Terminal(d) && d.firstTap.isCompleted && !r.isAborted ==>
      r.secondTap == (if d.secondTap.isCompleted then d.secondTap
                      else Tap.TrackTouchUp(d.secondTap, position, timestamp, now)) && r.firstTap == d.firstTap
    ensures r.isCompleted && !d.isCompleted ==>
      d.firstTap.isCompleted && !d.secondTap.isCompleted && r.secondTap.isCompleted && r.events == d.events + [Completed]
  {
    if Terminal(d) then d
    else if !d.firstTap.isCompleted then WithFirst(d, Tap.TrackTouchUp(d.firstTap, position, timestamp, now))
    else if !d.secondTap.isCompleted then WithSecond(d, Tap.TrackTouchUp(d.secondTap, position, timestamp, now))
    else d
  }

  /** A move is routed like a touch-up, and never completes the composite. */
  function TrackTouchMove(d: DoubleTap, position: Vec, timestamp: Time): (r: DoubleTap)
    ensures Terminal(d) ==> r == d
    ensures !Terminal(d) && !d.firstTap.isCompleted && !r.isAborted ==>
      r.firstTap == Tap.TrackTouchMove(d.firstTap, position, timestamp) && r.secondTap == d.secondTap
    ensures !Terminal(d) && d.firstTap.isCompleted && !r.isAborted ==>
      r.secondTap == (if d.secondTap.isCompleted then d.secondTap
                      else Tap.TrackTouchMove(d.secondTap, position, timestamp)) && r.firstTap == d.firstTap
    ensures r.isCompleted == d.isCompleted
    ensures r.events == d.events || r.events == d.events + [Aborted]
  {
    if Terminal(d) then d
    else if !d.firstTap.isCompleted then WithFirst(d, Tap.TrackTouchMove(d.firstTap, position, timestamp))
    else if !d.secondTap.isCompleted then WithSecond(d, Tap.TrackTouchMove(d.secondTap, position, timestamp))
    else d
  }

  /** The three timers a double tap runs: its gap timer and each sub-tap's own timer. */
  datatype TimerId = GapTimer | FirstTapTimer | SecondTapTimer

  predicate TimerArmed(d: DoubleTap, id: TimerId)
  {
    match id
    case GapTimer => d.gapTimerArmed
    case FirstTapTimer => d.firstTap.timerArmed
    case SecondTapTimer => d.secondTap.timerArmed
  }

  /** A tick of the gap timer aborts; a sub-tap's tick aborts that tap, which aborts the composite. */
  function Tick(d: DoubleTap, id: TimerId): (r: DoubleTap)
    requires TimerArmed(d, id)
    ensures !Terminal(d) ==> r.isAborted && !r.isCompleted && r.events == d.events + [Aborted]
    ensures Terminal(d) ==> r.isAborted == d.isAborted && r.isCompleted == d.isCompleted && r.events == d.events
  {
    match id
    case GapTimer => AbortGesture(d)
    case FirstTapTimer => WithFirst(d, Tap.Tick(d.firstTap))
    case SecondTapTimer => WithSecond(d, Tap.Tick(d.secondTap))
  }

  /**
   * The first tap's own timer keeps running after the first tap completed; when
   * it fires before the double tap completes, the double tap is aborted, so
   * both taps must fit within one `maxMilliseconds` of the first touch-down.
   */
  lemma FirstTapTimerOutlivesFirstTap(d: DoubleTap, position: Vec, timestamp: Time, now: Time)
    requires !Terminal(d) && d.firstTap.isStarted && !Tap.Terminal(d.firstTap) && d.firstTap.timerArmed
    requires !d.secondTap.isStarted
    requires Tap.TrackTouchUp(d.firstTap, position, timestamp, now).isCompleted
    ensures var afterUp := TrackTouchUp(d, position, timestamp, now);
      && afterUp.firstTap.isCompleted && !Terminal(afterUp)
      && afterUp.gapTimerArmed && TimerArmed(afterUp, FirstTapTimer)
      && Tick(afterUp, FirstTapTimer).isAborted
  {
  }

  /** One thing that can happen to a double-tap engine. */
  datatype Input =
    | Down(position: Vec, timestamp: Time)
    | Up(position: Vec, timestamp: Time)
    | Move(position: Vec, timestamp: Time)
    | Abort
    | TimerTick(id: TimerId)

  /** An input at clock time `now`; a tick of a stopped timer does not happen. */
  function Step(d: DoubleTap, input: Input, now: Time): DoubleTap
  {
    match input
    case Down(p, ts) => TrackTouchDown(d, p, ts)
    case Up(p, ts) => TrackTouchUp(d, p, ts, now)
    case Move(p, ts) => TrackTouchMove(d, p, ts)
    case Abort => AbortGesture(d)
    case TimerTick(id) => if TimerArmed(d, id) then Tick(d, id) else d
  }

  /**
   * What holds along every run from a new engine: the composite completes
   * exactly when its second tap completed and never also aborts; Completed is
   * raised once if it completed and Aborted at most once, iff it aborted;
   * Started was raised iff the composite started; an aborted composite's
   * gap timer is stopped.
   */
  predicate Inv(d: DoubleTap)
  {
    && !(d.isCompleted && d.isAborted)
    && (d.isCompleted <==> d.secondTap.isCompleted)
    && Count(d.events, Completed) == (if d.isCompleted then 1 else 0)
    && Count(d.events, Aborted) == (if d.isAborted then 1 else 0)
    && (d.isStarted <==> Started in d.events)
    && (d.isAborted ==> !d.gapTimerArmed)
  }

  lemma NewInv(minMilliseconds: real, gapMilliseconds: real, maxMilliseconds: real, maxMovement: real)
    ensures Inv(New(minMilliseconds, gapMilliseconds, maxMilliseconds, maxMovement))
  {
  }

  /** Appending one notification to a trace adds one to its own count only. */
  lemma CountOne(events: seq<Event>, e: Event)
    ensures forall x :: Count(events + [e], x) == Count(events, x) + (if x == e then 1 else 0)
  {
    forall x
      ensures Count(events + [e], x) == Count(events, x) + (if x == e then 1 else 0)
    {
      CountAppend(events, [e], x);
      assert Count([e], x) == Count([], x) + (if x == e then 1 else 0);
    }
  }

  lemma AbortPreservesInv(d: DoubleTap)
    requires Inv(d)
    ensures Inv(AbortGesture(d))
  {
    CountOne(d.events, Aborted);
  }

  lemma WithFirstPreservesInv(d: DoubleTap, f: Tap.Tap)
    requires Inv(d) && !Terminal(d)
    requires Extends(d.firstTap.events, f.events)
    requires Raised(d.firstTap, f) != Some(Completed) || !d.isCompleted
    ensures Inv(WithFirst(d, f))
  {
    var d1 := d.(firstTap := f);
    var e := Raised(d.firstTap, f);
    if e == Some(Aborted) {
      AbortPreservesInv(d1);
    } else if e == Some(Completed) {
      assert WithFirst(d, f) == d1.(gapTimerArmed := d.gapTimerArmed || !d.secondTap.isStarted);
    } else {
      assert WithFirst(d, f) == d1;
    }
  }

  lemma WithSecondPreservesInv(d: DoubleTap, s: Tap.Tap)
    requires Inv(d) && !Terminal(d)
    requires Extends(d.secondTap.events, s.events)
    requires s.isCompleted != d.secondTap.isCompleted ==> Raised(d.secondTap, s) == Some(Completed)
    requires Raised(d.secondTap, s) == Some(Completed) ==> s.isCompleted && !d.secondTap.isCompleted
    ensures Inv(WithSecond(d, s))
  {
    var d1 := d.(secondTap := s);
    if Raised(d.secondTap, s) == Some(Completed) {
      CountOne(d.events, Completed);
    } else {
      AbortPreservesInv(d1);
    }
  }

  /** Every input keeps the flags, the sub-taps and the raised notifications in step. */
  lemma StepPreservesInv(d: DoubleTap, input: Input, now: Time)
    requires Inv(d)
    ensures Inv(Step(d, input, now))
  {
    match input {
      case Down(p, ts) => DownPreservesInv(d, p, ts);
      case Up(p, ts) => UpPreservesInv(d, p, ts, now);
      case Move(p, ts) => MovePreservesInv(d, p, ts);
      case Abort => AbortPreservesInv(d);
      case TimerTick(id) =>
        if TimerArmed(d, id) {
          TickPreservesInv(d, id);
        }
    }
  }

  lemma DownPreservesInv(d: DoubleTap, p: Vec, ts: Time)
    requires Inv(d)
    ensures Inv(TrackTouchDown(d, p, ts))
  {
    if Terminal(d) {
      return;
    }
    if !d.firstTap.isStarted {
      var f := Tap.TrackTouchDown(d.firstTap, p, ts);
      WithFirstPreservesInv(d, f);
      var w := WithFirst(d, f);
      CountOne(w.events, Started);
    } else if !d.secondTap.isStarted {
      if LongerThan(Sub(p, d.firstTap.endPoint), d.maxMovement) {
        AbortPreservesInv(d);
      } else {
        WithSecondPreservesInv(d.(gapTimerArmed := false), Tap.TrackTouchDown(d.secondTap, p, ts));
      }
    } else {
      AbortPreservesInv(d);
    }
  }

  lemma UpPreservesInv(d: DoubleTap, p: Vec, ts: Time, now: Time)
    requires Inv(d)
    ensures Inv(TrackTouchUp(d, p, ts, now))
  {
    if Terminal(d) {
      return;
    }
    if !d.firstTap.isCompleted {
      WithFirstPreservesInv(d, Tap.TrackTouchUp(d.firstTap, p, ts, now));
    } else if !d.secondTap.isCompleted {
      WithSecondPreservesInv(d, Tap.TrackTouchUp(d.secondTap, p, ts, now));
    }
  }

  lemma MovePreservesInv(d: DoubleTap, p: Vec, ts: Time)
    requires Inv(d)
    ensures Inv(TrackTouchMove(d, p, ts))
  {
    if Terminal(d) {
      return;
    }
    if !d.firstTap.isCompleted {
      WithFirstPreservesInv(d, Tap.TrackTouchMove(d.firstTap, p, ts));
    } else if !d.secondTap.isCompleted {
      WithSecondPreservesInv(d, Tap.TrackTouchMove(d.secondTap, p, ts));
    }
  }

  lemma TickPreservesInv(d: DoubleTap, id: TimerId)
    requires Inv(d) && TimerArmed(d, id)
    ensures Inv(Tick(d, id))
  {
    if Terminal(d) {
      return;
    }
    match id {
      case GapTimer => AbortPreservesInv(d);
      case FirstTapTimer => WithFirstPreservesInv(d, Tap.Tick(d.firstTap));
      case SecondTapTimer => WithSecondPreservesInv(d, Tap.Tick(d.secondTap));
    }
  }

  function Run(d: DoubleTap, inputs: seq<(Input, Time)>): DoubleTap
    decreases |inputs|
  {
    if |inputs| == 0 then d else Run(Step(d, inputs[0].0, inputs[0].1), inputs[1..])
  }

  /**
   * Along any inputs from a new engine, the double tap raises Completed at
   * most once and Aborted at most once, and never both.
   */
  lemma {:induction false} RunPreservesInv(d: DoubleTap, inputs: seq<(Input, Time)>)
    requires Inv(d)
    ensures Inv(Run(d, inputs))
    ensures Count(Run(d, inputs).events, Completed) + Count(Run(d, inputs).events, Aborted) <= 1
    decreases |inputs|
  {
    if |inputs| > 0 {
      StepPreservesInv(d, inputs[0].0, inputs[0].1);
      RunPreservesInv(Step(d, inputs[0].0, inputs[0].1), inputs[1..]);
    }
  }
}
