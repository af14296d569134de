/**
 * What the gesture engines share: the three notifications an engine raises,
 * the movement test, and the default settings the gesture events are
 * registered with. Time is a whole number of milliseconds.
 */
module Gestures {
  import opened Geometry

  /** The notifications of `IGestureEngine`: GestureStarted, GestureCompleted, GestureAborted. */
  datatype Event = Started | Completed | Aborted

  /** A point in time, in milliseconds. */
  type Time = int

  /** The largest finite double, `Double.MaxValue`, written out exactly. */
  const DoubleMaxValue: real :=
    179769313486231570814527423731704356798070567525844996598917476803157260780028538760589558632766878171540458953514382464234321326889464182768467546703537516986049910576551282076245490090389328944075868508455133942304583236903222948165808559332123348274797826204144723168738177180919299881250404026184124858368.0

  /** Defaults from the static constructor of `Events`. */
  const TapMinMilliseconds: real := 0.0
  const TapMaxMilliseconds: real := 500.0
  const TapMaxMovement: real := 25.0
  const DoubleTapGapMilliseconds: real := 200.0
  const HoldGestureTimeoutMilliseconds: real := 500.0
  /** A negative hold movement limit means no limit. */
  const HoldMaxMovement: real := -1.0

  /** How often `e` occurs in a trace of notifications. */
  function Count(events: seq<Event>, e: Event): (n: nat)
    ensures n <= |events|
    ensures n == 0 <==> e !in events
  {
    if |events| == 0 then 0
    else Count(events[..|events| - 1], e) + (if events[|events| - 1] == e then 1 else 0)
  }

  /** Appending to a trace adds the count of the appended part. */
  lemma {:induction false} CountAppend(a: seq<Event>, b: seq<Event>, e: Event)
    ensures Count(a + b, e) == Count(a, e) + Count(b, e)
    decreases |b|
  {
    if |b| > 0 {
      assert (a + b)[..|a + b| - 1] == a + b[..|b| - 1];
      var last := if b[|b| - 1] == e then 1 else 0;
      assert (a + b)[|a + b| - 1] == b[|b| - 1];
      assert Count(a + b, e) == Count(a + b[..|b| - 1], e) + last;
      assert Count(b, e) == Count(b[..|b| - 1], e) + last;
      CountAppend(a, b[..|b| - 1], e);
    } else {
      assert a + b == a;
    }
  }

  /** `after`'s trace extends `before`'s: notifications once raised stay raised. */
  predicate Extends(before: seq<Event>, after: seq<Event>)
  {
    |before| <= |after| && after[..|before|] == before
  }
}
