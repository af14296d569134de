/**
 * `EngineHandlerBase` and its two routings. `EngineHandler` keeps one engine
 * per touch device, for single-touch gestures (tap, hold); `MultiEngineHandler`
 * feeds every touch to one shared engine, for the double tap.
 *
 * Every engine the handler ever created stays in `slots`, in creation order:
 * a slot records the engine, the device it was created for (its
 * `TouchDevice`), and whether the handler still listens to it. Engines notify
 * synchronously and the handler's reactions never call back into an engine, so
 * an engine operation is modelled as the operation followed by the handler's
 * reaction to each notification it raised, in order.
 */
module EngineHandlers {
  import opened Wrappers
  import opened Geometry
  import opened Gestures
  import opened GestureEngine
  import Tap = TapGesture

  type DeviceId = int
  type ElementId = int

  datatype Slot = Slot(engine: Engine, device: DeviceId, subscribed: bool)

  /** Which engines touches go to: one per device, or one shared engine. */
  datatype Routing = PerDevice(engines: map<DeviceId, nat>) | Shared(current: Option<nat>)

  /**
   * How a handler frees an ending engine's routing entry: `AsWritten` is the
   * source's release by device alone; `Corrected` drops an entry only if it
   * refers to the ending engine itself.
   */
  datatype ReleaseRule = AsWritten | Corrected

  /** The arguments of a `GestureCompleted` notification. */
  datatype Completion = Completion(source: ElementId, device: DeviceId)

  /**
   * `creator` is the engine the handler's factory returns: every call returns
   * a fresh engine in this same state.
   */
  datatype Handler = Handler(
    creator: Engine,
    trackedElement: ElementId,
    handlesTouchEvents: bool,
    rule: ReleaseRule,
    tracking: bool,
    routing: Routing,
    slots: seq<Slot>,
    completions: seq<Completion>)

  /**
   * The element under a device's current touch point, as `InputHitTest` on
   * the tracked element finds it, or `None` when the hit is not a `UIElement`.
   */
  type HitTest = DeviceId -> Option<ElementId>

  /** Routing refers only to existing slots, and a device's entry to an engine created for it. */
  predicate WellFormed(h: Handler)
  {
    match h.routing
    case PerDevice(m) => forall k | k in m :: m[k] < |h.slots| && h.slots[m[k]].device == k
    case Shared(current) => current.Some? ==> current.value < |h.slots|
  }

  /** A new handler, releasing as the source does, listening to the tracked element's touches, with no engine yet. */
  function New(creator: Engine, trackedElement: ElementId, handlesTouchEvents: bool, shared: bool): (r: Handler)
    ensures WellFormed(r) && r.tracking && r.slots == [] && r.completions == []
    ensures r.routing == if shared then Shared(None) else PerDevice(map[])
    ensures r.rule == AsWritten
  {
    Handler(creator, trackedElement, handlesTouchEvents, AsWritten, true,
            if shared then Shared(None) else PerDevice(map[]), [], [])
  }

  /** `StopTracking`: the handler no longer receives touches. */
  function StopTracking(h: Handler): (r: Handler)
    ensures !r.tracking && r.(tracking := h.tracking) == h
  {
    h.(tracking := false)
  }

  /**
   * The routing change when an engine created for `device` ends, as the
   * source writes it: a per-device handler removes whatever engine is mapped
   * to that device; the shared handler forgets its engine.
   */
  function ReleaseAsWritten(routing: Routing, device: DeviceId): (r: Routing)
    ensures r.PerDevice? <==> routing.PerDevice?
    ensures r.PerDevice? ==> r.engines == routing.engines - {device}
    ensures r.Shared? ==> r.current.None?
  {
    match routing
    case PerDevice(m) => PerDevice(m - {device})
    case Shared(_) => Shared(None)
  }

  /**
   * The routing change when the engine in slot `i`, created for `device`,
   * ends: only an entry that refers to that very engine is dropped.
   */
  function Release(routing: Routing, device: DeviceId, i: nat): (r: Routing)
    ensures r.PerDevice? <==> routing.PerDevice?
    ensures r.PerDevice? ==>
      forall k :: (k in r.engines <==> k in routing.engines && !(k == device && routing.engines[k] == i))
    ensures r.PerDevice? ==> forall k | k in r.engines :: r.engines[k] == routing.engines[k]
    ensures r.Shared? ==> r.current == (if routing.current == Some(i) then None else routing.current)
  {
    match routing
    case PerDevice(m) => if device in m && m[device] == i then PerDevice(m - {device}) else PerDevice(m)
    case Shared(current) => if current == Some(i) then Shared(None) else routing
  }

  /**
   * When the ending engine is the one its device is mapped to, which is the
   * only case the source's authors describe, the two releases agree.
   */
  lemma ReleaseAgreesForCurrentEngine(routing: Routing, device: DeviceId, i: nat)
    requires routing.PerDevice? ==> device in routing.engines && routing.engines[device] == i
    requires routing.Shared? ==> routing.current == Some(i)
    ensures Release(routing, device, i) == ReleaseAsWritten(routing, device)
  {
  }

  /**
   * As written, a stale engine (slot `i`) that ends after its device has been
   * mapped to a newer engine (slot `j`) drops the newer engine's entry, so
   * the device's later moves and touch-up are ignored and its gesture is lost.
   */
  lemma ReleaseAsWrittenDropsNewerEngine(device: DeviceId, i: nat, j: nat)
    requires i != j
    ensures device !in ReleaseAsWritten(PerDevice(map[device := j]), device).engines
    ensures Release(PerDevice(map[device := j]), device, i) == PerDevice(map[device := j])
  {
  }

  function ReleaseBy(rule: ReleaseRule, routing: Routing, device: DeviceId, i: nat): Routing
  {
    match rule
    case AsWritten => ReleaseAsWritten(routing, device)
    case Corrected => Release(routing, device, i)
  }

  /** Releasing twice under one rule is releasing once. */
  lemma ReleaseByIdempotent(rule: ReleaseRule, routing: Routing, device: DeviceId, i: nat)
    ensures ReleaseBy(rule, ReleaseBy(rule, routing, device, i), device, i) == ReleaseBy(rule, routing, device, i)
  {
  }

  /** Whether a run of notifications ends the gesture. */
  predicate Ends(events: seq<Event>) { Aborted in events || Completed in events }

  /** What an engine raised in going from `before` to `after`. */
  function Raised(before: Engine, after: Engine): seq<Event>
    requires Extends(Events(before), Events(after))
  {
    Events(after)[|Events(before)|..]
  }

  /**
   * The handler's reaction to one notification of the engine in slot `i`, if
   * it still listens to it. Started changes nothing. Aborted releases the
   * engine's routing entry under the handler's rule. Completed releases it, raises `GestureCompleted`
   * with the hit element (the tracked element when there is none) and the
   * engine's device, and only then stops listening to the engine; aborted
   * engines are listened to for good.
   */
  function OnEvent(h: Handler, i: nat, e: Event, hit: HitTest): (r: Handler)
    requires i < |h.slots|
    ensures |r.slots| == |h.slots|
    ensures forall j | 0 <= j < |h.slots| && j != i :: r.slots[j] == h.slots[j]
    ensures r.slots[i].engine == h.slots[i].engine && r.slots[i].device == h.slots[i].device
    ensures r.routing.PerDevice? == h.routing.PerDevice?
    ensures r.routing.PerDevice? ==> forall k | k != h.slots[i].device ::
      && (k in r.routing.engines <==> k in h.routing.engines)
      && (k in r.routing.engines ==> r.routing.engines[k] == h.routing.engines[k])
    ensures !h.slots[i].subscribed || e == Started ==> r == h
    ensures h.slots[i].subscribed && e == Aborted ==>
      r == h.(routing := ReleaseBy(h.rule, h.routing, h.slots[i].device, i))
    ensures h.slots[i].subscribed && e == Completed ==>
      && r.routing == ReleaseBy(h.rule, h.routing, h.slots[i].device, i)
      && r.completions == h.completions + [Completion(hit(h.slots[i].device).GetOr(h.trackedElement), h.slots[i].device)]
      && !r.slots[i].subscribed
    ensures r.(routing := h.routing, completions := h.completions, slots := h.slots) == h
  {
    var slot := h.slots[i];
    if !slot.subscribed then h
    else
      match e
      case Started => h
      case Aborted => h.(routing := ReleaseBy(h.rule, h.routing, slot.device, i))
      case Completed =>
        var source := hit(slot.device).GetOr(h.trackedElement);
        h.(routing := ReleaseBy(h.rule, h.routing, slot.device, i),
           completions := h.completions + [Completion(source, slot.device)],
           slots := h.slots[i := slot.(subscribed := false)])
  }

  /** The reactions to a sequence of notifications, in order. */
  function Deliver(h: Handler, i: nat, events: seq<Event>, hit: HitTest): (r: Handler)
    requires i < |h.slots|
    ensures |r.slots| == |h.slots|
    ensures forall j | 0 <= j < |h.slots| && j != i :: r.slots[j] == h.slots[j]
    ensures r.slots[i].engine == h.slots[i].engine && r.slots[i].device == h.slots[i].device
    ensures r.routing.PerDevice? == h.routing.PerDevice?
    ensures r.routing.PerDevice? ==> forall k | k != h.slots[i].device ::
      && (k in r.routing.engines <==> k in h.routing.engines)
      && (k in r.routing.engines ==> r.routing.engines[k] == h.routing.engines[k])
    ensures Completed !in events ==> r.slots[i].subscribed == h.slots[i].subscribed && r.completions == h.completions
    ensures r.(routing := h.routing, completions := h.completions, slots := h.slots) == h
    decreases |events|
  {
    if |events| == 0 then h
    else Deliver(OnEvent(h, i, events[0], hit), i, events[1..], hit)
  }

  /** Store the result of an operation on slot `i`'s engine, then react to what it raised. */
  function Drive(h: Handler, i: nat, engine: Engine, hit: HitTest): (r: Handler)
    requires i < |h.slots|
    requires Extends(Events(h.slots[i].engine), Events(engine))
    ensures |r.slots| == |h.slots|
    ensures forall j | 0 <= j < |h.slots| && j != i :: r.slots[j] == h.slots[j]
    ensures r.slots[i].engine == engine && r.slots[i].device == h.slots[i].device
    ensures r.routing.PerDevice? == h.routing.PerDevice?
    ensures r.routing.PerDevice? ==> forall k | k != h.slots[i].device ::
      && (k in r.routing.engines <==> k in h.routing.engines)
      && (k in r.routing.engines ==> r.routing.engines[k] == h.routing.engines[k])
    ensures Completed !in Events(engine)[|Events(h.slots[i].engine)|..] ==>
      r.slots[i].subscribed == h.slots[i].subscribed && r.completions == h.completions
    ensures r.(routing := h.routing, completions := h.completions, slots := h.slots) == h
  {
    var raised := Events(engine)[|Events(h.slots[i].engine)|..];
    Deliver(h.(slots := h.slots[i := h.slots[i].(engine := engine)]), i, raised, hit)
  }

  /** Every release, under either rule, keeps the routing well formed. */
  lemma ReleaseWellFormed(h: Handler, device: DeviceId, i: nat)
    requires WellFormed(h)
    ensures WellFormed(h.(routing := ReleaseBy(h.rule, h.routing, device, i)))
  {
  }

  /**
   * The routing after slot `i`'s engine raised `events`: its entry is
   * released, once, exactly when the handler still listened to it and the
   * gesture ended; otherwise the routing is kept.
   */
  lemma {:induction false} DeliverRouting(h: Handler, i: nat, events: seq<Event>, hit: HitTest)
    requires i < |h.slots|
    ensures Deliver(h, i, events, hit).routing
            == if h.slots[i].subscribed && Ends(events) then ReleaseBy(h.rule, h.routing, h.slots[i].device, i) else h.routing
    decreases |events|
  {
    if |events| > 0 {
      var next := OnEvent(h, i, events[0], hit);
      var rest := events[1..];
      assert events == [events[0]] + rest;
      assert Ends(events) <==> events[0] != Started || Ends(rest);
      DeliverRouting(next, i, rest, hit);
      ReleaseByIdempotent(h.rule, h.routing, h.slots[i].device, i);
    }
  }

  lemma DriveRouting(h: Handler, i: nat, engine: Engine, hit: HitTest)
    requires i < |h.slots|
    requires Extends(Events(h.slots[i].engine), Events(engine))
    ensures Drive(h, i, engine, hit).routing
            == if h.slots[i].subscribed && Ends(Raised(h.slots[i].engine, engine))
               then ReleaseBy(h.rule, h.routing, h.slots[i].device, i) else h.routing
  {
    var stored := h.(slots := h.slots[i := h.slots[i].(engine := engine)]);
    DeliverRouting(stored, i, Raised(h.slots[i].engine, engine), hit);
  }

  lemma {:induction false} DeliverWellFormed(h: Handler, i: nat, events: seq<Event>, hit: HitTest)
    requires i < |h.slots| && WellFormed(h)
    ensures WellFormed(Deliver(h, i, events, hit))
    decreases |events|
  {
    if |events| > 0 {
      var next := OnEvent(h, i, events[0], hit);
      ReleaseWellFormed(h, h.slots[i].device, i);
      ReleaseWellFormed(h.(slots := next.slots), h.slots[i].device, i);
      assert WellFormed(next);
      DeliverWellFormed(next, i, events[1..], hit);
    }
  }

  lemma DriveWellFormed(h: Handler, i: nat, engine: Engine, hit: HitTest)
    requires i < |h.slots| && WellFormed(h)
    requires Extends(Events(h.slots[i].engine), Events(engine))
    ensures WellFormed(Drive(h, i, engine, hit))
  {
    var stored := h.(slots := h.slots[i := h.slots[i].(engine := engine)]);
    assert WellFormed(stored);
    DeliverWellFormed(stored, i, Events(engine)[|Events(h.slots[i].engine)|..], hit);
  }

  /** `AbortExistingEngineIfAny`: abort the engine mapped to `device`, if any, and unmap the device. */
  function AbortExisting(h: Handler, device: DeviceId, hit: HitTest): (r: Handler)
    requires h.routing.PerDevice? && WellFormed(h)
    ensures WellFormed(r) && r.routing.PerDevice?
    ensures r.routing.engines == h.routing.engines - {device}
    ensures |r.slots| == |h.slots|
    ensures device !in h.routing.engines ==> r == h
    ensures device in h.routing.engines ==>
      r.slots[h.routing.engines[device]].engine == AbortGesture(h.slots[h.routing.engines[device]].engine)
  {
    var m := h.routing.engines;
    if device !in m then h
    else
      var i := m[device];
      var aborted := Drive(h, i, AbortGesture(h.slots[i].engine), hit);
      DriveWellFormed(h, i, AbortGesture(h.slots[i].engine), hit);
      aborted.(routing := PerDevice(aborted.routing.engines - {device}))
  }

  /** `CreateAndSetupGestureEngine`: a fresh engine for `device`, listened to. */
  function CreateEngine(h: Handler, device: DeviceId): (r: Handler)
    ensures r.slots == h.slots + [Slot(h.creator, device, true)]
    ensures WellFormed(h) ==> WellFormed(r)
    ensures r.(slots := h.slots) == h
  {
    h.(slots := h.slots + [Slot(h.creator, device, true)])
  }

  /**
   * A touch-down. Per device: any engine mapped to the device is aborted and
   * unmapped, then a fresh engine gets the touch-down and the device is
   * mapped to it. Shared: the engine is created on the first touch-down and
   * every device's touch-down goes to it. Timestamps are the clock's `now`,
   * since the source's conversion discards the event's own timestamp.
   * The second result is the event's `Handled` flag.
   */
  function TouchDown(h: Handler, device: DeviceId, position: Vec, now: Time, hit: HitTest): (r: (Handler, bool))
    requires WellFormed(h)
    ensures WellFormed(r.0)
    ensures !h.tracking ==> r == (h, false)
    ensures h.tracking ==> r.1 == h.handlesTouchEvents
    ensures r.0.tracking == h.tracking && r.0.rule == h.rule && r.0.creator == h.creator
    ensures h.tracking && h.routing.PerDevice? ==>
      && r.0.routing.PerDevice?
      && |r.0.slots| == |h.slots| + 1
      && r.0.routing.engines == (h.routing.engines - {device})[device := |h.slots|]
      && r.0.slots[|h.slots|].engine == TrackTouchDown(h.creator, position, now)
      && r.0.slots[|h.slots|].device == device
    ensures h.tracking && h.routing.PerDevice? && device in h.routing.engines ==>
      r.0.slots[h.routing.engines[device]].engine == AbortGesture(h.slots[h.routing.engines[device]].engine)
    ensures h.tracking && h.routing == Shared(None) ==>
      |r.0.slots| == |h.slots| + 1 && r.0.slots[|h.slots|].engine == TrackTouchDown(h.creator, position, now)
      && r.0.slots[|h.slots|].device == device
      && r.0.routing == if Ends(Raised(h.creator, TrackTouchDown(h.creator, position, now))) then Shared(None) else Shared(Some(|h.slots|))
    ensures h.tracking && h.routing.Shared? && h.routing.current.Some? ==>
      var c := h.routing.current.value;
      |r.0.slots| == |h.slots|
      && r.0.slots[c].engine == TrackTouchDown(h.slots[c].engine, position, now)
      && r.0.routing == if h.slots[c].subscribed && Ends(Raised(h.slots[c].engine, r.0.slots[c].engine)) then Shared(None) else h.routing
  {
    if !h.tracking then (h, false)
    else if h.routing.PerDevice? then (DownPerDevice(h, device, position, now, hit), h.handlesTouchEvents)
    else (DownShared(h, device, position, now, hit), h.handlesTouchEvents)
  }

  /** A per-device touch-down: abort and unmap the device's engine, then map the device to a fresh one. */
  function DownPerDevice(h: Handler, device: DeviceId, position: Vec, now: Time, hit: HitTest): (r: Handler)
    requires WellFormed(h) && h.routing.PerDevice?
    ensures WellFormed(r) && r.routing.PerDevice?
    ensures |r.slots| == |h.slots| + 1
    ensures r.routing.engines == (h.routing.engines - {device})[device := |h.slots|]
    ensures r.slots[|h.slots|].engine == TrackTouchDown(h.creator, position, now)
    ensures r.slots[|h.slots|].device == device
    ensures device in h.routing.engines ==>
      r.slots[h.routing.engines[device]].engine == AbortGesture(h.slots[h.routing.engines[device]].engine)
  {
    var cleared := AbortExisting(h, device, hit);
    var created := CreateEngine(cleared, device);
    var n := |cleared.slots|;
    var fed := Drive(created, n, TrackTouchDown(h.creator, position, now), hit);
    DriveWellFormed(created, n, TrackTouchDown(h.creator, position, now), hit);
    DriveUnmapped(created, n, TrackTouchDown(h.creator, position, now), hit);
    fed.(routing := PerDevice(fed.routing.engines[device := n]))
  }

  /** A shared touch-down: the one engine is created on first use and gets every touch-down. */
  function DownShared(h: Handler, device: DeviceId, position: Vec, now: Time, hit: HitTest): (r: Handler)
    requires WellFormed(h) && h.routing.Shared?
    ensures WellFormed(r)
    ensures h.routing.current.None? ==>
      |r.slots| == |h.slots| + 1 && r.slots[|h.slots|].engine == TrackTouchDown(h.creator, position, now)
      && r.slots[|h.slots|].device == device
    ensures h.routing.current.Some? ==>
      |r.slots| == |h.slots|
      && r.slots[h.routing.current.value].engine == TrackTouchDown(h.slots[h.routing.current.value].engine, position, now)
    ensures r.routing.Shared?
    ensures h.routing.current.None? ==>
      r.routing == if Ends(Raised(h.creator, TrackTouchDown(h.creator, position, now))) then Shared(None) else Shared(Some(|h.slots|))
    ensures h.routing.current.Some? ==>
      var c := h.routing.current.value;
      r.routing == if h.slots[c].subscribed && Ends(Raised(h.slots[c].engine, r.slots[c].engine)) then Shared(None) else h.routing
  {
    var created := if h.routing.current.None? then CreateEngine(h, device).(routing := Shared(Some(|h.slots|))) else h;
    var i := created.routing.current.value;
    DriveWellFormed(created, i, TrackTouchDown(created.slots[i].engine, position, now), hit);
    DriveRouting(created, i, TrackTouchDown(created.slots[i].engine, position, now), hit);
    Drive(created, i, TrackTouchDown(created.slots[i].engine, position, now), hit)
  }

  /**
   * The shared handler's first touch-down creates its engine; unless that
   * ended the gesture, the next touch-down, from any device, reaches the same
   * engine rather than a new one.
   */
  lemma SharedDownsReachOneEngine(h: Handler, d1: DeviceId, p1: Vec, t1: Time, d2: DeviceId, p2: Vec, t2: Time, hit: HitTest)
    requires WellFormed(h) && h.tracking && h.routing == Shared(None)
    requires !Ends(Raised(h.creator, TrackTouchDown(h.creator, p1, t1)))
    ensures var h1 := TouchDown(h, d1, p1, t1, hit).0;
      var h2 := TouchDown(h1, d2, p2, t2, hit).0;
      && h1.routing == Shared(Some(|h.slots|))
      && |h2.slots| == |h.slots| + 1
      && h2.slots[|h.slots|].engine == TrackTouchDown(TrackTouchDown(h.creator, p1, t1), p2, t2)
  {
    var h1 := TouchDown(h, d1, p1, t1, hit).0;
    assert h1.routing == Shared(Some(|h.slots|));
  }

  /**
   * Notifications of an engine that no device is mapped to, created for a
   * device that is itself unmapped, leave a per-device routing as it is.
   */
  lemma {:induction false} ReleaseUnmapped(h: Handler, i: nat, events: seq<Event>, hit: HitTest)
    requires i < |h.slots| && h.routing.PerDevice?
    requires h.slots[i].device !in h.routing.engines
    requires forall k | k in h.routing.engines :: h.routing.engines[k] != i
    ensures Deliver(h, i, events, hit).routing == h.routing
    decreases |events|
  {
    if |events| > 0 {
      var next := OnEvent(h, i, events[0], hit);
      assert next.routing == h.routing;
      ReleaseUnmapped(next, i, events[1..], hit);
    }
  }

  /** Driving an unmapped engine of an unmapped device leaves a per-device routing as it is. */
  lemma DriveUnmapped(h: Handler, i: nat, engine: Engine, hit: HitTest)
    requires i < |h.slots| && h.routing.PerDevice?
    requires h.slots[i].device !in h.routing.engines
    requires forall k | k in h.routing.engines :: h.routing.engines[k] != i
    requires Extends(Events(h.slots[i].engine), Events(engine))
    ensures Drive(h, i, engine, hit).routing == h.routing
  {
    var stored := h.(slots := h.slots[i := h.slots[i].(engine := engine)]);
    ReleaseUnmapped(stored, i, Events(engine)[|Events(h.slots[i].engine)|..], hit);
  }

  /** The engine a device's moves and touch-ups go to, if any. */
  function Target(h: Handler, device: DeviceId): (r: Option<nat>)
    requires WellFormed(h)
    ensures r.Some? ==> r.value < |h.slots|
    ensures h.routing.PerDevice? ==> (r.Some? <==> device in h.routing.engines)
  {
    match h.routing
    case PerDevice(m) => if device in m then Some(m[device]) else None
    case Shared(current) => current
  }

  /**
   * A move: ignored, and not marked handled, when no engine is routed for
   * the device; otherwise only that engine gets it.
   */
  function TouchMove(h: Handler, device: DeviceId, position: Vec, now: Time, hit: HitTest): (r: (Handler, bool))
    requires WellFormed(h)
    ensures WellFormed(r.0)
    ensures !h.tracking || Target(h, device).None? ==> r == (h, false)
    ensures h.tracking && Target(h, device).Some? ==>
      var i := Target(h, device).value;
      && r.1 == h.handlesTouchEvents
      && |r.0.slots| == |h.slots|
      && r.0.slots[i].engine == TrackTouchMove(h.slots[i].engine, position, now)
      && (forall j | 0 <= j < |h.slots| && j != i :: r.0.slots[j] == h.slots[j])
      && r.0.routing == if h.slots[i].subscribed && Ends(Raised(h.slots[i].engine, r.0.slots[i].engine))
                        then ReleaseBy(h.rule, h.routing, h.slots[i].device, i) else h.routing
    ensures h.tracking && h.routing.PerDevice? ==>
      && r.0.routing.PerDevice?
      && (forall k | k != device ::
            && (k in r.0.routing.engines <==> k in h.routing.engines)
            && (k in r.0.routing.engines ==> r.0.routing.engines[k] == h.routing.engines[k]))
  {
    if !h.tracking then (h, false)
    else
      match Target(h, device)
      case None => (h, false)
      case Some(i) =>
        DriveWellFormed(h, i, TrackTouchMove(h.slots[i].engine, position, now), hit);
        DriveRouting(h, i, TrackTouchMove(h.slots[i].engine, position, now), hit);
        (Drive(h, i, TrackTouchMove(h.slots[i].engine, position, now), hit), h.handlesTouchEvents)
  }

  /** A touch-up, routed like a move. */
  function TouchUp(h: Handler, device: DeviceId, position: Vec, now: Time, hit: HitTest): (r: (Handler, bool))
    requires WellFormed(h)
    ensures WellFormed(r.0)
    ensures !h.tracking || Target(h, device).None? ==> r == (h, false)
    ensures h.tracking && Target(h, device).Some? ==>
      var i := Target(h, device).value;
      && r.1 == h.handlesTouchEvents
      && |r.0.slots| == |h.slots|
      && r.0.slots[i].engine == TrackTouchUp(h.slots[i].engine, position, now, now)
      && (forall j | 0 <= j < |h.slots| && j != i :: r.0.slots[j] == h.slots[j])
      && r.0.routing == if h.slots[i].subscribed && Ends(Raised(h.slots[i].engine, r.0.slots[i].engine))
                        then ReleaseBy(h.rule, h.routing, h.slots[i].device, i) else h.routing
    ensures h.tracking && h.routing.PerDevice? ==>
      && r.0.routing.PerDevice?
      && (forall k | k != device ::
            && (k in r.0.routing.engines <==> k in h.routing.engines)
            && (k in r.0.routing.engines ==> r.0.routing.engines[k] == h.routing.engines[k]))
  {
    if !h.tracking then (h, false)
    else
      match Target(h, device)
      case None => (h, false)
      case Some(i) =>
        DriveWellFormed(h, i, TrackTouchUp(h.slots[i].engine, position, now, now), hit);
        DriveRouting(h, i, TrackTouchUp(h.slots[i].engine, position, now, now), hit);
        (Drive(h, i, TrackTouchUp(h.slots[i].engine, position, now, now), hit), h.handlesTouchEvents)
  }

  /** A tick of one of slot `i`'s timers; the handler reacts only if it still listens to the engine. */
  function Tick(h: Handler, i: nat, id: TimerId, hit: HitTest): (r: Handler)
    requires WellFormed(h) && i < |h.slots| && TimerArmed(h.slots[i].engine, id)
    ensures WellFormed(r)
    ensures |r.slots| == |h.slots| && r.slots[i].engine == GestureEngine.Tick(h.slots[i].engine, id)
    ensures r.routing == if h.slots[i].subscribed && Ends(Raised(h.slots[i].engine, r.slots[i].engine))
                         then ReleaseBy(h.rule, h.routing, h.slots[i].device, i) else h.routing
  {
    DriveWellFormed(h, i, GestureEngine.Tick(h.slots[i].engine, id), hit);
    DriveRouting(h, i, GestureEngine.Tick(h.slots[i].engine, id), hit);
    Drive(h, i, GestureEngine.Tick(h.slots[i].engine, id), hit)
  }

  /** The handler after touch-down, touch-up and touch-down of one device on a new per-device tap handler. */
  function StaleTimerSetup(rule: ReleaseRule, tap: Tap.Tap, element: ElementId, device: DeviceId,
                           p0: Vec, p1: Vec, p2: Vec, t0: Time, t1: Time, t2: Time, hit: HitTest): Handler
  {
    var h0 := New(TapEngine(tap), element, false, false).(rule := rule);
    var h1 := TouchDown(h0, device, p0, t0, hit).0;
    var h2 := TouchUp(h1, device, p1, t1, hit).0;
    TouchDown(h2, device, p2, t2, hit).0
  }

  /**
   * The stale-timer case, reached from a new per-device tap handler: a
   * touch-down and a touch-up too far away leave the first tap engine aborted
   * but still listened to, with its timer running and its device unmapped; a
   * second touch-down of the same device maps it to a new engine. When the
   * first engine's timer then fires, its Aborted notification unmaps the new
   * engine under the source's release and leaves it mapped under the
   * corrected one.
   */
  lemma StaleTapTimerTrace(rule: ReleaseRule, tap: Tap.Tap, element: ElementId, device: DeviceId,
                           p0: Vec, p1: Vec, p2: Vec, t0: Time, t1: Time, t2: Time, hit: HitTest)
    requires tap == Tap.New(TapMinMilliseconds, TapMaxMilliseconds, TapMaxMovement)
    requires LongerThan(Sub(p1, p0), TapMaxMovement)
    ensures
      var h3 := StaleTimerSetup(rule, tap, element, device, p0, p1, p2, t0, t1, t2, hit);
      && WellFormed(h3) && |h3.slots| == 2 && h3.routing == PerDevice(map[device := 1])
      && h3.slots[0].subscribed && TimerArmed(h3.slots[0].engine, EngineTimer)
      && Tick(h3, 0, EngineTimer, hit).routing
         == (if rule == AsWritten then PerDevice(map[]) else PerDevice(map[device := 1]))
  {
    var h0 := New(TapEngine(tap), element, false, false).(rule := rule);
    var h1 := TouchDown(h0, device, p0, t0, hit).0;
    var e1 := Tap.TrackTouchDown(tap, p0, t0);
    assert h1.slots[0].engine == TapEngine(e1);
    assert h1.routing == PerDevice(map[device := 0]);
    assert e1.events == [Started];
    assert Target(h1, device) == Some(0);
    var h2 := TouchUp(h1, device, p1, t1, hit).0;
    var e2 := Tap.TrackTouchUp(e1, p1, t1, t1);
    assert h2.slots[0].engine == TapEngine(e2);
    assert e2.isAborted && e2.timerArmed && e2.events == [Started, Aborted];
    var stored := h1.(slots := h1.slots[0 := h1.slots[0].(engine := TapEngine(e2))]);
    assert Events(TapEngine(e2))[|Events(TapEngine(e1))|..] == [Aborted];
    assert h2 == Deliver(stored, 0, [Aborted], hit);
    assert h2 == OnEvent(stored, 0, Aborted, hit);
    assert h2.routing == PerDevice(map[]);
    assert h2.slots[0].subscribed;
    var h3 := TouchDown(h2, device, p2, t2, hit).0;
    assert h3.routing.engines == map[device := 1];
    assert h3.slots[0] == h2.slots[0];
    var e3 := Tap.Tick(e2);
    var stored3 := h3.(slots := h3.slots[0 := h3.slots[0].(engine := TapEngine(e3))]);
    assert Events(TapEngine(e3))[|Events(TapEngine(e2))|..] == [Aborted];
    assert Tick(h3, 0, EngineTimer, hit) == Deliver(stored3, 0, [Aborted], hit);
    assert Tick(h3, 0, EngineTimer, hit) == OnEvent(stored3, 0, Aborted, hit);
  }

  /**
   * As written, the stale timer's Aborted unmaps the device's newer engine,
   * so that engine's later moves and touch-up are ignored and its gesture is lost.
   */
  lemma StaleTimerDropsNewerEngine(tap: Tap.Tap, element: ElementId, device: DeviceId,
                                   p0: Vec, p1: Vec, p2: Vec, t0: Time, t1: Time, t2: Time, hit: HitTest)
    requires tap == Tap.New(TapMinMilliseconds, TapMaxMilliseconds, TapMaxMovement)
    requires LongerThan(Sub(p1, p0), TapMaxMovement)
    ensures
      var h3 := StaleTimerSetup(AsWritten, tap, element, device, p0, p1, p2, t0, t1, t2, hit);
      && WellFormed(h3) && |h3.slots| == 2 && h3.routing == PerDevice(map[device := 1])
      && TimerArmed(h3.slots[0].engine, EngineTimer)
      && Tick(h3, 0, EngineTimer, hit).routing == PerDevice(map[])
  {
    StaleTapTimerTrace(AsWritten, tap, element, device, p0, p1, p2, t0, t1, t2, hit);
  }

  /** With the corrected release the stale timer leaves the newer engine mapped. */
  lemma StaleTapTimer(tap: Tap.Tap, element: ElementId, device: DeviceId,
                      p0: Vec, p1: Vec, p2: Vec, t0: Time, t1: Time, t2: Time, hit: HitTest)
    requires tap == Tap.New(TapMinMilliseconds, TapMaxMilliseconds, TapMaxMovement)
    requires LongerThan(Sub(p1, p0), TapMaxMovement)
    ensures
      var h3 := StaleTimerSetup(Corrected, tap, element, device, p0, p1, p2, t0, t1, t2, hit);
      && WellFormed(h3) && |h3.slots| == 2 && h3.routing == PerDevice(map[device := 1])
      && TimerArmed(h3.slots[0].engine, EngineTimer)
      && Tick(h3, 0, EngineTimer, hit).routing == PerDevice(map[device := 1])
  {
    StaleTapTimerTrace(Corrected, tap, element, device, p0, p1, p2, t0, t1, t2, hit);
  }
}
