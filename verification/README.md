# Blake.NUI.WPF core, modelled in Dafny

This project models the sequential logic of the Blake.NUI.WPF touch library.
WPF, Win32 and animation plumbing is not modelled. The model has three groups.

- **Gesture recognition.**
  - The tap, hold and double-tap recognisers (`TapGestureEngine`,
    `HoldGestureEngine`, `DoubleTapGestureEngine`) are one-shot state machines.
    Touch-down, move and up, `AbortGesture` and dispatcher-timer ticks drive them.
    They raise Started, Completed and Aborted.
  - `IGestureEngine` is the one interface over all three.
  - `EngineHandler` keeps one engine per touch device. `MultiEngineHandler`
    shares one engine. Both route touches to engines and react to what the
    engines raise. A handler releases an ending engine's routing entry by its
    device alone, as the source does; a handler with the corrected release
    (see Findings) drops the entry only when it refers to that engine.
- **Manipulation arithmetic.**
  - `MathUtility` and `BoundedManipulationRange` (clamping and the rubber-band
    offset).
  - `DisplayMatrix`: center, orientation and scale, the cached transform
    matrix, size/scale coupling, pivot-corrected manipulation deltas and
    `BoundsToMatrix`.
  - `ScatterMatrixHelper`: render matrix and render offset.
  - `ZoomCanvas`: update-flag coalescing, rotation disable, lock state and
    world/screen mapping of points and vectors.
- **Small registries and state machines.**
  - `ActivatingContentControl`: its activation and enablement machines.
  - `RadialStackPanel`: child radius and start angle.
  - `InputFilter`: the device-validity registry.
  - The custom, TUIO and native touch devices: their id registries and the
    down/move/up reports they make to WPF.

## How the model is set up

- Every object is an immutable datatype. Every operation is a pure function
  from the old object to the new one.
- Events an object raises are appended to a trace field: `events`, `notices`,
  `reports` or `completions`. Claims about order and "at most once" are stated
  on that trace.
- Time is a whole number of milliseconds and is passed in.
- A `DispatcherTimer` is an armed flag. Its `Tick` function requires the flag.
- Doubles are `real`. The NaN cases are explicit where the source tests for
  them (`Double`, `NPoint`). A division that would give an infinite or NaN
  double is an `Option`/`Result` error case.
- Cosine and sine are a function parameter, `trig`. It is used in
  `RotateVector`, in `Matrix.RotateAt` and in `Atan2` of the radial panel
  (`arc`). Only `trig(0) = (1, 0)` is assumed, and only where a lemma states
  it.
- Hit testing (`InputHitTest`) and a filter subclass's `IsDeviceValid` are
  function parameters too.
- Synchronous .NET event callbacks are modelled as the operation followed by
  the subscriber's reaction to each notification raised, in order.

Quirks of the code that the model keeps and proves:

- **Tap, touch-up time:**
  - `TrackTouchUp` assigns `TouchUpTime` to itself, so the up time never changes.
  - The elapsed time `ProcessStatus` checks is the clock minus the touch-down time.
  - `EngineHandlerBase.TimestampToDateTime` discards its `AddMilliseconds` result, so every engine timestamp is the clock's current time.
- **Tap, timer and abort:**
  - Completion does not stop the tap's timer, and `AbortGesture` has no guard.
  - So a completed tap is later aborted by its own timer, and a rejected tap raises Aborted twice (`TapGesture.CompletedThenAborted`, `TapGesture.RejectedThenAbortedAgain`).
- **Hold:**
  - `EndPoint` is never assigned, so the timer's movement test measures the start point against the origin (`HoldGesture.TickMeasuresFromOrigin`).
  - `TrackTouchUp` has no guard: lifting after completion still raises Aborted (`HoldGesture.UpAfterCompletion`).
- **Double tap:** the first tap's own timer keeps running after it completes. If it fires before the second tap completes, the double tap is aborted (`DoubleTapGesture.FirstTapTimerOutlivesFirstTap`).
- **DisplayMatrix:** `BatchUpdate` normalises the orientation only when the property system held a different value, so an orientation of 400 can stay 400 (`Display.BatchUpdateKeepsRawOrientation`).
- **RadialStackPanel:** a child at radius 0 counts its gap in the total arc but does not advance the placement, which shifts a centred arc (`RadialStackPanel.ZeroRadiusShiftsStart`).
- **InputFilter:** the registry stores the verdict after `InvertFilter` is applied, and the next event of the device is decided knowing that stored verdict (`InputFilter.NextEventSeesStoredVerdict`).
- **NativeTouchDevice:** the distance test rounds the distance up before comparing it with 1, so only a zero displacement counts as "too close" (`NativeTouch.CeilingBelowOne`).

## Model

| member | source | states |
|---|---|---|
| Gestures.Count | Blake.NUI.WPF/Gestures/IGestureEngine.cs:50-61 | the number of occurrences of a notification in a trace is at most the trace's length, and is zero iff the notification never occurs |
| Gestures.CountAppend | Blake.NUI.WPF/Gestures/IGestureEngine.cs:50-61 | counts of notifications add up over the concatenation of two traces |
| TapGesture.New | Blake.NUI.WPF/Gestures/TapGestureEngine.cs:118-134 | a new tap engine is neither started, completed nor aborted, its timer is not running, it has raised nothing, and it keeps the given limits |
| TapGesture.TimeDelta | Blake.NUI.WPF/Gestures/TapGestureEngine.cs:62-74 | zero before the engine starts; once started, the time from the down to the up when completed, and to the clock while not |
| TapGesture.ProcessStatus | Blake.NUI.WPF/Gestures/TapGestureEngine.cs:140-163 | the engine is aborted iff it already was, the elapsed time is outside [min, max] or the touch moved more than the limit; completed iff it already was or is not aborted; exactly one of Aborted or Completed is raised and nothing else changes |
| TapGesture.Tick | Blake.NUI.WPF/Gestures/TapGestureEngine.cs:130-133 | the timer aborts the engine whatever its state: the timer stops, the aborted flag is set, the completed flag is kept and exactly one Aborted is raised |
| TapGesture.TrackTouchDown | Blake.NUI.WPF/Gestures/TapGestureEngine.cs:173-185 | a completed or aborted engine ignores the down; otherwise the start point and down time are recorded, the engine is started, raises Started and the timer runs |
| TapGesture.TrackTouchUp | Blake.NUI.WPF/Gestures/TapGestureEngine.cs:140-196 | a terminal engine ignores the up; otherwise the end point is recorded, the up time is unchanged, and exactly one of Completed or Aborted is raised; a started engine completes iff min <= now - down time <= max and the touch moved at most the limit |
| TapGesture.TrackTouchMove | Blake.NUI.WPF/Gestures/TapGestureEngine.cs:198-208 | a terminal engine ignores the move; otherwise the move aborts iff it is farther than the limit from the start point, and neither point changes |
| TapGesture.AbortGesture | Blake.NUI.WPF/Gestures/TapGestureEngine.cs:210-215 | every call, even on a terminal engine, stops the timer, sets the aborted flag and appends one Aborted; nothing else changes |
| TapGesture.AbortGestureIsProcessStatus | Blake.NUI.WPF/Gestures/TapGestureEngine.cs:140-215 | aborting equals running the status evaluation on a stopped, aborted engine, whatever the clock says |
| TapGesture.CompletedThenAborted | Blake.NUI.WPF/Gestures/TapGestureEngine.cs:130-196 | a successful touch-up completes the engine with its timer still running; the next tick aborts it, so both flags are set and Aborted follows Completed |
| TapGesture.RejectedThenAbortedAgain | Blake.NUI.WPF/Gestures/TapGestureEngine.cs:130-163 | a touch-up that moved too far aborts without stopping the timer, and its tick raises a second Aborted |
| TapGesture.StepPreservesInv | Blake.NUI.WPF/Gestures/TapGestureEngine.cs:140-215 | every down, up, move, abort or tick keeps the flags in step with the trace: Completed raised exactly once iff completed, Aborted raised iff aborted |
| TapGesture.RunPreservesInv | Blake.NUI.WPF/Gestures/TapGestureEngine.cs:140-215 | along any sequence of inputs from a new engine, Completed is raised at most once |
| HoldGesture.New | Blake.NUI.WPF/Gestures/HoldGestureEngine.cs:62-73 | a negative movement limit becomes Double.MaxValue and a non-negative one is kept; the engine starts idle with both points at the origin |
| HoldGesture.ProcessStatus | Blake.NUI.WPF/Gestures/HoldGestureEngine.cs:82-112 | the one-shot timer is stopped; the engine is aborted iff it was already or the end point is too far from the start; it is completed iff it was already or is not aborted; exactly one of Aborted or Completed is raised |
| HoldGesture.AbortGesture | Blake.NUI.WPF/Gestures/HoldGestureEngine.cs:75-80 | the timer stops, the engine is aborted, the completed flag is untouched and exactly one Aborted is raised; nothing else about the engine changes |
| HoldGesture.TrackTouchDown | Blake.NUI.WPF/Gestures/HoldGestureEngine.cs:120-131 | a terminal engine ignores the down; otherwise the start point is recorded, the engine starts, raises Started and arms the timer |
| HoldGesture.TrackTouchUp | Blake.NUI.WPF/Gestures/HoldGestureEngine.cs:133-136 | every up, even after completion, stops the timer, aborts the engine and raises exactly one Aborted, leaving the completed flag and everything else unchanged |
| HoldGesture.TrackTouchMove | Blake.NUI.WPF/Gestures/HoldGestureEngine.cs:138-148 | a terminal engine ignores the move; otherwise it aborts iff the move is farther than the limit from the start point, and then stops the timer, raises exactly one Aborted and changes nothing else; a move within the limit changes nothing |
| HoldGesture.Tick | Blake.NUI.WPF/Gestures/HoldGestureEngine.cs:69-72 | the tick stops the one-shot timer; the hold is aborted iff it already was or the end point is farther than the limit from the start; it is completed iff it already was or is not aborted; exactly one of Aborted or Completed is raised; start point, end point, started flag, limit and timeout are unchanged |
| HoldGesture.StepPreservesInv | Blake.NUI.WPF/Gestures/HoldGestureEngine.cs:62-148 | every input keeps the end point at the origin, a terminal engine's timer stopped, Completed raised once iff completed and Aborted raised iff aborted |
| HoldGesture.TickMeasuresFromOrigin | Blake.NUI.WPF/Gestures/HoldGestureEngine.cs:69-112 | on any reachable engine with a running timer, the tick completes iff the start point is within the limit of the origin, wherever the touch is |
| HoldGesture.UpAfterCompletion | Blake.NUI.WPF/Gestures/HoldGestureEngine.cs:133-136 | lifting after completion leaves the engine both completed and aborted, with Aborted after Completed |
| HoldGesture.DefaultLimitIsMaxValue | Blake.NUI.WPF/Gestures/HoldGestureEngine.cs:64-65 | with the registered default limit of -1 the engine's limit is Double.MaxValue |
| DoubleTapGesture.New | Blake.NUI.WPF/Gestures/DoubleTapGestureEngine.cs:120-145 | both sub-taps are fresh tap engines with the same limits; the composite is idle with its gap timer stopped |
| DoubleTapGesture.AbortGesture | Blake.NUI.WPF/Gestures/DoubleTapGestureEngine.cs:239-250 | a terminal composite is left alone; otherwise it is aborted, its gap timer stops, both sub-taps are aborted and exactly one Aborted is raised |
| DoubleTapGesture.AbortGestureIdempotent | Blake.NUI.WPF/Gestures/DoubleTapGestureEngine.cs:239-250 | aborting twice is aborting once |
| DoubleTapGesture.OnFirstTap | Blake.NUI.WPF/Gestures/DoubleTapGestureEngine.cs:141-161 | the first tap's completion arms the gap timer unless the second tap has started; its abort aborts the composite; Started changes nothing |
| DoubleTapGesture.OnSecondTap | Blake.NUI.WPF/Gestures/DoubleTapGestureEngine.cs:163-172 | the second tap's completion completes the composite and raises Completed; its abort aborts the composite |
| DoubleTapGesture.TrackTouchDown | Blake.NUI.WPF/Gestures/DoubleTapGestureEngine.cs:178-207 | the first down goes to the first tap and raises Started; a second down too far from the first tap's end aborts, a near one stops the gap timer and goes to the second tap; any further down aborts |
| DoubleTapGesture.TrackTouchUp | Blake.NUI.WPF/Gestures/DoubleTapGestureEngine.cs:209-222 | an up goes to the first tap until it completes and then to the second; the composite completes only when the second tap does |
| DoubleTapGesture.TrackTouchMove | Blake.NUI.WPF/Gestures/DoubleTapGestureEngine.cs:224-237 | a move is routed like an up, never completes the composite, and raises nothing or a single Aborted |
| DoubleTapGesture.Tick | Blake.NUI.WPF/Gestures/DoubleTapGestureEngine.cs:141-172 | any of the three timers aborts a live composite with exactly one Aborted, and leaves a terminal one's flags and trace as they were |
| DoubleTapGesture.FirstTapTimerOutlivesFirstTap | Blake.NUI.WPF/Gestures/DoubleTapGestureEngine.cs:152-222 | after the first tap completes, its own timer is still running, and its tick aborts the double tap |
| DoubleTapGesture.StepPreservesInv | Blake.NUI.WPF/Gestures/DoubleTapGestureEngine.cs:120-250 | every input keeps the composite completed iff the second tap completed, never both completed and aborted, Started raised iff started, and the gap timer stopped once aborted |
| DoubleTapGesture.RunPreservesInv | Blake.NUI.WPF/Gestures/DoubleTapGestureEngine.cs:120-250 | along any inputs from a new engine, Completed and Aborted together are raised at most once |
| GestureEngine.TrackTouchDown | Blake.NUI.WPF/Gestures/IGestureEngine.cs:14-29 | through the interface a terminal engine ignores downs, and the trace only grows |
| GestureEngine.TrackTouchUp | Blake.NUI.WPF/Gestures/IGestureEngine.cs:30-35 | a terminal tap or double tap ignores an up, a hold engine always appends Aborted, and the trace only grows |
| GestureEngine.TrackTouchMove | Blake.NUI.WPF/Gestures/IGestureEngine.cs:36-41 | a terminal engine ignores moves, and a move raises nothing or a single Aborted: it never starts or completes a gesture |
| GestureEngine.AbortGesture | Blake.NUI.WPF/Gestures/IGestureEngine.cs:42-45 | every engine ends terminal; a live one appends exactly one Aborted |
| GestureEngine.Tick | Blake.NUI.WPF/Gestures/IGestureEngine.cs:50-61 | a tap or hold tick raises exactly one notification, a double-tap tick at most one, and no tick removes any |
| EngineHandlers.New | Blake.NUI.WPF/Gestures/EngineHandler.cs:38-46 | a new handler tracks its element, has no engine, routes per device or through one shared engine, and releases routing entries as the source does |
| EngineHandlers.StopTracking | Blake.NUI.WPF/Gestures/EngineHandler.cs:51-57 | only the tracking flag changes, to false |
| EngineHandlers.ReleaseAsWritten | Blake.NUI.WPF/Gestures/EngineHandler.cs:258-326 | as written, an ending engine removes whatever engine its device is mapped to, and the shared handler forgets its engine |
| EngineHandlers.Release | Blake.NUI.WPF/Gestures/EngineHandler.cs:258-326 | only an entry that refers to the ending engine itself is removed; every other entry is kept |
| EngineHandlers.ReleaseAgreesForCurrentEngine | Blake.NUI.WPF/Gestures/EngineHandler.cs:258-326 | when the ending engine is the one mapped, both releases give the same routing |
| EngineHandlers.ReleaseAsWrittenDropsNewerEngine | Blake.NUI.WPF/Gestures/EngineHandler.cs:258-263 | an older engine ending after its device was remapped unmaps the newer engine as written, but not under the corrected release |
| EngineHandlers.OnEvent | Blake.NUI.WPF/Gestures/EngineHandler.cs:140-153 | an engine no longer listened to, or a Started, changes nothing; Aborted releases the routing entry under the handler's rule, by device alone as written; Completed releases it the same way, records one completion with the hit element (else the tracked element) and the device, then stops listening |
| EngineHandlers.DriveWellFormed | Blake.NUI.WPF/Gestures/EngineHandler.cs:140-270 | reacting to what an engine raised keeps every routing entry pointing at an engine created for that device |
| EngineHandlers.AbortExisting | Blake.NUI.WPF/Gestures/EngineHandler.cs:210-217 | the device's engine, if any, is aborted and the device unmapped; other devices' entries are kept |
| EngineHandlers.CreateEngine | Blake.NUI.WPF/Gestures/EngineHandler.cs:64-72 | a fresh engine for the device is added and listened to; nothing else changes |
| EngineHandlers.TouchDown | Blake.NUI.WPF/Gestures/EngineHandler.cs:219-298 | an untracked handler ignores the down; per device, the old engine is aborted and the device mapped to a fresh engine that got the down; shared, the one engine is created on first use and gets every down, and stays the current engine unless that down ended its gesture; Handled is set iff the handler handles touch events |
| EngineHandlers.DownPerDevice | Blake.NUI.WPF/Gestures/EngineHandler.cs:210-231 | the device's old engine, if any, is aborted; the device is mapped to a new engine that received the down; every other device keeps its entry |
| EngineHandlers.DownShared | Blake.NUI.WPF/Gestures/EngineHandler.cs:289-298 | the shared engine is created on the first down and gets it; the created or existing engine stays current unless the down ended its gesture, and then the handler forgets it |
| EngineHandlers.SharedDownsReachOneEngine | Blake.NUI.WPF/Gestures/EngineHandler.cs:289-298 | after a first shared down that does not end the gesture, a second down from any device reaches the engine the first one created, and no engine is added |
| EngineHandlers.TouchMove | Blake.NUI.WPF/Gestures/EngineHandler.cs:233-307 | on an untracked handler, or for a device with no engine, the move is ignored and not marked handled; otherwise only the routed engine gets it, every other engine and every other device's routing entry is unchanged, the engine's own entry is released exactly when it was listened to and the move ended its gesture, and Handled is set iff the handler handles touch events |
| EngineHandlers.TouchUp | Blake.NUI.WPF/Gestures/EngineHandler.cs:245-316 | an up is routed like a move: only the device's engine receives it, at the current time; other devices' entries are kept and the engine's own entry is released exactly when it was listened to and the up ended its gesture |
| EngineHandlers.Tick | Blake.NUI.WPF/Gestures/EngineHandler.cs:140-153 | a timer tick reaches the engine it belongs to; the engine's routing entry is released exactly when the handler listened to it and the tick ended its gesture, and every routing entry keeps pointing at an engine created for its device |
| EngineHandlers.DeliverRouting | Blake.NUI.WPF/Gestures/EngineHandler.cs:140-153 | after any run of notifications the routing is released once, under the handler's rule, exactly when the engine was listened to and the run held Aborted or Completed, and is otherwise kept |
| EngineHandlers.DriveRouting | Blake.NUI.WPF/Gestures/EngineHandler.cs:140-153 | an engine operation changes the routing only by releasing that engine's entry, and only when it raised Aborted or Completed while listened to |
| EngineHandlers.StaleTapTimerTrace | Blake.NUI.WPF/Gestures/EngineHandler.cs:219-263 | down, far up, down again on one device leave the aborted first tap listened to with its timer running and the device mapped to the new engine; the first tap's tick then unmaps the device as written and keeps it mapped under the corrected release |
| EngineHandlers.StaleTimerDropsNewerEngine | Blake.NUI.WPF/Gestures/EngineHandler.cs:258-263 | on a handler as the source builds it, the stale tap timer's Aborted removes the newer engine's routing entry, so the device's gesture in progress is no longer routed |
| EngineHandlers.StaleTapTimer | Blake.NUI.WPF/Gestures/EngineHandler.cs:219-263 | on a handler with the corrected release, the same stale tick leaves the device mapped to its newer engine |
| MathUtility.IsEqualFuzzy | Blake.NUI.WPF/Utility/MathUtility.cs:11-14 | the result holds iff b lies strictly within eps of a |
| MathUtility.IsEqualFuzzySymmetric | Blake.NUI.WPF/Utility/MathUtility.cs:11-14 | fuzzy equality is symmetric |
| MathUtility.IsEqualFuzzyReflexive | Blake.NUI.WPF/Utility/MathUtility.cs:11-14 | a value is fuzzily equal to itself iff the tolerance is positive |
| MathUtility.MapValue | Blake.NUI.WPF/Utility/MathUtility.cs:16-22 | an empty source interval gives no finite value; otherwise the result divides the target interval in the ratio the value divides the source |
| MathUtility.MapValueEndpoints | Blake.NUI.WPF/Utility/MathUtility.cs:16-22 | the source endpoints go to the target endpoints |
| MathUtility.MapValueRoundTrip | Blake.NUI.WPF/Utility/MathUtility.cs:16-22 | mapping to the target interval and back gives the value back |
| MathUtility.Clamp | Blake.NUI.WPF/Utility/MathUtility.cs:24-29 | the result lies between the bounds in either order, is the value when it is in range, and is the nearer bound otherwise |
| MathUtility.ClampSymmetric | Blake.NUI.WPF/Utility/MathUtility.cs:26-27 | swapping the bounds changes nothing |
| MathUtility.ClampIdempotent | Blake.NUI.WPF/Utility/MathUtility.cs:24-29 | clamping twice is clamping once |
| MathUtility.Remainder360 | Blake.NUI.WPF/Utility/MathUtility.cs:33 | C#'s remainder by 360 differs from the angle by whole turns and lies in [0, 360) for a non-negative angle and in (-360, 0] for a negative one |
| MathUtility.NormalizeAngle | Blake.NUI.WPF/Utility/MathUtility.cs:31-43 | the result lies in [0, 360) and differs from the angle by whole turns |
| MathUtility.NormalizeAnglePeriodic | Blake.NUI.WPF/Utility/MathUtility.cs:31-43 | angles that differ by whole turns normalise alike |
| MathUtility.NormalizeAngleInRange | Blake.NUI.WPF/Utility/MathUtility.cs:31-43 | an angle already in [0, 360) is unchanged |
| MathUtility.RotateVector | Blake.NUI.WPF/Utility/MathUtility.cs:45-52 | rotating by 0 is the identity, and a rotation whose cosine and sine satisfy cos² + sin² = 1 keeps the length |
| MathUtility.RotateVectorIsRotationAt | Blake.NUI.WPF/Utility/MathUtility.cs:45-52 | the vector rotation is the `RotateAt` matrix about the origin |
| MathUtility.RotateVectorLinear | Blake.NUI.WPF/Utility/MathUtility.cs:45-52 | rotation commutes with sums and scalar multiples |
| BoundedManipulationRange.Overflow | Blake.NUI.WPF/ManipulationHelpers/BoundedManipulationRange.cs:229-240 | the overflow is negative iff the position is below the lower boundary, positive iff it is above the upper one and not below the lower, and with ordered boundaries clamped position plus overflow is the position |
| BoundedManipulationRange.RubberStretch | Blake.NUI.WPF/ManipulationHelpers/BoundedManipulationRange.cs:247-253 | the stretch is non-finite exactly when it divides a non-zero value by zero, and is 0 for a zero overflow |
| BoundedManipulationRange.RubberStretchPositive | Blake.NUI.WPF/ManipulationHelpers/BoundedManipulationRange.cs:247-253 | a positive overflow stretches to strictly between 0 and the margin |
| BoundedManipulationRange.RubberStretchNegative | Blake.NUI.WPF/ManipulationHelpers/BoundedManipulationRange.cs:247-253 | a negative overflow stretches to strictly between minus the margin and 0 |
| BoundedManipulationRange.RubberStretchAtMargin | Blake.NUI.WPF/ManipulationHelpers/BoundedManipulationRange.cs:247-253 | an overflow equal to the margin stretches to half of it |
| BoundedManipulationRange.StretchFormula | Blake.NUI.WPF/ManipulationHelpers/BoundedManipulationRange.cs:247-253 | a finite stretch is sign(v) * m * abs(v) / (abs(v) + m) |
| BoundedManipulationRange.SetLower | Blake.NUI.WPF/ManipulationHelpers/BoundedManipulationRange.cs:21-37 | the boundary holds the value, the object is dirty iff it was or the value changed, nothing else moves, and a sound cache stays sound |
| BoundedManipulationRange.SetUpper | Blake.NUI.WPF/ManipulationHelpers/BoundedManipulationRange.cs:43-59 | as for the lower boundary |
| BoundedManipulationRange.SetElasticMargin | Blake.NUI.WPF/ManipulationHelpers/BoundedManipulationRange.cs:65-82 | as for the lower boundary |
| BoundedManipulationRange.SetPosition | Blake.NUI.WPF/ManipulationHelpers/BoundedManipulationRange.cs:88-104 | as for the lower boundary |
| BoundedManipulationRange.VerifyValues | Blake.NUI.WPF/ManipulationHelpers/BoundedManipulationRange.cs:222-245 | afterwards the object is clean with derived values matching the inputs, which are unchanged |
| BoundedManipulationRange.GetBoundedPosition | Blake.NUI.WPF/ManipulationHelpers/BoundedManipulationRange.cs:110-125 | a read gives the position clamped to the boundaries |
| BoundedManipulationRange.GetElasticOffset | Blake.NUI.WPF/ManipulationHelpers/BoundedManipulationRange.cs:131-139 | a read gives the rubber stretch of the current overflow |
| BoundedManipulationRange.GetBoundaryOverflow | Blake.NUI.WPF/ManipulationHelpers/BoundedManipulationRange.cs:145-153 | a read gives the current overflow |
| BoundedManipulationRange.OutOfBoundsIffOverflow | Blake.NUI.WPF/ManipulationHelpers/BoundedManipulationRange.cs:145-214 | the position is out of bounds iff the overflow read is non-zero |
| BoundedManipulationRange.ElasticMarginBeyondBoundary | Blake.NUI.WPF/ManipulationHelpers/BoundedManipulationRange.cs:159-201 | with a non-negative margin, passing an elastic margin implies passing its boundary |
| BoundedManipulationRange.BoundedPlusOverflow | Blake.NUI.WPF/ManipulationHelpers/BoundedManipulationRange.cs:110-153 | with ordered boundaries the two reads add up to the position |
| BoundedManipulationRange.InitialValid | Blake.NUI.WPF/ManipulationHelpers/BoundedManipulationRange.cs:13-104 | the new object's clean cache already matches its defaults |
| BoundedManipulationRange.RunReadsCurrent | Blake.NUI.WPF/ManipulationHelpers/BoundedManipulationRange.cs:21-245 | along any sequence of writes and reads, every read matches the inputs at that moment |
| Display.OnViewChanged | Blake.NUI.WPF/Common/DisplayMatrix.cs:294-301 | the object and its matrix become dirty and one ViewChanged is raised |
| Display.SetIsDirty | Blake.NUI.WPF/Common/DisplayMatrix.cs:46-59 | setting the flag marks the matrix dirty; clearing it leaves the matrix flag alone |
| Display.SetZIndex | Blake.NUI.WPF/Common/DisplayMatrix.cs:66-78 | the z-index is stored and a ViewChanged is raised; the geometry is unchanged |
| Display.SetDpCenter | Blake.NUI.WPF/Common/DisplayMatrix.cs:111-135 | a property-system write of an equal center changes nothing; a different one reaches the field and raises ViewChanged |
| Display.SetCenter | Blake.NUI.WPF/Common/DisplayMatrix.cs:111-120 | both copies of the center hold the value and the matrix is dirty |
| Display.SetOrientation | Blake.NUI.WPF/Common/DisplayMatrix.cs:142-166 | the stored orientation is the normalised value, in [0, 360); the property system holds the raw value |
| Display.SetOrientationPeriodic | Blake.NUI.WPF/Common/DisplayMatrix.cs:142-151 | orientations that differ by whole turns are stored identically |
| Display.SetDpOrientation | Blake.NUI.WPF/Common/DisplayMatrix.cs:158-166 | a different property-system value reaches the field normalised; an equal one changes nothing |
| Display.SetScale | Blake.NUI.WPF/Common/DisplayMatrix.cs:173-183 | the scale is stored and the actual size becomes original size times scale |
| Display.SetDpScale | Blake.NUI.WPF/Common/DisplayMatrix.cs:189-198 | a different property-system value reaches the field and recouples the actual size; an equal one changes nothing |
| Display.SetOriginalSize | Blake.NUI.WPF/Common/DisplayMatrix.cs:213-232 | an equal size changes nothing; otherwise the actual size is recoupled to the scale |
| Display.SetActualSize | Blake.NUI.WPF/Common/DisplayMatrix.cs:248-270 | an equal size changes nothing; a zero original dimension gives no finite scale; otherwise the scale becomes actual over original |
| Display.ActualSizeRoundTrip | Blake.NUI.WPF/Common/DisplayMatrix.cs:248-270 | on a non-zero original size every actual size is accepted, and restoring the old scale restores the old actual size exactly |
| Display.GetTransformMatrix | Blake.NUI.WPF/Common/DisplayMatrix.cs:88-96 | with a sound cache, the read is the matrix generated from the current center, orientation and scale, and the cache stays sound |
| Display.SetTransformMatrix | Blake.NUI.WPF/Common/DisplayMatrix.cs:97-102 | the matrix is stored, but the ViewChanged raised marks it stale at once |
| Display.WrittenMatrixIsRegenerated | Blake.NUI.WPF/Common/DisplayMatrix.cs:88-102 | a matrix written through the setter is never read back; the next read regenerates it |
| Display.UpdateMatrix | Blake.NUI.WPF/Common/DisplayMatrix.cs:364-367 | the generated matrix is written through the setter |
| Display.GenerateMaps | Blake.NUI.WPF/Common/DisplayMatrix.cs:373-391 | the generated matrix maps p to the rotated and scaled p plus the center, leaving out a NaN center |
| Display.GenerateMapsOriginToCenter | Blake.NUI.WPF/Common/DisplayMatrix.cs:373-391 | the generated matrix sends the origin to a finite center |
| Display.New | Blake.NUI.WPF/Common/DisplayMatrix.cs:278-286 | a new object has center (0, 0), orientation 0, scale (1, 1), sizes 1 by 1, z-index 100000, and satisfies the invariant |
| Display.NewReadsPlacedAtOrigin | Blake.NUI.WPF/Common/DisplayMatrix.cs:278-391 | a new object's matrix reads as the translation to the origin |
| Display.BatchUpdate | Blake.NUI.WPF/Common/DisplayMatrix.cs:347-362 | center and scale are stored in both copies with the size coupled; the orientation is normalised only when the property system held a different value |
| Display.BatchUpdateKeepsRawOrientation | Blake.NUI.WPF/Common/DisplayMatrix.cs:347-362 | after the orientation setter stores 40 for 400, a batch update with 400 leaves 400 |
| Display.ResetCenter | Blake.NUI.WPF/Common/DisplayMatrix.cs:311-320 | NaN coordinates of the center become 0 through the setter; a finite center is left alone |
| Display.CorrectedCenter | Blake.NUI.WPF/Common/DisplayMatrix.cs:322-339 | the corrected center is the manipulation origin plus the rotated offset plus the extra length the X scale adds to it |
| Display.ManipulationDelta | Blake.NUI.WPF/Common/DisplayMatrix.cs:307-345 | the new scale is the componentwise product, the orientation the old plus the delta, normalised unless the property system held it; the size stays coupled |
| Display.ManipulationDeltaCenter | Blake.NUI.WPF/Common/DisplayMatrix.cs:311-345 | the new center is the origin plus the rotated offset plus the offset scaled by sX - 1, after NaN resets |
| Display.ManipulationScalesAboutOrigin | Blake.NUI.WPF/Common/DisplayMatrix.cs:322-345 | without rotation the center is scaled about the manipulation origin |
| Display.ManipulationRotatesAboutOrigin | Blake.NUI.WPF/Common/DisplayMatrix.cs:322-345 | without X scaling the center turns about the manipulation origin, and keeps its distance whenever cos² + sin² = 1 |
| Display.ManipulationPureTranslation | Blake.NUI.WPF/Common/DisplayMatrix.cs:322-345 | with neither rotation nor scaling the center moves by the translation delta |
| Display.ApplyPreservesValid | Blake.NUI.WPF/Common/DisplayMatrix.cs:43-367 | every operation keeps the size coupling and the matrix cache sound, so every read of the matrix is generated from the current state |
| Display.BoundsToMatrix | Blake.NUI.WPF/Common/DisplayMatrix.cs:406-430 | the conversion fails iff a default dimension is zero; otherwise the result is centred on the rectangle, unrotated, with the uniform fitting scale on both axes |
| Display.BoundsToMatrixValid | Blake.NUI.WPF/Common/DisplayMatrix.cs:406-430 | the object returned satisfies the invariant every operation keeps |
| Display.UniformFit | Blake.NUI.WPF/Common/DisplayMatrix.cs:413-428 | the chosen scale makes the default size fit inside the rectangle and fill one dimension |
| ScatterMatrixHelper.GetRenderOrigin | Blake.NUI.WPF/Common/ScatterMatrixHelper.cs:95-98 | the normalised origin (0.5, 0.5) is the box's midpoint and (0, 0) its corner |
| ScatterMatrixHelper.RenderMatrixMaps | Blake.NUI.WPF/Common/ScatterMatrixHelper.cs:108-115 | the render matrix rotates and scales about the render origin and then translates by the offset |
| ScatterMatrixHelper.RenderOriginFixed | Blake.NUI.WPF/Common/ScatterMatrixHelper.cs:108-115 | with no offset the render origin stays fixed |
| ScatterMatrixHelper.CalculateRenderOffset | Blake.NUI.WPF/Common/ScatterMatrixHelper.cs:75-86 | the offset moves the rendered midpoint exactly onto the requested center |
| ScatterMatrixHelper.CenteredOriginOffset | Blake.NUI.WPF/Common/ScatterMatrixHelper.cs:75-98 | with a centred render origin the offset is center minus half the size, for every angle and scale |
| ScatterMatrixHelper.UnrotatedOffset | Blake.NUI.WPF/Common/ScatterMatrixHelper.cs:75-115 | without rotation the offset is center - (o + s * (size / 2 - o)) |
| Zoom.New | Blake.NUI.WPF/Controls/ZoomCanvas.cs:297-308 | the timer runs, rotation is enabled, the canvas is unlocked and needs an update, with no matrix or element yet |
| Zoom.Observe | Blake.NUI.WPF/Controls/ZoomCanvas.cs:453-456 | the held matrix takes its new state, and the update flag is set iff it was already or the matrix raised ViewChanged |
| Zoom.SetZoomMatrix | Blake.NUI.WPF/Controls/ZoomCanvas.cs:69-89 | the same instance changes nothing; another one is held and sets the update flag |
| Zoom.GetZoomMatrix | Blake.NUI.WPF/Controls/ZoomCanvas.cs:57-68 | a held matrix is returned as it is; the first read creates one centred at (0, 0) |
| Zoom.GetCenter | Blake.NUI.WPF/Controls/ZoomCanvas.cs:101-108 | the center read is the held matrix's center, (0, 0) for a new matrix |
| Zoom.SetCenter | Blake.NUI.WPF/Controls/ZoomCanvas.cs:110-122 | a center equal by == changes nothing; otherwise the matrix gets it and the update flag is set |
| Zoom.SetCenterIdempotent | Blake.NUI.WPF/Controls/ZoomCanvas.cs:110-122 | setting the same finite center twice is setting it once |
| Zoom.SetNaNCenterAlwaysUpdates | Blake.NUI.WPF/Controls/ZoomCanvas.cs:110-122 | a NaN center never compares equal, so it always reaches the matrix |
| Zoom.ChildSetState | Blake.NUI.WPF/Controls/ZoomCanvas.cs:393-397 | the matrix gets a batch update of center, orientation and scale; the lock state is untouched |
| Zoom.ChildSetStateIgnoresLock | Blake.NUI.WPF/Controls/ZoomCanvas.cs:393-397 | the lock request in the state makes no difference |
| Zoom.RenderOffset | Blake.NUI.WPF/Controls/ZoomCanvas.cs:433-442 | the offset is the scatter render offset for a finite center and NaN where the center is |
| Zoom.UpdateZoomElement | Blake.NUI.WPF/Controls/ZoomCanvas.cs:433-442 | without an element nothing happens; otherwise the element shows the matrix's rotation, scale and render offset, and the flag is cleared unless the matrix had to be created |
| Zoom.UpdateZoomView | Blake.NUI.WPF/Controls/ZoomCanvas.cs:421-431 | the matrix gets the manipulation delta, with rotation dropped when disabled; with an element the view is rendered at once and no update stays pending, without one it stays pending |
| Zoom.ChildManipulationDelta | Blake.NUI.WPF/Controls/ZoomCanvas.cs:399-403 | the delta lands on the held (or newly created) matrix, with rotation dropped when disabled; an attached element is rendered at once with no update pending, and without one the update stays pending |
| Zoom.RotateDisabledKeepsOrientation | Blake.NUI.WPF/Controls/ZoomCanvas.cs:421-431 | with rotation disabled the orientation moves only by normalisation |
| Zoom.TickCoalesces | Blake.NUI.WPF/Controls/ZoomCanvas.cs:458-464 | with an element, a tick renders and clears the flag, and a second tick does nothing |
| Zoom.Tick | Blake.NUI.WPF/Controls/ZoomCanvas.cs:458-464 | the timer keeps running; without a pending update or without an element nothing changes; otherwise the element shows the matrix's rotation and scale, ViewChanged is raised once, the held matrix is kept and no update stays pending |
| Zoom.TickWithoutElement | Blake.NUI.WPF/Controls/ZoomCanvas.cs:433-464 | without an element the flag is never cleared, and every tick changes nothing |
| Zoom.TickRendersCenter | Blake.NUI.WPF/Controls/ZoomCanvas.cs:433-464 | after a tick the element's midpoint is rendered onto the matrix's center |
| Zoom.UpdateIsLocked | Blake.NUI.WPF/Controls/ZoomCanvas.cs:466-479 | an element is hit-testable iff the canvas is unlocked |
| Zoom.SetIsLocked | Blake.NUI.WPF/Controls/ZoomCanvas.cs:183-212 | a changed lock reaches the element's hit-testability; an equal one changes nothing |
| Zoom.SetIsLockedKeepsLockApplied | Blake.NUI.WPF/Controls/ZoomCanvas.cs:466-479 | once applied, the lock state stays applied to the element through every lock write |
| Zoom.OnApplyTemplate | Blake.NUI.WPF/Controls/ZoomCanvas.cs:314-331 | the template's element is picked up and the lock state applied to it |
| Zoom.SetIsRotateEnabled | Blake.NUI.WPF/Controls/ZoomCanvas.cs:127 | only the rotation flag changes |
| Zoom.Loaded | Blake.NUI.WPF/Controls/ZoomCanvas.cs:414-417 | the view is centred on the middle of the control |
| Zoom.ViewMatrix | Blake.NUI.WPF/Controls/ZoomCanvas.cs:129-135 | with a sound cache, the view matrix is the one generated from the held matrix's center, orientation and scale |
| Zoom.ViewMatrixInvert | Blake.NUI.WPF/Controls/ZoomCanvas.cs:145-158 | the result undoes an invertible view matrix, and is the identity when the view matrix has no inverse |
| Zoom.WorldToScreen | Blake.NUI.WPF/Controls/ZoomCanvas.cs:337-340 | with a sound cache, a world point is placed by the matrix generated from the held center, orientation and scale |
| Zoom.ScreenToWorld | Blake.NUI.WPF/Controls/ZoomCanvas.cs:347-350 | with an invertible view the result is the world point the view maps onto the screen point; with a singular view the point is returned as it is |
| Zoom.ScreenToWorldInvertsWorldToScreen | Blake.NUI.WPF/Controls/ZoomCanvas.cs:337-355 | with an invertible view, screen-to-world undoes world-to-screen |
| Zoom.WorldToScreenVector | Blake.NUI.WPF/Controls/ZoomCanvas.cs:342-345 | a world vector maps to the screen displacement between the images of any two world points that far apart, so the view's translation plays no part |
| Zoom.ScreenToWorldVector | Blake.NUI.WPF/Controls/ZoomCanvas.cs:352-355 | with an invertible view the result is the world vector the view maps onto the screen vector; with a singular view the vector is returned as it is |
| Zoom.ScreenToWorldVectorInvertsWorldToScreenVector | Blake.NUI.WPF/Controls/ZoomCanvas.cs:342-355 | with an invertible view, screen-to-world undoes world-to-screen for vectors |
| ActivatingControl.SetActivationStatus | Blake.NUI.WPF/Controls/Primitives/ActivatingContentControl.cs:57-68 | an equal status changes nothing; a different one is stored with a notification, and `IsActive` follows only on reaching Active or Inactive |
| ActivatingControl.SetEnabledStatus | Blake.NUI.WPF/Controls/Primitives/ActivatingContentControl.cs:138-152 | the enablement twin of the activation status setter |
| ActivatingControl.OnActivating | Blake.NUI.WPF/Controls/Primitives/ActivatingContentControl.cs:431-449 | activation ends Active, or stays Activating when the override reports it handled the transition |
| ActivatingControl.OnDeactivating | Blake.NUI.WPF/Controls/Primitives/ActivatingContentControl.cs:451-469 | deactivation ends Inactive, or stays Deactivating when the override reports it handled the transition |
| ActivatingControl.OnEnabling | Blake.NUI.WPF/Controls/Primitives/ActivatingContentControl.cs:475-493 | enabling ends Enabled, or stays Enabling when the override reports it handled the transition |
| ActivatingControl.OnDisabling | Blake.NUI.WPF/Controls/Primitives/ActivatingContentControl.cs:495-513 | disabling ends Disabled, or stays Disabling when the override reports it handled the transition |
| ActivatingControl.SetIsActive | Blake.NUI.WPF/Controls/Primitives/ActivatingContentControl.cs:372-390 | true activates only from Inactive or Deactivating, false deactivates only from Activating or Active, and afterwards active-or-activating equals the request |
| ActivatingControl.ToggleIsActive | Blake.NUI.WPF/Controls/Primitives/ActivatingContentControl.cs:392-403 | toggling flips active-or-activating and is `SetIsActive` of its negation |
| ActivatingControl.SetIsEnabled | Blake.NUI.WPF/Controls/Primitives/ActivatingContentControl.cs:405-423 | the enablement twin of `SetIsActive` |
| ActivatingControl.WriteIsActiveProperty | Blake.NUI.WPF/Controls/Primitives/ActivatingContentControl.cs:96-109 | an equal `IsActive` value changes nothing; a changed one is stored and the activation machine ends Active or Activating exactly when the new value is true |
| ActivatingControl.WriteIsEnabledProperty | Blake.NUI.WPF/Controls/Primitives/ActivatingContentControl.cs:165-198 | an equal `IsEnabled` value changes nothing; a changed one moves enablement towards it |
| ActivatingControl.Loaded | Blake.NUI.WPF/Controls/Primitives/ActivatingContentControl.cs:617-628 | loading keeps both machines' directions |
| ActivatingControl.IsActiveCallbackInert | Blake.NUI.WPF/Controls/Primitives/ActivatingContentControl.cs:102-109 | the property written on reaching an end state calls back into a state where it does nothing |
| ActivatingControl.ApplyPreservesInv | Blake.NUI.WPF/Controls/Primitives/ActivatingContentControl.cs:57-628 | every call, whatever the overrides return, keeps both properties agreeing with the end states |
| ActivatingControl.ActivateOrder | Blake.NUI.WPF/Controls/Primitives/ActivatingContentControl.cs:431-533 | with the base overrides, activation raises status change, Activating, status change, Activated in that order |
| ActivatingControl.DeactivateOrder | Blake.NUI.WPF/Controls/Primitives/ActivatingContentControl.cs:451-550 | with the base overrides, deactivation passes through Deactivating to Inactive in order |
| ActivatingControl.DisableOrder | Blake.NUI.WPF/Controls/Primitives/ActivatingContentControl.cs:495-513 | with the base overrides, disabling an enabled control ends Disabled and raises status change, Disabling, status change, the `IsEnabled` change from true to false, Disabled in that order |
| ActivatingControl.DefaultsReachEndStates | Blake.NUI.WPF/Controls/Primitives/ActivatingContentControl.cs:431-590 | with the base overrides every call ends in end states |
| RadialStackPanel.SetInnerRadius | Blake.NUI.WPF/Controls/RadialStackPanel.cs:37-45 | the property setter stores the radius and sets the flag, whatever the value |
| RadialStackPanel.SetOuterRadius | Blake.NUI.WPF/Controls/RadialStackPanel.cs:85-93 | as for the inner radius |
| RadialStackPanel.WriteInnerRadius | Blake.NUI.WPF/Controls/RadialStackPanel.cs:55-79 | a direct property write sets the flag iff the value changed (or it was set) |
| RadialStackPanel.WriteOuterRadius | Blake.NUI.WPF/Controls/RadialStackPanel.cs:103-127 | as for the inner radius |
| RadialStackPanel.ApplyRadiusPreservesInv | Blake.NUI.WPF/Controls/RadialStackPanel.cs:37-127 | a set flag stays set, and a clear flag means the radius still holds its default |
| RadialStackPanel.ElementRadius | Blake.NUI.WPF/Controls/RadialStackPanel.cs:296-334 | Left puts the near edge on the inner radius, Right the far edge on the outer, Center or Stretch centres the child between them; a missing radius falls back to the other, else 0 |
| RadialStackPanel.StartAngle | Blake.NUI.WPF/Controls/RadialStackPanel.cs:232-246 | the arc starts at `Angle` for Top, ends there for Bottom, and is centred on it otherwise |
| RadialStackPanel.MeasureArc | Blake.NUI.WPF/Controls/RadialStackPanel.cs:221-230 | the first loop's total is the sum of the gaps between neighbours |
| RadialStackPanel.PlaceChildren | Blake.NUI.WPF/Controls/RadialStackPanel.cs:251-291 | child i is placed at the start plus the advances of the children before it |
| RadialStackPanel.Arrange | Blake.NUI.WPF/Controls/RadialStackPanel.cs:197-291 | layout is skipped iff there are no children or no radius was set; otherwise each child gets its angle |
| RadialStackPanel.LastAngle | Blake.NUI.WPF/Controls/RadialStackPanel.cs:221-291 | with no child at radius 0, the last child lies the total arc past the first |
| RadialStackPanel.CentredArc | Blake.NUI.WPF/Controls/RadialStackPanel.cs:221-291 | centred alignment puts `Angle` midway between the first and last child, and Bottom puts the last child at `Angle` |
| RadialStackPanel.ZeroRadiusShiftsStart | Blake.NUI.WPF/Controls/RadialStackPanel.cs:221-291 | children at radius 0 count their gaps but do not advance, so a centred arc is shifted |
| InputFilter.GetIsFilterValid | Blake.NUI.WPF/InputFilter.cs:132-137 | an unseen device has no verdict; a seen one has the stored verdict |
| InputFilter.SetIsFilterValid | Blake.NUI.WPF/InputFilter.cs:139-149 | the device's verdict becomes the value by add-or-overwrite; other devices are unchanged |
| InputFilter.ProcessEvent | Blake.NUI.WPF/InputFilter.cs:162-179 | the event is handled iff it was or the final verdict is invalid; the final verdict is stored for the device only |
| InputFilter.ProcessEventDeactivation | Blake.NUI.WPF/InputFilter.cs:153-160 | the event is processed as usual and the device then forgotten |
| InputFilter.NextEventSeesStoredVerdict | Blake.NUI.WPF/InputFilter.cs:164-178 | the device's next event, through any filter, is decided knowing the stored verdict |
| InputFilter.DeactivationForgets | Blake.NUI.WPF/InputFilter.cs:153-160 | after deactivation the device is decided as if never seen |
| InputFilter.HandledOnlyGrows | Blake.NUI.WPF/InputFilter.cs:173-176 | a handled event stays handled; an unhandled one becomes handled iff it is rejected |
| TouchReports.Pending | Blake.NUI.WPF/Touch/CustomTouchDevice.cs:74-131 | every id with a touch in progress had a down reported |
| TouchReports.AppendReport | Blake.NUI.WPF/Touch/CustomTouchDevice.cs:74-131 | a down adds its id to the touches in progress, an up removes it, a move keeps them; the reports stay bracketed iff the new one is allowed |
| TouchReports.PositionRoundTrip | Blake.NUI.WPF/Touch/CustomTouchDevice.cs:25-48 | on a root of non-zero size every flip and swap mapping is undone by the inverse mapping |
| TouchReports.PlainOrientationCorners | Blake.NUI.WPF/Touch/TUIOTouchDevice.cs:28-51 | without flags the unit square's corners go to the root's corners; swapping exchanges the axes |
| CustomTouch.AddTouch | Blake.NUI.WPF/Touch/CustomTouchDevice.cs:74-96 | a new id is registered at the position and reports down; a known id changes nothing |
| CustomTouch.UpdateTouch | Blake.NUI.WPF/Touch/CustomTouchDevice.cs:98-111 | an unknown id changes nothing; a known one moves and reports a move |
| CustomTouch.RemoveTouch | Blake.NUI.WPF/Touch/CustomTouchDevice.cs:113-131 | an unknown id changes nothing; a known one reports up at the given position if both coordinates are given, else at its last one, and is unregistered |
| CustomTouch.RunConsistent | Blake.NUI.WPF/Touch/CustomTouchDevice.cs:74-131 | along any calls, an id is registered iff a down was reported for it with no up since, and the reports are bracketed |
| CustomTouch.AddRemove | Blake.NUI.WPF/Touch/CustomTouchDevice.cs:74-131 | adding and at once removing a touch leaves the registry as it was with one down and one up reported |
| TuioTouch.Enqueue | Blake.NUI.WPF/Touch/TUIOTouchDevice.cs:249-262 | the listener's callbacks only append to the cache |
| TuioTouch.AddCursor | Blake.NUI.WPF/Touch/TUIOTouchDevice.cs:127-145 | a new id registers and reports down; a known id changes nothing, not even its position |
| TuioTouch.UpdateCursor | Blake.NUI.WPF/Touch/TUIOTouchDevice.cs:147-160 | an unknown id first reports down; then the cursor moves and reports a move |
| TuioTouch.RemoveCursor | Blake.NUI.WPF/Touch/TUIOTouchDevice.cs:162-178 | an unknown id first reports down; then it reports up and is unregistered |
| TuioTouch.Render | Blake.NUI.WPF/Touch/TUIOTouchDevice.cs:79-98 | the frame empties the cache and dispatches its records in arrival order |
| TuioTouch.RenderConsistent | Blake.NUI.WPF/Touch/TUIOTouchDevice.cs:79-178 | whatever records arrive, the registry after a frame holds exactly the touches in progress and the reports are bracketed |
| TuioTouch.FifoOrder | Blake.NUI.WPF/Touch/TUIOTouchDevice.cs:79-98 | an add queued before a move reports down, then move |
| NativeTouch.CeilingBelowOne | Blake.NUI.WPF/Touch/NativeTouchDevice.cs:245-248 | a length rounded up is below the 1-pixel threshold iff it is 0 |
| NativeTouch.DeviceTouchDown | Blake.NUI.WPF/Touch/NativeTouchDevice.cs:207-223 | the device records the message, place and time, is active, and reports down |
| NativeTouch.CoalesceEvents | Blake.NUI.WPF/Touch/NativeTouchDevice.cs:235-264 | a move is buffered without a report iff it comes under 5 ms after the last report or with zero displacement; otherwise it becomes the last reported event |
| NativeTouch.DeviceTouchUp | Blake.NUI.WPF/Touch/NativeTouchDevice.cs:266-284 | the buffer is cleared unless the previous event was buffered; an inactive device does nothing more, an active one reports up and deactivates |
| NativeTouch.TouchDown | Blake.NUI.WPF/Touch/NativeTouchDevice.cs:48-61 | a new id gets an active device that reports down; a known id changes nothing |
| NativeTouch.TouchMove | Blake.NUI.WPF/Touch/NativeTouchDevice.cs:63-76 | an unknown id is first touched down; only the moved id's device changes |
| NativeTouch.TouchUp | Blake.NUI.WPF/Touch/NativeTouchDevice.cs:78-94 | a known id's device handles the up; an unknown id is touched down and lifted at once; either way the id is unregistered afterwards |
| NativeTouch.UpInv | Blake.NUI.WPF/Touch/NativeTouchDevice.cs:48-94 | the registry keeps agreeing with the reports and every registered device stays active |
| NativeTouch.UpAlwaysReports | Blake.NUI.WPF/Touch/NativeTouchDevice.cs:78-94 | through the static handlers every up reports up |
| NativeTouch.MoveOfUnknownIdIsBuffered | Blake.NUI.WPF/Touch/NativeTouchDevice.cs:63-76 | a move of an unknown id reports only the synthesised down and is buffered |
| NativeTouch.QuickSecondMoveIsBuffered | Blake.NUI.WPF/Touch/NativeTouchDevice.cs:235-264 | a move under 5 ms after a reported one is buffered wherever it is |
| NativeTouch.TouchRect | Blake.NUI.WPF/Touch/NativeTouchDevice.cs:181-189 | a 1 by 1 contact becomes 20 by 20 centred on its corner; any other is kept |
| NativeTouch.GetTouchPoint | Blake.NUI.WPF/Touch/NativeTouchDevice.cs:173-201 | the touch point is the last message's location with the widened rectangle and its action |

## Left out

- Win32 interop is not part of this model: the touch handler, the window wrapper and `User32` flags. A native touch message is a record of id, location, contact rectangle and its down/up flags.
- The TUIO client connection, configuration reading and `Environment.Exit` are left out. The client's cursor objects are snapshots of id and position.
- `CircleText`, `AnimateUtility`, `VisualUtility`, `ManipulationUtility`, `InertiaDummyManipulator`, the touch visualisation adorner, `ZoomCanvasInputAdapterTouch`, `ZoomCanvasItem` and the gesture trigger classes are WPF plumbing.
- Cosine, sine and `Atan2` are parameters (`trig`, `arc`). No trigonometric identity beyond `trig(0) = (1, 0)` is used.
- `MathUtility.Get2DAngle` uses `Acos` and is left out.
- `ZoomCanvas.ViewScale`, `ViewScaleInvert` and `GetScaleFromMatrix` take a square root and are left out.
- `ZoomCanvas.FlyTo` and `DisplayMatrix.MatrixToBounds`, which only `FlyTo` uses, are animation and are left out.
- Zoom.StopFlyTo: no animation is modelled, so stopping only reads the matrix.
- `ZoomCanvas.ChildManipulationComplete` has an empty body. The `InputAdapter` property wiring and `RegisterZoomCanvas` are plumbing.
- `ScatterMatrixHelper.UpdateScatterMatrix` mutates a `TransformGroup`. The render state it produces is modelled as the rotation, scale and offset that `Zoom.UpdateZoomElement` gives the element.
- Property-change notifications (`INotifyPropertyChanged`) are left out. Only the ViewChanged count and the activating control's own notices are traced.
- DoubleTapGesture.New: the composite's own start and end points and times are never read by the recogniser and are left out.
- When a timer fires is not modelled: a tick may happen at any point while the timer is armed.
- TuioTouch.RenderConsistent: `tuioInfoCache` (Blake.NUI.WPF/Touch/TUIOTouchDevice.cs:17) is an unlocked `List` that the TUIO client's thread appends to while the UI thread reads and removes its first item. The model takes each append and each frame as one atomic step, so a torn read or a lost append is not covered.
- EngineHandlers.New: the engine factory is a fixed engine value, so every created engine starts in the same state.
- Engine timestamps are the clock's `now`, because `TimestampToDateTime` discards the event's own timestamp.
- `InputFilter`'s `Filter` attached property and event subscription are plumbing. The device-validity decision is a parameter.
- RadialStackPanel.Arrange: only each child's rotation angle is modelled. The positions built with `Sin` and `Cos`, the render transforms and the vertical layout transform are not.
- `NativeTouchDevice.GetIntermediateTouchPoints` is left out.
- NativeTouch.GetTouchPoint: only the window-relative point is modelled. The transform to another visual is left out.
- ActivatingControl.SetIsActive: the `useTransitions` and easing arguments only reach the overrides and are left out.
- Display.SetScale: WPF's `Size` rejects a negative width or height, so `UpdateActualSizeFromScale` (Blake.NUI.WPF/Common/DisplayMatrix.cs:436-440) throws `ArgumentException` when a scale component is negative and the matching original dimension is positive. The setter has then already stored `_scale` and the property value, the actual size is left stale (or only its width updated) and no ViewChanged is raised. The model's `Size` is any pair of reals, so the write succeeds; the exception and that partial state are not modelled.
- Display.SetDpScale: the same exception, through `ScalePropertyChanged` (Blake.NUI.WPF/Common/DisplayMatrix.cs:190-197), is not modelled.
- Display.SetOriginalSize: the same exception, when a positive original dimension meets a negative scale component, is not modelled.
- Display.BatchUpdate: the same exception, at its actual-size update (Blake.NUI.WPF/Common/DisplayMatrix.cs:357), is not modelled.
- Display.ManipulationDelta: the same exception, when the new scale (old scale times delta scale, lines 337-345) has a negative component, is not modelled.
- Display.ApplyPreservesValid: the coupled actual size and the sound matrix cache are proved for the model's scale writes, which never fail. With a negative scale component the source throws part-way, leaving the actual size and the cache stale; that case is not covered.
- Display.SetActualSize: a zero original dimension gives `None` rather than the infinite or NaN scale the division produces.
- ScatterMatrixHelper.GetRenderOrigin: only the centred and corner origins are stated; the general product is what `CalculateRenderOffset` and its lemmas use.
- WPF `Matrix` operations (`Transform`, `RotateAt`, `ScaleAt`, `Translate`, `Invert`) are defined from their documented formulas; their source is not part of this model.

## Findings

| source | as written | input that shows it | evidently intended | confidence | as-written member | corrected member |
|---|---|---|---|---|---|---|
| Blake.NUI.WPF/Gestures/EngineHandler.cs:258-270 | when an engine ends, the entry keyed by the engine's device is removed without checking that it holds that engine | per-device tap handler: down at p0, up at p1 farther than 25 from p0, so the tap is aborted but stays subscribed with its timer running; down again on the same device, mapped to a new engine; the first engine's timer fires and raises Aborted again | remove the entry only if it refers to the ending engine, so the newer gesture keeps its routing | medium; not executed | EngineHandlers.StaleTimerDropsNewerEngine | EngineHandlers.StaleTapTimer |
