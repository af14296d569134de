/**
 * What the three custom touch devices have in common: the down, move and up
 * reports they make to WPF's input system, the set of ids with a touch in
 * progress that those reports imply, and the screen mapping of a normalised
 * position used by the custom and TUIO devices.
 */
module TouchReports {
  import opened Geometry

  type TouchId = int

  datatype ReportKind = Down | Move | Up

  /** One `ReportDown`, `ReportMove` or `ReportUp`, with the device's raw position at that moment. */
  datatype Report = Report(kind: ReportKind, id: TouchId, at: Vec)

  /** The ids whose latest down has not yet been followed by an up. */
  function Pending(reports: seq<Report>): (r: set<TouchId>)
    ensures forall id :: id in r ==> exists i :: 0 <= i < |reports| && reports[i].id == id && reports[i].kind == Down
  {
    if |reports| == 0 then {}
    else
      var before := Pending(reports[..|reports| - 1]);
      var last := reports[|reports| - 1];
      match last.kind
      case Down => before + {last.id}
      case Move => before
      case Up => before - {last.id}
  }

  /** A report a device may make when `pending` touches are in progress. */
  predicate Allowed(pending: set<TouchId>, report: Report)
  {
    match report.kind
    case Down => report.id !in pending
    case Move => report.id in pending
    case Up => report.id in pending
  }

  /**
   * Every id's reports form down, moves, up, down, ...: no second down while a
   * touch is in progress, and no move or up without one.
   */
  predicate Bracketed(reports: seq<Report>)
  {
    |reports| == 0 ||
    (Bracketed(reports[..|reports| - 1]) && Allowed(Pending(reports[..|reports| - 1]), reports[|reports| - 1]))
  }

  /** Appending one report: how the pending set moves and when the stream stays bracketed. */
  lemma AppendReport(reports: seq<Report>, report: Report)
    ensures Pending(reports + [report]) ==
      (match report.kind
       case Down => Pending(reports) + {report.id}
       case Move => Pending(reports)
       case Up => Pending(reports) - {report.id})
    ensures Bracketed(reports + [report]) <==> Bracketed(reports) && Allowed(Pending(reports), report)
  {
    assert (reports + [report])[..|reports|] == reports;
  }

  /** The registry of devices agrees with the reports made, and the reports are bracketed. */
  predicate Consistent<D>(devices: map<TouchId, D>, reports: seq<Report>)
  {
    devices.Keys == Pending(reports) && Bracketed(reports)
  }

  /** Registering a new id together with its down report keeps the registry consistent. */
  lemma ConsistentAfterDown<D>(devices: map<TouchId, D>, reports: seq<Report>, id: TouchId, device: D, at: Vec)
    requires Consistent(devices, reports) && id !in devices
    ensures Consistent(devices[id := device], reports + [Report(Down, id, at)])
  {
    AppendReport(reports, Report(Down, id, at));
  }

  /** A move of a registered id keeps the registry consistent, whatever the device's new state. */
  lemma ConsistentAfterMove<D>(devices: map<TouchId, D>, reports: seq<Report>, id: TouchId, device: D, at: Vec)
    requires Consistent(devices, reports) && id in devices
    ensures Consistent(devices[id := device], reports + [Report(Move, id, at)])
  {
    AppendReport(reports, Report(Move, id, at));
  }

  /** An up of a registered id, together with removing it, keeps the registry consistent. */
  lemma ConsistentAfterUp<D>(devices: map<TouchId, D>, reports: seq<Report>, id: TouchId, at: Vec)
    requires Consistent(devices, reports) && id in devices
    ensures Consistent(devices - {id}, reports + [Report(Up, id, at)])
  {
    AppendReport(reports, Report(Up, id, at));
  }

  /** The static flip and swap flags of the custom and TUIO devices. */
  datatype Orientation = Orientation(flipX: bool, flipY: bool, swapXY: bool)

  /**
   * `Position`: a normalised position, flipped per axis (x to 1 - x), then
   * optionally swapped, scaled to the root's actual size.
   */
  function Position(original: Vec, o: Orientation, width: real, height: real): Vec
  {
    var x := if o.flipX then 1.0 - original.x else original.x;
    var y := if o.flipY then 1.0 - original.y else original.y;
    if o.swapXY then Vec(y * width, x * height) else Vec(x * width, y * height)
  }

  /** The normalised position a screen point came from, for a root of non-zero size. */
  function Unmap(screen: Vec, o: Orientation, width: real, height: real): Vec
    requires width != 0.0 && height != 0.0
  {
    var x := if o.swapXY then screen.y / height else screen.x / width;
    var y := if o.swapXY then screen.x / width else screen.y / height;
    Vec(if o.flipX then 1.0 - x else x, if o.flipY then 1.0 - y else y)
  }

  lemma ScaleCancels(a: real, k: real)
    requires k != 0.0
    ensures (a * k) / k == a
  {
  }

  /** On a root of non-zero size the mapping loses nothing: every orientation is undone by `Unmap`. */
  lemma PositionRoundTrip(original: Vec, o: Orientation, width: real, height: real)
    requires width != 0.0 && height != 0.0
    ensures Unmap(Position(original, o, width, height), o, width, height) == original
  {
    var x := if o.flipX then 1.0 - original.x else original.x;
    var y := if o.flipY then 1.0 - original.y else original.y;
    ScaleCancels(x, width);
    ScaleCancels(x, height);
    ScaleCancels(y, width);
    ScaleCancels(y, height);
  }

  /** With no flags set, the corners of the unit square map to the corners of the root. */
  lemma PlainOrientationCorners(width: real, height: real)
    ensures Position(Vec(0.0, 0.0), Orientation(false, false, false), width, height) == Vec(0.0, 0.0)
    ensures Position(Vec(1.0, 1.0), Orientation(false, false, false), width, height) == Vec(width, height)
    ensures Position(Vec(1.0, 0.0), Orientation(false, false, true), width, height) == Vec(0.0, height)
  {
  }
}
