/**
 * `CustomTouchDevice`: touches fed in by application code through static
 * `AddTouch`, `UpdateTouch` and `RemoveTouch`, keyed by an integer id. The
 * static registry holds one device per touch in progress; each device keeps
 * its raw (normalised) position.
 */
module CustomTouch {
  import opened Wrappers
  import opened Geometry
  import opened TouchReports

  /** The static registry (id to raw position) and every report made so far. */
  datatype Devices = Devices(positions: map<TouchId, Vec>, reports: seq<Report>)

  const Empty := Devices(map[], [])

  /** `AddTouch`: a new id is registered at the position and reports down; a known id changes nothing. */
  function AddTouch(s: Devices, id: TouchId, x: real, y: real): (r: Devices)
    ensures id in s.positions ==> r == s
    ensures id !in s.positions ==>
      && r.positions == s.positions[id := Vec(x, y)]
      && r.reports == s.reports + [Report(Down, id, Vec(x, y))]
  {
    if id in s.positions then s
    else Devices(s.positions[id := Vec(x, y)], s.reports + [Report(Down, id, Vec(x, y))])
  }

  /** `UpdateTouch`: an unknown id is ignored; a known one moves and reports a move. */
  function UpdateTouch(s: Devices, id: TouchId, x: real, y: real): (r: Devices)
    ensures id !in s.positions ==> r == s
    ensures id in s.positions ==>
      && r.positions == s.positions[id := Vec(x, y)]
      && r.reports == s.reports + [Report(Move, id, Vec(x, y))]
  {
    if id !in s.positions then s
    else Devices(s.positions[id := Vec(x, y)], s.reports + [Report(Move, id, Vec(x, y))])
  }

  /**
   * `RemoveTouch`: an unknown id is ignored; a known one reports up, at the
   * given position when both coordinates are given and at its last one
   * otherwise, and is unregistered.
   */
  function RemoveTouch(s: Devices, id: TouchId, x: Option<real>, y: Option<real>): (r: Devices)
    ensures id !in s.positions ==> r == s
    ensures id in s.positions ==>
      && r.positions == s.positions - {id}
      && |r.reports| == |s.reports| + 1 && r.reports[..|s.reports|] == s.reports
      && r.reports[|s.reports|].kind == Up && r.reports[|s.reports|].id == id
      && r.reports[|s.reports|].at == (if x.Some? && y.Some? then Vec(x.value, y.value) else s.positions[id])
  {
    if id !in s.positions then s
    else
      var at := if x.Some? && y.Some? then Vec(x.value, y.value) else s.positions[id];
      Devices(s.positions - {id}, s.reports + [Report(Up, id, at)])
  }

  datatype Call =
    | Add(id: TouchId, x: real, y: real)
    | Update(id: TouchId, x: real, y: real)
    | Remove(id: TouchId, givenX: Option<real>, givenY: Option<real>)

  function Apply(s: Devices, c: Call): Devices
  {
    match c
    case Add(id, x, y) => AddTouch(s, id, x, y)
    case Update(id, x, y) => UpdateTouch(s, id, x, y)
    case Remove(id, x, y) => RemoveTouch(s, id, x, y)
  }

  function Run(s: Devices, calls: seq<Call>): Devices
    decreases |calls|
  {
    if |calls| == 0 then s else Run(Apply(s, calls[0]), calls[1..])
  }

  /** Any call keeps the registry equal to the ids with a touch in progress, and the reports bracketed. */
  lemma ApplyConsistent(s: Devices, c: Call)
    requires Consistent(s.positions, s.reports)
    ensures Consistent(Apply(s, c).positions, Apply(s, c).reports)
  {
    match c
    case Add(id, x, y) =>
      if id !in s.positions { ConsistentAfterDown(s.positions, s.reports, id, Vec(x, y), Vec(x, y)); }
    case Update(id, x, y) =>
      if id in s.positions { ConsistentAfterMove(s.positions, s.reports, id, Vec(x, y), Vec(x, y)); }
    case Remove(id, x, y) =>
      if id in s.positions {
        ConsistentAfterUp(s.positions, s.reports, id, if x.Some? && y.Some? then Vec(x.value, y.value) else s.positions[id]);
      }
  }

  /**
   * Along any sequence of calls from the empty registry, an id is registered
   * iff a down was reported for it with no up since, and no id is reported
   * down twice or moved or lifted without a down.
   */
  lemma {:induction false} RunConsistent(s: Devices, calls: seq<Call>)
    requires Consistent(s.positions, s.reports)
    ensures Consistent(Run(s, calls).positions, Run(s, calls).reports)
    decreases |calls|
  {
    if |calls| > 0 {
      ApplyConsistent(s, calls[0]);
      RunConsistent(Apply(s, calls[0]), calls[1..]);
    }
  }

  lemma EmptyConsistent()
    ensures Consistent(Empty.positions, Empty.reports)
  {
  }

  /** Adding a touch and removing it at once leaves the registry as it was, with a down and an up reported. */
  lemma AddRemove(s: Devices, id: TouchId, x: real, y: real)
    requires id !in s.positions
    ensures var r := RemoveTouch(AddTouch(s, id, x, y), id, None, None);
      r.positions == s.positions && r.reports == s.reports + [Report(Down, id, Vec(x, y)), Report(Up, id, Vec(x, y))]
  {
    assert s.positions[id := Vec(x, y)] - {id} == s.positions;
  }
}
