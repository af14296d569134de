/**
 * `TUIOTouchDevice`: touches from a TUIO client. The client's listener runs
 * off the UI thread and only appends (action, cursor) records to a cache; on
 * every rendered frame the cache is drained front to back and each record is
 * dispatched to `addTuioCursor`, `updateTuioCursor` or `removeTuioCursor`,
 * which keep the static id registry and report to WPF.
 */
module TuioTouch {
  import opened Geometry
  import opened TouchReports

  /** A cursor as the client hands it over: its session id and normalised position. */
  datatype Cursor = Cursor(id: TouchId, x: real, y: real)

  datatype Action = AddAction | MoveAction | UpAction

  /** One cached listener callback. */
  datatype Info = Info(action: Action, cursor: Cursor)

  /** The registry (id to raw position), the cache, and every report made so far. */
  datatype Tuio = Tuio(positions: map<TouchId, Vec>, cache: seq<Info>, reports: seq<Report>)

  const Empty := Tuio(map[], [], [])

  function At(c: Cursor): Vec { Vec(c.x, c.y) }

  /** The listener's three cursor callbacks: each appends its record to the cache and does nothing else. */
  function Enqueue(t: Tuio, action: Action, c: Cursor): (r: Tuio)
    ensures r.cache == t.cache + [Info(action, c)]
    ensures r.positions == t.positions && r.reports == t.reports
  {
    t.(cache := t.cache + [Info(action, c)])
  }

  /** `addTuioCursor`: a new id registers and reports down; a known id changes nothing, not even its position. */
  function AddCursor(t: Tuio, c: Cursor): (r: Tuio)
    ensures c.id in t.positions ==> r == t
    ensures c.id !in t.positions ==>
      r == t.(positions := t.positions[c.id := At(c)], reports := t.reports + [Report(Down, c.id, At(c))])
  {
    if c.id in t.positions then t
    else t.(positions := t.positions[c.id := At(c)], reports := t.reports + [Report(Down, c.id, At(c))])
  }

  /** `updateTuioCursor`: an unknown id is first added (reporting down); then the cursor moves and reports a move. */
  function UpdateCursor(t: Tuio, c: Cursor): (r: Tuio)
    ensures r.positions == t.positions[c.id := At(c)]
    ensures c.id in t.positions ==> r.reports == t.reports + [Report(Move, c.id, At(c))]
    ensures c.id !in t.positions ==> r.reports == t.reports + [Report(Down, c.id, At(c)), Report(Move, c.id, At(c))]
    ensures r.cache == t.cache
  {
    var added := AddCursor(t, c);
    added.(positions := added.positions[c.id := At(c)], reports := added.reports + [Report(Move, c.id, At(c))])
  }

  /** `removeTuioCursor`: an unknown id is first added; then the cursor reports up and is unregistered. */
  function RemoveCursor(t: Tuio, c: Cursor): (r: Tuio)
    ensures r.positions == t.positions - {c.id}
    ensures c.id in t.positions ==> r.reports == t.reports + [Report(Up, c.id, At(c))]
    ensures c.id !in t.positions ==> r.reports == t.reports + [Report(Down, c.id, At(c)), Report(Up, c.id, At(c))]
    ensures r.cache == t.cache
  {
    var added := AddCursor(t, c);
    added.(positions := added.positions - {c.id}, reports := added.reports + [Report(Up, c.id, At(c))])
  }

  function Dispatch(t: Tuio, info: Info): Tuio
  {
    match info.action
    case AddAction => AddCursor(t, info.cursor)
    case MoveAction => UpdateCursor(t, info.cursor)
    case UpAction => RemoveCursor(t, info.cursor)
  }

  /** Dispatching the records in order, front first. */
  function DispatchAll(t: Tuio, infos: seq<Info>): Tuio
    decreases |infos|
  {
    if |infos| == 0 then t else DispatchAll(Dispatch(t, infos[0]), infos[1..])
  }

  /**
   * `CompositionTarget_Rendering`: while the cache is not empty, take its
   * first record off and dispatch it. The result is the records dispatched
   * in arrival order with the cache left empty.
   */
  method Render(t: Tuio) returns (r: Tuio)
    ensures r.cache == []
    ensures r == DispatchAll(t.(cache := []), t.cache)
  {
    r := t;
    while |r.cache| > 0
      invariant DispatchAll(r.(cache := []), r.cache) == DispatchAll(t.(cache := []), t.cache)
      decreases |r.cache|
    {
      var info := r.cache[0];
      var rest := r.cache[1..];
      r := Dispatch(r.(cache := rest), info);
      assert Dispatch(r.(cache := []), info) == Dispatch(r.(cache := rest), info).(cache := []) by {
        DispatchIgnoresCache(r.(cache := []), info, rest);
      }
    }
  }

  /** Dispatch does not look at or change the cache. */
  lemma DispatchIgnoresCache(t: Tuio, info: Info, cache: seq<Info>)
    ensures Dispatch(t.(cache := cache), info) == Dispatch(t, info).(cache := cache)
    ensures Dispatch(t, info).cache == t.cache
  {
  }

  /** Every dispatched record keeps the registry consistent with the reports, whatever ids arrive. */
  lemma DispatchConsistent(t: Tuio, info: Info)
    requires Consistent(t.positions, t.reports)
    ensures Consistent(Dispatch(t, info).positions, Dispatch(t, info).reports)
  {
    var c := info.cursor;
    var added := AddCursor(t, c);
    if c.id !in t.positions {
      ConsistentAfterDown(t.positions, t.reports, c.id, At(c), At(c));
    }
    assert Consistent(added.positions, added.reports);
    match info.action
    case AddAction =>
    case MoveAction =>
      ConsistentAfterMove(added.positions, added.reports, c.id, At(c), At(c));
    case UpAction =>
      ConsistentAfterUp(added.positions, added.reports, c.id, At(c));
  }

  lemma {:induction false} DispatchAllConsistent(t: Tuio, infos: seq<Info>)
    requires Consistent(t.positions, t.reports)
    ensures Consistent(DispatchAll(t, infos).positions, DispatchAll(t, infos).reports)
    decreases |infos|
  {
    if |infos| > 0 {
      DispatchConsistent(t, infos[0]);
      DispatchAllConsistent(Dispatch(t, infos[0]), infos[1..]);
    }
  }

  /**
   * With each client callback and each rendered frame taken as one atomic
   * step, in whatever order they come, the registry after a frame holds
   * exactly the ids with a touch in progress, and WPF sees every id's reports
   * as down, moves, up.
   */
  lemma RenderConsistent(t: Tuio)
    requires Consistent(t.positions, t.reports)
    ensures Consistent(DispatchAll(t.(cache := []), t.cache).positions, DispatchAll(t.(cache := []), t.cache).reports)
  {
    DispatchAllConsistent(t.(cache := []), t.cache);
  }

  /** Records are dispatched in the order they arrived: an add queued before a move reports down, then move. */
  lemma FifoOrder(t: Tuio, c: Cursor, d: Cursor)
    requires t.cache == [] && c.id !in t.positions && d.id == c.id
    ensures var queued := Enqueue(Enqueue(t, AddAction, c), MoveAction, d);
      DispatchAll(queued.(cache := []), queued.cache).reports
        == t.reports + [Report(Down, c.id, At(c)), Report(Move, c.id, At(d))]
  {
    var queued := Enqueue(Enqueue(t, AddAction, c), MoveAction, d);
    assert queued.cache == [Info(AddAction, c), Info(MoveAction, d)];
    assert queued.cache[1..] == [Info(MoveAction, d)];
    var first := Dispatch(queued.(cache := []), Info(AddAction, c));
    assert first.reports == t.reports + [Report(Down, c.id, At(c))];
    var second := Dispatch(first, Info(MoveAction, d));
    assert second.reports == first.reports + [Report(Move, c.id, At(d))];
    assert DispatchAll(second, []) == second;
    assert DispatchAll(first, [Info(MoveAction, d)]) == DispatchAll(second, []);
    assert DispatchAll(queued.(cache := []), queued.cache) == DispatchAll(first, [Info(MoveAction, d)]);
  }
}
