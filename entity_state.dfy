/**
 * The state of a `GridEntity` (entyty/_entity/_grid_entity.py) as a value,
 * and every operation that changes it as a function from the state before
 * to the state after. The class in GridEntities is proved to perform
 * exactly these steps; the lemmas here state what the steps achieve.
 */
module EntityState {
  import opened Wrappers
  import opened PySeq
  import opened GridModel
  import Directions
  import PathSlicing

  /** One `actions['move'][i]` record: `{'direction', 'from', 'to'}`. */
  datatype MoveEntry = MoveEntry(direction: Option<string>, from: Option<Designation>, to: Option<Designation>)

  const EmptyEntry := MoveEntry(None, None, None)

  /**
   * The `actions` dictionary: the per-hop move records under `'move'`, and
   * the designations last written under `'vacate'` and `'occupy'`.
   */
  datatype Actions = Actions(moves: map<int, MoveEntry>, vacate: Option<Designation>, occupy: Option<Designation>)

  /**
   * An entry of `movement_queue`: a chunk of cells from `slice_path`, or a
   * bare cell, which is what `set_path_to` stores when the path fits.
   */
  datatype QueueEntry = Chunk(cells: seq<Designation>) | Bare(cell: Designation)

  /**
   * The entity's fields. `notified` lists, in order, the cells whose
   * `recv_occupant` was called; what the cell then does is not modelled.
   */
  datatype State = State(
    cell: Option<Designation>,
    lastCell: Option<Designation>,
    history: seq<Designation>,
    path: seq<Designation>,
    speed: int,
    remaining: int,
    queue: seq<QueueEntry>,
    actions: Actions,
    traveling: bool,
    notified: seq<Designation>)

  /** A state after an operation, and whether an exception escaped it. */
  datatype Outcome = Outcome(state: State, raised: bool)

  /**
   * `movements`: `speed // 5`, the floor of `speed / 5` for negative speeds
   * as well.
   */
  function Movements(speed: int): (r: int)
    ensures 5 * r <= speed < 5 * r + 5
  {
    speed / 5
  }

  /** `{'move': {i: {direction: None, from: None, to: None} for i in range(m)}}` */
  function FreshActions(m: int): (a: Actions)
    ensures forall i :: i in a.moves <==> 0 <= i < m
    ensures forall i :: i in a.moves ==> a.moves[i] == EmptyEntry
    ensures a.vacate.None? && a.occupy.None?
  {
    Actions(map i | i in SlotKeys(m) :: EmptyEntry, None, None)
  }

  /**
   * `range(m)` as a set of slot keys; it gives the comprehension in
   * FreshActions a term to trigger on.
   */
  function SlotKeys(m: int): (r: set<int>)
    ensures forall i :: i in r <==> 0 <= i < m
  {
    if m <= 0 then {} else SlotKeys(m - 1) + {m - 1}
  }

  /** The last cell is always the newest entry of the history. */
  function LastOf(history: seq<Designation>): Option<Designation> {
    if history == [] then None else Some(history[|history| - 1])
  }

  /**
   * What every reachable state satisfies: the held cell is a cell of the
   * grid, and `last_cell` is the newest entry of `cell_history`.
   */
  ghost predicate Inv(g: Grid, s: State) {
    (s.cell.Some? ==> s.cell.value in g) && s.lastCell == LastOf(s.history)
  }

  /**
   * The budget agrees with the action log: `0 <= _movements_remaining <=
   * movements`, and the log holds one record slot per hop of the budget.
   * Construction and the `speed` setter establish it for a non-negative
   * speed; only the `movements` setter can break it.
   */
  ghost predicate BudgetConsistent(s: State) {
    0 <= s.remaining <= Movements(s.speed) &&
    (forall i :: i in s.actions.moves <==> 0 <= i < Movements(s.speed))
  }

  /**
   * The action log records exactly the hops spent this budget: with the
   * budget consistent, slot `i` holds a record if and only if
   * `i < movements - remaining`, and records are never empty.
   */
  ghost predicate LogInSync(s: State) {
    BudgetConsistent(s) &&
    forall i :: i in s.actions.moves ==>
      (s.actions.moves[i] != EmptyEntry <==> i < Movements(s.speed) - s.remaining)
  }

  /** Consecutive cells of `w` are adjacent in the grid. */
  ghost predicate Walk(g: Grid, w: seq<Designation>) {
    (forall i :: 0 <= i < |w| ==> w[i] in g) &&
    (forall i :: 0 <= i < |w| - 1 ==> w[i + 1] in g[w[i]].adjacent)
  }

  /** The cells visited, oldest first, ending with the one held if any. */
  function Trail(s: State): seq<Designation> {
    s.history + (if s.cell.Some? then [s.cell.value] else [])
  }

  /** The route plan, which the single-hop operations leave alone. */
  ghost predicate SamePlan(s: State, r: State) {
    r.path == s.path && r.queue == s.queue && r.traveling == s.traveling && r.speed == s.speed
  }

  // ---------------------------------------------------------------------
  // Cell occupancy

  /**
   * The `cell` property setter (lines 61-72): a cell is taken only by an
   * unplaced entity; assigning None to a placed entity records the cell in
   * `last_cell` and `cell_history`.
   */
  function SetCell(s: State, c: Option<Designation>): (r: State)
    ensures s.cell.Some? && c.Some? ==> r == s
    ensures s.cell.None? && c.Some? ==> r == s.(cell := c)
    ensures s.cell.Some? && c.None? ==>
      r == s.(cell := None, lastCell := s.cell, history := s.history + [s.cell.value])
    ensures s.cell.None? && c.None? ==> r == s
    ensures r.lastCell == s.lastCell || r.lastCell == LastOf(r.history)
  {
    match c
    case Some(_) => if s.cell.Some? then s else s.(cell := c)
    case None =>
      if s.cell.Some? then s.(lastCell := s.cell, cell := None, history := s.history + [s.cell.value])
      else s
  }

  /**
   * `vacate` (lines 290-294): record the cell under `'vacate'`, notify it,
   * and clear `cell` through the setter.
   */
  function Vacate(s: State): (r: State)
    requires s.cell.Some?
    ensures r.cell.None? && r.lastCell == s.cell && r.history == s.history + [s.cell.value]
    ensures r.notified == s.notified + [s.cell.value]
    ensures r.actions == s.actions.(vacate := s.cell)
    ensures SamePlan(s, r) && r.remaining == s.remaining
  {
    SetCell(s.(actions := s.actions.(vacate := s.cell), notified := s.notified + [s.cell.value]), None)
  }

  /**
   * The states from which `occupy` does not raise: it reads `self.cell`
   * after its guard, which is None only for an entity that has never held a
   * cell and is sent to an occupied one.
   */
  ghost predicate OccupyDefined(g: Grid, s: State, t: Designation) {
    t in g && (s.cell.Some? || s.lastCell.Some? || !g[t].occupied)
  }

  /**
   * Lines 298-306 of `occupy(t)`: the guard `cell is None and t != cell and
   * not t.occupied or last_cell is not None` lets in an unplaced entity
   * heading for a free cell, and any entity that has vacated before; inside
   * it a held cell or an occupied target returns at once (None here).
   * Otherwise the result is the state once the target has been notified
   * and taken. An entity that was placed but never vacated skips the guard
   * and keeps its state.
   */
  function Entered(g: Grid, s: State, t: Designation): Option<State>
    requires t in g
  {
    if (s.cell.None? && !g[t].occupied) || s.lastCell.Some? then
      if s.cell.Some? || g[t].occupied then None
      else Some(SetCell(s.(notified := s.notified + [t]), Some(t)))
    else Some(s)
  }

  /**
   * `occupy(t)` (lines 297-309), with the event dispatch of line 308 as the
   * no-op it was evidently meant to be (see OccupyAsWritten in module
   * EventDispatch for the code as it reads). After
   * Entered, the held cell is notified once more, so a successful entry
   * notifies the target twice, and a placed entity that never vacated (the
   * state right after construction) re-announces its own cell, whatever the
   * target.
   */
  function Occupy(g: Grid, s: State, t: Designation): (r: State)
    requires OccupyDefined(g, s, t)
    ensures s.cell.Some? ==> r.cell == s.cell
    ensures s.cell.None? ==> r.cell == (if g[t].occupied then None else Some(t))
    ensures (s.cell.None? || s.lastCell.Some?) && (s.cell.Some? || g[t].occupied) ==> r == s
    ensures s.cell.None? && !g[t].occupied ==>
      r.notified == s.notified + [t, t] && r.actions == s.actions.(occupy := Some(t))
    ensures s.cell.Some? && s.lastCell.None? ==>
      r.notified == s.notified + [s.cell.value] && r.actions == s.actions.(occupy := s.cell)
    ensures SamePlan(s, r) && r.remaining == s.remaining
    ensures r.history == s.history && r.lastCell == s.lastCell
    ensures Inv(g, s) ==> Inv(g, r)
  {
    match Entered(g, s, t)
    case None => s
    case Some(e) =>
      e.(notified := e.notified + [e.cell.value], actions := e.actions.(occupy := e.cell))
  }

  // ---------------------------------------------------------------------
  // Turn movement

  /** `move` raises AttributeError: budget left but no cell to read `adjacent` from. */
  predicate Raises(s: State) {
    s.remaining > 0 && s.cell.None?
  }

  /** `move(t)` gets past both of its checks. */
  ghost predicate Hops(g: Grid, s: State, t: Designation)
    requires Inv(g, s)
  {
    s.remaining > 0 && s.cell.Some? && t in g[s.cell.value].adjacent
  }

  /** `list(_DIRECTION_MAP.keys())[adjacent.index(t)]` */
  function DirectionOf(adjacent: seq<Designation>, t: Designation): (r: string)
    requires t in adjacent && |adjacent| <= 8
    ensures r in Directions.Names
  {
    Directions.Names[IndexOf(adjacent, t)]
  }

  /**
   * The part of `move(t)` after both checks have passed (lines 321 and
   * 325-327): write the move record at slot `movements - remaining`,
   * vacate, occupy `t` and spend one hop. An occupied target leaves the
   * entity unplaced while the hop is still spent.
   */
  function Hop(g: Grid, s: State, t: Designation): (r: State)
    requires WellFormed(g) && Inv(g, s) && Hops(g, s, t)
    ensures Inv(g, r) && SamePlan(s, r)
    ensures r.remaining == s.remaining - 1
    ensures r.lastCell == s.cell && r.history == s.history + [s.cell.value]
    ensures r.cell == (if g[t].occupied then None else Some(t))
    ensures r.actions.moves == s.actions.moves[Movements(s.speed) - s.remaining :=
                                 MoveEntry(Some(DirectionOf(g[s.cell.value].adjacent, t)), s.cell, Some(t))]
    ensures r.actions.vacate == s.cell
    ensures r.actions.occupy == (if g[t].occupied then s.actions.occupy else Some(t))
    ensures r.notified == s.notified + (if g[t].occupied then [s.cell.value] else [s.cell.value, t, t])
  {
    var moved := Occupy(g, Vacate(LogMove(g, s, t)), t);
    moved.(remaining := moved.remaining - 1)
  }

  /** Line 321: the move record, written before the entity leaves its cell. */
  function LogMove(g: Grid, s: State, t: Designation): (r: State)
    requires WellFormed(g) && Inv(g, s) && Hops(g, s, t)
    ensures r == s.(actions := r.actions) && Inv(g, r)
    ensures r.actions == s.actions.(moves := s.actions.moves[Movements(s.speed) - s.remaining :=
                                      MoveEntry(Some(DirectionOf(g[s.cell.value].adjacent, t)), s.cell, Some(t))])
  {
    var here := g[s.cell.value];
    var entry := MoveEntry(Some(DirectionOf(here.adjacent, t)), Some(here.designation), Some(t));
    s.(actions := s.actions.(moves := s.actions.moves[Movements(s.speed) - s.remaining := entry]))
  }

  /**
   * `move(t)` (lines 315-328): nothing happens without budget or when `t`
   * is not adjacent to the held cell; otherwise the entity makes one Hop.
   * There is no passability check.
   */
  function Move(g: Grid, s: State, t: Designation): (r: State)
    requires WellFormed(g) && Inv(g, s) && !Raises(s)
    ensures Inv(g, r) && SamePlan(s, r)
    ensures !Hops(g, s, t) ==> r == s
    ensures Hops(g, s, t) ==> r == Hop(g, s, t)
    ensures s.remaining - 1 <= r.remaining <= s.remaining
    ensures |r.history| == |s.history| + (s.remaining - r.remaining)
    ensures BudgetConsistent(s) ==> BudgetConsistent(r)
    ensures LogInSync(s) ==> LogInSync(r)
    ensures Walk(g, Trail(s)) ==> Walk(g, Trail(r))
  {
    if s.remaining <= 0 then s
    else if t !in g[s.cell.value].adjacent then s
    else HopKeepsInvariants(g, s, t); Hop(g, s, t)
  }

  /**
   * A hop spends one slot of the budget and fills exactly that slot of the
   * log, and it goes to an adjacent cell, so the trail stays a walk.
   */
  lemma HopKeepsInvariants(g: Grid, s: State, t: Designation)
    requires WellFormed(g) && Inv(g, s) && Hops(g, s, t)
    ensures BudgetConsistent(s) ==> BudgetConsistent(Hop(g, s, t))
    ensures LogInSync(s) ==> LogInSync(Hop(g, s, t))
    ensures Walk(g, Trail(s)) ==> Walk(g, Trail(Hop(g, s, t)))
  {
  }

  /** The record `move` writes for a hop from `from` to the adjacent cell `t`. */
  function HopRecord(g: Grid, from: Designation, t: Designation): MoveEntry
    requires WellFormed(g) && from in g && t in g[from].adjacent
  {
    MoveEntry(Some(DirectionOf(g[from].adjacent, t)), Some(from), Some(t))
  }

  /**
   * A move with budget left into a free adjacent cell enters that cell,
   * spends one hop, appends the cell left to the history and records the
   * hop in slot `movements - remaining`.
   */
  lemma {:induction false} MoveIntoFree(g: Grid, s: State, t: Designation)
    requires WellFormed(g) && Inv(g, s) && s.cell.Some? && s.remaining > 0
    requires t in g[s.cell.value].adjacent && !g[t].occupied
    ensures !Raises(s) && Hops(g, s, t)
    ensures var r := Move(g, s, t);
      r.cell == Some(t) && r.remaining == s.remaining - 1 && r.speed == s.speed &&
      r.history == s.history + [s.cell.value] &&
      r.actions.moves == s.actions.moves[Movements(s.speed) - s.remaining := HopRecord(g, s.cell.value, t)]
  {
  }

  /**
   * Following a walk of free cells with budget for every hop: the loop
   * never raises, ends on the last cell of the walk and spends one hop per
   * cell; the trail of visited cells grows by exactly the walked cells, so
   * every cell left is appended to the history, in order.
   */
  lemma {:induction false} RunFollowsWalk(g: Grid, s: State, cells: seq<Designation>)
    requires WellFormed(g) && Inv(g, s) && s.cell.Some? && s.remaining >= |cells|
    requires Walk(g, [s.cell.value] + cells)
    requires forall c :: c in cells ==> c in g && !g[c].occupied
    ensures !Run(g, s, cells).raised
    ensures Run(g, s, cells).state.remaining == s.remaining - |cells|
    ensures Run(g, s, cells).state.cell == Some(if cells == [] then s.cell.value else cells[|cells| - 1])
    ensures Trail(Run(g, s, cells).state) == Trail(s) + cells
    decreases |cells|
  {
    if cells != [] {
      var s1 := Move(g, s, cells[0]);
      assert Inv(g, s1) && s1.cell == Some(cells[0]) && s1.remaining == s.remaining - 1 &&
             Trail(s1) == Trail(s) + [cells[0]] && Walk(g, cells) by {
        StepAlongWalk(g, s.cell.value, cells);
        MoveIntoFree(g, s, cells[0]);
      }
      assert [s1.cell.value] + cells[1..] == cells;
      RunFollowsWalk(g, s1, cells[1..]);
      RunStep(g, s, cells);
      ConsAppend(Trail(s), cells);
    }
  }

  /** Appending the head of `cells` and then its tail appends `cells`. */
  lemma ConsAppend(a: seq<Designation>, cells: seq<Designation>)
    requires cells != []
    ensures a + [cells[0]] + cells[1..] == a + cells
  {
    assert [cells[0]] + cells[1..] == cells;
  }

  /** One turn of the loop: the first move, then the rest of the cells. */
  lemma {:induction false} RunStep(g: Grid, s: State, cells: seq<Designation>)
    requires WellFormed(g) && Inv(g, s) && cells != [] && !Raises(s)
    ensures Run(g, s, cells) == Run(g, Move(g, s, cells[0]), cells[1..])
  {
  }

  /** A walk without its first cell is still a walk. */
  lemma {:induction false} StepAlongWalk(g: Grid, here: Designation, cells: seq<Designation>)
    requires cells != [] && Walk(g, [here] + cells)
    ensures here in g && cells[0] in g[here].adjacent && Walk(g, cells)
  {
    var w := [here] + cells;
    assert w[0] == here && w[1] == cells[0];
    forall i | 0 <= i < |cells| ensures cells[i] in g {
      assert cells[i] == w[i + 1];
    }
    forall i | 0 <= i < |cells| - 1 ensures cells[i + 1] in g[cells[i]].adjacent {
      assert cells[i] == w[i + 1] && cells[i + 1] == w[i + 2];
    }
  }

  /** Log slots below `base` hold the same records in `after` as in `before`. */
  ghost predicate KeptBelow(before: map<int, MoveEntry>, after: map<int, MoveEntry>, base: int) {
    forall i :: i in before && i < base ==> i in after && after[i] == before[i]
  }

  /**
   * Slots `base`, `base + 1`, ... hold the records of the hops of the walk
   * from `here` through `cells`: slot `base` records the hop into
   * `cells[0]`, and the slots after it record the rest of the walk.
   */
  ghost predicate RecordsWalk(g: Grid, moves: map<int, MoveEntry>, base: int, here: Designation, cells: seq<Designation>)
    decreases |cells|
  {
    cells == [] ||
    (WellFormed(g) && here in g && cells[0] in g[here].adjacent &&
     base in moves && moves[base] == HopRecord(g, here, cells[0]) &&
     RecordsWalk(g, moves, base + 1, cells[0], cells[1..]))
  }

  /**
   * Following a walk of free cells with budget for every hop fills the
   * next log slots, from `movements - remaining` on, with one record per
   * hop, in order, and leaves the earlier slots alone.
   */
  lemma {:induction false} RunRecordsWalk(g: Grid, s: State, cells: seq<Designation>)
    requires WellFormed(g) && Inv(g, s) && s.cell.Some? && s.remaining >= |cells|
    requires Walk(g, [s.cell.value] + cells)
    requires forall c :: c in cells ==> c in g && !g[c].occupied
    ensures KeptBelow(s.actions.moves, Run(g, s, cells).state.actions.moves, Movements(s.speed) - s.remaining)
    ensures RecordsWalk(g, Run(g, s, cells).state.actions.moves, Movements(s.speed) - s.remaining, s.cell.value, cells)
  {
    WalkIsFree(g, s.cell.value, cells);
    RunRecordsFreeWalk(g, s, cells);
  }

  /** Each cell of `cells` is free and next to the one before, `here` first. */
  ghost predicate FreeWalk(g: Grid, here: Designation, cells: seq<Designation>)
    decreases |cells|
  {
    cells == [] ||
    (here in g && cells[0] in g[here].adjacent && cells[0] in g && !g[cells[0]].occupied &&
     FreeWalk(g, cells[0], cells[1..]))
  }

  /** A walk whose cells are all free is a FreeWalk. */
  lemma {:induction false} WalkIsFree(g: Grid, here: Designation, cells: seq<Designation>)
    requires Walk(g, [here] + cells)
    requires forall c :: c in cells ==> c in g && !g[c].occupied
    ensures FreeWalk(g, here, cells)
    decreases |cells|
  {
    if cells != [] {
      StepAlongWalk(g, here, cells);
      assert [cells[0]] + cells[1..] == cells;
      WalkIsFree(g, cells[0], cells[1..]);
    }
  }

  /** RunRecordsWalk, by induction over the free walk. */
  lemma {:induction false} RunRecordsFreeWalk(g: Grid, s: State, cells: seq<Designation>)
    requires WellFormed(g) && Inv(g, s) && s.cell.Some? && s.remaining >= |cells|
    requires FreeWalk(g, s.cell.value, cells)
    ensures KeptBelow(s.actions.moves, Run(g, s, cells).state.actions.moves, Movements(s.speed) - s.remaining)
    ensures RecordsWalk(g, Run(g, s, cells).state.actions.moves, Movements(s.speed) - s.remaining, s.cell.value, cells)
    decreases |cells|, 1
  {
    if cells != [] {
      var here := s.cell.value;
      var base := Movements(s.speed) - s.remaining;
      var s1 := Move(g, s, cells[0]);
      assert Inv(g, s1) && s1.cell == Some(cells[0]) && s1.remaining == s.remaining - 1 &&
             Movements(s1.speed) - s1.remaining == base + 1 &&
             KeptBelow(s.actions.moves, s1.actions.moves, base) &&
             base in s1.actions.moves && s1.actions.moves[base] == HopRecord(g, here, cells[0]) by {
        MoveIntoFree(g, s, cells[0]);
      }
      RecordsAfterHop(g, s.actions.moves, base, here, s1, cells);
      RunStep(g, s, cells);
    }
  }

  /**
   * The rest of a free walk, run from the state `s1` reached by its first
   * hop out of `here`, records the whole walk from slot `base` on.
   */
  lemma {:induction false} RecordsAfterHop(g: Grid, before: map<int, MoveEntry>, base: int,
                                           here: Designation, s1: State, cells: seq<Designation>)
    requires WellFormed(g) && here in g && cells != [] && cells[0] in g[here].adjacent
    requires Inv(g, s1) && s1.cell == Some(cells[0]) && s1.remaining >= |cells| - 1
    requires Movements(s1.speed) - s1.remaining == base + 1
    requires KeptBelow(before, s1.actions.moves, base)
    requires base in s1.actions.moves && s1.actions.moves[base] == HopRecord(g, here, cells[0])
    requires FreeWalk(g, cells[0], cells[1..])
    ensures KeptBelow(before, Run(g, s1, cells[1..]).state.actions.moves, base)
    ensures RecordsWalk(g, Run(g, s1, cells[1..]).state.actions.moves, base, here, cells)
    decreases |cells|, 0
  {
    RunRecordsFreeWalk(g, s1, cells[1..]);
    RecordsStep(g, before, base, here, s1, Run(g, s1, cells[1..]).state.actions.moves, cells);
  }

  /**
   * The step of the induction: `s1` is the state after the first hop, which
   * kept the slots below `base` and recorded the hop in slot `base`; if the
   * rest of the walk kept the slots of `s1` and recorded itself in `m`, then
   * `m` records the whole walk from `base` on and keeps the slots below it.
   */
  lemma RecordsStep(g: Grid, before: map<int, MoveEntry>, base: int, here: Designation,
                    s1: State, m: map<int, MoveEntry>, cells: seq<Designation>)
    requires WellFormed(g) && here in g && cells != [] && cells[0] in g[here].adjacent
    requires s1.cell == Some(cells[0])
    requires Movements(s1.speed) - s1.remaining == base + 1
    requires KeptBelow(before, s1.actions.moves, base)
    requires base in s1.actions.moves && s1.actions.moves[base] == HopRecord(g, here, cells[0])
    requires KeptBelow(s1.actions.moves, m, Movements(s1.speed) - s1.remaining)
    requires RecordsWalk(g, m, Movements(s1.speed) - s1.remaining, s1.cell.value, cells[1..])
    ensures KeptBelow(before, m, base) && RecordsWalk(g, m, base, here, cells)
  {
  }

  /**
   * `for cell in cells: self.move(cell)`: the moves in order, each on the
   * state the previous one left; an exception from one ends the loop.
   */
  function Run(g: Grid, s: State, cells: seq<Designation>): (o: Outcome)
    requires WellFormed(g) && Inv(g, s)
    ensures Inv(g, o.state) && SamePlan(s, o.state)
    ensures s.remaining - |cells| <= o.state.remaining <= s.remaining
    ensures s.remaining >= 0 ==> o.state.remaining >= 0
    ensures s.history <= o.state.history
    ensures |o.state.history| == |s.history| + (s.remaining - o.state.remaining)
    ensures o.raised ==> Raises(o.state)
    ensures BudgetConsistent(s) ==> BudgetConsistent(o.state)
    ensures LogInSync(s) ==> LogInSync(o.state)
    ensures Walk(g, Trail(s)) ==> Walk(g, Trail(o.state))
    decreases |cells|
  {
    if cells == [] then Outcome(s, false)
    else if Raises(s) then Outcome(s, true)
    else Run(g, Move(g, s, cells[0]), cells[1..])
  }

  // ---------------------------------------------------------------------
  // Path planning and queued execution

  /** The queue entries for a list of chunks. */
  function Chunks(chunks: seq<seq<Designation>>): seq<QueueEntry> {
    seq(|chunks|, i requires 0 <= i < |chunks| => Chunk(chunks[i]))
  }

  /** The queue entries for a path queued cell by cell. */
  function Bares(cells: seq<Designation>): seq<QueueEntry> {
    seq(|cells|, i requires 0 <= i < |cells| => Bare(cells[i]))
  }

  /** `set_path_to` raises only where `slice_path` would be called with zero. */
  ghost predicate SetPathToDefined(s: State, planned: seq<Designation>) {
    |planned| > Movements(s.speed) ==> Movements(s.speed) != 0
  }

  /**
   * `set_path_to` (lines 281-288), with the grid's path supplied as
   * `planned`: a path longer than `movements` is queued as chunks, a shorter
   * one cell by cell; either way the entity is then traveling.
   */
  function SetPathTo(s: State, planned: seq<Designation>): (r: State)
    requires SetPathToDefined(s, planned)
    ensures r.path == planned && r.traveling
    ensures |planned| > Movements(s.speed) ==> r.queue == Chunks(PathSlicing.SlicePath(planned, Movements(s.speed)))
    ensures |planned| <= Movements(s.speed) ==> r.queue == Bares(planned)
    ensures r == s.(path := r.path, queue := r.queue, traveling := true)
  {
    var m := Movements(s.speed);
    s.(path := planned,
       queue := if |planned| > m then Chunks(PathSlicing.SlicePath(planned, m)) else Bares(planned),
       traveling := true)
  }

  /** Queued mode of `move_in_path`: a non-empty queue while traveling. */
  predicate QueuedMode(s: State) {
    s.queue != [] && s.traveling
  }

  /**
   * The calls of `move_in_path` that do not raise: a queued chunk must be a
   * chunk (a bare cell has no `len`), and without a queue a step count must
   * be given and lead to one of the two branches that bind `cells`; the
   * second of them slices by `movements`, which must not be zero.
   */
  ghost predicate MoveInPathDefined(s: State, steps: Option<int>) {
    if QueuedMode(s) then s.queue[0].Chunk?
    else (steps.Some? &&
          (steps.value <= s.remaining || (steps.value < |s.path| && Movements(s.speed) != 0)))
  }

  /** The state after `move_in_path` has chosen its cells, and those cells. */
  datatype Batch = Batch(state: State, cells: seq<Designation>)

  /** Lines 331-342 of `move_in_path`: choose the cells and update the plan. */
  function TakeCells(s: State, steps: Option<int>): (b: Batch)
    requires MoveInPathDefined(s, steps)
    ensures b.state == s.(path := b.state.path, queue := b.state.queue, traveling := b.state.traveling)
    ensures QueuedMode(s) ==>
      b.cells == s.queue[0].cells && b.state.queue == s.queue[1..] &&
      b.state.path == Drop(s.path, |b.cells|) && b.state.traveling
    ensures !QueuedMode(s) ==> b.cells + b.state.path == s.path
    ensures !QueuedMode(s) && steps.value <= s.remaining ==>
      b.cells == Take(s.path, steps.value) && b.state.queue == s.queue && b.state.traveling == s.traveling
    ensures !QueuedMode(s) && steps.value > s.remaining ==>
      b.cells == Take(s.path, s.remaining) && b.state.traveling &&
      b.state.queue == Chunks(Take(PathSlicing.SlicePath(b.state.path, Movements(s.speed)), steps.value))
  {
    if QueuedMode(s) then
      var cells := s.queue[0].cells;
      Batch(s.(queue := s.queue[1..], path := Drop(s.path, |cells|)), cells)
    else if steps.value <= s.remaining then
      Batch(s.(path := Drop(s.path, steps.value)), Take(s.path, steps.value))
    else
      var rest := Drop(s.path, s.remaining);
      Batch(s.(path := rest,
               queue := Chunks(Take(PathSlicing.SlicePath(rest, Movements(s.speed)), steps.value)),
               traveling := true),
            Take(s.path, s.remaining))
  }

  /** `move_in_path(steps)` (lines 330-346): choose the cells, then move through them. */
  function MoveInPath(g: Grid, s: State, steps: Option<int>): (o: Outcome)
    requires WellFormed(g) && Inv(g, s) && MoveInPathDefined(s, steps)
    ensures Inv(g, o.state) && o.state.remaining <= s.remaining
    ensures s.remaining >= 0 ==> o.state.remaining >= 0
    ensures s.history <= o.state.history
    ensures |o.state.history| == |s.history| + (s.remaining - o.state.remaining)
    ensures SamePlan(TakeCells(s, steps).state, o.state)
    ensures BudgetConsistent(s) ==> BudgetConsistent(o.state)
    ensures LogInSync(s) ==> LogInSync(o.state)
    ensures Walk(g, Trail(s)) ==> Walk(g, Trail(o.state))
  {
    var b := TakeCells(s, steps);
    Run(g, b.state, b.cells)
  }

  /** `refresh` raises only when it calls `move_in_path()` with nothing queued. */
  ghost predicate RefreshDefined(s: State) {
    s.remaining > 0 && s.traveling ==> s.queue != [] && s.queue[0].Chunk?
  }

  /**
   * `refresh(dt)` (lines 355-360): with budget left while traveling, take
   * the next queued chunk; otherwise an exhausted path ends the travel.
   */
  function Refresh(g: Grid, s: State): (o: Outcome)
    requires WellFormed(g) && Inv(g, s) && RefreshDefined(s)
    ensures Inv(g, o.state) && o.state.remaining <= s.remaining
    ensures |o.state.history| == |s.history| + (s.remaining - o.state.remaining)
    ensures BudgetConsistent(s) ==> BudgetConsistent(o.state)
    ensures LogInSync(s) ==> LogInSync(o.state)
    ensures Walk(g, Trail(s)) ==> Walk(g, Trail(o.state))
    ensures !(s.remaining > 0 && s.traveling) && s.path == [] ==>
      o == Outcome(s.(traveling := false, queue := []), false)
    ensures !(s.remaining > 0 && s.traveling) && s.path != [] ==> o == Outcome(s, false)
    ensures s.remaining > 0 && s.traveling ==>
      o == MoveInPath(g, s, None) && o.state.queue == s.queue[1..] &&
      o.state.path == Drop(s.path, |s.queue[0].cells|)
  {
    if s.remaining > 0 && s.traveling then MoveInPath(g, s, None)
    else if s.path == [] then Outcome(s.(traveling := false, queue := []), false)
    else Outcome(s, false)
  }

  /**
   * `move_in_direction(d)` (lines 348-353): translate a compass name to a
   * slot, look up the neighbour in that slot and move there if there is one.
   * Reading the slot of an unplaced entity raises AttributeError.
   */
  function MoveInDirection(g: Grid, s: State, direction: string): (o: Outcome)
    requires WellFormed(g) && Inv(g, s) && Directions.ToSlot(direction).Some?
    ensures o.raised <==> s.cell.None?
    ensures Inv(g, o.state) && SamePlan(s, o.state)
    ensures s.remaining - 1 <= o.state.remaining <= s.remaining
    ensures BudgetConsistent(s) ==> BudgetConsistent(o.state)
    ensures LogInSync(s) ==> LogInSync(o.state)
    ensures Walk(g, Trail(s)) ==> Walk(g, Trail(o.state))
    ensures s.cell.Some? && Directions.ToSlot(direction).value !in g[s.cell.value].neighbours ==> o.state == s
    ensures s.cell.Some? && Directions.ToSlot(direction).value in g[s.cell.value].neighbours ==>
      o == Outcome(Move(g, s, g[s.cell.value].neighbours[Directions.ToSlot(direction).value]), false)
  {
    if s.cell.None? then Outcome(s, true)
    else
      var here := g[s.cell.value];
      var slot := Directions.ToSlot(direction).value;
      if slot in here.neighbours then Outcome(Move(g, s, here.neighbours[slot]), false)
      else Outcome(s, false)
  }

  // ---------------------------------------------------------------------
  // Construction and the budget setters

  /**
   * `GridEntity.__init__` (lines 237-263): take the random passable cell
   * `init` through the setter, start empty histories and an empty path, take
   * the parent's speed or 5, a full budget and a fresh action log, then call
   * `occupy` on the cell already held, which notifies it and records it.
   */
  function Initial(g: Grid, parentSpeed: Option<int>, init: Designation): (r: State)
    requires init in g
    ensures Inv(g, r)
    ensures r.cell == Some(init) && r.lastCell.None? && r.history == []
    ensures r.notified == [init] && r.actions.occupy == Some(init) && r.actions.vacate.None?
    ensures r.path == [] && r.queue == [] && !r.traveling
    ensures r.speed == (if parentSpeed.Some? then parentSpeed.value else 5)
    ensures r.remaining == Movements(r.speed)
    ensures r.speed >= 0 ==> LogInSync(r)
    ensures WellFormed(g) ==> Walk(g, Trail(r))
  {
    Occupy(g, Placed(parentSpeed, init), init)
  }

  /** The fields `__init__` has set when it reaches `self.occupy(self.cell)` (line 263). */
  function Placed(parentSpeed: Option<int>, init: Designation): State {
    var speed := if parentSpeed.Some? then parentSpeed.value else 5;
    State(Some(init), None, [], [], speed, Movements(speed), [], FreshActions(Movements(speed)), false, [])
  }

  /** The `speed` setter (lines 269-273): a full budget for the new speed and a fresh log. */
  function SetSpeed(s: State, v: int): (r: State)
    ensures r.speed == v && r.remaining == Movements(v)
    ensures v >= 0 ==> LogInSync(r)
    ensures r == s.(speed := v, remaining := r.remaining, actions := r.actions)
  {
    s.(speed := v, remaining := Movements(v), actions := FreshActions(Movements(v)))
  }

  /** The `movements` setter (lines 101-103) writes the remaining budget only. */
  function SetMovements(s: State, m: int): (r: State)
    ensures r.remaining == m && r == s.(remaining := m)
  {
    s.(remaining := m)
  }

  /**
   * The `movements` setter keeps the budget consistent with the action log
   * exactly when the value it writes lies between 0 and `movements`.
   */
  lemma SetMovementsKeepsBudget(s: State, m: int)
    requires BudgetConsistent(s)
    ensures BudgetConsistent(SetMovements(s, m)) <==> 0 <= m <= Movements(s.speed)
  {
  }
}
