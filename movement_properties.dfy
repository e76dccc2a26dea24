/**
 * Properties of the entity operations that relate several calls or follow
 * from the plan the queue holds: re-planning, the queue as a cover of the
 * path, the recorded direction of a compass move, and the 5-cell walk with
 * speed 10.
 */
module MovementProperties {
  import opened Wrappers
  import opened PySeq
  import opened GridModel
  import Directions
  import PathSlicing
  import opened EntityState

  /** The cells of a queue made only of chunks, in queue order. */
  function QueuedCells(q: seq<QueueEntry>): (r: seq<seq<Designation>>)
    requires forall i :: 0 <= i < |q| ==> q[i].Chunk?
    ensures |r| == |q|
  {
    seq(|q|, i requires 0 <= i < |q| => q[i].cells)
  }

  lemma QueuedCellsOfChunks(chunks: seq<seq<Designation>>)
    ensures QueuedCells(Chunks(chunks)) == chunks
  {
  }

  /** The queue holds only chunks, and they spell out a prefix of the path. */
  ghost predicate QueueWithinPath(s: State) {
    (forall i :: 0 <= i < |s.queue| ==> s.queue[i].Chunk?) &&
    Flatten(QueuedCells(s.queue)) <= s.path
  }

  /** The queue holds only chunks, and they spell out the whole path. */
  ghost predicate QueueCoversPath(s: State) {
    (forall i :: 0 <= i < |s.queue| ==> s.queue[i].Chunk?) &&
    Flatten(QueuedCells(s.queue)) == s.path
  }

  /** Planning again discards the previous plan entirely. */
  lemma SetPathToReplaces(s: State, first: seq<Designation>, second: seq<Designation>)
    requires SetPathToDefined(s, first) && SetPathToDefined(s, second)
    ensures SetPathToDefined(SetPathTo(s, first), second)
    ensures SetPathTo(SetPathTo(s, first), second) == SetPathTo(s, second)
  {
  }

  /**
   * A path longer than the budget is queued as chunks that spell out the
   * path, so following the queue to its end visits every planned cell once,
   * in order.
   */
  lemma SetPathToCoversPath(s: State, planned: seq<Designation>)
    requires Movements(s.speed) > 0 && |planned| > Movements(s.speed)
    ensures QueueCoversPath(SetPathTo(s, planned))
  {
    var m := Movements(s.speed);
    QueuedCellsOfChunks(PathSlicing.SlicePath(planned, m));
    PathSlicing.SliceFlatten(planned, m);
  }

  /**
   * A queued step takes the head chunk, which is exactly the front of the
   * path, and leaves a queue that still spells out a prefix (or the whole)
   * of what is left of the path.
   */
  lemma {:induction false} QueuedStepFollowsPath(s: State, steps: Option<int>)
    requires QueuedMode(s) && QueueWithinPath(s)
    ensures MoveInPathDefined(s, steps)
    ensures TakeCells(s, steps).cells + TakeCells(s, steps).state.path == s.path
    ensures QueueWithinPath(TakeCells(s, steps).state)
    ensures QueueCoversPath(s) ==> QueueCoversPath(TakeCells(s, steps).state)
  {
    var q := QueuedCells(s.queue);
    var b := TakeCells(s, steps);
    FlattenPrefixTail(q, s.path);
    assert QueuedCells(b.state.queue) == q[1..];
    assert b.cells == q[0];
  }

  /**
   * When the step count exceeds the budget, the queue is rebuilt from the
   * rest of the path, cut into budget-sized chunks and cut down to `steps`
   * chunks: it spells out a prefix of the rest.
   */
  lemma StepsRequeueWithinPath(s: State, steps: int)
    requires !QueuedMode(s) && steps > s.remaining && steps < |s.path| && Movements(s.speed) > 0
    ensures MoveInPathDefined(s, Some(steps))
    ensures QueueWithinPath(TakeCells(s, Some(steps)).state)
  {
    var b := TakeCells(s, Some(steps));
    var m := Movements(s.speed);
    var all := PathSlicing.SlicePath(b.state.path, m);
    var kept := Take(all, steps);
    QueuedCellsOfChunks(kept);
    PathSlicing.SliceFlatten(b.state.path, m);
    FlattenPrefix(kept, all);
  }

  /** A whole `move_in_path` call keeps the queue within the path. */
  lemma MoveInPathKeepsQueueWithinPath(g: Grid, s: State, steps: Option<int>)
    requires WellFormed(g) && Inv(g, s) && QueuedMode(s) && QueueWithinPath(s)
    ensures MoveInPathDefined(s, steps)
    ensures QueueWithinPath(MoveInPath(g, s, steps).state)
  {
    QueuedStepFollowsPath(s, steps);
  }

  /**
   * A slot of a cell is consistent with its adjacency list: the neighbour in
   * the table's i-th slot is the i-th adjacent designation, and no
   * designation is listed twice.
   */
  ghost predicate SlotsAligned(c: Cell) {
    |c.adjacent| == |Directions.Slots| &&
    (forall i :: 0 <= i < |c.adjacent| ==>
       Directions.Slots[i] in c.neighbours && c.neighbours[Directions.Slots[i]] == c.adjacent[i]) &&
    (forall i, j :: 0 <= i < j < |c.adjacent| ==> c.adjacent[i] != c.adjacent[j])
  }

  /**
   * On a cell whose slots line up with its adjacency list, moving in the
   * i-th compass direction with budget left is a hop to the i-th adjacent
   * cell, and Move records it under the i-th compass name: the two lookups
   * through the direction table, by key in `move_in_direction` and by
   * position in `move`, agree.
   */
  lemma {:induction false} MoveInDirectionRecordsDirection(g: Grid, s: State, i: nat)
    requires WellFormed(g) && Inv(g, s)
    requires i < |Directions.Names|
    requires s.cell.Some? && s.remaining > 0 && SlotsAligned(g[s.cell.value])
    ensures Directions.ToSlot(Directions.Names[i]).Some?
    ensures Hops(g, s, g[s.cell.value].adjacent[i])
    ensures MoveInDirection(g, s, Directions.Names[i]) == Outcome(Move(g, s, g[s.cell.value].adjacent[i]), false)
    ensures DirectionOf(g[s.cell.value].adjacent, g[s.cell.value].adjacent[i]) == Directions.Names[i]
  {
    var here := g[s.cell.value];
    var t := here.adjacent[i];
    Directions.SlotForName(i);
    IndexOfDistinct(here.adjacent, i);
    assert here.neighbours[Directions.Slots[i]] == t;
  }

  /**
   * `move_in_direction` accepts a compass name or the slot name it maps to
   * (line 349), and the two forms behave alike.
   */
  lemma MoveInDirectionEitherForm(g: Grid, s: State, i: nat)
    requires WellFormed(g) && Inv(g, s) && i < |Directions.Names|
    ensures Directions.ToSlot(Directions.Names[i]).Some? && Directions.ToSlot(Directions.Slots[i]).Some?
    ensures MoveInDirection(g, s, Directions.Slots[i]) == MoveInDirection(g, s, Directions.Names[i])
  {
    Directions.SlotForName(i);
  }

  /**
   * A 5-cell walk at speed 10, which gives two hops per budget. A 5-cell
   * plan is queued as chunks of 2, 2 and 1 cells, and one refresh takes the
   * first chunk, leaving the last 3 cells of the path and 2 chunks in the
   * queue. When the first two planned cells are free and each is adjacent to
   * the cell before it, that refresh makes both hops: the entity ends on the
   * second cell with its budget spent, the two cells it left are appended to
   * its history, and log slots 0 and 1 hold the two hop records.
   */
  lemma {:induction false} FiveCellWalk(g: Grid, s: State, planned: seq<Designation>)
    requires WellFormed(g) && Inv(g, s)
    requires s.speed == 10 && s.remaining == 2 && |planned| == 5
    ensures SetPathToDefined(s, planned)
    ensures
      var p := SetPathTo(s, planned);
      p.queue == [Chunk(planned[..2]), Chunk(planned[2..4]), Chunk(planned[4..])] &&
      RefreshDefined(p) &&
      Refresh(g, p).state.path == planned[2..] &&
      Refresh(g, p).state.queue == [Chunk(planned[2..4]), Chunk(planned[4..])]
    ensures
      s.cell.Some? && planned[0] in g[s.cell.value].adjacent && planned[1] in g[planned[0]].adjacent &&
      !g[planned[0]].occupied && !g[planned[1]].occupied ==>
      var o := Refresh(g, SetPathTo(s, planned));
      !o.raised && o.state.cell == Some(planned[1]) && o.state.remaining == 0 &&
      o.state.history == s.history + [s.cell.value, planned[0]] &&
      0 in o.state.actions.moves && o.state.actions.moves[0] == HopRecord(g, s.cell.value, planned[0]) &&
      1 in o.state.actions.moves && o.state.actions.moves[1] == HopRecord(g, planned[0], planned[1])
  {
    var p := SetPathTo(s, planned);
    var b := TakeCells(p, None);
    assert p.queue == [Chunk(planned[..2]), Chunk(planned[2..4]), Chunk(planned[4..])] by {
      var m := Movements(s.speed);
      assert m == 2;
      var rest := planned[2..];
      assert rest[..2] == planned[2..4] && rest[2..] == planned[4..];
      assert PathSlicing.SlicePath(rest[2..], m) == [planned[4..]];
      assert PathSlicing.SlicePath(rest, m) == [planned[2..4], planned[4..]];
      assert PathSlicing.SlicePath(planned, m) == [planned[..2], planned[2..4], planned[4..]];
    }
    assert b.state.path == planned[2..];
    assert b.state.queue == [Chunk(planned[2..4]), Chunk(planned[4..])];
    if s.cell.Some? && planned[0] in g[s.cell.value].adjacent && planned[1] in g[planned[0]].adjacent &&
       !g[planned[0]].occupied && !g[planned[1]].occupied {
      assert b.cells == [planned[0], planned[1]];
      assert Refresh(g, p) == Run(g, b.state, [planned[0], planned[1]]);
      TwoHops(g, b.state, planned[0], planned[1]);
    }
  }

  /**
   * Two hops with a budget of exactly two, from the first slot of the log,
   * into two free cells that each lie next to the cell before.
   */
  lemma {:induction false} TwoHops(g: Grid, s: State, a: Designation, b: Designation)
    requires WellFormed(g) && Inv(g, s) && s.cell.Some? && s.remaining == 2 && Movements(s.speed) == 2
    requires a in g[s.cell.value].adjacent && b in g[a].adjacent && !g[a].occupied && !g[b].occupied
    ensures var o := Run(g, s, [a, b]);
      !o.raised && o.state.cell == Some(b) && o.state.remaining == 0 &&
      o.state.history == s.history + [s.cell.value, a] &&
      0 in o.state.actions.moves && o.state.actions.moves[0] == HopRecord(g, s.cell.value, a) &&
      1 in o.state.actions.moves && o.state.actions.moves[1] == HopRecord(g, a, b)
  {
    var here := s.cell.value;
    var cells := [a, b];
    assert Walk(g, [here] + cells);
    var o := Run(g, s, cells);
    assert !o.raised && o.state.cell == Some(b) && o.state.remaining == 0 &&
           o.state.history == s.history + [here, a] by {
      RunFollowsWalk(g, s, cells);
      SplitLast(o.state.history, s.history + [here], a, b);
    }
    assert 0 in o.state.actions.moves && o.state.actions.moves[0] == HopRecord(g, here, a) &&
           1 in o.state.actions.moves && o.state.actions.moves[1] == HopRecord(g, a, b) by {
      RunRecordsWalk(g, s, cells);
      assert RecordsWalk(g, o.state.actions.moves, 1, a, [b]) by {
        assert cells[1..] == [b];
      }
    }
  }

  /** A history that ends in `b` after a walk through `a` to `b` ends in `a` before it. */
  lemma SplitLast(h: seq<Designation>, y: seq<Designation>, a: Designation, b: Designation)
    requires h + [b] == y + [a, b]
    ensures h == y + [a]
  {
    assert h == (h + [b])[..|h|];
    assert y + [a] == (y + [a, b])[..|y| + 1];
  }

  /**
   * Without a turn boundary the budget only runs down: once it is spent,
   * refreshing never moves the entity again, and it stays in its cell.
   */
  lemma {:induction false} SpentBudgetHoldsStill(g: Grid, s: State)
    requires WellFormed(g) && Inv(g, s) && s.remaining <= 0
    ensures RefreshDefined(s)
    ensures var r := Refresh(g, s).state;
      r.cell == s.cell && r.history == s.history && r.remaining == s.remaining && r.actions == s.actions
  {
  }
}
