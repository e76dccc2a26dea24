/**
 * `GridEntity` (entyty/_entity/_grid_entity.py, lines 16-360) as a class
 * whose fields the methods update step by step, as the Python code does.
 * Each method is proved to leave the fields as the matching function of
 * EntityState prescribes, and the lemmas about those functions carry over.
 */
module GridEntities {
  import opened Wrappers
  import opened PySeq
  import opened GridModel
  import Directions
  import Facing
  import PathSlicing
  import opened EntityState

  class GridEntity {
    /** The grid the entity is bound to; the entity never changes it. */
    const grid: Grid

    var cell: Option<Designation>
    var lastCell: Option<Designation>
    var cellHistory: seq<Designation>
    var path: seq<Designation>
    var speed: int
    var movementsRemaining: int
    var movementQueue: seq<QueueEntry>
    var actions: Actions
    var traveling: bool
    /** Cells whose `recv_occupant` was called, in call order. */
    var notified: seq<Designation>
    /** `_facing`: None until first assigned. */
    var facing: Option<string>

    /** The fields as a value of EntityState. */
    function View(): State
      reads this
    {
      State(cell, lastCell, cellHistory, path, speed, movementsRemaining, movementQueue, actions, traveling, notified)
    }

    ghost predicate Valid()
      reads this
    {
      WellFormed(grid) && Inv(grid, View())
    }

    /**
     * `__init__`: `initCell` stands for the passable cell that
     * `grid.random_cell` chooses, `parentSpeed` for the parent's speed.
     */
    constructor (g: Grid, parentSpeed: Option<int>, initCell: Designation)
      requires WellFormed(g) && initCell in g
      ensures Valid() && grid == g
      ensures View() == Initial(g, parentSpeed, initCell) && facing.None?
    {
      grid := g;
      // the `cell` setter on an entity that holds no cell takes the cell
      cell := Some(initCell);
      cellHistory := [];
      lastCell := None;
      path := [];
      var sp := if parentSpeed.Some? then parentSpeed.value else 5;
      speed := sp;
      movementsRemaining := Movements(sp);
      actions := FreshActions(Movements(sp));
      traveling := false;
      movementQueue := [];
      notified := [];
      facing := None;
      new;
      Occupy(initCell);
    }

    /** The `cell` property setter. */
    method SetCell(c: Option<Designation>)
      requires Valid() && (c.Some? ==> c.value in grid)
      modifies this
      ensures Valid() && View() == EntityState.SetCell(old(View()), c) && facing == old(facing)
    {
      if c.Some? {
        if cell.Some? {
          return;
        }
        cell := c;
      } else if cell.Some? {
        lastCell := cell;
        cell := None;
        cellHistory := cellHistory + [lastCell.value];
      }
    }

    method Vacate()
      requires Valid() && cell.Some?
      modifies this
      ensures Valid() && View() == EntityState.Vacate(old(View())) && facing == old(facing)
    {
      actions := actions.(vacate := Some(grid[cell.value].designation));
      notified := notified + [cell.value];
      SetCell(None);
    }

    method Occupy(t: Designation)
      requires Valid() && OccupyDefined(grid, View(), t)
      modifies this
      ensures Valid() && View() == EntityState.Occupy(grid, old(View()), t) && facing == old(facing)
    {
      var target := grid[t];
      if (cell.None? && !target.occupied) || lastCell.Some? {
        if cell.Some? {
          return;
        }
        if target.occupied {
          return;
        }
        notified := notified + [t];
        SetCell(Some(t));
      }
      notified := notified + [cell.value];
      actions := actions.(occupy := Some(grid[cell.value].designation));
    }

    /**
     * `move(t)`; `raised` reports the AttributeError of an entity with budget
     * left but no cell.
     */
    method Move(t: Designation) returns (raised: bool)
      requires Valid()
      modifies this
      ensures Valid() && facing == old(facing)
      ensures raised == Raises(old(View()))
      ensures View() == if raised then old(View()) else EntityState.Move(grid, old(View()), t)
    {
      raised := false;
      if movementsRemaining <= 0 {
        return;
      }
      if cell.None? {
        raised := true;
        return;
      }
      var here := grid[cell.value];
      if t !in here.adjacent {
        return;
      }
      ghost var before := View();
      var direction := Directions.Names[IndexOf(here.adjacent, t)];
      var slot := Movements(speed) - movementsRemaining;
      actions := actions.(moves := actions.moves[slot := MoveEntry(Some(direction), Some(here.designation), Some(t))]);
      assert View() == LogMove(grid, before, t);
      Vacate();
      Occupy(t);
      movementsRemaining := movementsRemaining - 1;
    }

    /** `move_in_path(steps)`; `raised` as for Move. */
    method MoveInPath(steps: Option<int>) returns (raised: bool)
      requires Valid() && MoveInPathDefined(View(), steps)
      modifies this
      ensures Valid() && facing == old(facing)
      ensures Outcome(View(), raised) == EntityState.MoveInPath(grid, old(View()), steps)
    {
      var cells: seq<Designation>;
      if movementQueue != [] && traveling {
        cells := movementQueue[0].cells;
        movementQueue := movementQueue[1..];
        path := Drop(path, |cells|);
      } else if steps.value <= movementsRemaining {
        cells := Take(path, steps.value);
        path := Drop(path, steps.value);
      } else {
        cells := Take(path, movementsRemaining);
        path := Drop(path, movementsRemaining);
        movementQueue := Chunks(Take(PathSlicing.SlicePath(path, Movements(speed)), steps.value));
        traveling := true;
      }
      assert Batch(View(), cells) == TakeCells(old(View()), steps);
      raised := MoveAlong(cells);
    }

    /** The loop `for cell in cells: self.move(cell)` that ends `move_in_path`. */
    method MoveAlong(cells: seq<Designation>) returns (raised: bool)
      requires Valid()
      modifies this
      ensures Valid() && facing == old(facing)
      ensures Outcome(View(), raised) == Run(grid, old(View()), cells)
    {
      raised := false;
      var i := 0;
      while i < |cells|
        invariant 0 <= i <= |cells|
        invariant Valid() && facing == old(facing)
        invariant Run(grid, old(View()), cells) == Run(grid, View(), cells[i..])
      {
        raised := Move(cells[i]);
        if raised {
          return;
        }
        assert cells[i..][1..] == cells[i + 1..];
        i := i + 1;
      }
    }

    /** `move_in_direction(direction)`; `raised` when the entity holds no cell. */
    method MoveInDirection(direction: string) returns (raised: bool)
      requires Valid() && Directions.ToSlot(direction).Some?
      modifies this
      ensures Valid() && facing == old(facing)
      ensures Outcome(View(), raised) == EntityState.MoveInDirection(grid, old(View()), direction)
    {
      var slot := Directions.ToSlot(direction).value;
      if cell.None? {
        return true;
      }
      var here := grid[cell.value];
      raised := false;
      if slot in here.neighbours {
        raised := Move(here.neighbours[slot]);
      }
    }

    /** `refresh(dt)`; the elapsed time is not read and is left out. */
    method Refresh() returns (raised: bool)
      requires Valid() && RefreshDefined(View())
      modifies this
      ensures Valid() && facing == old(facing)
      ensures Outcome(View(), raised) == EntityState.Refresh(grid, old(View()))
    {
      raised := false;
      if movementsRemaining > 0 && traveling {
        raised := MoveInPath(None);
      } else if path == [] {
        traveling := false;
        movementQueue := [];
      }
    }

    /** `set_path_to(destination)`, with `planned` the grid's path to it. */
    method SetPathTo(planned: seq<Designation>)
      requires Valid() && SetPathToDefined(View(), planned)
      modifies this
      ensures Valid() && facing == old(facing)
      ensures View() == EntityState.SetPathTo(old(View()), planned)
    {
      path := planned;
      if |path| > Movements(speed) {
        movementQueue := Chunks(PathSlicing.SlicePath(path, Movements(speed)));
      } else {
        movementQueue := Bares(path);
      }
      traveling := true;
    }

    /** The `speed` setter. */
    method SetSpeed(v: int)
      requires Valid()
      modifies this
      ensures Valid() && facing == old(facing)
      ensures View() == EntityState.SetSpeed(old(View()), v)
    {
      speed := v;
      movementsRemaining := Movements(speed);
      actions := FreshActions(Movements(speed));
    }

    /** The `movements` setter. */
    method SetMovements(m: int)
      requires Valid()
      modifies this
      ensures Valid() && facing == old(facing)
      ensures View() == EntityState.SetMovements(old(View()), m)
    {
      movementsRemaining := m;
    }

    /** The `facing` setter. */
    method SetFacing(h: Facing.Heading)
      requires Valid()
      modifies this
      ensures Valid() && View() == old(View())
      ensures facing == Some(Facing.Resolve(h))
    {
      facing := Some(Facing.Resolve(h));
    }
  }
}
