# Grid entity movement core of entyty, in Dafny

This project models the movement core of `GridEntity` in the entyty library
(`entyty/_entity/_grid_entity.py`). A grid entity holds at most one cell of a
grid. It keeps a history of the cells it left. It plans a path over the grid,
cuts that path into chunks of `movements = speed // 5` cells, and walks it one
hop at a time. Each hop spends one unit of a per-turn hop budget,
`_movements_remaining`, and writes a record into the `actions` log.

Files and modules:

- `wrappers.dfy` (`Wrappers`): `Option`, for Python's `None`.
- `pyseq.dfy` (`PySeq`): `list.index`, the slices `s[:k]` and `s[k:]` with
  Python's rules for negative and out-of-range bounds, and flattening.
- `directions.dfy` (`Directions`): `_DIRECTION_MAP` as two aligned sequences,
  so that its key order is explicit.
- `facing.dfy` (`Facing`): the `facing` setter. It resolves a label or an
  integer angle in degrees over the ordered range table.
- `grid.dfy` (`GridModel`): the grid collaborator. The grid is a map from
  designation to cell. A cell has an ordered `adjacent` list, a neighbour per
  named slot (what `getattr(cell, slot)` returns), and the flags `occupied`
  and `passable`.
- `slicing.dfy` (`PathSlicing`): `slice_path` and its properties.
- `entity_state.dfy` (`EntityState`): the entity's fields as a value, and
  every operation that changes them as a function from the old state to the
  new one.
- `movement_properties.dfy` (`MovementProperties`): lemmas that relate
  several operations.
- `event_dispatch.dfy` (`EventDispatch`): `occupy` as written, where the
  event dispatch raises.
- `grid_entity.dfy` (`GridEntities`): the class `GridEntity`. Its methods
  update the fields step by step, as the Python code does. Each method is
  proved to leave the fields exactly as the matching `EntityState` function
  says.

Calls to the cell's `recv_occupant` are recorded in a `notified` log, in call
order. Three Python exceptions are modelled as a `raised` result, with the
state at the point where they escape:

- the `AttributeError` from `move` when the budget is not spent but the
  entity holds no cell. The entity is left in that state after it moves into
  an occupied cell. The exception ends the `for cell in cells` loop of
  `move_in_path` (`EntityState.Run`, `EntityState.MoveInPath`);
- the `AttributeError` from `getattr(self.cell, direction)` in
  `move_in_direction` (line 351) on an entity that holds no cell, whatever
  its budget (`EntityState.MoveInDirection`);
- the `AttributeError` from the event dispatch in `occupy` as written
  (line 308; `EventDispatch.OccupyAsWritten`, see "## Findings").

The remaining crash paths are `requires` clauses.

Behaviour of the code worth noting:

- Angles 0 to 22 resolve to `"Invalid angle"`, not to E. The E entry is
  `range(337, 360) or range(23)`, and that evaluates to `range(337, 360)`.
  An angle of 337 resolves to E, because E comes before SE in the table.
- `move` does not check passability. It spends exactly one hop. Nothing in
  the code replenishes the budget: only construction and the `speed` and
  `movements` setters set it.
- A `move` into an adjacent cell that is occupied is not a no-op. The entity
  vacates its cell, and `occupy` then returns early. The entity is left with
  no cell, and the hop is still spent.
- A move that does nothing does not stop `move_in_path`. The loop goes on
  with the next cell, and only an exception ends it.
- A path that is not longer than `movements` is queued cell by cell, not as a
  single entry.
- `movements` is not kept at 1 or more. For speeds 0 to 4 it is 0, and
  slicing with 0 raises.
- The event dispatch in `occupy` (line 308) raises as written; see
  "## Findings". The rest of the model treats it as the no-op it was meant
  to be.

## Model

| member | source | states |
|---|---|---|
| `Directions.SlotFor` | entyty/_entity/_grid_entity.py:10 | `_DIRECTION_MAP[name]` is defined exactly for the eight compass names, and yields a slot name |
| `Directions.SlotForName` | entyty/_entity/_grid_entity.py:10 | the i-th key maps to the i-th slot, both through the lookup and through `move_in_direction`'s translation |
| `Directions.NamesDistinct` | entyty/_entity/_grid_entity.py:10 | no key repeats, so `list(keys).index` is faithful to the position |
| `Directions.SlotsDistinct` | entyty/_entity/_grid_entity.py:10 | no slot name repeats: the table is one-to-one |
| `Directions.NamesAreNotSlots` | entyty/_entity/_grid_entity.py:10 | no compass name is also a slot name, so the two forms accepted by `move_in_direction` never clash |
| `Directions.ToSlot` | entyty/_entity/_grid_entity.py:349 | a slot name is kept, a compass name is translated, and anything else is a KeyError (None); a result is always a slot |
| `Directions.ToSlotIdempotent` | entyty/_entity/_grid_entity.py:349 | translating an already translated direction changes nothing |
| `Facing.FirstMatch` | entyty/_entity/_grid_entity.py:176-183 | the generator with a default: the label of the first range that contains the angle, or the sentinel when no range contains it |
| `Facing.Resolve` | entyty/_entity/_grid_entity.py:158-183 | the stored value is always a label or `"Invalid angle"`; a known label is stored unchanged; an unknown string gives the sentinel |
| `Facing.ResolveDegrees` | entyty/_entity/_grid_entity.py:161-183 | integer degrees resolve to NE 23-67, N 68-112, NW 113-157, W 158-202, SW 203-247, S 248-292, SE 293-336, E 337-359, and to `"Invalid angle"` otherwise |
| `Facing.SectorTable` | entyty/_entity/_grid_entity.py:161-170 | the range table entry by entry, with E reduced to `range(337, 360)` |
| `Facing.ResolveOutside` | entyty/_entity/_grid_entity.py:161-183 | angles below 23 (0-22 and negatives) and from 360 up give the sentinel |
| `Facing.ResolveEast` | entyty/_entity/_grid_entity.py:162 | 337-359 give E, and 337 gives E even though SE's range also holds it |
| `Facing.ResolveInner` | entyty/_entity/_grid_entity.py:163-169 | 23-336 give the label of their 45-degree band |
| `Facing.ResolveStable` | entyty/_entity/_grid_entity.py:173-175 | assigning the stored value again leaves it unchanged |
| `PySeq.IndexOf` | entyty/_entity/_grid_entity.py:321 | `list.index` returns the first position of the element |
| `PySeq.Take` | entyty/_entity/_grid_entity.py:336 | `s[:k]` is a prefix of `s` whose length is the normalised bound |
| `PySeq.Drop` | entyty/_entity/_grid_entity.py:337 | `s[k:]` is what remains after `s[:k]`: the two concatenate to `s` |
| `PathSlicing.SlicePath` | entyty/_entity/_grid_entity.py:278-279 | for `m < 0` the comprehension is empty; an empty path gives no chunks |
| `PathSlicing.SliceCount` | entyty/_entity/_grid_entity.py:279 | for `m >= 1` there are `ceil(len(path) / m)` chunks |
| `PathSlicing.SliceAt` | entyty/_entity/_grid_entity.py:279 | chunk `i` is `path[i*m : i*m + m]`, as the comprehension builds it |
| `PathSlicing.SliceFlatten` | entyty/_entity/_grid_entity.py:279 | the chunks concatenate back to the path |
| `PathSlicing.SliceShape` | entyty/_entity/_grid_entity.py:279 | every chunk but the last has exactly `m` cells; all chunks are non-empty and have at most `m` |
| `PathSlicing.SliceCountBounds` | entyty/_entity/_grid_entity.py:279 | a non-empty path has more than `(count - 1) * m` and at most `count * m` cells |
| `EntityState.Movements` | entyty/_entity/_grid_entity.py:96-99 | `movements` is `speed // 5`, Python's floor division: `5 * movements <= speed < 5 * movements + 5`, negative speeds included |
| `EntityState.FreshActions` | entyty/_entity/_grid_entity.py:260 | the fresh action log has one empty move record per key in `range(movements)` and nothing else |
| `EntityState.SlotKeys` | entyty/_entity/_grid_entity.py:260 | `range(m)` as a key set: exactly the integers `0 <= i < m` |
| `EntityState.SetCell` | entyty/_entity/_grid_entity.py:61-72 | assigning a cell while one is held changes nothing; an unplaced entity takes it; assigning None while holding `c` sets `last_cell = c`, appends `c` to the history and clears the cell; assigning None while unplaced changes nothing |
| `EntityState.Vacate` | entyty/_entity/_grid_entity.py:290-294 | the cell is recorded under `'vacate'` and notified, then cleared through the setter, which writes `last_cell` and appends to the history |
| `EntityState.Occupy` | entyty/_entity/_grid_entity.py:297-309 | with the dispatch of line 308 as a no-op: a held cell is never replaced; an occupied target is never entered, and after a vacate returns before notifying or recording; a successful entry notifies the target twice and records its designation under `'occupy'`; a placed entity that never vacated re-announces its own cell |
| `EntityState.LogMove` | entyty/_entity/_grid_entity.py:321 | the record `{direction, from, to}` goes into slot `movements - remaining`, and nothing else changes |
| `EntityState.Hop` | entyty/_entity/_grid_entity.py:321-327 | after the checks pass: the record holds the direction-table key at the target's index in `adjacent`, the old and the new designation; the old cell is appended to the history; the entity holds the target, or nothing if the target is occupied; the budget is exactly one less |
| `EntityState.Move` | entyty/_entity/_grid_entity.py:315-328 | with no budget left, or with a target that is not adjacent, nothing changes; otherwise one Hop; the budget never increases; the history grows by one entry per spent hop; budget, log and trail invariants are kept |
| `EntityState.HopKeepsInvariants` | entyty/_entity/_grid_entity.py:321-327 | a hop keeps the budget within `0..movements`, keeps the filled log slots equal to the spent hops, and extends the trail of visited cells only with an adjacent cell |
| `EntityState.DirectionOf` | entyty/_entity/_grid_entity.py:321 | the recorded direction is always one of the compass names |
| `EntityState.Run` | entyty/_entity/_grid_entity.py:345-346 | the loop over the taken cells spends at most one hop per cell and never raises the budget or drives it below zero; the history only grows, by one entry per spent hop; an exception is raised only from a state where `move` raises; the plan is untouched; the budget, log and trail invariants are kept |
| `EntityState.MoveIntoFree` | entyty/_entity/_grid_entity.py:315-327 | a `move` with budget left into a free adjacent cell enters it, spends one hop, appends the cell left to the history and records the hop in slot `movements - remaining` |
| `EntityState.RunFollowsWalk` | entyty/_entity/_grid_entity.py:345-346 | following a walk of free, consecutively adjacent cells with a hop of budget for each: the loop never raises, ends on the last cell, spends exactly one hop per cell, and the trail of visited cells grows by exactly the walked cells (every cell left joins the history, in order) |
| `EntityState.RunRecordsWalk` | entyty/_entity/_grid_entity.py:345-346 | the same walk fills the log slots from `movements - remaining` on with one `{direction, from, to}` record per hop, in walk order, and leaves the earlier slots alone |
| `EntityState.SetPathTo` | entyty/_entity/_grid_entity.py:281-288 | `path` becomes the grid's path and `traveling` is set; the queue is `slice_path(path)` when the path is longer than `movements`, or one bare entry per cell otherwise; nothing else changes |
| `EntityState.TakeCells` | entyty/_entity/_grid_entity.py:330-342 | queued mode removes the head chunk and drops exactly its length from the front of `path`; with `steps <= remaining` it takes `path[:steps]`; otherwise it takes `path[:remaining]` and queues the rest sliced by `movements`, cut to `steps` chunks, with `traveling` set; outside queued mode the taken cells and the new path concatenate to the old path |
| `EntityState.MoveInPath` | entyty/_entity/_grid_entity.py:330-346 | the plan is left as the cell choice leaves it; the budget never rises or drops below zero; the history only grows, by one entry per spent hop; the budget, log and trail invariants are kept |
| `EntityState.Refresh` | entyty/_entity/_grid_entity.py:355-360 | with budget left while traveling it is `move_in_path()`, which consumes the head chunk and advances `path` by that chunk's length; without budget or travel, an empty path clears `traveling` and the queue, and a non-empty one changes nothing; in every case the budget never rises, the history grows by one entry per spent hop, and the budget, log and trail invariants are kept |
| `EntityState.MoveInDirection` | entyty/_entity/_grid_entity.py:348-353 | an unplaced entity raises; a slot with no neighbour changes nothing; otherwise it is exactly one `move` to the neighbour in that slot, spending at most one hop |
| `EntityState.Initial` | entyty/_entity/_grid_entity.py:237-263 | a new entity holds its initial cell, has an empty history and path, has the parent's speed or 5, has a full budget of `movements` hops for any speed, a log in step with it for a non-negative speed, and has notified and recorded its cell once |
| `EntityState.SetSpeed` | entyty/_entity/_grid_entity.py:269-273 | a new speed gives a full budget of `speed // 5` hops and a fresh log, and nothing else changes |
| `EntityState.SetMovements` | entyty/_entity/_grid_entity.py:101-103 | the `movements` setter writes only the remaining budget |
| `EntityState.SetMovementsKeepsBudget` | entyty/_entity/_grid_entity.py:101-103 | writing `movements` keeps the budget within `0..movements` and in step with the log's slots exactly when the value written lies in `0..movements`; any other value breaks that invariant |
| `MovementProperties.QueuedCellsOfChunks` | entyty/_entity/_grid_entity.py:285 | queuing chunks and reading them back gives the same chunks |
| `MovementProperties.SetPathToReplaces` | entyty/_entity/_grid_entity.py:281-288 | calling `set_path_to` again replaces the previous plan entirely |
| `MovementProperties.SetPathToCoversPath` | entyty/_entity/_grid_entity.py:284-285 | a path longer than `movements >= 1` is queued as chunks that spell out the whole path |
| `MovementProperties.QueuedStepFollowsPath` | entyty/_entity/_grid_entity.py:331-333 | in queued mode the taken chunk is exactly the front of the path, and the rest of the queue still spells out the rest of the path (or a prefix of it) |
| `MovementProperties.StepsRequeueWithinPath` | entyty/_entity/_grid_entity.py:338-342 | the queue rebuilt for an over-budget step count spells out a prefix of the remaining path |
| `MovementProperties.MoveInPathKeepsQueueWithinPath` | entyty/_entity/_grid_entity.py:330-346 | a queued `move_in_path` keeps the queue a prefix of the path |
| `MovementProperties.MoveInDirectionRecordsDirection` | entyty/_entity/_grid_entity.py:321 | when a cell's slots line up with its adjacency list, moving in the i-th compass direction hops to the i-th adjacent cell and records the i-th compass name: the lookup by key and the lookup by position agree |
| `MovementProperties.MoveInDirectionEitherForm` | entyty/_entity/_grid_entity.py:349 | passing a slot name directly behaves exactly like passing the compass name that maps to it |
| `MovementProperties.FiveCellWalk` | entyty/_entity/_grid_entity.py:281-360 | speed 10 and a 5-cell plan give chunks of 2, 2 and 1 cells; one refresh leaves the last 3 cells and 2 chunks; when the first two planned cells are free and each lies next to the one before, that refresh moves the entity onto the second cell, spends the budget, appends the two cells left to the history, and fills log slots 0 and 1 with the two hop records |
| `MovementProperties.TwoHops` | entyty/_entity/_grid_entity.py:345-346 | with a budget of two, a loop over two free cells that each lie next to the one before ends on the second, spends both hops, and records them in slots 0 and 1 |
| `MovementProperties.SpentBudgetHoldsStill` | entyty/_entity/_grid_entity.py:355-360 | once the budget is spent, a refresh never moves the entity or touches its log |
| `EventDispatch.OccupyAsWritten` | entyty/_entity/_grid_entity.py:297-309 | as written, `occupy` raises exactly when the no-op version would change the state; it never writes the `'occupy'` record; apart from that record it leaves the state the no-op version leaves |
| `EventDispatch.ConstructionRaises` | entyty/_entity/_grid_entity.py:263 | as written, the `occupy` call in `__init__` always raises |
| `EventDispatch.HopRaises` | entyty/_entity/_grid_entity.py:325-327 | as written, a hop into a free cell raises in `occupy`, before the budget decrement |
| `GridEntities.GridEntity.constructor` | entyty/_entity/_grid_entity.py:237-263 | construction yields the initial state |
| `GridEntities.GridEntity.SetCell` | entyty/_entity/_grid_entity.py:61-72 | the setter's steps produce `EntityState.SetCell` |
| `GridEntities.GridEntity.Vacate` | entyty/_entity/_grid_entity.py:290-294 | the method's steps produce `EntityState.Vacate` |
| `GridEntities.GridEntity.Occupy` | entyty/_entity/_grid_entity.py:297-309 | the method's steps produce `EntityState.Occupy` |
| `GridEntities.GridEntity.Move` | entyty/_entity/_grid_entity.py:315-328 | the method raises exactly when the budget is not spent and there is no cell, and otherwise produces `EntityState.Move` |
| `GridEntities.GridEntity.MoveAlong` | entyty/_entity/_grid_entity.py:345-346 | the loop produces `EntityState.Run` |
| `GridEntities.GridEntity.MoveInPath` | entyty/_entity/_grid_entity.py:330-346 | the method produces `EntityState.MoveInPath` |
| `GridEntities.GridEntity.MoveInDirection` | entyty/_entity/_grid_entity.py:348-353 | the method produces `EntityState.MoveInDirection` |
| `GridEntities.GridEntity.Refresh` | entyty/_entity/_grid_entity.py:355-360 | the method produces `EntityState.Refresh` |
| `GridEntities.GridEntity.SetPathTo` | entyty/_entity/_grid_entity.py:281-288 | the method produces `EntityState.SetPathTo` |
| `GridEntities.GridEntity.SetSpeed` | entyty/_entity/_grid_entity.py:269-273 | the setter produces `EntityState.SetSpeed` |
| `GridEntities.GridEntity.SetMovements` | entyty/_entity/_grid_entity.py:101-103 | the setter produces `EntityState.SetMovements` |
| `GridEntities.GridEntity.SetFacing` | entyty/_entity/_grid_entity.py:158-183 | the setter stores `Facing.Resolve` of its argument and changes nothing else |

## Left out

- Event plumbing (`_register_event_type`, `_push_handlers`, `_pop_handlers`, `_dispatch_event`) goes through pyglet's global dispatcher, and handlers are not modelled. The `notified` log of `recv_occupant` calls stands in for it. As written, `_dispatch_event('on_occupy', ...)` at line 308 raises AttributeError. It reads `self.events`, which is defined only on the metaclass (entyty/_entity/_base_entity.py:24-31, 143-146). `EventDispatch.OccupyAsWritten` models that case. Everything else models the evident intent: the class's event table has no `'on_occupy'` entry, so the dispatch does nothing.
- What `recv_occupant` does to a cell is not visible in this code. Cells' `occupied` flags are therefore the same for the whole of each operation.
- `GridEntities.GridEntity`: the class holds one grid value, `grid`, for its whole life. The `occupied` flags it sees are therefore fixed from construction on. Changes that other entities' `occupy` and `vacate` make to the shared grid between two calls cannot be expressed through the class. The `EntityState` functions take the grid as an argument on every call, so they can express those changes.
- Cells have at most eight `adjacent` entries (`GridModel.WellFormed`). The code only needs this for the target of a `move`: `list(_DIRECTION_MAP.keys())[...]` at line 321 raises IndexError when the target sits at index 8 or later. That IndexError is not modelled; a grid with longer adjacency lists is outside the model.
- The radians path of the `facing` setter (`math.degrees` of a float) is floating point. Only labels, integer degrees and None are modelled.
- `draw`, `x`, `y`, `position`, `width` and `height` are about rendering and floats.
- `grid.random_cell` and `grid.get_path` are foreign calls. The chosen cell is a constructor parameter, and the computed path is the `planned` parameter of `SetPathTo`. `get_path_to` is that foreign call and nothing more.
- `check_destination` is never called by this code.
- `print` calls in `move` are console output.
- Trivial property pairs (`cell_name`, `path`, `grid`, `last_cell`, `cell_history`, `actions`, `is_turn`) are plain fields. The `movement_queue` getter and setter turn None into `[]`. Nothing in the core assigns None to the queue, so it is a plain sequence that starts empty.
- `refresh`'s `dt` argument is not read, so `Refresh` takes none.
- `EntityState.Occupy`: the crash of an entity that never held a cell being sent to an occupied cell (`self.cell` is None at line 306) is a precondition.
- `EntityState.Vacate`: vacating with no cell (`self.cell.designation` on None) is a precondition.
- `EntityState.MoveInPath`: the cases where no branch binds `cells` are a precondition. The same holds for popping a bare-cell queue entry (it has no `len`) and for slicing with `movements == 0`.
- `EntityState.Refresh`: refreshing while traveling with budget left needs a chunk at the head of the queue. The precondition says so, because `move_in_path()` otherwise raises.
- `EntityState.SetPathTo`: a path longer than `movements` when `movements == 0` makes `slice_path` raise. That is a precondition.
- `EntityState.MoveInDirection`: a direction that is neither a compass name nor a slot name raises KeyError. That is a precondition.
- Cells are compared by designation. The grid files every cell under its own designation, so this agrees with Python's comparison of cell objects.
- Python's `bool` counts as an integer angle in `facing`. It is not modelled.
- The base entity code (scene attachment, uuid, file save, `_adopt`/`_orphan`), `entyty/_entity/_entity.py`, `entyty/__log__.py` and `setup.py` are outside the movement core.

## Findings

| source | as written | input that shows it | evidently intended | confidence | as-written member | corrected member |
|---|---|---|---|---|---|---|
| entyty/_entity/_grid_entity.py:308 with entyty/_entity/_base_entity.py:24-31, 143-146 | `_dispatch_event` reads `self.events`, but `events` is an attribute of the metaclass `EntityMeta`, which an instance lookup never searches; every `occupy` that gets past its early returns raises AttributeError before recording `'occupy'` | constructing any `GridEntity` (its `__init__` calls `occupy` at line 263); or any `move` into a free adjacent cell | the event is looked up in the entity class's table, which has no `'on_occupy'` entry, so nothing is dispatched and line 309 records the cell | high (reading of Python's attribute lookup; not executed) | `EventDispatch.OccupyAsWritten`, `EventDispatch.ConstructionRaises`, `EventDispatch.HopRaises` | `EntityState.Occupy` |
