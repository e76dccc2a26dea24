/**
 * The event dispatch at line 308 of `occupy` as the code reads.
 * `_dispatch_event` (entyty/_entity/_base_entity.py, lines 143-146) looks up
 * `self.events`, but `events` is defined only on the metaclass `EntityMeta`
 * (lines 24-31 there), and an instance's attribute lookup searches its class
 * and the class's bases, never the metaclass. Every call of `occupy` that
 * gets past its early returns therefore raises AttributeError at line 308:
 * after the notifications of line 306, before the `'occupy'` record of line
 * 309. Read through the class, the table has no `'on_occupy'` entry and the
 * dispatch does nothing, which is what EntityState.Occupy models and the
 * rest of the model uses.
 */
module EventDispatch {
  import opened Wrappers
  import opened GridModel
  import opened EntityState

  /** `occupy(t)` as written: the second component says whether line 308 raised. */
  function OccupyAsWritten(g: Grid, s: State, t: Designation): (o: Outcome)
    requires OccupyDefined(g, s, t)
    ensures !o.raised ==> o.state == s
    ensures o.state.actions == s.actions
    ensures o.raised <==> Occupy(g, s, t) != s
    ensures o.raised ==> Occupy(g, s, t) == o.state.(actions := s.actions.(occupy := o.state.cell))
  {
    match Entered(g, s, t)
    case None => Outcome(s, false)
    case Some(e) => Outcome(e.(notified := e.notified + [e.cell.value]), true)
  }

  /** Construction as written always raises: `__init__` calls `occupy` on the cell it holds. */
  lemma {:induction false} ConstructionRaises(g: Grid, parentSpeed: Option<int>, init: Designation)
    requires init in g
    ensures OccupyDefined(g, Placed(parentSpeed, init), init)
    ensures OccupyAsWritten(g, Placed(parentSpeed, init), init).raised
  {
  }

  /**
   * A hop into a free cell as written raises too: the `occupy` at line 326
   * enters the cell and then fails at the dispatch, so `move` never reaches
   * the budget decrement of line 327.
   */
  lemma {:induction false} HopRaises(g: Grid, s: State, t: Designation)
    requires WellFormed(g) && Inv(g, s) && Hops(g, s, t) && !g[t].occupied
    ensures OccupyDefined(g, Vacate(LogMove(g, s, t)), t)
    ensures OccupyAsWritten(g, Vacate(LogMove(g, s, t)), t).raised
  {
  }
}
