/**
 * The grid collaborator, seen only through what the entity code reads of
 * it: a cell's designation, its ordered `adjacent` designations, the
 * neighbour reached through each named slot (`getattr(cell, slot)`), and its
 * `occupied` and `passable` flags. The grid itself is a dictionary from
 * designation to cell (`grid[designation]`).
 */
module GridModel {

  type Designation = string

  datatype Cell = Cell(
    designation: Designation,
    adjacent: seq<Designation>,
    neighbours: map<string, Designation>,
    occupied: bool,
    passable: bool)

  type Grid = map<Designation, Cell>

  /**
   * What the entity code takes for granted about the grid: a cell is filed
   * under its own designation, it has at most eight adjacency slots (one per
   * entry of the direction table), and every designation a cell refers to is
   * a cell of the grid.
   */
  ghost predicate WellFormed(g: Grid) {
    (forall d :: d in g ==> g[d].designation == d && |g[d].adjacent| <= 8) &&
    (forall d, a :: d in g && a in g[d].adjacent ==> a in g) &&
    (forall d, slot :: d in g && slot in g[d].neighbours ==> g[d].neighbours[slot] in g)
  }
}
