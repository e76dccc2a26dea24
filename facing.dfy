/**
 * The `facing` property setter (entyty/_entity/_grid_entity.py, lines
 * 158-183): a compass label is stored as it is; any other value is looked
 * up in an ordered table of degree ranges and the first range containing
 * it gives the label, with the sentinel "Invalid angle" when none does.
 */
module Facing {

  const InvalidAngle: string := "Invalid angle"

  /** The eight labels, in the table's order. */
  const Labels: seq<string> := ["E", "NE", "N", "NW", "W", "SW", "S", "SE"]

  /** What can be assigned to `facing`: a string, an integer or None. */
  datatype Heading = Label(name: string) | Degrees(deg: int) | NoHeading

  /** Python's `range(start, stop)` with step 1. */
  datatype Range = Range(start: int, stop: int)

  predicate InRange(r: Range, d: int) {
    r.start <= d < r.stop
  }

  /**
   * Python's `a or b` on two ranges: `a` when it is non-empty (truthy),
   * otherwise `b`.
   */
  function RangeOr(a: Range, b: Range): (r: Range)
    ensures a.start < a.stop ==> r == a
  {
    if a.start < a.stop then a else b
  }

  datatype Sector = Sector(direction: string, angles: Range)

  /**
   * `cardinal_directions`, in insertion order. The entry for E is written
   * `range(337, 360) or range(23)`, which is `range(337, 360)` alone.
   */
  const Sectors: seq<Sector> := [
    Sector("E", RangeOr(Range(337, 360), Range(0, 23))),
    Sector("NE", Range(23, 68)),
    Sector("N", Range(68, 113)),
    Sector("NW", Range(113, 158)),
    Sector("W", Range(158, 203)),
    Sector("SW", Range(203, 248)),
    Sector("S", Range(248, 293)),
    Sector("SE", Range(293, 338))
  ]

  /** `next((direction for direction, r in sectors if d in r), "Invalid angle")` */
  function FirstMatch(sectors: seq<Sector>, d: int): (r: string)
    ensures forall k :: (0 <= k < |sectors| && InRange(sectors[k].angles, d) &&
                         (forall j :: 0 <= j < k ==> !InRange(sectors[j].angles, d))) ==> r == sectors[k].direction
    ensures (forall k :: 0 <= k < |sectors| ==> !InRange(sectors[k].angles, d)) ==> r == InvalidAngle
  {
    if sectors == [] then InvalidAngle
    else if InRange(sectors[0].angles, d) then sectors[0].direction
    else FirstMatch(sectors[1..], d)
  }

  /**
   * The value the setter stores. A string that is not a label and None are
   * never inside an integer range, so they give the sentinel.
   */
  function Resolve(h: Heading): (r: string)
    ensures r == InvalidAngle || r in Labels
    ensures h.Label? && h.name in Labels ==> r == h.name
    ensures h.Label? && h.name !in Labels ==> r == InvalidAngle
  {
    match h
    case Label(name) => if name in Labels then name else InvalidAngle
    case Degrees(d) => FirstMatch(Sectors, d)
    case NoHeading => InvalidAngle
  }

  /** The degree table as it resolves, sector by sector. */
  function ExpectedLabel(d: int): string {
    if 23 <= d <= 67 then "NE"
    else if 68 <= d <= 112 then "N"
    else if 113 <= d <= 157 then "NW"
    else if 158 <= d <= 202 then "W"
    else if 203 <= d <= 247 then "SW"
    else if 248 <= d <= 292 then "S"
    else if 293 <= d <= 336 then "SE"
    else if 337 <= d <= 359 then "E"
    else InvalidAngle
  }

  /**
   * Integer degrees resolve per ExpectedLabel: 0-22 and every value outside
   * 23-359 give the sentinel, and 337, which lies in both the E and the SE
   * range, gives E because E comes first.
   */
  lemma ResolveDegrees(d: int)
    ensures Resolve(Degrees(d)) == ExpectedLabel(d)
  {
    if d < 23 || d >= 360 {
      ResolveOutside(d);
    } else if d >= 337 {
      ResolveEast(d);
    } else {
      ResolveInner(d);
    }
  }

  /** No degree value outside 23-359 names a direction. */
  lemma ResolveOutside(d: int)
    requires d < 23 || d >= 360
    ensures Resolve(Degrees(d)) == InvalidAngle
  {
  }

  lemma ResolveEast(d: int)
    requires 337 <= d < 360
    ensures Resolve(Degrees(d)) == "E"
  {
  }

  lemma ResolveInner(d: int)
    requires 23 <= d < 337
    ensures Resolve(Degrees(d)) == ExpectedLabel(d)
  {
    SectorTable();
    var k := if d < 68 then 1 else if d < 113 then 2 else if d < 158 then 3 else if d < 203 then 4
             else if d < 248 then 5 else if d < 293 then 6 else 7;
    assert InRange(Sectors[k].angles, d);
    assert forall j :: 0 <= j < k ==> !InRange(Sectors[j].angles, d);
    assert Resolve(Degrees(d)) == Sectors[k].direction;
  }

  /** The table written out entry by entry. */
  lemma SectorTable()
    ensures |Sectors| == 8
    ensures Sectors[0] == Sector("E", Range(337, 360))
    ensures Sectors[1] == Sector("NE", Range(23, 68)) && Sectors[2] == Sector("N", Range(68, 113))
    ensures Sectors[3] == Sector("NW", Range(113, 158)) && Sectors[4] == Sector("W", Range(158, 203))
    ensures Sectors[5] == Sector("SW", Range(203, 248)) && Sectors[6] == Sector("S", Range(248, 293))
    ensures Sectors[7] == Sector("SE", Range(293, 338))
  {
  }

  /**
   * Storing the stored value again leaves it as it is: a label resolves to
   * itself, and the sentinel is not a label.
   */
  lemma {:induction false} ResolveStable(h: Heading)
    ensures Resolve(Label(Resolve(h))) == Resolve(h)
  {
  }
}
