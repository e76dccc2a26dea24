/**
 * `_DIRECTION_MAP` (entyty/_entity/_grid_entity.py, line 10): an ordered
 * dictionary from compass names to the names of a cell's adjacency slots.
 * It is kept as two aligned sequences so that the key order, which `move`
 * relies on, is explicit.
 */
module Directions {
  import opened Wrappers
  import opened PySeq

  /** The keys, in insertion order: `list(_DIRECTION_MAP.keys())`. */
  const Names: seq<string> :=
    ["south_west", "west", "north_west", "north", "north_east", "east", "south_east", "south"]

  /** The values, aligned with Names: `list(_DIRECTION_MAP.values())`. */
  const Slots: seq<string> :=
    ["down_left", "left", "up_left", "up", "up_right", "right", "down_right", "down"]

  /** `_DIRECTION_MAP[name]`; None where Python raises KeyError. */
  function SlotFor(name: string): (r: Option<string>)
    ensures r.Some? <==> name in Names
    ensures r.Some? ==> r.value in Slots
  {
    if name in Names then Some(Slots[IndexOf(Names, name)]) else None
  }

  /**
   * The first line of `move_in_direction`: a slot name is kept as it is,
   * a compass name is translated; anything else is a KeyError (None).
   */
  function ToSlot(direction: string): (r: Option<string>)
    ensures r.Some? <==> direction in Slots || direction in Names
    ensures r.Some? ==> r.value in Slots
    ensures direction in Slots ==> r == Some(direction)
  {
    if direction in Slots then Some(direction) else SlotFor(direction)
  }

  /** The table pairs the i-th key with the i-th value. */
  lemma SlotForName(i: nat)
    requires i < |Names|
    ensures SlotFor(Names[i]) == Some(Slots[i])
    ensures ToSlot(Names[i]) == Some(Slots[i])
  {
    NamesDistinct();
    NamesAreNotSlots();
    IndexOfDistinct(Names, i);
  }

  /** No key is repeated, so `list.index` finds the key's own position. */
  lemma NamesDistinct()
    ensures forall i, j :: 0 <= i < j < |Names| ==> Names[i] != Names[j]
  {
  }

  /** No compass name is also a slot name. */
  lemma NamesAreNotSlots()
    ensures forall i, j :: 0 <= i < |Names| && 0 <= j < |Slots| ==> Names[i] != Slots[j]
  {
  }

  /** No slot is named twice: the table is one-to-one. */
  lemma SlotsDistinct()
    ensures forall i, j :: 0 <= i < j < |Slots| ==> Slots[i] != Slots[j]
  {
  }

  /**
   * Translating is idempotent: a translated direction is a slot name and is
   * kept as it is the second time round.
   */
  lemma {:induction false} ToSlotIdempotent(direction: string)
    requires ToSlot(direction).Some?
    ensures ToSlot(ToSlot(direction).value) == ToSlot(direction)
  {
  }
}
