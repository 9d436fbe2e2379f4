/**
 * The Boat component: an isPickedUp flag guarding changes to the boat's own AllowedTiles
 * component. The boat's water-tile array is empty, so a pickup only de-duplicates that
 * component's current array, and a drop writes the current array back onto itself.
 */
module Boat {

  import opened Wrappers
  import opened Tiles
  import opened Distinctness
  import AllowedTiles

  datatype State = State(isPickedUp: bool, tiles: Option<AllowedTiles.State>)

  /**
   * The result of a call that may dereference a null reference. A fault does not undo the
   * field writes made before it, so it carries the boat as the fault leaves it.
   */
  datatype Outcome = Done(boat: State) | NullReference(boat: State)

  /** The water tiles the boat adds: none are listed. */
  const WaterTiles: seq<Tile> := []

  /**
   * UpdateAllowedTilesForBoat: replaces the current array with the de-duplicated
   * concatenation of itself and the water tiles. Which tiles are allowed does not change.
   */
  function UpdateAllowedTilesForBoat(b: State): (r: State)
    ensures r.isPickedUp == b.isPickedUp
    ensures b.tiles.None? ==> r == b
    ensures b.tiles.Some? ==> r.tiles.Some? && r.tiles.value.defaults == b.tiles.value.defaults
    ensures b.tiles.Some? ==> r.tiles.value.current == Distinct(b.tiles.value.current)
    ensures b.tiles.Some? ==> forall t ::
      AllowedTiles.Contains(r.tiles.value, t) <==> AllowedTiles.Contains(b.tiles.value, t)
  {
    match b.tiles
    case None => b
    case Some(a) =>
      var updated := Distinct(AllowedTiles.Get(a) + WaterTiles);
      assert AllowedTiles.Get(a) + WaterTiles == a.current;
      b.(tiles := Some(AllowedTiles.UpdateAllowedTiles(a, Some(updated))))
  }

  /** OnPlayerInteraction: picks the boat up unless it is already carried. */
  function OnPlayerInteraction(b: State): (r: State)
    ensures r.isPickedUp
    ensures !b.isPickedUp ==> r == UpdateAllowedTilesForBoat(b.(isPickedUp := true))
    ensures b.isPickedUp ==> r == b
  {
    if !b.isPickedUp then UpdateAllowedTilesForBoat(b.(isPickedUp := true)) else b
  }

  /**
   * ResetAllowedTiles as written: the current array is read before the null check, so a
   * boat without an AllowedTiles reference fails with a null dereference before it writes
   * anything.
   */
  function ResetAllowedTilesAsWritten(b: State): (r: Outcome)
    ensures b.tiles.None? ==> r == NullReference(b)
    ensures b.tiles.Some? ==> r == Done(b)
  {
    match b.tiles
    case None => NullReference(b)
    case Some(a) =>
      var defaultTiles := AllowedTiles.Get(a);
      Done(b.(tiles := Some(AllowedTiles.UpdateAllowedTiles(a, Some(defaultTiles)))))
  }

  /**
   * OnPlayerDrop as written: drops the boat if it is carried, through the faulting reset.
   * The flag is cleared before the reset runs, so a fault leaves the boat already dropped.
   */
  function OnPlayerDropAsWritten(b: State): (r: Outcome)
    ensures !b.isPickedUp ==> r == Done(b)
    ensures b.isPickedUp && b.tiles.Some? ==> r == Done(b.(isPickedUp := false))
    ensures b.isPickedUp && b.tiles.None? ==> r == NullReference(b.(isPickedUp := false))
  {
    if b.isPickedUp then ResetAllowedTilesAsWritten(b.(isPickedUp := false)) else Done(b)
  }

  /**
   * A carried boat without an AllowedTiles reference faults when it is dropped, after its
   * flag has already been cleared.
   */
  lemma DropWithoutTilesFaults()
    ensures OnPlayerDropAsWritten(State(true, None)) == NullReference(State(false, None))
  {
  }

  /**
   * ResetAllowedTiles as the null check intends: a missing reference is reported and the
   * boat is left alone; otherwise the current array is written back onto itself.
   */
  function ResetAllowedTiles(b: State): (r: State)
    ensures r == b
    ensures ResetAllowedTilesAsWritten(b).boat == r
    ensures ResetAllowedTilesAsWritten(b).Done? <==> b.tiles.Some?
  {
    match b.tiles
    case None => b
    case Some(a) => b.(tiles := Some(AllowedTiles.UpdateAllowedTiles(a, Some(AllowedTiles.Get(a)))))
  }

  /** OnPlayerDrop: clears the flag of a carried boat, and never faults. */
  function OnPlayerDrop(b: State): (r: State)
    ensures !r.isPickedUp
    ensures b.isPickedUp ==> r == b.(isPickedUp := false)
    ensures !b.isPickedUp ==> r == b
    ensures OnPlayerDropAsWritten(b).boat == r
    ensures OnPlayerDropAsWritten(b).Done? <==> !b.isPickedUp || b.tiles.Some?
  {
    if b.isPickedUp then ResetAllowedTiles(b.(isPickedUp := false)) else b
  }

  /** Picking the boat up and dropping it leaves the same tiles allowed as before. */
  lemma PickupThenDropKeepsMembership(b: State, t: Tile)
    requires !b.isPickedUp && b.tiles.Some?
    ensures var after := OnPlayerDrop(OnPlayerInteraction(b));
      && after.isPickedUp == false
      && after.tiles.Some?
      && (AllowedTiles.Contains(after.tiles.value, t) <==> AllowedTiles.Contains(b.tiles.value, t))
  {
  }
}
