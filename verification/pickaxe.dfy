/**
 * The Pickaxe component: once picked up, it rewrites the player's cell from its target tile
 * to its transformed tile.
 */
module Pickaxe {

  import opened Geometry
  import opened Tiles

  datatype State = State(isPickedUp: bool, targetTile: Tile, transformedTile: Tile)

  /** OnPlayerInteraction: the first interaction picks the pickaxe up; later ones do nothing. */
  function OnPlayerInteraction(p: State): (r: State)
    ensures r.isPickedUp
    ensures r.(isPickedUp := p.isPickedUp) == p
  {
    if !p.isPickedUp then p.(isPickedUp := true) else p
  }

  /**
   * TryTransformTile: rewrites the cell under the player exactly when the pickaxe is held
   * and the cell holds the target tile; no other cell ever changes.
   */
  function TryTransformTile(p: State, grid: Grid, tilemap: Tilemap, playerPosition: Vec): (r: Tilemap)
    ensures !p.isPickedUp ==> r == tilemap
    ensures p.isPickedUp && TileOnPosition(tilemap, grid, playerPosition) == p.targetTile ==>
      GetTile(r, grid(playerPosition)) == p.transformedTile
    ensures TileOnPosition(tilemap, grid, playerPosition) != p.targetTile ==> r == tilemap
    ensures forall c :: c != grid(playerPosition) ==> GetTile(r, c) == GetTile(tilemap, c)
  {
    if p.isPickedUp then
      var cell := grid(playerPosition);
      if GetTile(tilemap, cell) == p.targetTile then SetTile(tilemap, cell, p.transformedTile)
      else tilemap
    else tilemap
  }

  /** When the two tiles differ, a second attempt on the same cell changes nothing more. */
  lemma TransformOnce(p: State, grid: Grid, tilemap: Tilemap, playerPosition: Vec)
    requires p.targetTile != p.transformedTile
    ensures var once := TryTransformTile(p, grid, tilemap, playerPosition);
      TryTransformTile(p, grid, once, playerPosition) == once
  {
  }
}
