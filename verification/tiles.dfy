/**
 * Tiles and the tilemap. A tile is a reference to a tile asset, where null ("no tile") is a
 * value of its own: it is what the tilemap answers for an empty cell, and it may be listed in
 * an allowed-tiles array like any other tile.
 */
module Tiles {

  import opened Geometry

  datatype Tile = NoTile | Asset(id: nat)

  /** The painted cells of a tilemap; a cell outside the map holds no tile. */
  datatype Tilemap = Tilemap(cells: map<Cell, nat>)

  /** Tilemap.GetTile. */
  function GetTile(m: Tilemap, c: Cell): Tile {
    if c in m.cells then Asset(m.cells[c]) else NoTile
  }

  /** Tilemap.HasTile: the cell holds a tile exactly when GetTile does not answer null. */
  function HasTile(m: Tilemap, c: Cell): (b: bool)
    ensures b <==> GetTile(m, c) != NoTile
  {
    c in m.cells
  }

  /** Tilemap.SetTile; setting null erases the cell. Only the given cell changes. */
  function SetTile(m: Tilemap, c: Cell, t: Tile): (r: Tilemap)
    ensures GetTile(r, c) == t
    ensures forall d :: d != c ==> GetTile(r, d) == GetTile(m, d)
  {
    match t
    case NoTile => Tilemap(m.cells - {c})
    case Asset(id) => Tilemap(m.cells[c := id])
  }

  /** The tile under a world position: GetTile(WorldToCell(p)). */
  function TileOnPosition(m: Tilemap, grid: Grid, p: Vec): Tile {
    GetTile(m, grid(p))
  }
}
