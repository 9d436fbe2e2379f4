/**
 * The Goat component: an isPickedUp flag guarding changes to the player's allowed tiles.
 * Picking the goat up adds the goat's tiles to the player's; dropping it resets the
 * player's tiles to their default. The player's AllowedTiles component is passed in
 * explicitly (None when the player object has no such component).
 */
module Goat {

  import opened Wrappers
  import AllowedTiles
  import Tiles

  datatype State = State(isPickedUp: bool, tiles: Option<AllowedTiles.State>)

  type Player = Option<AllowedTiles.State>

  /** UpdateAllowedTilesForGoat: adds the goat's tiles when both components exist. */
  function UpdateAllowedTilesForGoat(g: State, player: Player): (r: Player)
    ensures r.Some? <==> player.Some?
    ensures g.tiles.None? || player.None? ==> r == player
    ensures g.tiles.Some? && player.Some? ==>
      r.value == AllowedTiles.AddAllowedTiles(player.value, Some(AllowedTiles.Get(g.tiles.value)))
  {
    if g.tiles.Some? && player.Some?
    then Some(AllowedTiles.AddAllowedTiles(player.value, Some(AllowedTiles.Get(g.tiles.value))))
    else player
  }

  /**
   * ResetAllowedTiles: resets the player's tiles to their default. It too checks the goat's
   * own tiles first, so a goat without tiles leaves the player's tiles alone.
   */
  function ResetAllowedTiles(g: State, player: Player): (r: Player)
    ensures r.Some? <==> player.Some?
    ensures g.tiles.None? || player.None? ==> r == player
    ensures g.tiles.Some? && player.Some? ==> r.value.current == player.value.defaults
    ensures player.Some? ==> r.value.defaults == player.value.defaults
  {
    if g.tiles.Some? && player.Some?
    then Some(AllowedTiles.ResetToDefaultTiles(player.value))
    else player
  }

  /**
   * OnPlayerInteraction: picks the goat up unless it is already carried. A pickup unions the
   * goat's tiles into the player's current tiles; the goat's own component is not touched.
   */
  function OnPlayerInteraction(g: State, player: Player): (r: (State, Player))
    ensures r.0 == g.(isPickedUp := true)
    ensures r.1.Some? <==> player.Some?
    ensures g.isPickedUp || g.tiles.None? || player.None? ==> r.1 == player
    ensures !g.isPickedUp && g.tiles.Some? && player.Some? ==>
      && r.1.value.defaults == player.value.defaults
      && forall t :: AllowedTiles.Contains(r.1.value, t) <==>
           AllowedTiles.Contains(player.value, t) || t in AllowedTiles.Get(g.tiles.value)
  {
    if !g.isPickedUp then (g.(isPickedUp := true), UpdateAllowedTilesForGoat(g, player))
    else (g, player)
  }

  /**
   * OnPlayerDrop: drops the goat if it is carried, putting the player's current tiles back
   * to the player's own default array.
   */
  function OnPlayerDrop(g: State, player: Player): (r: (State, Player))
    ensures r.0 == g.(isPickedUp := false)
    ensures !g.isPickedUp || g.tiles.None? || player.None? ==> r.1 == player
    ensures g.isPickedUp && g.tiles.Some? && player.Some? ==>
      r.1 == Some(AllowedTiles.Awake(player.value.defaults))
  {
    if g.isPickedUp then (g.(isPickedUp := false), ResetAllowedTiles(g, player))
    else (g, player)
  }

  /**
   * TogglePickup: always flips the flag; the tiles then change as an interaction would
   * change them (now carried) or as a drop would (now on the ground).
   */
  function TogglePickup(g: State, player: Player): (r: (State, Player))
    ensures r.0 == g.(isPickedUp := !g.isPickedUp)
    ensures !g.isPickedUp ==> r == OnPlayerInteraction(g, player)
    ensures g.isPickedUp ==> r == OnPlayerDrop(g, player)
  {
    var flipped := g.(isPickedUp := !g.isPickedUp);
    if flipped.isPickedUp then (flipped, UpdateAllowedTilesForGoat(flipped, player))
    else (flipped, ResetAllowedTiles(flipped, player))
  }

  /** Update: the G key toggles the goat. */
  function Update(g: State, player: Player, gPressed: bool): (r: (State, Player))
    ensures !gPressed ==> r == (g, player)
    ensures gPressed ==> r == TogglePickup(g, player)
  {
    if gPressed then TogglePickup(g, player) else (g, player)
  }

  /**
   * Interaction followed by drop: the goat is back on the ground and the player's tiles are
   * back at their default, whatever the goat added in between.
   */
  lemma PickupThenDropResets(g: State, player: AllowedTiles.State)
    requires !g.isPickedUp && g.tiles.Some?
    ensures var picked := OnPlayerInteraction(g, Some(player));
      var dropped := OnPlayerDrop(picked.0, picked.1);
      && dropped.0 == g
      && dropped.1 == Some(AllowedTiles.ResetToDefaultTiles(player))
  {
  }

  /** While carried, the goat grants every one of its tiles to the player. */
  lemma PickupGrantsGoatTiles(g: State, player: AllowedTiles.State, t: Tiles.Tile)
    requires !g.isPickedUp && g.tiles.Some?
    requires t in AllowedTiles.Get(g.tiles.value)
    ensures AllowedTiles.Contains(OnPlayerInteraction(g, Some(player)).1.value, t)
  {
  }

  /** A goat without tiles still changes its flag, but never the player's tiles. */
  lemma NoTilesNoEffect(g: State, player: Player, gPressed: bool)
    requires g.tiles.None?
    ensures OnPlayerInteraction(g, player).1 == player
    ensures OnPlayerDrop(g, player).1 == player
    ensures Update(g, player, gPressed).1 == player
    ensures gPressed ==> Update(g, player, gPressed).0.isPickedUp == !g.isPickedUp
  {
  }
}
