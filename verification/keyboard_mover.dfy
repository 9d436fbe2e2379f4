/**
 * The KeyboardMoverByTile component: the player's one-cell-per-key-press movement over
 * allowed tiles, the goat/boat/pickaxe pickup flags that widen or reset the player's own
 * copy of the allowed tiles, and the pickaxe's tile rewrite.
 */
module KeyboardMover {

  import opened Wrappers
  import opened Geometry
  import opened Tiles
  import AllowedTiles

  /** The tag of a game object the player can bump into. */
  datatype Tag = GoatTag | BoatTag | PickaxeTag | OtherTag

  /** A game object, identified by its instance id. */
  datatype GameObject = GameObject(id: nat, tag: Tag)

  /** The inspector configuration; it is read but never written. */
  datatype Config = Config(
    defaults: AllowedTiles.State,
    goatTiles: Option<AllowedTiles.State>,
    boatTiles: Option<AllowedTiles.State>,
    pickaxeTiles: Option<AllowedTiles.State>,
    transformFromTile: Tile,
    transformToTile: Tile)

  datatype State = State(
    position: Vec,
    current: AllowedTiles.State,
    interactable: Option<GameObject>,
    goatHeld: bool,
    boatHeld: bool,
    pickaxeHeld: bool)

  /** The keys pressed down this frame. */
  datatype Keys = Keys(up: bool, down: bool, left: bool, right: bool, space: bool, t: bool)

  /**
   * Start: the player's allowed tiles are a fresh instance of the default component, whose
   * Awake copies that component's configured default array into its current array.
   */
  function Start(cfg: Config, position: Vec): (s: State)
    ensures s.current.current == cfg.defaults.defaults
    ensures !s.goatHeld && !s.boatHeld && !s.pickaxeHeld && s.interactable == None
  {
    State(position, AllowedTiles.Awake(cfg.defaults.defaults), None, false, false, false)
  }

  /**
   * NewPosition: at most one unit step, chosen by key priority up, down, left, right; no
   * step when no arrow key is down.
   */
  function NewPosition(position: Vec, keys: Keys): (p: Vec)
    ensures keys.up ==> p == Add(position, Up)
    ensures !keys.up && keys.down ==> p == Add(position, Down)
    ensures !keys.up && !keys.down && keys.left ==> p == Add(position, Left)
    ensures !keys.up && !keys.down && !keys.left && keys.right ==> p == Add(position, Right)
    ensures !keys.up && !keys.down && !keys.left && !keys.right ==> p == position
  {
    var move :=
      if keys.up then Up
      else if keys.down then Down
      else if keys.left then Left
      else if keys.right then Right
      else Zero;
    Add(position, move)
  }

  /** HandleMovement: the step is taken only onto a tile the player currently allows. */
  function HandleMovement(s: State, grid: Grid, tilemap: Tilemap, keys: Keys): (r: State)
    ensures r.(position := s.position) == s
    ensures AllowedTiles.Contains(s.current, TileOnPosition(tilemap, grid, NewPosition(s.position, keys)))
      ==> r.position == NewPosition(s.position, keys)
    ensures !AllowedTiles.Contains(s.current, TileOnPosition(tilemap, grid, NewPosition(s.position, keys)))
      ==> r.position == s.position
    ensures r.position == s.position || AllowedTiles.Contains(s.current, TileOnPosition(tilemap, grid, r.position))
  {
    var newPosition := NewPosition(s.position, keys);
    if AllowedTiles.Contains(s.current, TileOnPosition(tilemap, grid, newPosition))
    then s.(position := newPosition)
    else s
  }

  /** The three items the player can carry. */
  datatype Item = Goat | Boat | Pickaxe

  /** The item a tag stands for; only item tags become the nearby object. */
  function ItemOfTag(tag: Tag): Option<Item> {
    match tag
    case GoatTag => Some(Goat)
    case BoatTag => Some(Boat)
    case PickaxeTag => Some(Pickaxe)
    case OtherTag => None
  }

  /** The pickup flag of an item. */
  predicate IsHeld(s: State, item: Item) {
    match item
    case Goat => s.goatHeld
    case Boat => s.boatHeld
    case Pickaxe => s.pickaxeHeld
  }

  function SetHeld(s: State, item: Item, held: bool): State {
    match item
    case Goat => s.(goatHeld := held)
    case Boat => s.(boatHeld := held)
    case Pickaxe => s.(pickaxeHeld := held)
  }

  /** The item's configured AllowedTiles component, which may be unset. */
  function ItemTiles(cfg: Config, item: Item): Option<AllowedTiles.State> {
    match item
    case Goat => cfg.goatTiles
    case Boat => cfg.boatTiles
    case Pickaxe => cfg.pickaxeTiles
  }

  /** The tiles an item grants: its component's current array, or none when it is unset. */
  function GrantedTiles(cfg: Config, item: Item): seq<Tile> {
    match ItemTiles(cfg, item)
    case None => []
    case Some(tiles) => AllowedTiles.Get(tiles)
  }

  /** AddGoatTiles, AddBoatTiles and AddPickaxeTiles: union an item's tiles in, if configured. */
  function AddItemTiles(cfg: Config, s: State, item: Item): (r: State)
    ensures r.(current := s.current) == s
    ensures r.current.defaults == s.current.defaults
    ensures forall t :: AllowedTiles.Contains(r.current, t) <==>
      AllowedTiles.Contains(s.current, t) || t in GrantedTiles(cfg, item)
  {
    match ItemTiles(cfg, item)
    case None => s
    case Some(tiles) => s.(current := AllowedTiles.AddAllowedTiles(s.current, Some(AllowedTiles.Get(tiles))))
  }

  /**
   * ResetToDefaultTiles: replaces the current array with the default component's array
   * through UpdateAllowedTiles, so an empty default array leaves the current one in place.
   */
  function ResetToDefaultTiles(cfg: Config, s: State): (r: State)
    ensures r.(current := s.current) == s
    ensures r.current.defaults == s.current.defaults
    ensures |cfg.defaults.current| > 0 ==> r.current.current == cfg.defaults.current
    ensures |cfg.defaults.current| == 0 ==> r == s
  {
    s.(current := AllowedTiles.UpdateAllowedTiles(s.current, Some(AllowedTiles.Get(cfg.defaults))))
  }

  /**
   * ToggleGoatPickup, ToggleBoatPickup and TogglePickaxePickup: flip the item's own flag;
   * a pickup adds the item's tiles, a drop resets the current tiles to the defaults.
   */
  function TogglePickup(cfg: Config, s: State, item: Item): (r: State)
    ensures IsHeld(r, item) == !IsHeld(s, item)
    ensures forall other :: other != item ==> IsHeld(r, other) == IsHeld(s, other)
    ensures r.position == s.position && r.interactable == s.interactable
    ensures r.current.defaults == s.current.defaults
    ensures !IsHeld(s, item) ==> forall t :: AllowedTiles.Contains(r.current, t) <==>
      AllowedTiles.Contains(s.current, t) || t in GrantedTiles(cfg, item)
    ensures IsHeld(s, item) && |cfg.defaults.current| > 0 ==> r.current.current == cfg.defaults.current
    ensures IsHeld(s, item) && |cfg.defaults.current| == 0 ==> r.current == s.current
  {
    if !IsHeld(s, item) then AddItemTiles(cfg, SetHeld(s, item, true), item)
    else ResetToDefaultTiles(cfg, SetHeld(s, item, false))
  }

  /**
   * HandleInteraction: Space near an item toggles that item. Only an item's tag can be
   * tracked, and each dispatches to its own toggle.
   */
  function HandleInteraction(cfg: Config, s: State, keys: Keys): (r: State)
    ensures s.interactable.None? || !keys.space ==> r == s
    ensures s.interactable.Some? && keys.space && s.interactable.value.tag == GoatTag ==>
      r == TogglePickup(cfg, s, Goat)
    ensures s.interactable.Some? && keys.space && s.interactable.value.tag == BoatTag ==>
      r == TogglePickup(cfg, s, Boat)
    ensures s.interactable.Some? && keys.space && s.interactable.value.tag == PickaxeTag ==>
      r == TogglePickup(cfg, s, Pickaxe)
    ensures s.interactable.Some? && s.interactable.value.tag == OtherTag ==> r == s
  {
    if s.interactable.Some? && keys.space then
      match ItemOfTag(s.interactable.value.tag)
      case Some(item) => TogglePickup(cfg, s, item)
      case None => s
    else s
  }

  /**
   * HandleTileTransformation: with the pickaxe held and T pressed, the player's own cell is
   * rewritten from the configured source tile to the configured target tile.
   */
  function HandleTileTransformation(cfg: Config, s: State, grid: Grid, tilemap: Tilemap, keys: Keys): (r: Tilemap)
    ensures r != tilemap ==> s.pickaxeHeld && keys.t
    ensures s.pickaxeHeld && keys.t && TileOnPosition(tilemap, grid, s.position) == cfg.transformFromTile ==>
      GetTile(r, grid(s.position)) == cfg.transformToTile
    ensures !(s.pickaxeHeld && keys.t && TileOnPosition(tilemap, grid, s.position) == cfg.transformFromTile) ==>
      r == tilemap
    ensures forall c :: c != grid(s.position) ==> GetTile(r, c) == GetTile(tilemap, c)
  {
    if s.pickaxeHeld && keys.t && TileOnPosition(tilemap, grid, s.position) == cfg.transformFromTile
    then SetTile(tilemap, grid(s.position), cfg.transformToTile)
    else tilemap
  }

  /** OnTriggerEnter2D: only goats, boats and pickaxes become the nearby object. */
  function OnTriggerEnter(s: State, other: GameObject): (r: State)
    ensures other.tag != OtherTag ==> r == s.(interactable := Some(other))
    ensures other.tag == OtherTag ==> r == s
  {
    if ItemOfTag(other.tag).Some? then s.(interactable := Some(other)) else s
  }

  /** OnTriggerExit2D: only leaving the tracked object forgets it. */
  function OnTriggerExit(s: State, other: GameObject): (r: State)
    ensures s.interactable == Some(other) ==> r == s.(interactable := None)
    ensures s.interactable != Some(other) ==> r == s
  {
    if s.interactable == Some(other) then s.(interactable := None) else s
  }

  /** Update: movement, then interaction, then tile transformation, in one frame. */
  function Update(cfg: Config, s: State, grid: Grid, tilemap: Tilemap, keys: Keys): (r: (State, Tilemap))
    ensures r.0.position == s.position || r.0.position == NewPosition(s.position, keys)
    ensures r.0.position != s.position ==>
      AllowedTiles.Contains(s.current, TileOnPosition(tilemap, grid, r.0.position))
    ensures !keys.space ==> r.0 == HandleMovement(s, grid, tilemap, keys)
    ensures r.1 != tilemap ==> r.0.pickaxeHeld && keys.t
    ensures forall c :: c != grid(r.0.position) ==> GetTile(r.1, c) == GetTile(tilemap, c)
  {
    var moved := HandleMovement(s, grid, tilemap, keys);
    var interacted := HandleInteraction(cfg, moved, keys);
    (interacted, HandleTileTransformation(cfg, interacted, grid, tilemap, keys))
  }

  /**
   * Dropping any item resets every tile, including those another still-carried item added:
   * after carrying goat and boat and dropping the goat, the boat flag stays set while the
   * allowed tiles are the defaults again.
   */
  lemma DropLosesOtherItemsTiles(cfg: Config, s: State)
    requires s.goatHeld && s.boatHeld
    requires |cfg.defaults.current| > 0
    ensures TogglePickup(cfg, s, Goat).boatHeld
    ensures TogglePickup(cfg, s, Goat).current.current == cfg.defaults.current
  {
  }

  /**
   * Picking an item up and dropping it again, from the start state of an awake default
   * component with a non-empty array, gives back the start state.
   */
  lemma PickupThenDropRestoresStart(cfg: Config, position: Vec, other: GameObject)
    requires cfg.defaults.current == cfg.defaults.defaults
    requires |cfg.defaults.defaults| > 0
    ensures var s := Start(cfg, position).(interactable := Some(other));
      var keys := Keys(false, false, false, false, true, false);
      HandleInteraction(cfg, HandleInteraction(cfg, s, keys), keys) == s
  {
  }
}
