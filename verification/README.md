# Tile permissions and enemy movement decisions of a small grid game

This project models, in Dafny, the decision logic of a Unity tile game: which tiles an
agent may stand on, and how enemies decide each frame where to go.

- **AllowedTiles** (`allowed_tiles.dfy`) keeps a default tile array and a current tile
  array. The operations are membership, replace (refused for a null or empty array),
  additive union (`Concat` then `Distinct`, refused for a null or empty array) and reset
  to the default array. The current array is a `seq<Tile>`, so order and the removal of
  duplicates are stated, not just membership. `Distinctness` (`distinct.dfy`) models LINQ's
  order-preserving `Distinct`.
- **EnemyMover** (`enemy_mover.dfy`) is a target-seeking mover. `SetTarget` accepts a
  point only on an allowed tile. Each frame a moving enemy takes one step and stops once it
  is within the stopping distance.
- **Chaser** (`chaser.dfy`) chases its target, or flees when the target is closer than
  `avoidRadius`. When fleeing it goes to the farthest of 16 sampled circle points that lie
  on a painted cell.
- **EnemyAvoidance** (`enemy_avoidance.dfy`) sends every detected enemy to the first point
  of a side-biased angular sweep around the player that the enemy accepts.
- **KeyboardMover** (`keyboard_mover.dfy`) is the player. It makes one-cell moves onto
  allowed tiles. It also keeps goat/boat/pickaxe pickup flags that add tiles to, or reset,
  the player's own copy of the allowed tiles, and it rewrites a tile with the pickaxe.
- **InteractionManager**, **Goat**, **Boat** and **Pickaxe** are the item state machines.

Engine pieces are function parameters:
- `Grid` is `WorldToCell`.
- `Direction` is the cosine/sine unit vector for an angle in degrees.
- `Distance` is `Vector3.Distance`.
- `EnemyMover.Step` is one frame of motion.

The tilemap is a `map<Cell, nat>`, and an empty cell answers `NoTile` (null). Key presses
are a `Keys` record. Calls that Chaser makes on its base class are returned as commands.
Handler calls made by InteractionManager are returned as effects. Every component is taken
to see the same tilemap.

`AllowedTiles.Get` returns the current array: it holds exactly the allowed tiles, and
writing it back changes nothing. `EnemyMover.IsTileAllowed` is
`Contains(GetTile(WorldToCell(p)))`. Both are stated as contracts on those members.
A pickup never writes the default array, because the player's configuration (`Config`) is
an input and is never returned.

## Model

| member | source | states |
|---|---|---|
| Distinctness.Distinct | Assets/Scripts/1-tiles/AllowedTiles.cs:59-61 | the de-duplicated array has no repeats, the same elements as its input, and is no longer than it |
| Distinctness.DistinctOfNoDup | Assets/Scripts/1-tiles/AllowedTiles.cs:60 | an array without repeats passes through Distinct unchanged |
| Distinctness.DistinctPrefix | Assets/Scripts/1-tiles/AllowedTiles.cs:59-60 | de-duplicating `a ++ b` starts with de-duplicated `a`: concatenated tiles never reorder the earlier ones |
| Distinctness.DistinctSaturated | Assets/Scripts/1-tiles/AllowedTiles.cs:59-60 | appending tiles that are already present leaves the de-duplicated array unchanged |
| Distinctness.DistinctAbsorbs | Assets/Scripts/1-tiles/AllowedTiles.cs:59-60 | de-duplicating a prefix first does not change the final de-duplicated array |
| Distinctness.DistinctKeepsFirstOccurrenceOrder | Assets/Scripts/1-tiles/AllowedTiles.cs:60 | survivors appear in the order of their first occurrence in the input |
| Distinctness.DistinctStream | Assets/Scripts/1-tiles/AllowedTiles.cs:60 | the one-pass "yield if not seen yet" algorithm produces exactly the de-duplicated array |
| AllowedTiles.Awake | Assets/Scripts/1-tiles/AllowedTiles.cs:13-16 | the awoken component keeps its defaults and allows exactly the default tiles |
| AllowedTiles.Get | Assets/Scripts/1-tiles/AllowedTiles.cs:31-33 | the returned array holds exactly the allowed tiles, and passing it back to UpdateAllowedTiles changes nothing |
| AllowedTiles.ResetToDefaultTiles | Assets/Scripts/1-tiles/AllowedTiles.cs:68-71 | the current array becomes the default array and the defaults are kept, which is exactly the freshly awoken state |
| AllowedTiles.Contains | Assets/Scripts/1-tiles/AllowedTiles.cs:23-25 | a tile is allowed iff some position of the current array holds it |
| AllowedTiles.UpdateAllowedTiles | Assets/Scripts/1-tiles/AllowedTiles.cs:39-46 | a null or empty array changes nothing; any other array becomes the current array exactly; the defaults are never written |
| AllowedTiles.AddAllowedTiles | Assets/Scripts/1-tiles/AllowedTiles.cs:52-63 | a null or empty array changes nothing; otherwise the result has no repeats, allows exactly the old tiles plus the new ones, and starts with the old tiles in their old order |
| AllowedTiles.AddIdempotent | Assets/Scripts/1-tiles/AllowedTiles.cs:59-61 | adding the same array twice gives the same state as adding it once |
| AllowedTiles.AddTwiceIsAddOfConcat | Assets/Scripts/1-tiles/AllowedTiles.cs:59-61 | for any two arrays, empty ones included, two additions give exactly the state a single addition of both arrays gives |
| AllowedTiles.DefaultsNeverWritten | Assets/Scripts/1-tiles/AllowedTiles.cs:39-71 | no sequence of replace/add/reset calls changes the default array |
| AllowedTiles.ResetRestoresDefaults | Assets/Scripts/1-tiles/AllowedTiles.cs:68-71 | after Awake and any sequence of calls, a reset gives back the freshly awoken state |
| EnemyMover.IsTileAllowed | Assets/Scripts/3-enemies/EnemyMover.cs:49-55 | a position is allowed iff the tile of its cell is in the mover's allowed tiles |
| EnemyMover.SetTarget | Assets/Scripts/3-enemies/EnemyMover.cs:24-33 | movement starts iff the point's tile is allowed, and then the point is the target; a refused point stops movement and keeps the old target; position and tiles are untouched |
| EnemyMover.StopMoving | Assets/Scripts/3-enemies/EnemyMover.cs:58-61 | movement stops and nothing else changes |
| EnemyMover.Update | Assets/Scripts/3-enemies/EnemyMover.cs:17-46 | a stopped enemy is untouched; a moving one steps first, then is still moving iff the new distance is not below the stopping distance; the target is never cleared |
| EnemyMover.StoppedStaysStopped | Assets/Scripts/3-enemies/EnemyMover.cs:17-21 | any sequence of frames, each with its own step, leaves a stopped enemy exactly as it is |
| EnemyMover.OperationsKeepAllowedTarget | Assets/Scripts/3-enemies/EnemyMover.cs:24-46 | SetTarget, StopMoving and any sequence of frames, each with its own step, preserve "a moving enemy heads for an allowed tile" on a fixed tilemap and allowed set |
| Chaser.Candidates | Assets/Scripts/3-enemies/Chaser.cs:53-57 | exactly 16 samples, sample i at 22.5·i degrees on the avoidance circle around the target |
| Chaser.ValidPoints | Assets/Scripts/3-enemies/Chaser.cs:59-64 | a sample is kept iff its cell holds any tile; allowed tiles play no part |
| Chaser.ValidPointsKeepOrder | Assets/Scripts/3-enemies/Chaser.cs:54-64 | the valid samples keep the sampling order: those among the first k samples come first |
| Chaser.FarthestChoiceUnique | Assets/Scripts/3-enemies/Chaser.cs:66-78 | the specified farthest-point answer is unique, so the contracts below pin the result down |
| Chaser.SampleValidPoints | Assets/Scripts/3-enemies/Chaser.cs:50-64 | the sampling loop collects exactly the valid samples, in sampling order |
| Chaser.Farthest | Assets/Scripts/3-enemies/Chaser.cs:66-78 | the selection loop returns the first valid point of strictly greatest positive distance, or zero when none has a positive distance; the answer is zero or one of the points |
| Chaser.FindFarthestPointOnCircle | Assets/Scripts/3-enemies/Chaser.cs:49-79 | the result is the first valid sample of strictly greatest positive distance from the chaser (ties to the earliest), or zero when no valid sample is at a positive distance; it is zero or a valid sample, and zero when none is valid |
| Chaser.MoveToAvoidancePoint | Assets/Scripts/3-enemies/Chaser.cs:39-44 | a zero answer issues no SetTarget; any other answer is passed to SetTarget |
| Chaser.Update | Assets/Scripts/3-enemies/Chaser.cs:20-34 | avoiding iff the distance is below avoidRadius (equality chases); chasing re-targets the target's position; avoiding targets the farthest point or nothing |
| EnemyAvoidance.Attempt | Assets/Scripts/3-enemies/EnemyAvoidance.cs:41-58 | attempt i is at avoidRadius from the player, at angle i·angleStep when the enemy is strictly to the right, else at 180 − i·angleStep |
| EnemyAvoidance.SweepChoiceUnique | Assets/Scripts/3-enemies/EnemyAvoidance.cs:39-69 | at most one point is the sweep answer, so the search's contract fixes its result |
| EnemyAvoidance.FindAvoidancePoint | Assets/Scripts/3-enemies/EnemyAvoidance.cs:39-69 | the result is the first of the maxAttempts candidates the enemy accepts, all earlier ones rejected, or zero when none is accepted (always zero when maxAttempts ≤ 0) |
| EnemyAvoidance.SweepPointIsAccepted | Assets/Scripts/3-enemies/EnemyAvoidance.cs:25-28 | a non-zero sweep answer is always taken by the enemy's SetTarget, which starts it moving there |
| EnemyAvoidance.Update | Assets/Scripts/3-enemies/EnemyAvoidance.cs:15-34 | each detected enemy is sent to its own sweep answer unless that is zero; colliders without a mover are skipped; nothing else changes |
| KeyboardMover.Start | Assets/Scripts/2-player/KeyboardMoverByTile.cs:23-26 | the player starts with the default component's configured array, carrying nothing |
| KeyboardMover.NewPosition | Assets/Scripts/2-player/KeyboardMoverByTile.cs:171-185 | at most one unit step, with priority up, down, left, right; no step without an arrow key |
| KeyboardMover.HandleMovement | Assets/Scripts/2-player/KeyboardMoverByTile.cs:37-45 | the position becomes the new position iff its tile is currently allowed, else stays; nothing else changes |
| KeyboardMover.AddItemTiles | Assets/Scripts/2-player/KeyboardMoverByTile.cs:135-160 | afterwards exactly the old tiles and the item's tiles are allowed (none when the item is unconfigured) |
| KeyboardMover.ResetToDefaultTiles | Assets/Scripts/2-player/KeyboardMoverByTile.cs:162-169 | the current array becomes the default component's array, except that an empty one changes nothing |
| KeyboardMover.TogglePickup | Assets/Scripts/2-player/KeyboardMoverByTile.cs:80-114 | flips only that item's flag, even with no item tiles; a pickup adds the item's tiles; a drop resets to the defaults |
| KeyboardMover.HandleInteraction | Assets/Scripts/2-player/KeyboardMoverByTile.cs:50-60 | Space near an object toggles the goat, boat or pickaxe by tag; otherwise nothing happens |
| KeyboardMover.HandleTileTransformation | Assets/Scripts/2-player/KeyboardMoverByTile.cs:65-78 | the tilemap changes only with the pickaxe held, T pressed and the source tile underfoot; then the player's cell holds the target tile and no other cell changes |
| KeyboardMover.OnTriggerEnter | Assets/Scripts/2-player/KeyboardMoverByTile.cs:116-121 | only goat, boat and pickaxe objects become the nearby object |
| KeyboardMover.OnTriggerExit | Assets/Scripts/2-player/KeyboardMoverByTile.cs:123-128 | the nearby object is forgotten only when that very object leaves |
| KeyboardMover.Update | Assets/Scripts/2-player/KeyboardMoverByTile.cs:28-32 | in one frame the player moves at most one allowed step, and the tilemap changes at most at the player's cell, and only with the pickaxe held and T pressed |
| KeyboardMover.DropLosesOtherItemsTiles | Assets/Scripts/2-player/KeyboardMoverByTile.cs:80-101 | dropping the goat while carrying the boat resets to the defaults, so the boat's tiles are lost while its flag stays set |
| KeyboardMover.PickupThenDropRestoresStart | Assets/Scripts/2-player/KeyboardMoverByTile.cs:50-58 | from the start state, two Space presses at an item give back the start state |
| InteractionManager.IsCarryingItem | Assets/Scripts/5-Items/InteractionManager.cs:65-67 | true iff an item is carried |
| InteractionManager.PickUpItem | Assets/Scripts/5-Items/InteractionManager.cs:31-41 | the item becomes carried; the Boat handler runs in preference to the Goat handler |
| InteractionManager.DropItem | Assets/Scripts/5-Items/InteractionManager.cs:46-59 | when the drop handler returns, nothing is carried afterwards; the carried item's Boat (else Goat) drop handler runs; with nothing carried there is no effect |
| InteractionManager.DropItemInterrupted | Assets/Scripts/5-Items/InteractionManager.cs:47-55 | when the drop handler throws, the same handler is entered but the carried item stays carried, because line 55 is skipped |
| InteractionManager.OnPlayerInteraction | Assets/Scripts/5-Items/InteractionManager.cs:17-25 | empty hands pick the item up through PickUpItem; the carried item is dropped through DropItem; another item is refused with no change |
| InteractionManager.InteractTwiceRoundTrip | Assets/Scripts/5-Items/InteractionManager.cs:17-25 | two interactions with one item from empty hands return to empty hands, with the matching pickup and drop handlers |
| Goat.UpdateAllowedTilesForGoat | Assets/Scripts/5-Items/Goat.cs:35-51 | with both components present the goat's tiles are added to the player's; otherwise nothing changes |
| Goat.ResetAllowedTiles | Assets/Scripts/5-Items/Goat.cs:61-75 | with both components present the player's current tiles become its defaults; otherwise nothing changes |
| Goat.OnPlayerInteraction | Assets/Scripts/5-Items/Goat.cs:25-33 | the goat ends up carried; only a real pickup with both components present changes the player's tiles, to the old ones plus the goat's |
| Goat.OnPlayerDrop | Assets/Scripts/5-Items/Goat.cs:53-59 | the goat ends up on the ground; only a real drop with both components present resets the player's tiles |
| Goat.TogglePickup | Assets/Scripts/5-Items/Goat.cs:77-86 | always flips the flag, and then agrees with an interaction (now carried) or a drop (now on the ground) |
| Goat.Update | Assets/Scripts/5-Items/Goat.cs:19-23 | the G key toggles the goat; without it nothing changes |
| Goat.PickupThenDropResets | Assets/Scripts/5-Items/Goat.cs:25-59 | a pickup followed by a drop puts the goat back and leaves the player's tiles reset to their default |
| Goat.PickupGrantsGoatTiles | Assets/Scripts/5-Items/Goat.cs:35-43 | after a pickup every goat tile is allowed for the player |
| Goat.NoTilesNoEffect | Assets/Scripts/5-Items/Goat.cs:26-49 | a goat without tiles still flips its flag but never changes the player's tiles |
| Boat.UpdateAllowedTilesForBoat | Assets/Scripts/5-Items/Boat.cs:28-47 | with the empty water array the current array is only de-duplicated: membership is unchanged |
| Boat.OnPlayerInteraction | Assets/Scripts/5-Items/Boat.cs:18-26 | the boat ends up carried; only the first pickup touches the tiles |
| Boat.ResetAllowedTilesAsWritten | Assets/Scripts/5-Items/Boat.cs:57-63 | a null reference faults before any write; otherwise the current array is written back onto itself, so nothing changes |
| Boat.OnPlayerDropAsWritten | Assets/Scripts/5-Items/Boat.cs:49-55 | dropping a carried boat clears the flag; when the reference is null it clears the flag and then faults, and the cleared flag stays; an uncarried boat is untouched |
| Boat.DropWithoutTilesFaults | Assets/Scripts/5-Items/Boat.cs:57-59 | a carried boat with no AllowedTiles reference faults when dropped, with its flag already cleared |
| Boat.ResetAllowedTiles | Assets/Scripts/5-Items/Boat.cs:57-63 | the corrected reset never faults and changes nothing; it leaves the same boat as the code as written, which faults exactly when the reference is null |
| Boat.OnPlayerDrop | Assets/Scripts/5-Items/Boat.cs:49-55 | the corrected drop clears the flag of a carried boat and never faults; it leaves the same boat as the code as written, which faults exactly for a carried boat without a reference |
| Boat.PickupThenDropKeepsMembership | Assets/Scripts/5-Items/Boat.cs:18-55 | a pickup followed by a drop leaves the boat on the ground with the same tiles allowed |
| Pickaxe.OnPlayerInteraction | Assets/Scripts/5-Items/Pickaxe.cs:20-26 | the pickaxe ends up picked up and nothing else changes |
| Pickaxe.TryTransformTile | Assets/Scripts/5-Items/Pickaxe.cs:32-42 | the player's cell is rewritten to the transformed tile iff the pickaxe is held and the cell holds the target tile; no other cell changes |
| Pickaxe.TransformOnce | Assets/Scripts/5-Items/Pickaxe.cs:32-42 | when the two tiles differ, a second attempt changes nothing more |

## Left out

- Floating point: positions, angles and distances are reals. Rounding in `Mathf.Cos`/`Sin`,
  `normalized` and `360f / 16` is not modelled. Direction, distance, grid projection and
  the per-frame step are uninterpreted parameters.
- EnemyMover.Update: proves nothing about convergence or monotonic approach to the target,
  because the step is an abstract function.
- Debug logging (`Debug.Log`/`LogError`, `Log`), editor gizmos (`OnDrawGizmosSelected`)
  and `Destroy(gameObject)` in the pickaxe pickup: they have no effect on the modelled state.
- `Physics2D.OverlapCircleAll` is left out. The detected colliders are an input sequence,
  and a `None` entry is a collider without an EnemyMover. A mover detected through two
  colliders is treated as two independent entries.
- `Input.GetKeyDown` is replaced by a `Keys` record (and a `gPressed` flag for the goat).
  `CompareTag` and `TryGetComponent` are replaced by tags and component flags.
  `GameObject.FindWithTag("Player")` is replaced by passing the player's AllowedTiles
  explicitly, with `None` when the component is missing. The player object itself is
  assumed to exist.
- The TargetMover base class of Chaser is not part of this model. Its `SetTarget` is
  recorded as a command, with no validation assumed. `TargetObjectPosition` and
  `GetPlayerPosition` are plain reads.
- Each component has its own tilemap reference, but all of them are taken to be one shared
  tilemap. EnemyAvoidance's own `tilemap` field is never read by the source.
- Null component references that the source dereferences without a check are assumed set:
  - the tilemaps;
  - EnemyMover's `allowedTiles`;
  - Chaser's `targetObject`, read in `Update` and in the circle sampling;
  - the player's `defaultAllowedTiles`. `Instantiate(null)` would fail in `Start`.
- Every referenced AllowedTiles component is assumed to have run `Awake`. Before that its
  private current array is null: `Get()` returns null, `Contains` and `AddAllowedTiles`
  throw, and a reset from it (KeyboardMoverByTile.cs:164) changes nothing. A default
  component that has not awoken, such as a prefab asset, therefore acts on the reset like
  one whose current array is empty. The serialised default array is taken as never null,
  because Unity serialises an unset array as empty.
- Instantiate is modelled only by its effect on the copy's current array. The copy is a
  separate value.
- The collision callbacks `OnCollisionEnter2D` of Goat and Boat, which forward a "Player"
  collision to `OnPlayerInteraction`, are left out.
- The truncated tail of `Boat.cs` after line 63 is not part of this model.
- InteractionManager.DropItem: assumes the item's drop handler returns. A Boat drop that
  faults (Boat.cs:58) skips `carriedItem = null`, so the item stays carried. That case is
  InteractionManager.DropItemInterrupted, and `OnPlayerInteraction` uses the returning
  handler.
- EnemyMover.UpdateN: each frame's step is an input, so a varying `Time.deltaTime` is
  covered, but the steps are not derived from `speed` and `deltaTime`.
- Chaser.FindFarthestPointOnCircle and EnemyAvoidance.FindAvoidancePoint keep the source's
  `Vector3.zero` "not found" answer. A genuine point at the origin is therefore
  indistinguishable from "not found". The model states this and does not change it.

## Behaviour as coded

Some behaviour a reader might expect is not what the code does. The model follows the
code:

- Granted tiles are not kept as separate layers that a reset peels off. AllowedTiles holds
  one current array. `UpdateAllowedTiles` replaces it and leaves the defaults alone, and
  `ResetToDefaultTiles` copies the defaults back.
- A rejected `EnemyMover.SetTarget` does not report an error or forget the old target. It
  stops the enemy and keeps the previous target value.
- Arrival (`dist < stoppingDistance`) does not clear the target; it only clears `isMoving`.
- Chaser does not check a sample point against the enemy's allowed tiles. It asks only
  `tilemap.HasTile`.
- "Not found" is not a separate answer. Both searches return `Vector3.zero`.

## Findings

| source | as written | input that shows it | evidently intended | confidence | as-written member | corrected member |
|---|---|---|---|---|---|---|
| Assets/Scripts/5-Items/Boat.cs:58-59 | `ResetAllowedTiles` calls `allowedTiles.Get()` before checking `allowedTiles != null` | in a player build, a boat whose AllowedTiles reference is unset, picked up and then dropped (in the Editor the unset field holds Unity's fake-null object, so `Get()` returns null, and line 59 logs the error instead): the drop clears `isPickedUp` and then dereferences null; the exception also skips `carriedItem = null` in `InteractionManager.DropItem`, so the player still holds a boat that is on the ground | the null check guards the whole reset, so a missing reference is reported and the drop completes | high (not executed) | Boat.ResetAllowedTilesAsWritten, Boat.OnPlayerDropAsWritten, Boat.DropWithoutTilesFaults, InteractionManager.DropItemInterrupted | Boat.ResetAllowedTiles, Boat.OnPlayerDrop |
