/**
 * The AllowedTiles component: a configured default tile array and the current tile array
 * that movement checks consult. Replacing, adding to and resetting the current array are
 * the only mutations; nothing ever writes the default array.
 */
module AllowedTiles {

  import opened Wrappers
  import opened Tiles
  import opened Distinctness

  datatype State = State(defaults: seq<Tile>, current: seq<Tile>)

  /** A TileBase[] argument, which may be null (None). */
  type TileArray = Option<seq<Tile>>

  /** Null and zero-length arrays are both refused by the mutating operations. */
  predicate IsNullOrEmpty(tiles: TileArray) {
    tiles.None? || |tiles.value| == 0
  }

  /**
   * Awake: the current array starts out as the default array, so the component allows
   * exactly the default tiles.
   */
  function Awake(defaults: seq<Tile>): (r: State)
    ensures r.defaults == defaults
    ensures forall t :: Contains(r, t) <==> t in defaults
  {
    State(defaults, defaults)
  }

  /** Membership in the current array: some position of the current array holds `t`. */
  function Contains(a: State, t: Tile): (b: bool)
    ensures b <==> exists i :: 0 <= i < |a.current| && a.current[i] == t
  {
    assert t in a.current ==> a.current[FirstIndex(a.current, t)] == t;
    t in a.current
  }

  /**
   * The current array itself: it holds exactly the allowed tiles, and handing it back to
   * UpdateAllowedTiles changes nothing (an empty array is refused, a non-empty one is
   * written back onto itself).
   */
  function Get(a: State): (r: seq<Tile>)
    ensures forall t :: t in r <==> Contains(a, t)
    ensures UpdateAllowedTiles(a, Some(r)) == a
  {
    a.current
  }

  /** Replaces the current array, unless the new array is null or empty (an error is logged). */
  function UpdateAllowedTiles(a: State, newTiles: TileArray): (r: State)
    ensures r.defaults == a.defaults
    ensures IsNullOrEmpty(newTiles) ==> r == a
    ensures !IsNullOrEmpty(newTiles) ==> r.current == newTiles.value
    ensures !IsNullOrEmpty(newTiles) ==> forall t :: Contains(r, t) <==> t in newTiles.value
  {
    if IsNullOrEmpty(newTiles) then a else a.(current := newTiles.value)
  }

  /**
   * Unions extra tiles into the current array (Concat followed by Distinct), unless the
   * extra array is null or empty. The result has no repeats, allows exactly the old tiles
   * and the extra ones, and starts with the old tiles in their old order.
   */
  function AddAllowedTiles(a: State, extra: TileArray): (r: State)
    ensures r.defaults == a.defaults
    ensures IsNullOrEmpty(extra) ==> r == a
    ensures !IsNullOrEmpty(extra) ==> NoDup(r.current)
    ensures !IsNullOrEmpty(extra) ==>
      forall t :: Contains(r, t) <==> Contains(a, t) || t in extra.value
    ensures !IsNullOrEmpty(extra) ==> Distinct(a.current) <= r.current
    ensures !IsNullOrEmpty(extra) && NoDup(a.current) ==> a.current <= r.current
  {
    if IsNullOrEmpty(extra) then a
    else
      DistinctPrefix(a.current, extra.value);
      assert NoDup(a.current) ==> Distinct(a.current) == a.current by {
        if NoDup(a.current) {
          DistinctOfNoDup(a.current);
        }
      }
      a.(current := Distinct(a.current + extra.value))
  }

  /** Restores the default array: the state is the freshly awoken one again. */
  function ResetToDefaultTiles(a: State): (r: State)
    ensures r.defaults == a.defaults
    ensures r.current == a.defaults
    ensures r == Awake(a.defaults)
  {
    a.(current := a.defaults)
  }

  /** Adding the same tiles a second time changes nothing. */
  lemma {:induction false} AddIdempotent(a: State, extra: TileArray)
    ensures AddAllowedTiles(AddAllowedTiles(a, extra), extra) == AddAllowedTiles(a, extra)
  {
    if !IsNullOrEmpty(extra) {
      var once := AddAllowedTiles(a, extra);
      DistinctSaturated(once.current, extra.value);
      DistinctOfNoDup(once.current);
    }
  }

  /** Two additions in a row give exactly the array a single addition of both would give. */
  lemma AddTwiceIsAddOfConcat(a: State, x: seq<Tile>, y: seq<Tile>)
    ensures AddAllowedTiles(AddAllowedTiles(a, Some(x)), Some(y)) == AddAllowedTiles(a, Some(x + y))
  {
    if |x| == 0 {
      assert x + y == y;
    } else if |y| == 0 {
      assert x + y == x;
    } else {
      DistinctAbsorbs(a.current + x, y);
      assert a.current + x + y == a.current + (x + y);
    }
  }

  /** One call to the mutating surface of the component. */
  datatype Op = Update(newTiles: TileArray) | AddTiles(extra: TileArray) | Reset

  function Apply(a: State, op: Op): State {
    match op
    case Update(t) => UpdateAllowedTiles(a, t)
    case AddTiles(t) => AddAllowedTiles(a, t)
    case Reset => ResetToDefaultTiles(a)
  }

  function ApplyAll(a: State, ops: seq<Op>): State
    decreases |ops|
  {
    if |ops| == 0 then a else ApplyAll(Apply(a, ops[0]), ops[1..])
  }

  /** No operation writes the default array, so it survives any history of calls. */
  lemma {:induction false} DefaultsNeverWritten(a: State, ops: seq<Op>)
    ensures ApplyAll(a, ops).defaults == a.defaults
    decreases |ops|
  {
    if |ops| > 0 {
      DefaultsNeverWritten(Apply(a, ops[0]), ops[1..]);
    }
  }

  /** After any history of replacements and additions, a reset gives back the configured array. */
  lemma ResetRestoresDefaults(defaults: seq<Tile>, ops: seq<Op>)
    ensures ResetToDefaultTiles(ApplyAll(Awake(defaults), ops)) == Awake(defaults)
  {
    DefaultsNeverWritten(Awake(defaults), ops);
  }
}
