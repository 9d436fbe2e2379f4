/**
 * The InteractionManager component: the player carries at most one item. Interacting with
 * an item picks it up when nothing is carried, drops it when it is the carried one, and is
 * refused otherwise. Picking up and dropping hand over to the item's Boat or Goat component,
 * preferring Boat; those handler calls are returned as effects.
 */
module InteractionManager {

  import opened Wrappers

  /** An item object: its instance id and which item components it carries. */
  datatype Item = Item(id: nat, hasBoat: bool, hasGoat: bool)

  datatype State = State(carried: Option<Item>)

  /** The item handler a call ends up in. */
  datatype Effect = NoEffect | BoatPickUp | GoatPickUp | BoatDrop | GoatDrop

  function IsCarryingItem(s: State): (b: bool)
    ensures b <==> s.carried != None
  {
    s.carried.Some?
  }

  /** PickUpItem: the item becomes the carried one and its Boat (else Goat) handler runs. */
  function PickUpItem(s: State, item: Item): (r: (State, Effect))
    ensures r.0.carried == Some(item)
    ensures r.1 == (if item.hasBoat then BoatPickUp else if item.hasGoat then GoatPickUp else NoEffect)
  {
    (State(Some(item)),
     if item.hasBoat then BoatPickUp else if item.hasGoat then GoatPickUp else NoEffect)
  }

  /** DropItem: the carried item's Boat (else Goat) drop handler runs and nothing is carried. */
  function DropItem(s: State): (r: (State, Effect))
    ensures !IsCarryingItem(r.0)
    ensures s.carried.None? ==> r.1 == NoEffect
    ensures s.carried.Some? && s.carried.value.hasBoat ==> r.1 == BoatDrop
    ensures s.carried.Some? && !s.carried.value.hasBoat && s.carried.value.hasGoat ==> r.1 == GoatDrop
    ensures s.carried.Some? && !s.carried.value.hasBoat && !s.carried.value.hasGoat ==> r.1 == NoEffect
  {
    match s.carried
    case None => (s, NoEffect)
    case Some(item) =>
      (State(None), if item.hasBoat then BoatDrop else if item.hasGoat then GoatDrop else NoEffect)
  }

  /**
   * DropItem when the drop handler throws (a Boat whose reset dereferences null): the same
   * handler is entered, but the exception skips clearing the carried item, so it stays
   * carried.
   */
  function DropItemInterrupted(s: State): (r: (State, Effect))
    ensures r.1 == DropItem(s).1
    ensures IsCarryingItem(s) ==> r.0.carried == s.carried && IsCarryingItem(r.0)
    ensures !IsCarryingItem(s) ==> r == DropItem(s)
  {
    match s.carried
    case None => (s, NoEffect)
    case Some(item) => (s, if item.hasBoat then BoatDrop else if item.hasGoat then GoatDrop else NoEffect)
  }

  /** OnPlayerInteraction: carry none / carry this item / refuse another item. */
  function OnPlayerInteraction(s: State, item: Item): (r: (State, Effect))
    ensures !IsCarryingItem(s) ==> r.0.carried == Some(item) && r.1 != BoatDrop && r.1 != GoatDrop
    ensures s.carried == Some(item) ==> !IsCarryingItem(r.0) && r.1 != BoatPickUp && r.1 != GoatPickUp
    ensures IsCarryingItem(s) && s.carried != Some(item) ==> r == (s, NoEffect)
    ensures item.hasBoat && item.hasGoat && s.carried.None? ==> r.1 == BoatPickUp
    ensures item.hasBoat && item.hasGoat && s.carried == Some(item) ==> r.1 == BoatDrop
    ensures !IsCarryingItem(s) ==> r == PickUpItem(s, item)
    ensures s.carried == Some(item) ==> r == DropItem(s)
  {
    if s.carried.None? then PickUpItem(s, item)
    else if s.carried == Some(item) then DropItem(s)
    else (s, NoEffect)
  }

  /**
   * Interacting twice with the same item from empty hands returns to empty hands, and the
   * second call runs the drop handler of the component the first call picked up with.
   */
  lemma InteractTwiceRoundTrip(item: Item)
    ensures var first := OnPlayerInteraction(State(None), item);
      var second := OnPlayerInteraction(first.0, item);
      && second.0 == State(None)
      && (first.1 == BoatPickUp <==> second.1 == BoatDrop)
      && (first.1 == GoatPickUp <==> second.1 == GoatDrop)
      && (first.1 == NoEffect <==> second.1 == NoEffect)
  {
  }
}
