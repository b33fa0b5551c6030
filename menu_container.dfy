/**
 * A menu players drop items into.  Its last row is a locked bottom bar;
 * which slots above it are editable, and what they show, is up to the
 * concrete menu (`canEditItem`, `getDropAt`).
 */
module MenuContainer {
  import opened Wrappers
  import opened Items

  /** Three rows by default. */
  const DEFAULT_SIZE: int := 9 * 3

  /** Where a click landed. */
  datatype ClickLocation = MenuArea | PlayerInventory | Outside

  /** What a slot shows. */
  datatype Shown = Drop(item: Stack) | BottomBarFiller | NoItem

  class Container {
    var size: int
    /** `canEditItem(slot)` of the concrete menu. */
    const canEditItem: int -> bool
    /** `getDropAt(slot)` of the concrete menu; `None` for null. */
    const getDropAt: int -> Option<Stack>

    constructor (canEditItem: int -> bool, getDropAt: int -> Option<Stack>)
      ensures size == DEFAULT_SIZE
      ensures this.canEditItem == canEditItem && this.getDropAt == getDropAt
    {
      size := DEFAULT_SIZE;
      this.canEditItem := canEditItem;
      this.getDropAt := getDropAt;
    }

    /** `getItemAt`: the custom drop if there is one, else the filler past slot `size - 9`, else nothing. */
    function GetItemAt(slot: int): (r: Shown)
      reads this
      ensures getDropAt(slot).Some? <==> r.Drop?
      ensures r.Drop? ==> r.item == getDropAt(slot).value
      ensures r == BottomBarFiller <==> getDropAt(slot).None? && slot > size - 9
    {
      var customDrop := getDropAt(slot);
      if customDrop.Some? then Drop(customDrop.value)
      else if slot > size - 9 then BottomBarFiller
      else NoItem
    }

    /** `isActionAllowed`: clicks outside the menu pass; the bottom row is locked; elsewhere `canEditItem` decides. */
    function IsActionAllowed(location: ClickLocation, slot: int): (r: bool)
      reads this
      ensures location != MenuArea ==> r
      ensures location == MenuArea && slot >= size - 9 ==> !r
      ensures location == MenuArea && slot < size - 9 ==> (r <==> canEditItem(slot))
    {
      if location != MenuArea then true
      else if slot >= size - 9 then false
      else canEditItem(slot)
    }

    /**
     * `onMenuClick`: an editable slot above the bottom row receives what the
     * concrete menu's `onItemClick` makes of the clicked item; any other
     * click changes nothing.
     */
    method OnMenuClick(inv: array<Option<Stack>>, slot: int, clicked: Option<Stack>,
                       onItemClick: (int, Option<Stack>) -> Option<Stack>)
      requires inv.Length == size && 0 <= slot
      modifies inv
      ensures IsActionAllowed(MenuArea, slot) ==> inv[..] == old(inv[..])[slot := onItemClick(slot, clicked)]
      ensures !IsActionAllowed(MenuArea, slot) ==> inv[..] == old(inv[..])
    {
      if canEditItem(slot) && slot < size - 9 {
        var item := onItemClick(slot, clicked);
        inv[slot] := item;
      }
    }

    /** `onMenuClose`: the items of exactly the editable slots above the bottom row, by slot. */
    method OnMenuClose(inv: array<Option<Stack>>) returns (items: map<int, Option<Stack>>)
      requires inv.Length == size
      ensures forall slot :: slot in items <==> 0 <= slot < size - 9 && canEditItem(slot)
      ensures forall slot :: slot in items ==> 0 <= slot < inv.Length && items[slot] == inv[slot]
      ensures forall slot :: slot in items <==> 0 <= slot && IsActionAllowed(MenuArea, slot)
    {
      items := map[];
      var slot := 0;
      while slot < size - 9
        invariant 0 <= slot && (slot <= size - 9 || slot == 0)
        invariant forall s :: s in items <==> 0 <= s < slot && canEditItem(s)
        invariant forall s :: s in items ==> 0 <= s < inv.Length && items[s] == inv[s]
      {
        if canEditItem(slot) {
          var item := inv[slot];
          items := items[slot := item];
        }
        slot := slot + 1;
      }
    }
  }

  /**
   * Slot `size - 9` is locked against clicks, yet it is not filled: without a
   * custom drop it shows nothing.
   */
  lemma UnfilledLockedSlot(c: Container)
    requires c.getDropAt(c.size - 9).None?
    ensures c.GetItemAt(c.size - 9) == NoItem
    ensures !c.IsActionAllowed(MenuArea, c.size - 9)
  {
  }
}
