/** A fixed-size buffer of menu slots, filled before it is shown to a player. */
module InventoryDrawer {
  import opened Wrappers
  import opened Items

  /** The exception a slot access throws. */
  datatype Error = IndexOutOfBounds(slot: int)

  /** The placeholder `setContent` puts in slots the new content does not reach: `new ItemStack(AIR)`. */
  const AIR_STACK: Stack := Stack(AIR, 0, 1)

  class Drawer {
    /** The number of slots, fixed at construction. */
    const size: nat
    var title: Option<string>
    const content: array<Option<Stack>>

    predicate Valid()
      reads this
    {
      content.Length == size
    }

    /** `InventoryDrawer.of(size, title)`: an empty buffer of `size` slots. */
    constructor Of(size: nat, title: string)
      ensures Valid() && this.size == size && this.title == Some(title)
      ensures fresh(content) && forall i :: 0 <= i < size ==> content[i].None?
    {
      this.size := size;
      this.title := Some(title);
      content := new Option<Stack>[size](_ => None);
    }

    /** `InventoryDrawer.of(inventory)`: an empty buffer as large as the inventory, with no title. */
    constructor OfInventory(inventorySize: nat)
      ensures Valid() && size == inventorySize && title.None?
      ensures fresh(content) && forall i :: 0 <= i < size ==> content[i].None?
    {
      size := inventorySize;
      title := None;
      content := new Option<Stack>[inventorySize](_ => None);
    }

    /** `getItem`: the slot's item; null past the end; a negative slot throws. */
    function GetItem(slot: int): (r: Result<Option<Stack>, Error>)
      reads this, content
      ensures slot < 0 <==> r.Err?
      ensures 0 <= slot < content.Length ==> r == Ok(content[slot])
      ensures slot >= content.Length ==> r == Ok(None)
    {
      if slot < 0 then Err(IndexOutOfBounds(slot))
      else if slot < content.Length then Ok(content[slot])
      else Ok(None)
    }

    /** `isSet`: whether `getItem` finds a non-null item. */
    function IsSet(slot: int): (r: Result<bool, Error>)
      reads this, content
      ensures r.Ok? <==> GetItem(slot).Ok?
      ensures r.Ok? ==> (r.value <==> GetItem(slot).value.Some?)
      ensures r.Ok? ==> (r.value <==> 0 <= slot < content.Length && content[slot].Some?)
    {
      match GetItem(slot)
      case Err(e) => Err(e)
      case Ok(item) => Ok(item.Some?)
    }

    /**
     * `pushItem`: the item goes into the lowest empty slot; when there is
     * none it replaces the last slot.  An empty buffer throws.
     */
    method PushItem(item: Option<Stack>) returns (r: Result<(), Error>)
      requires Valid()
      modifies content
      ensures Valid()
      ensures size == 0 <==> r.Err?
      ensures (exists i :: 0 <= i < size && old(content[i]).None?) ==>
        exists i :: 0 <= i < size && old(content[i]).None? && (forall j :: 0 <= j < i ==> old(content[j]).Some?)
          && content[..] == old(content[..])[i := item]
      ensures size > 0 && (forall i :: 0 <= i < size ==> old(content[i]).Some?) ==>
        content[..] == old(content[..])[size - 1 := item]
      ensures size == 0 ==> content[..] == old(content[..])
    {
      var added := false;
      var i := 0;
      while i < content.Length
        invariant 0 <= i <= content.Length
        invariant !added && content[..] == old(content[..])
        invariant forall j :: 0 <= j < i ==> content[j].Some?
      {
        if content[i].None? {
          content[i] := item;
          added := true;
          break;
        }
        i := i + 1;
      }
      if !added {
        if size == 0 {
          return Err(IndexOutOfBounds(-1));
        }
        content[size - 1] := item;
      } else {
        assert old(content[i]).None? && content[..] == old(content[..])[i := item];
      }
      return Ok(());
    }

    /** `setItem`: writes one slot and no other; an out-of-range slot throws. */
    method SetItem(slot: int, item: Option<Stack>) returns (r: Result<(), Error>)
      requires Valid()
      modifies content
      ensures Valid()
      ensures r.Ok? <==> 0 <= slot < size
      ensures r.Ok? ==> content[..] == old(content[..])[slot := item] && GetItem(slot) == Ok(item)
      ensures r.Err? ==> content[..] == old(content[..])
    {
      if slot < 0 || slot >= content.Length {
        return Err(IndexOutOfBounds(slot));
      }
      content[slot] := item;
      return Ok(());
    }

    /** `setContent`: copies the new content and fills the remaining slots with AIR; the size stays. */
    method SetContent(newContent: seq<Option<Stack>>)
      requires Valid()
      modifies content
      ensures Valid()
      ensures forall i :: 0 <= i < size ==>
        content[i] == if i < |newContent| then newContent[i] else Some(AIR_STACK)
    {
      for i := 0 to content.Length
        invariant forall j :: 0 <= j < i ==>
          content[j] == if j < |newContent| then newContent[j] else Some(AIR_STACK)
      {
        content[i] := if i < |newContent| then newContent[i] else Some(AIR_STACK);
      }
    }

    /** `setTitle`: only the title changes. */
    method SetTitle(title: string)
      modifies this
      ensures this.title == Some(title)
    {
      this.title := Some(title);
    }
  }
}
