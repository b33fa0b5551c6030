# Tweety core, modelled in Dafny

Tweety is a support library for Bukkit server plugins. This project models
the parts of it that are plain logic and proves what they promise:

- **Inventories.** The stacking algorithm of `PlayerUtil.addItems` works in
  three steps. It merges similar inputs, tops up partial stacks, then fills
  empty slots without passing the maximum stack size, and it returns the
  leftovers. Around it sit `containsAtLeast`, `take`, `firstPartial`,
  `updateInvSlot` and the nickname lookup.
- **Menus.** The fixed-size slot buffer of `InventoryDrawer`, the border
  and inside slot lists of `InventoryBorder`, and the page arithmetic,
  footer slots, page buttons and slot precedence of `MenuPagged`. Also the
  locked bottom bar of `MenuContainer` and the rotation through
  `MenuQuantity`.
- **Encodings.** The UUID packing of `NBTUUIDList`, the
  `plugin%-%key%-%value` tags of `CompMetadata` and the `key - value` lines
  of `Tuple`. The location and potion-effect strings of `SerializeUtil`,
  and the comment splitting and boxed rendering of `Comment`.
- **Collections and state machines.** The strict map operations of
  `SerializedMap` and the write-head state machine of `Message` and
  `OutgoingMessage`. Path resolution and editing of the NBT compound tree
  of `NBTReflectionUtil`.
- **String rules.** The console filter of `TweetyFilter`, the sublabels
  and permission of `SimpleSubCommand`, and the name tables of
  `EnchantmentWrapper` and `PotionWrapper`.

There is one Dafny module per Java file. Three modules are shared:

- `Wrappers` holds `Option` and `Result`.
- `Strings` holds ASCII case mapping and Java's `split` with a literal
  pattern, its `replace` and `String.join`. It also holds decimal
  printing and parsing of integers, and the upper-case, space-to-underscore
  normal form that the two name tables apply.
- `Items` holds the item stack record and the slot sums.

Objects that the source updates in place are classes. Inventories are
arrays, and the other objects keep their state in fields of type `seq` or
`map`. Bukkit, reflection, the clock and I/O are parameters: the maximum
stack size per material, the world names, a float parser, the colour
codes, the `StrictMap` merge and the JSON parser. A stack is a record
holding a material, a meta key that stands for the item meta, and an
amount. "Similar" means the same material and meta key.

## Model

| member | source | states |
|---|---|---|
| PlayerUtil.FirstFrom | src/main/java/ca/tweetzy/tweety/util/PlayerUtil.java:667-677 | the result is -1 or the lowest index from `from` on whose slot passes the test; no earlier slot passes |
| PlayerUtil.Find | src/main/java/ca/tweetzy/tweety/util/PlayerUtil.java:670-676 | the scan over the inventory array returns the first index whose slot passes the test, or -1 |
| PlayerUtil.FirstPartial | src/main/java/ca/tweetzy/tweety/util/PlayerUtil.java:667-677 | a null item gives -1; otherwise the lowest index of a non-null stack below `maxAmount` and similar to the item, or -1 |
| PlayerUtil.FirstEmpty | src/main/java/ca/tweetzy/tweety/util/PlayerUtil.java:613-618 | -1 exactly when every slot is filled; otherwise an empty slot with every slot before it filled |
| PlayerUtil.ContainsAtLeast | src/main/java/ca/tweetzy/tweety/util/PlayerUtil.java:479-487 | true exactly when the amounts of the stacks of the material add up to at least `atLeastSize` |
| PlayerUtil.TakeFirstOnePiece | src/main/java/ca/tweetzy/tweety/util/PlayerUtil.java:445-455 | true exactly when some slot holds the material; the inventory becomes one piece less of its first such stack, and an emptied slot becomes empty |
| PlayerUtil.Take | src/main/java/ca/tweetzy/tweety/util/PlayerUtil.java:427-435 | fails and changes nothing when the player holds fewer than `amount`; otherwise takes one piece `amount` times |
| PlayerUtil.TakeFirstEffect | src/main/java/ca/tweetzy/tweety/util/PlayerUtil.java:445-469 | taking one piece lowers the material's total by one, keeps every stack at amount 1 or more, and leaves other slots alone |
| PlayerUtil.TakeNEffect | src/main/java/ca/tweetzy/tweety/util/PlayerUtil.java:427-435 | taking `n` pieces lowers the material's total by exactly `n` and leaves slots of other materials alone |
| PlayerUtil.PositiveSumHasStack | src/main/java/ca/tweetzy/tweety/util/PlayerUtil.java:447-451 | a positive total means some slot holds the material, so each single take finds a stack |
| PlayerUtil.UpdateInvSlot | src/main/java/ca/tweetzy/tweety/util/PlayerUtil.java:497-511 | true exactly when some slot is similar to `search`; only the first such slot is replaced, and with no match nothing changes |
| PlayerUtil.FirstStop | src/main/java/ca/tweetzy/tweety/util/PlayerUtil.java:362-374 | the first player whose name equals the input ignoring case, or whose nick starts with it at length difference 0; no earlier player stops the search |
| PlayerUtil.LookupNickedPlayer | src/main/java/ca/tweetzy/tweety/util/PlayerUtil.java:355-380 | an exact name match (or zero-delta nick) returns the first such player; otherwise the earliest player with the smallest length difference among nick prefix matches, or none |
| PlayerUtil.Usable | src/main/java/ca/tweetzy/tweety/util/PlayerUtil.java:585-587 | null inputs and inputs with amount below 1 are dropped, the rest kept in place |
| PlayerUtil.CombineItems | src/main/java/ca/tweetzy/tweety/util/PlayerUtil.java:584-598 | the merge loop fills the combined array exactly as the merge function says |
| PlayerUtil.MergeShape | src/main/java/ca/tweetzy/tweety/util/PlayerUtil.java:588-597 | merging one stack keeps the combined entries packed at the front, with no two entries similar |
| PlayerUtil.MergeSum | src/main/java/ca/tweetzy/tweety/util/PlayerUtil.java:588-597 | merging one stack adds exactly its amount to the total of its material and meta |
| PlayerUtil.CombineShape | src/main/java/ca/tweetzy/tweety/util/PlayerUtil.java:584-598 | after merging, the entries are packed at the front and pairwise not similar |
| PlayerUtil.CombineSum | src/main/java/ca/tweetzy/tweety/util/PlayerUtil.java:584-598 | for each material and meta, the merged total equals the total of the usable inputs |
| PlayerUtil.StoreItem | src/main/java/ca/tweetzy/tweety/util/PlayerUtil.java:605-650 | the store loop for one merged stack updates the array and returns the leftover as the store function says |
| PlayerUtil.StoreOneSum | src/main/java/ca/tweetzy/tweety/util/PlayerUtil.java:605-650 | storing one stack conserves amounts: what lands in the slots plus the leftover equals what was there plus the stack |
| PlayerUtil.StoreOneWrites | src/main/java/ca/tweetzy/tweety/util/PlayerUtil.java:605-650 | every slot that changes ends up similar to the stack and at most `maxAmount` |
| PlayerUtil.StoreOneLeft | src/main/java/ca/tweetzy/tweety/util/PlayerUtil.java:611-618 | a leftover only arises when no empty slot and no partial similar stack remain, and it is similar to the stack |
| PlayerUtil.StoreAllSum | src/main/java/ca/tweetzy/tweety/util/PlayerUtil.java:600-652 | over all merged stacks, slots plus leftovers conserve each non-AIR material's total; AIR entries are skipped |
| PlayerUtil.StoreAllWrites | src/main/java/ca/tweetzy/tweety/util/PlayerUtil.java:605-650 | no slot written ends above the larger of `oversizedStacks` and the material's maximum stack size |
| PlayerUtil.StoreAllLeft | src/main/java/ca/tweetzy/tweety/util/PlayerUtil.java:611-618 | each leftover is keyed by its merged index, is similar to that entry and is not AIR; any leftover means the inventory is full |
| PlayerUtil.AddItemsTo | src/main/java/ca/tweetzy/tweety/util/PlayerUtil.java:581-652 | the inventory and the leftover map are those of merging the inputs and storing them in order |
| PlayerUtil.AddItems | src/main/java/ca/tweetzy/tweety/util/PlayerUtil.java:572-653 | a combined player inventory is worked on through its first 36 slots; the result is the specification function's |
| PlayerUtil.AddItemsSum | src/main/java/ca/tweetzy/tweety/util/PlayerUtil.java:572-653 | conservation: each non-AIR material's amount in slots plus leftovers equals the amount before plus the usable inputs |
| PlayerUtil.AddItemsWrites | src/main/java/ca/tweetzy/tweety/util/PlayerUtil.java:572-653 | no written slot exceeds `maxAmount`; the armour and off-hand slots past 36 of a player inventory stay as they were |
| PlayerUtil.AddItemsLeft | src/main/java/ca/tweetzy/tweety/util/PlayerUtil.java:611-618 | leftovers are keyed by their index among the merged stacks, not by input index, and are never AIR; any leftover means the worked slots are all full |
| InventoryDrawer.Drawer.Of | src/main/java/ca/tweetzy/tweety/menu/model/InventoryDrawer.java:58-64 | a fresh buffer of exactly `size` empty slots with the title |
| InventoryDrawer.Drawer.OfInventory | src/main/java/ca/tweetzy/tweety/menu/model/InventoryDrawer.java:71-77 | a buffer sized to the inventory, with no title |
| InventoryDrawer.Drawer.GetItem | src/main/java/ca/tweetzy/tweety/menu/model/InventoryDrawer.java:120-122 | a negative slot fails; a slot in range gives its content; a slot past the end gives null |
| InventoryDrawer.Drawer.IsSet | src/main/java/ca/tweetzy/tweety/menu/model/InventoryDrawer.java:110-112 | true exactly when `getItem` gives a non-null stack |
| InventoryDrawer.Drawer.PushItem | src/main/java/ca/tweetzy/tweety/menu/model/InventoryDrawer.java:86-102 | the item goes to the lowest empty slot, or to the last slot when none is empty; nothing else changes; a zero-size buffer fails |
| InventoryDrawer.Drawer.SetItem | src/main/java/ca/tweetzy/tweety/menu/model/InventoryDrawer.java:130-132 | exactly one slot changes, and a slot out of range fails and changes nothing |
| InventoryDrawer.Drawer.SetContent | src/main/java/ca/tweetzy/tweety/menu/model/InventoryDrawer.java:141-144 | the new content is copied, the remaining slots get AIR, and the length stays `size` |
| InventoryDrawer.Drawer.SetTitle | src/main/java/ca/tweetzy/tweety/menu/model/InventoryDrawer.java:151-153 | the title becomes the given one |
| InventoryBorder.GetBorders | src/main/java/ca/tweetzy/tweety/gui/helper/InventoryBorder.java:17-29 | the loop returns the border list of the rows |
| InventoryBorder.GetInsideBorders | src/main/java/ca/tweetzy/tweety/gui/helper/InventoryBorder.java:31-45 | the loop returns the inside list of the rows |
| InventoryBorder.BelowMembers | src/main/java/ca/tweetzy/tweety/gui/helper/InventoryBorder.java:20-26 | the list below `n` is strictly increasing and holds exactly the indices below `n` on, or off, the border |
| InventoryBorder.BordersPartition | src/main/java/ca/tweetzy/tweety/gui/helper/InventoryBorder.java:17-45 | both lists ascend; borders are row 0, the last row, column 1 and column 9; inside is the rest; together they split 0..rows*9-1; rows <= 0 gives two empty lists |
| InventoryBorder.RowsCount | src/main/java/ca/tweetzy/tweety/gui/helper/InventoryBorder.java:34-41 | the first `j` rows hold 7 inside slots per row strictly between the first and the last |
| InventoryBorder.InsideCount | src/main/java/ca/tweetzy/tweety/gui/helper/InventoryBorder.java:31-45 | for 2 rows or more the inside list has (rows-2)*7 slots |
| MenuPagged.AutoPageSize | src/main/java/ca/tweetzy/tweety/menu/MenuPagged.java:62 | rows*9 when rows are given; otherwise the smallest of 9, 18, 27 and 36 that holds the items, else 45 |
| MenuPagged.MenuSize | src/main/java/ca/tweetzy/tweety/menu/MenuPagged.java:70-72 | the page size plus 9 exactly when it is not 54 and there is more than one page |
| MenuPagged.ComputeBottomSlots | src/main/java/ca/tweetzy/tweety/menu/MenuPagged.java:75-79 | the last nine slots, minus the previous- and next-button slots, in descending order |
| MenuPagged.Navigation | src/main/java/ca/tweetzy/tweety/menu/MenuPagged.java:141-149 | previous moves only above page 1 and next only below the page count; both stay in [1, pages]; each undoes the other |
| MenuPagged.CompileTitle | src/main/java/ca/tweetzy/tweety/menu/MenuPagged.java:200-204 | the suffix ` &8{current}/{total}` is added exactly when page numbers are on and there is more than one page |
| MenuPagged.Menu.constructor | src/main/java/ca/tweetzy/tweety/menu/MenuPagged.java:58-80 | current page 1; pages refilled at 45 when 54 per page gives more than one page; size and bottom slots as above |
| MenuPagged.Menu.CurrentPageItems | src/main/java/ca/tweetzy/tweety/menu/MenuPagged.java:360-362 | fails exactly when page `currentPage-1` is missing, else gives that page |
| MenuPagged.Menu.GetItemAt | src/main/java/ca/tweetzy/tweety/menu/MenuPagged.java:110-133 | a header slot shows the header; otherwise a footer slot shows the footer; otherwise a missing current page fails; otherwise a non-null page item at slot - startingSlot is shown; otherwise the previous-button slot shows the previous button, the next-button slot the next button, and any other slot the background when enabled, else nothing; each result occurs only in its case |
| MenuPagged.Menu.SetButtons | src/main/java/ca/tweetzy/tweety/menu/MenuPagged.java:92-100 | the buttons are rebuilt; pages and the current page stay |
| MenuPagged.Menu.ClickPrevious | src/main/java/ca/tweetzy/tweety/menu/MenuPagged.java:144-149 | an active previous button moves to the previous page, clamped to [1, pages] |
| MenuPagged.Menu.ClickNext | src/main/java/ca/tweetzy/tweety/menu/MenuPagged.java:171-176 | an active next button moves to the next page, clamped to [1, pages] |
| MenuContainer.Container.constructor | src/main/java/ca/tweetzy/tweety/menu/MenuContainer.java:35-40 | the default size is 27 |
| MenuContainer.Container.GetItemAt | src/main/java/ca/tweetzy/tweety/menu/MenuContainer.java:50-61 | the drop if there is one, else the filler for slots above size-9, else no item |
| MenuContainer.Container.IsActionAllowed | src/main/java/ca/tweetzy/tweety/menu/MenuContainer.java:84-96 | clicks outside the menu are allowed; slots from size-9 on are denied; others defer to `canEditItem` |
| MenuContainer.Container.OnMenuClick | src/main/java/ca/tweetzy/tweety/menu/MenuContainer.java:132-142 | the slot is updated only when the action is allowed there |
| MenuContainer.Container.OnMenuClose | src/main/java/ca/tweetzy/tweety/menu/MenuContainer.java:171-182 | the collected map has exactly the editable slots below size-9 as keys, with their contents |
| MenuContainer.UnfilledLockedSlot | src/main/java/ca/tweetzy/tweety/menu/MenuContainer.java:50-61 | slot size-9 shows no filler yet clicks on it are denied |
| MenuQuantity.Keep | src/main/java/ca/tweetzy/tweety/menu/model/MenuQuantity.java:99-107 | keeps exactly the quantities of 1% or more, unless decimals are included |
| MenuQuantity.KeepAscending | src/main/java/ca/tweetzy/tweety/menu/model/MenuQuantity.java:102-104 | filtering an ascending list keeps it ascending |
| MenuQuantity.ValuesAscending | src/main/java/ca/tweetzy/tweety/menu/model/MenuQuantity.java:23-53 | the declaration order 0.1, 0.5, 1, 2, 5, 10, 20 percent lists every quantity, ascending |
| MenuQuantity.CompileContents | src/main/java/ca/tweetzy/tweety/menu/model/MenuQuantity.java:99-107 | without decimals exactly the quantities of 1% and more, with them all; ascending and without repeats |
| MenuQuantity.CompileEnds | src/main/java/ca/tweetzy/tweety/menu/model/MenuQuantity.java:99-107 | the compiled list starts at 0.1% (or 1% without decimals) and ends at 20% |
| MenuQuantity.IndexOf | src/main/java/ca/tweetzy/tweety/menu/model/MenuQuantity.java:83-94 | the first index holding the element |
| MenuQuantity.Step | src/main/java/ca/tweetzy/tweety/menu/model/MenuQuantity.java:83-94 | an element in the list steps to an element of the list; one not in it gives none |
| MenuQuantity.StepPositions | src/main/java/ca/tweetzy/tweety/menu/model/MenuQuantity.java:83-94 | forward goes to the next index and wraps from the last to the first; back goes to the previous and wraps from the first to the last |
| MenuQuantity.TwentyWraps | src/main/java/ca/tweetzy/tweety/menu/model/MenuQuantity.java:83-94 | next of 20% is the smallest quantity offered, and previous of that is 20% |
| MenuQuantity.StepInverse | src/main/java/ca/tweetzy/tweety/menu/model/MenuQuantity.java:83-94 | in a list without repeats, stepping forward then back, or back then forward, returns to the start |
| MenuQuantity.Rotation | src/main/java/ca/tweetzy/tweety/menu/model/MenuQuantity.java:83-94 | for every compiled quantity q, previous(next(q)) == q and next(previous(q)) == q |
| SerializedMap.Insert | src/main/java/ca/tweetzy/tweety/collection/SerializedMap.java:244-248 | the key order gains the key once; keys stay distinct |
| SerializedMap.PutPairs | src/main/java/ca/tweetzy/tweety/collection/SerializedMap.java:101-116 | succeeds exactly when every key position holds a string |
| SerializedMap.PutPairsLast | src/main/java/ca/tweetzy/tweety/collection/SerializedMap.java:101-116 | a key's value is that of its last complete pair; keys with no pair keep their old value; an odd trailing key is ignored |
| SerializedMap.SMap.constructor | src/main/java/ca/tweetzy/tweety/collection/SerializedMap.java:65-67 | an empty map |
| SerializedMap.SMap.Store | src/main/java/ca/tweetzy/tweety/collection/SerializedMap.java:244-248 | the entry is set and the key order gains the key if new |
| SerializedMap.SMap.Put | src/main/java/ca/tweetzy/tweety/collection/SerializedMap.java:231-235 | fails on a null value or a key already present, changing nothing; otherwise adds the entry at the end |
| SerializedMap.SMap.Override | src/main/java/ca/tweetzy/tweety/collection/SerializedMap.java:244-248 | fails only on a null value; otherwise replaces or adds the entry |
| SerializedMap.SMap.PutIfTrue | src/main/java/ca/tweetzy/tweety/collection/SerializedMap.java:136-139 | false leaves the map unchanged; true is a strict put of `true` |
| SerializedMap.SMap.PutIfExist | src/main/java/ca/tweetzy/tweety/collection/SerializedMap.java:147-150 | null leaves the map unchanged; anything else is a strict put |
| SerializedMap.SMap.PutOrNull | src/main/java/ca/tweetzy/tweety/collection/SerializedMap.java:160-222 | a kept value is put strictly; otherwise the key is mapped to null in place |
| SerializedMap.SMap.PutIfMap | src/main/java/ca/tweetzy/tweety/collection/SerializedMap.java:160-168 | a non-empty map is put strictly; a null or empty one maps the key to null |
| SerializedMap.SMap.PutIfCollection | src/main/java/ca/tweetzy/tweety/collection/SerializedMap.java:178-186 | a non-empty collection is put strictly; a null or empty one maps the key to null |
| SerializedMap.SMap.PutIfBool | src/main/java/ca/tweetzy/tweety/collection/SerializedMap.java:196-204 | true is put strictly; false maps the key to null |
| SerializedMap.SMap.PutIfObject | src/main/java/ca/tweetzy/tweety/collection/SerializedMap.java:214-222 | a non-null value is put strictly; null maps the key to null |
| SerializedMap.SMap.MergeFrom | src/main/java/ca/tweetzy/tweety/collection/SerializedMap.java:76-84 | adds only entries with a non-null value whose key is absent; existing keys keep their values |
| SerializedMap.SMap.PutArray | src/main/java/ca/tweetzy/tweety/collection/SerializedMap.java:101-116 | the result is the pairwise loading of the arguments; a key that is not a string fails |
| SerializedMap.SMap.FindIgnoreCase | src/main/java/ca/tweetzy/tweety/collection/SerializedMap.java:302-308 | some key equal to the argument ignoring case, or none exactly when there is no such key |
| SerializedMap.SMap.GetValueIgnoreCase | src/main/java/ca/tweetzy/tweety/collection/SerializedMap.java:302-308 | the value of some key equal to the argument ignoring case, or null exactly when there is none |
| SerializedMap.OfMap | src/main/java/ca/tweetzy/tweety/collection/SerializedMap.java:460-467 | a fresh map holding exactly the given entries |
| SerializedMap.OfArray | src/main/java/ca/tweetzy/tweety/collection/SerializedMap.java:412-432 | a single SerializedMap argument is returned itself; a single map is copied; anything else is loaded pairwise |
| SerializedMap.OfObjectEntries | src/main/java/ca/tweetzy/tweety/collection/SerializedMap.java:440-452 | a serialized map or a `Map` keeps its entries; any other object gives an empty map |
| SerializedMap.FromJsonAsWritten | src/main/java/ca/tweetzy/tweety/collection/SerializedMap.java:478-499 | "", "[]" and "{}" give an empty map; text parsing to a JSON object also gives an empty map, since the object goes through `of(Object)`; anything else is an error |
| SerializedMap.ObjectMembersLost | src/main/java/ca/tweetzy/tweety/collection/SerializedMap.java:488-489 | the map built from a non-empty parsed object differs from that object, while a `Map` with the same members would keep them |
| SerializedMap.FromJson | src/main/java/ca/tweetzy/tweety/collection/SerializedMap.java:478-499 | corrected: "", "[]" and "{}" give an empty map; a JSON object gives a map of exactly its members; anything else, malformed text included, is an error |
| BungeeMessage.OutgoingMessage.Blank | src/main/java/ca/tweetzy/tweety/bungee/message/Message.java:17-47 | nothing set, the head at 0, an empty queue |
| BungeeMessage.OutgoingMessage.SetSenderUid | src/main/java/ca/tweetzy/tweety/bungee/message/Message.java:53-60 | null changes nothing; malformed text fails; otherwise the UUID is stored; nothing else changes |
| BungeeMessage.OutgoingMessage.SetServerName | src/main/java/ca/tweetzy/tweety/bungee/message/Message.java:68-73 | the server name can be set once only, never to null |
| BungeeMessage.OutgoingMessage.SetAction | src/main/java/ca/tweetzy/tweety/bungee/message/Message.java:94-98 | the action can be set once only |
| BungeeMessage.OutgoingMessage.SetActionByName | src/main/java/ca/tweetzy/tweety/bungee/message/Message.java:81-86 | an unknown name fails; a known one is set once only |
| BungeeMessage.OutgoingMessage.MoveHead | src/main/java/ca/tweetzy/tweety/bungee/message/Message.java:119-127 | fails without a server name or action, or at the end of the content; otherwise the head moves by one |
| BungeeMessage.OutgoingMessage.Create | src/main/java/ca/tweetzy/tweety/bungee/message/OutgoingMessage.java:47-62 | the sender, server name and action are set and queued first; the queue holds 3 plus the head elements |
| BungeeMessage.OutgoingMessage.Room | src/main/java/ca/tweetzy/tweety/bungee/message/Message.java:119-127 | the head plus the free room is the content length |
| BungeeMessage.OutgoingMessage.Write | src/main/java/ca/tweetzy/tweety/bungee/message/OutgoingMessage.java:156-161 | null fails; with room the object is queued and the head moves; the queue stays 3 plus the head |
| BungeeMessage.OutgoingMessage.WriteString | src/main/java/ca/tweetzy/tweety/bungee/message/OutgoingMessage.java:69-72 | the messages are queued in order until a null one or the end of the room; it succeeds only if all are queued |
| BungeeMessage.Accepted | src/main/java/ca/tweetzy/tweety/bungee/message/OutgoingMessage.java:69-72 | the number of leading non-null messages that fit in the room |
| BungeeMessage.AcceptedStep | src/main/java/ca/tweetzy/tweety/bungee/message/OutgoingMessage.java:69-72 | message i is accepted exactly when there is room for it and it is not null |
| BungeeMessage.OutgoingMessage.WriteBool | src/main/java/ca/tweetzy/tweety/bungee/message/OutgoingMessage.java:79-81 | with room the boolean is queued, otherwise nothing changes |
| BungeeMessage.OutgoingMessage.WriteInteger | src/main/java/ca/tweetzy/tweety/bungee/message/OutgoingMessage.java:115-117 | with room the integer is queued, otherwise nothing changes |
| BungeeMessage.OutgoingMessage.WriteUuid | src/main/java/ca/tweetzy/tweety/bungee/message/OutgoingMessage.java:142-144 | a non-null UUID is queued when there is room |
| BungeeMessage.EncodeAsWritten | src/main/java/ca/tweetzy/tweety/bungee/message/OutgoingMessage.java:183-210 | the type dispatch has no case for a UUID or an action |
| BungeeMessage.CompileAsWritten | src/main/java/ca/tweetzy/tweety/bungee/message/OutgoingMessage.java:180-215 | succeeds exactly when every queued element has a dispatch case, writing them in order |
| BungeeMessage.CompileAsWrittenFails | src/main/java/ca/tweetzy/tweety/bungee/message/OutgoingMessage.java:58-60 | every constructed message fails to compile as written |
| BungeeMessage.Encode | src/main/java/ca/tweetzy/tweety/bungee/message/OutgoingMessage.java:180-215 | agrees with the written dispatch wherever that has a case |
| BungeeMessage.EncodeDecode | src/main/java/ca/tweetzy/tweety/bungee/message/OutgoingMessage.java:180-215 | every element reads back as itself from its written form |
| BungeeMessage.OutgoingMessage.CompileData | src/main/java/ca/tweetzy/tweety/bungee/message/OutgoingMessage.java:180-215 | one write per queued element, in order, starting with the sender, server name and action name |
| BungeeMessage.CompiledRoundTrip | src/main/java/ca/tweetzy/tweety/bungee/message/OutgoingMessage.java:180-215 | every element of the compiled queue reads back as itself |
| NbtUuidList.WidenInt | src/main/java/ca/tweetzy/tweety/remain/nbt/NBTUUIDList.java:50-53 | widening an int to a long keeps its low 32 bits |
| NbtUuidList.NarrowLong | src/main/java/ca/tweetzy/tweety/remain/nbt/NBTUUIDList.java:61-63 | the `(int)` cast keeps the low 32 bits |
| NbtUuidList.ShiftRight32 | src/main/java/ca/tweetzy/tweety/remain/nbt/NBTUUIDList.java:61-63 | the low 32 bits of `l >> 32` are the high half of `l` |
| NbtUuidList.LeastMostToIntArray | src/main/java/ca/tweetzy/tweety/remain/nbt/NBTUUIDList.java:61-63 | four ints: high and low half of the first long, then of the second |
| NbtUuidList.UuidToIntArray | src/main/java/ca/tweetzy/tweety/remain/nbt/NBTUUIDList.java:55-59 | four ints |
| NbtUuidList.Combine | src/main/java/ca/tweetzy/tweety/remain/nbt/NBTUUIDList.java:50-53 | `(long) hi << 32 \| lo & 0xFFFFFFFF` has `hi` as its high and `lo` as its low half |
| NbtUuidList.UuidFromIntArray | src/main/java/ca/tweetzy/tweety/remain/nbt/NBTUUIDList.java:50-53 | the halves of both longs are the four ints |
| NbtUuidList.UuidRoundTrip | src/main/java/ca/tweetzy/tweety/remain/nbt/NBTUUIDList.java:50-63 | uuidFromIntArray(uuidToIntArray(u)) == u |
| NbtUuidList.IntArrayRoundTrip | src/main/java/ca/tweetzy/tweety/remain/nbt/NBTUUIDList.java:50-63 | uuidToIntArray(uuidFromIntArray(a)) == a for four ints |
| NbtReflectionUtil.Sub | src/main/java/ca/tweetzy/tweety/remain/nbt/NBTReflectionUtil.java:278-288 | the named child compound, or an error when it is missing or not a compound |
| NbtReflectionUtil.Descend | src/main/java/ca/tweetzy/tweety/remain/nbt/NBTReflectionUtil.java:332-346 | the empty path gives the root; a descent from a compound ends at a compound |
| NbtReflectionUtil.SetAt | src/main/java/ca/tweetzy/tweety/remain/nbt/NBTReflectionUtil.java:406-425 | replacing a compound along a path keeps the root's keys |
| NbtReflectionUtil.Edit | src/main/java/ca/tweetzy/tweety/remain/nbt/NBTReflectionUtil.java:406-425 | an edit succeeds exactly when the compound's path resolves |
| NbtReflectionUtil.Reverse | src/main/java/ca/tweetzy/tweety/remain/nbt/NBTReflectionUtil.java:335-341 | the names collected child to root keep their count |
| NbtReflectionUtil.ReverseAppend | src/main/java/ca/tweetzy/tweety/remain/nbt/NBTReflectionUtil.java:335-341 | collecting one more parent name puts it first in root-to-child order |
| NbtReflectionUtil.Store.constructor | src/main/java/ca/tweetzy/tweety/remain/nbt/NBTReflectionUtil.java:324-330 | the stored root compound, possibly absent |
| NbtReflectionUtil.NbtCompound.Root | src/main/java/ca/tweetzy/tweety/remain/nbt/NBTReflectionUtil.java:332-346 | a compound without a parent |
| NbtReflectionUtil.NbtCompound.Child | src/main/java/ca/tweetzy/tweety/remain/nbt/NBTReflectionUtil.java:296-316 | a compound under a linked parent, sharing its store |
| NbtReflectionUtil.GetToCompound | src/main/java/ca/tweetzy/tweety/remain/nbt/NBTReflectionUtil.java:332-346 | walks the parent chain and descends from the root along the path; a root compound gives the tag itself |
| NbtReflectionUtil.ValidateCompound | src/main/java/ca/tweetzy/tweety/remain/nbt/NBTReflectionUtil.java:324-330 | true exactly when the path resolves, otherwise the descent's error; never false |
| NbtReflectionUtil.EditCompound | src/main/java/ca/tweetzy/tweety/remain/nbt/NBTReflectionUtil.java:406-425 | the store becomes the edited root, or stays when the path does not resolve |
| NbtReflectionUtil.Remove | src/main/java/ca/tweetzy/tweety/remain/nbt/NBTReflectionUtil.java:545-555 | removing is editing with no value |
| NbtReflectionUtil.Set | src/main/java/ca/tweetzy/tweety/remain/nbt/NBTReflectionUtil.java:406-425 | a null value removes the key, any other is stored under it |
| NbtReflectionUtil.SetData | src/main/java/ca/tweetzy/tweety/remain/nbt/NBTReflectionUtil.java:583-597 | null data removes the key, any other is stored under it |
| NbtReflectionUtil.AddNbtTagCompound | src/main/java/ca/tweetzy/tweety/remain/nbt/NBTReflectionUtil.java:296-316 | a null name removes nothing but still checks the path; a name gets an empty compound |
| NbtReflectionUtil.MergeOtherNbtCompound | src/main/java/ca/tweetzy/tweety/remain/nbt/NBTReflectionUtil.java:354-375 | fails when either path does not resolve; otherwise the target compound becomes the merge of both |
| NbtReflectionUtil.GetData | src/main/java/ca/tweetzy/tweety/remain/nbt/NBTReflectionUtil.java:607-618 | an absent root reads as null; otherwise the entry under the key, or missing, once the path resolves |
| NbtReflectionUtil.ListKindOf | src/main/java/ca/tweetzy/tweety/remain/nbt/NBTReflectionUtil.java:437-465 | the list kind of an element class, none for any other class |
| NbtReflectionUtil.GetList | src/main/java/ca/tweetzy/tweety/remain/nbt/NBTReflectionUtil.java:437-465 | once the path resolves, the list kind for the class |
| NbtReflectionUtil.SetAtDescend | src/main/java/ca/tweetzy/tweety/remain/nbt/NBTReflectionUtil.java:406-425 | after replacing the compound at a path, the path leads to the new compound |
| NbtReflectionUtil.SetAtElsewhere | src/main/java/ca/tweetzy/tweety/remain/nbt/NBTReflectionUtil.java:406-425 | compounds on paths that neither contain nor lie within the edited path are unchanged |
| NbtReflectionUtil.SetAtAbove | src/main/java/ca/tweetzy/tweety/remain/nbt/NBTReflectionUtil.java:406-425 | compounds above the edited path keep their keys |
| NbtReflectionUtil.EditEffect | src/main/java/ca/tweetzy/tweety/remain/nbt/NBTReflectionUtil.java:406-425 | after an edit the compound has the key set to the value, or removed for null, and nothing else changed |
| CompMetadata.Format | src/main/java/ca/tweetzy/tweety/remain/CompMetadata.java:91-93 | the tag is the plugin name, key and value with two delimiters |
| CompMetadata.GetTag | src/main/java/ca/tweetzy/tweety/remain/CompMetadata.java:173-177 | a value only from a tag of three parts, the third |
| CompMetadata.HasTag | src/main/java/ca/tweetzy/tweety/remain/CompMetadata.java:277-281 | true exactly when the tag parses for the key |
| CompMetadata.FormatGetTag | src/main/java/ca/tweetzy/tweety/remain/CompMetadata.java:91-93 | parsing a formatted tag gives the value back when no part contains '%' |
| CompMetadata.DelimiterFreeNotEnough | src/main/java/ca/tweetzy/tweety/remain/CompMetadata.java:173-177 | a plugin name without the delimiter but ending in "%-" makes the tag unreadable |
| CompMetadata.AddTag | src/main/java/ca/tweetzy/tweety/remain/CompMetadata.java:76-88 | a tag is added only when absent; the tags stay distinct |
| CompMetadata.AddTagIdempotent | src/main/java/ca/tweetzy/tweety/remain/CompMetadata.java:76-88 | adding the same tag twice is adding it once |
| CompMetadata.FirstTag | src/main/java/ca/tweetzy/tweety/remain/CompMetadata.java:156-170 | the first non-empty value among the tags for the key, none exactly when no tag gives one |
| CompMetadata.Entity.constructor | src/main/java/ca/tweetzy/tweety/remain/CompMetadata.java:76-88 | an entity with distinct scoreboard tags and its metadata |
| CompMetadata.Entity.SetMetadata | src/main/java/ca/tweetzy/tweety/remain/CompMetadata.java:76-88 | with scoreboard tags the formatted tag is added if absent; otherwise the metadata is set |
| CompMetadata.Entity.GetMetadata | src/main/java/ca/tweetzy/tweety/remain/CompMetadata.java:156-170 | the first tag value, else the metadata value passed through `getOrNull` |
| CompMetadata.Entity.HasMetadata | src/main/java/ca/tweetzy/tweety/remain/CompMetadata.java:240-249 | some tag parses for the key, or the metadata has it |
| CompMetadata.SetThenHas | src/main/java/ca/tweetzy/tweety/remain/CompMetadata.java:76-88 | after setting a '%'-free tag the entity has metadata for the key |
| Comment.Comment.constructor | src/main/java/ca/tweetzy/tweety/configuration/Comment.java:35-41 | every given line is split on newline; null gives no lines |
| Comment.TextRoundTrip | src/main/java/ca/tweetzy/tweety/configuration/Comment.java:39-57 | `toString` of a comment built from text not ending in a newline gives the text back |
| Comment.TrailingNewlineLost | src/main/java/ca/tweetzy/tweety/configuration/Comment.java:39-57 | a trailing newline is lost by the split |
| Comment.Longest | src/main/java/ca/tweetzy/tweety/configuration/Comment.java:77 | the length of a longest line, 0 for none |
| Comment.Fill | src/main/java/ca/tweetzy/tweety/configuration/Comment.java:81-86 | `new char[n]` filled with one character; a negative length fails |
| Comment.Body | src/main/java/ca/tweetzy/tweety/configuration/Comment.java:94-98 | one output line per comment line |
| Comment.BodyLines | src/main/java/ca/tweetzy/tweety/configuration/Comment.java:94-98 | output line i renders comment line i |
| Comment.SpaceLine | src/main/java/ca/tweetzy/tweety/configuration/Comment.java:83-88 | the space line exists exactly when its prefix and suffix fit the spacing |
| Comment.LineShapes | src/main/java/ca/tweetzy/tweety/configuration/Comment.java:81-111 | every line is indented, framed and newline-terminated, with the stated widths |
| Comment.RenderParts | src/main/java/ca/tweetzy/tweety/configuration/Comment.java:70-113 | the output is the top, the body, then the bottom |
| Comment.RenderCount | src/main/java/ca/tweetzy/tweety/configuration/Comment.java:70-113 | the line count is the comment lines plus 2 per border and 2 per space; it fails only when a space line's prefix and suffix overflow |
| Comment.RenderIndent | src/main/java/ca/tweetzy/tweety/configuration/Comment.java:70-113 | every written line starts with the offset's spaces and ends in a newline |
| Comment.RenderEqualWidth | src/main/java/ca/tweetzy/tweety/configuration/Comment.java:75-109 | with a border all written lines have the same width |
| Comment.Writer.constructor | src/main/java/ca/tweetzy/tweety/configuration/Comment.java:70 | a writer with nothing written |
| Comment.Writer.Write | src/main/java/ca/tweetzy/tweety/configuration/Comment.java:70 | a write appends the chunk |
| Comment.Comment.WriteComment | src/main/java/ca/tweetzy/tweety/configuration/Comment.java:70-113 | writes the rendering with the comment's own style, else the default one |
| Comment.WriteLines | src/main/java/ca/tweetzy/tweety/configuration/Comment.java:70-113 | writes the top, the body and the bottom in order |
| Comment.WriteTop | src/main/java/ca/tweetzy/tweety/configuration/Comment.java:74-91 | writes the top lines |
| Comment.WriteBody | src/main/java/ca/tweetzy/tweety/configuration/Comment.java:93-98 | writes one line per comment line |
| Comment.WriteBottom | src/main/java/ca/tweetzy/tweety/configuration/Comment.java:100-112 | writes the bottom lines |
| Comment.StripInner | src/main/java/ca/tweetzy/tweety/configuration/Comment.java:63-67 | the lines between the pads, each without prefix and suffix and trimmed |
| Comment.Stripped | src/main/java/ca/tweetzy/tweety/configuration/Comment.java:63-67 | succeeds exactly when the pads and every inner line fit; then as above |
| Comment.LoadComment | src/main/java/ca/tweetzy/tweety/configuration/Comment.java:60-68 | the parsed style, and the stripped inner lines split again on newline |
| Comment.SplitAllPlain | src/main/java/ca/tweetzy/tweety/configuration/Comment.java:39 | lines without newlines are kept as they are by the split |
| Comment.StripPlain | src/main/java/ca/tweetzy/tweety/configuration/Comment.java:67 | stripping a line adds no newline |
| Comment.StripInnerPlain | src/main/java/ca/tweetzy/tweety/configuration/Comment.java:67 | stripped lines hold no newline |
| Comment.LoadedLines | src/main/java/ca/tweetzy/tweety/configuration/Comment.java:60-68 | a loaded comment's lines are exactly the stripped inner lines |
| Tuple.ToLine | src/main/java/ca/tweetzy/tweety/model/Tuple.java:93-95 | the key, " - ", then the value |
| Tuple.Deserialize | src/main/java/ca/tweetzy/tweety/model/Tuple.java:52-63 | null gives null; a line not splitting into two parts fails; otherwise the parsed key and value |
| Tuple.LineRoundTrip | src/main/java/ca/tweetzy/tweety/model/Tuple.java:52-95 | a tuple whose texts hold no '-' reads back from its line |
| Tuple.SeparatorInKeyRefused | src/main/java/ca/tweetzy/tweety/model/Tuple.java:52-63 | a key holding " - " makes its own line unreadable |
| Tuple.Serialize | src/main/java/ca/tweetzy/tweety/model/Tuple.java:84-86 | a map of exactly "Key" and "Value" |
| SerializeUtil.Saturate | src/main/java/ca/tweetzy/tweety/util/SerializeUtil.java:25-27 | a long narrowed as `Math.round` does stays within int range and keeps in-range values |
| SerializeUtil.Round | src/main/java/ca/tweetzy/tweety/util/SerializeUtil.java:25-27 | `Math.round` is within int range and keeps whole numbers |
| SerializeUtil.Block | src/main/java/ca/tweetzy/tweety/util/SerializeUtil.java:25-27 | the block coordinate is the floor |
| SerializeUtil.LocNumbers | src/main/java/ca/tweetzy/tweety/util/SerializeUtil.java:25-27 | three numbers, or five when pitch or yaw is non-zero |
| SerializeUtil.LocPieces | src/main/java/ca/tweetzy/tweety/util/SerializeUtil.java:25-27 | the world then the numbers in decimal |
| SerializeUtil.DeserializeLocation | src/main/java/ca/tweetzy/tweety/util/SerializeUtil.java:61-82 | null gives null; a location stays; text needs 4 or 6 parts and a known world; 4 parts give zero yaw and pitch |
| SerializeUtil.SerializePotionEffect | src/main/java/ca/tweetzy/tweety/util/SerializeUtil.java:46-48 | starts with the effect name and a space |
| SerializeUtil.DeserializePotionEffect | src/main/java/ca/tweetzy/tweety/util/SerializeUtil.java:121-138 | exactly three parts, two integers and a known name, else an error |
| SerializeUtil.IntToStringPlain | src/main/java/ca/tweetzy/tweety/util/SerializeUtil.java:25-27 | a printed integer has no space, comma or quote |
| SerializeUtil.PotionRoundTrip | src/main/java/ca/tweetzy/tweety/util/SerializeUtil.java:46-138 | an effect whose name has no space reads back from its string |
| SerializeUtil.PlainLocPieces | src/main/java/ca/tweetzy/tweety/util/SerializeUtil.java:25-27 | no piece holds a space, comma or quote |
| SerializeUtil.SerializeLocPieces | src/main/java/ca/tweetzy/tweety/util/SerializeUtil.java:25-82 | the serialised text splits back into its pieces |
| SerializeUtil.LocationRoundTrip | src/main/java/ca/tweetzy/tweety/util/SerializeUtil.java:25-82 | a whole-number location in a known world reads back from its string |
| SerializeUtil.WholeNumbers | src/main/java/ca/tweetzy/tweety/util/SerializeUtil.java:25-27 | for whole coordinates the numbers are the coordinates |
| SerializeUtil.JoinSplitOnChar | src/main/java/ca/tweetzy/tweety/util/SerializeUtil.java:25-82 | splitting a join on a separator that no piece contains gives the pieces back |
| SerializeUtil.UnknownWorldRefused | src/main/java/ca/tweetzy/tweety/util/SerializeUtil.java:69-71 | a location of an unknown world fails with that world's name |
| TweetyFilter.IsFiltered | src/main/java/ca/tweetzy/tweety/plugin/TweetyFilter.java:61-103 | the filter loop decides exactly the filtered predicate |
| TweetyFilter.PlainUnchanged | src/main/java/ca/tweetzy/tweety/plugin/TweetyFilter.java:66-69 | removing colour codes leaves a message without '&' or '§' unchanged |
| TweetyFilter.NullOrEmptyPasses | src/main/java/ca/tweetzy/tweety/plugin/TweetyFilter.java:62-63 | null and empty messages are never hidden |
| TweetyFilter.FixedMessagesFiltered | src/main/java/ca/tweetzy/tweety/plugin/TweetyFilter.java:71-82 | the JNDI lookup, the Nashorn warning and the load-order notice are hidden |
| TweetyFilter.NoAliasesOnlyFixed | src/main/java/ca/tweetzy/tweety/plugin/TweetyFilter.java:84-100 | without aliases only those fixed messages are hidden |
| TweetyFilter.FilterMatchesIsContains | src/main/java/ca/tweetzy/tweety/plugin/TweetyFilter.java:94-98 | a filter matches exactly when the lower-cased message contains it |
| TweetyFilter.UserFilterHides | src/main/java/ca/tweetzy/tweety/plugin/TweetyFilter.java:93-99 | with aliases a message containing a user filter, ignoring case, is hidden |
| TweetyFilter.EmptyFilterHidesAll | src/main/java/ca/tweetzy/tweety/plugin/TweetyFilter.java:93-99 | an empty user filter hides every non-empty message |
| TweetyFilter.IsLoggable | src/main/java/ca/tweetzy/tweety/plugin/TweetyFilter.java:111-115 | logged exactly when not hidden |
| TweetyFilter.CheckMessage | src/main/java/ca/tweetzy/tweety/plugin/TweetyFilter.java:181-183 | DENY exactly when hidden, NEUTRAL otherwise |
| TweetyFilter.FilterSystem.constructor | src/main/java/ca/tweetzy/tweety/plugin/TweetyFilter.java:122-126 | nothing printed yet |
| TweetyFilter.FilterSystem.PrintlnString | src/main/java/ca/tweetzy/tweety/plugin/TweetyFilter.java:134-137 | a non-null line is printed exactly when not hidden |
| TweetyFilter.FilterSystem.PrintlnObject | src/main/java/ca/tweetzy/tweety/plugin/TweetyFilter.java:128-131 | an object is printed exactly when its text is not hidden |
| SimpleSubCommand.ImprovedPermission | src/main/java/ca/tweetzy/tweety/command/SimpleSubCommand.java:66-72 | a non-default permission stays; the default gets ".{sublabel}", or "{label}" replaced by "{sublabel}" under the main command |
| SimpleSubCommand.ReplaceInserts | src/main/java/ca/tweetzy/tweety/command/SimpleSubCommand.java:68-69 | replacing a present target leaves the replacement in the result |
| SimpleSubCommand.NoSublabelIff | src/main/java/ca/tweetzy/tweety/command/SimpleSubCommand.java:60-62 | no sublabel, and a failed construction, exactly when the label is non-empty and made of '\|' and '/' only |
| SimpleSubCommand.RawPiecesEmpty | src/main/java/ca/tweetzy/tweety/command/SimpleSubCommand.java:60 | the raw pieces are all empty exactly when the label holds only separators |
| SimpleSubCommand.SublabelsPlain | src/main/java/ca/tweetzy/tweety/command/SimpleSubCommand.java:60 | no sublabel holds a separator |
| SimpleSubCommand.SubCommand.constructor | src/main/java/ca/tweetzy/tweety/command/SimpleSubCommand.java:57-73 | the first sublabel is current |
| SimpleSubCommand.SubCommand.ReplacePlaceholders | src/main/java/ca/tweetzy/tweety/command/SimpleSubCommand.java:90-92 | "{sublabel}" becomes the current sublabel; text without '{' stays |
| SimpleSubCommand.SubCommand.Equals | src/main/java/ca/tweetzy/tweety/command/SimpleSubCommand.java:95-97 | equal exactly when the other is a subcommand with element-wise equal sublabels |
| SimpleSubCommand.SplitWhole | src/main/java/ca/tweetzy/tweety/command/SimpleSubCommand.java:90-92 | a text that is just the placeholder is replaced whole |
| SimpleSubCommand.BraceFree | src/main/java/ca/tweetzy/tweety/command/SimpleSubCommand.java:90-92 | text without '{' holds no placeholder |
| SimpleSubCommand.EqualsEquivalence | src/main/java/ca/tweetzy/tweety/command/SimpleSubCommand.java:95-97 | equality is reflexive and symmetric |
| SimpleSubCommand.Create | src/main/java/ca/tweetzy/tweety/command/SimpleSubCommand.java:57-73 | fails exactly when there is no sublabel; otherwise the split sublabels, the first current, and the improved permission |
| EnchantmentWrapper.BukkitField | src/main/java/ca/tweetzy/tweety/cross/EnchantmentWrapper.java:12-34 | every constant is declared with a Bukkit name |
| EnchantmentWrapper.GetBukkitName | src/main/java/ca/tweetzy/tweety/cross/EnchantmentWrapper.java:58-60 | the declared Bukkit name |
| EnchantmentWrapper.NamesInjective | src/main/java/ca/tweetzy/tweety/cross/EnchantmentWrapper.java:12-34 | constant names are distinct |
| EnchantmentWrapper.BukkitNamesInjective | src/main/java/ca/tweetzy/tweety/cross/EnchantmentWrapper.java:12-34 | Bukkit names are distinct |
| EnchantmentWrapper.BukkitNameIsNoName | src/main/java/ca/tweetzy/tweety/cross/EnchantmentWrapper.java:12-34 | no Bukkit name is a constant name |
| EnchantmentWrapper.FindByNameOf | src/main/java/ca/tweetzy/tweety/cross/EnchantmentWrapper.java:41-43 | searching by a constant's name finds that constant |
| EnchantmentWrapper.FindByNameNone | src/main/java/ca/tweetzy/tweety/cross/EnchantmentWrapper.java:41-45 | a name of no constant is not found |
| EnchantmentWrapper.FindByBukkitOf | src/main/java/ca/tweetzy/tweety/cross/EnchantmentWrapper.java:51-53 | searching by a Bukkit name finds its constant |
| EnchantmentWrapper.FindByBukkitNone | src/main/java/ca/tweetzy/tweety/cross/EnchantmentWrapper.java:51-55 | a name that is no Bukkit name is not found |
| EnchantmentWrapper.ToBukkitOfName | src/main/java/ca/tweetzy/tweety/cross/EnchantmentWrapper.java:38-46 | a name normalising to a constant's name gives its Bukkit name |
| EnchantmentWrapper.ToBukkitOfBukkitName | src/main/java/ca/tweetzy/tweety/cross/EnchantmentWrapper.java:38-46 | a name normalising to a Bukkit name passes through as that name |
| EnchantmentWrapper.ToBukkitUnknown | src/main/java/ca/tweetzy/tweety/cross/EnchantmentWrapper.java:38-46 | any other name comes back normalised |
| EnchantmentWrapper.ToBukkitUnknownStable | src/main/java/ca/tweetzy/tweety/cross/EnchantmentWrapper.java:38-46 | an unknown name's result is stable under another `toBukkit` |
| EnchantmentWrapper.BukkitNameNormal | src/main/java/ca/tweetzy/tweety/cross/EnchantmentWrapper.java:12-34 | every Bukkit name is upper case without spaces |
| EnchantmentWrapper.ToBukkitIdempotent | src/main/java/ca/tweetzy/tweety/cross/EnchantmentWrapper.java:38-46 | `toBukkit(toBukkit(n)) == toBukkit(n)` for every name |
| EnchantmentWrapper.FindByNameFound | src/main/java/ca/tweetzy/tweety/cross/EnchantmentWrapper.java:41-43 | a found constant has the searched name |
| EnchantmentWrapper.FindByNameMissing | src/main/java/ca/tweetzy/tweety/cross/EnchantmentWrapper.java:41-45 | not found in `values()` means no constant has the name |
| EnchantmentWrapper.ToMinecraftOfBukkit | src/main/java/ca/tweetzy/tweety/cross/EnchantmentWrapper.java:48-56 | a name normalising to a Bukkit name gives its constant's display name |
| EnchantmentWrapper.ToMinecraftUnknown | src/main/java/ca/tweetzy/tweety/cross/EnchantmentWrapper.java:48-56 | any other name is capitalised after normalising |
| EnchantmentWrapper.InValues | src/main/java/ca/tweetzy/tweety/cross/EnchantmentWrapper.java:12-34 | `values()` lists every constant |
| PotionWrapper.GetMinecraftName | src/main/java/ca/tweetzy/tweety/remain/PotionWrapper.java:49-51 | the Minecraft name when declared, else the Bukkit name |
| PotionWrapper.MinecraftNameOnlySlow | src/main/java/ca/tweetzy/tweety/remain/PotionWrapper.java:13-17 | only SLOW has a Minecraft name of its own, "Slowness" |
| PotionWrapper.FindMatch | src/main/java/ca/tweetzy/tweety/remain/PotionWrapper.java:42-44 | a match is the first constant whose name or Minecraft name equals the input ignoring case; none when no constant matches |
| PotionWrapper.FindByBukkit | src/main/java/ca/tweetzy/tweety/remain/PotionWrapper.java:29-31 | the constant with the Bukkit name, none when there is none |
| PotionWrapper.MatchesName | src/main/java/ca/tweetzy/tweety/remain/PotionWrapper.java:42-44 | a constant's name matches that constant only |
| PotionWrapper.BukkitOfName | src/main/java/ca/tweetzy/tweety/remain/PotionWrapper.java:39-47 | a name normalising to a constant's name gives its Bukkit name |
| PotionWrapper.MatchesBukkitName | src/main/java/ca/tweetzy/tweety/remain/PotionWrapper.java:42-44 | a Bukkit name matches only a constant with that Bukkit name |
| PotionWrapper.BukkitOfBukkitName | src/main/java/ca/tweetzy/tweety/remain/PotionWrapper.java:39-47 | a name normalising to a Bukkit name passes through |
| PotionWrapper.BukkitOfUnknown | src/main/java/ca/tweetzy/tweety/remain/PotionWrapper.java:39-47 | a name matching nothing comes back normalised |
| PotionWrapper.BukkitOfSlowness | src/main/java/ca/tweetzy/tweety/remain/PotionWrapper.java:39-47 | anything equal to "Slowness" ignoring case, once normalised, gives "SLOW" |
| PotionWrapper.SlownessIsSlow | src/main/java/ca/tweetzy/tweety/remain/PotionWrapper.java:39-47 | `getBukkitName("Slowness")` is "SLOW" |
| PotionWrapper.BukkitNameNormal | src/main/java/ca/tweetzy/tweety/remain/PotionWrapper.java:13-17 | every Bukkit name is upper case without spaces |
| PotionWrapper.MinecraftNameRoundTrip | src/main/java/ca/tweetzy/tweety/remain/PotionWrapper.java:39-51 | `getBukkitName` undoes `getMinecraftName` |
| PotionWrapper.BukkitNamesDistinct | src/main/java/ca/tweetzy/tweety/remain/PotionWrapper.java:13-17 | Bukkit names are distinct |
| PotionWrapper.LocalizedOfBukkit | src/main/java/ca/tweetzy/tweety/remain/PotionWrapper.java:26-37 | a name normalising to a Bukkit name shows that potion's Minecraft name |
| PotionWrapper.LocalizedOfUnknown | src/main/java/ca/tweetzy/tweety/remain/PotionWrapper.java:26-37 | any other name keeps the input as given, not normalised |
| Strings.Normalize | src/main/java/ca/tweetzy/tweety/cross/EnchantmentWrapper.java:39 | upper case with spaces as underscores, same length |
| Strings.NormalizeIdempotent | src/main/java/ca/tweetzy/tweety/cross/EnchantmentWrapper.java:39 | normalising twice is normalising once |
| Strings.NormalizeIgnoringCase | src/main/java/ca/tweetzy/tweety/remain/PotionWrapper.java:40-44 | a text without spaces equals its normal form ignoring case |
| Strings.NormalizeNormal | src/main/java/ca/tweetzy/tweety/cross/EnchantmentWrapper.java:39 | a normal text is its own normal form |
| Strings.JavaSplitJoin | src/main/java/ca/tweetzy/tweety/configuration/Comment.java:39-57 | joining the split pieces gives back a text not ending in the delimiter |
| Strings.ParseIntToString | src/main/java/ca/tweetzy/tweety/util/SerializeUtil.java:129-134 | parsing a printed integer gives it back |

## Left out

- Java's 32-bit `int` overflow in amounts, page counts and sums: integers are unbounded, except the UUID packing and `Math.round`, which are written out.
- `Remain.takeItemOnePiece` is not part of this model; one piece taken is modelled as the amount lowered by one, with a slot of one piece emptied.
- The material's maximum stack size is a parameter, as is the inventory kind; the public `addItems` overloads only pass through to the modelled private one.
- `addItemsOrDrop`, `normalize`, vanish, ping, kicking and offline lookup are Bukkit calls and are not modelled.
- LookupNickedPlayer: the online player list and its order are a parameter.
- MenuPagged: `Common.fillPages` is a parameter; button items, the page refresh, `onMenuClick` dispatch and the overridable slot numbers are fixed at their defaults.
- SerializedMap: `StrictMap`'s own order of keys is modelled as insertion order; a null key in `putArray` is not modelled, since keys are strings.
- SerializedMap: `put(SerializedMap)`, `overrideAll` and the `remove` family are not modelled; Gson's `JsonParser` is a parameter; `of(Object)` is modelled only for the object kinds it tells apart, with `Remain.getRootOfSectionPathData` (not part of this model) taken to leave objects other than section path data unchanged.
- BungeeMessage: double, float, byte, long and short writes behave like `WriteInteger` and are not modelled separately; the `ByteArrayDataOutput` is a list of calls; `moveHead` does not compare the written type with the action's content type.
- NbtReflectionUtil: the NMS merge is a parameter; a value stored under a path name reads as a missing compound; list objects are not created, only their kind is chosen.
- MenuQuantity: `Common.getNext` on an element not in the list is modelled as no result.
- CompMetadata: item and tile-entity metadata, and temporary metadata, use Bukkit storage and are not modelled; `getOrNull` is a parameter.
- Comment: `ConfigFormattingRules.parseStyle` is not part of this model and is a parameter; the style's fields are inferred from their uses; the offset is a natural number; the `Writer` is a list of chunks.
- Tuple: `deserialize(SerializedMap, ...)` and the deprecated `deserialize(SerializedMap)` are not modelled.
- SerializeUtil: `serializeLocD` and `deserializeLocationD` are not modelled; coordinates are reals; `parseFloat`, the world lookup and `PotionEffectType.getByName` are parameters.
- TweetyFilter: `inject`, the Log4j lifecycle and the overloads that return null are not modelled; the colour codes are a parameter.
- Case mapping is ASCII only, where Java's `toLowerCase`, `toUpperCase` and `equalsIgnoreCase` follow Unicode. This applies to Strings.ToLower, Strings.ToUpper and Strings.Normalize, and to every member built on them: PlayerUtil.FirstStop and PlayerUtil.LookupNickedPlayer (`PlayerUtil.java:362-374`), SerializedMap.SMap.FindIgnoreCase and SerializedMap.SMap.GetValueIgnoreCase (`SerializedMap.java:302-308`), the EnchantmentWrapper lookups (`EnchantmentWrapper.java:39, 49`), the PotionWrapper lookups (`PotionWrapper.java:30, 40-44`) and TweetyFilter.IsFiltered (`TweetyFilter.java:92-98`).
- SimpleSubCommand: the `SimpleCommand` parts are parameters; a null raw permission and the one-argument constructor that finds the main command group are not modelled.
- EnchantmentWrapper and PotionWrapper: `capitalizeFully`, `bountifyCapitalized` and `ItemUtil` are parameters.
- ToBukkitOfName, ToMinecraftOfBukkit, BukkitOfName, LocalizedOfBukkit: stated for inputs whose normal form is a table name; other inputs are covered by the `Unknown` lemmas.
- Player, plugin, server and file I/O, the scheduler and threads are not modelled.

## Findings

| source | as written | input that shows it | evidently intended | confidence | as-written member | corrected member |
|---|---|---|---|---|---|---|
| src/main/java/ca/tweetzy/tweety/bungee/message/OutgoingMessage.java:58-60, 180-215 | the constructor queues the sender's `UUID` and the `BungeeAction`, but `compileData` has no case for either and throws | any constructed message, such as one with a random sender and any action | write the UUID and the action as strings, in the order queued | not executed | BungeeMessage.CompileAsWrittenFails | BungeeMessage.CompiledRoundTrip |
| src/main/java/ca/tweetzy/tweety/collection/SerializedMap.java:486-489, 440-452 | `fromJson` passes the parsed Gson `JsonObject`, held in a variable of type `Object`, to `of(Object)`, which knows only `SerializedMap`, `Map` and `MemorySection` and returns an empty map for it | any non-empty JSON object, such as `{"a":1}` | a map holding the object's members | not executed; assumes `Remain.getRootOfSectionPathData` returns a `JsonObject` unchanged | SerializedMap.FromJsonAsWritten | SerializedMap.FromJson |
