# MinecraftGUI menus in Dafny

This project models the core of MinecraftGUI, a library for chest-style
inventory menus on a Minecraft server. The model covers:

- **SlotItem** (module `SlotItems`). The immutable description of one slot's item, and the builder that accumulates it.
- **ClickHandler** (module `Clicks`). A click callback with an optional click-type filter and optional auto-cancel, and its builder.
- **MenuClickHandler** (module `Routers`). The per-menu router. It holds the slot handlers, an optional close handler and the registration flag, and it dispatches click and close events.
- **Menu** (module `Menus`). The aggregate: a set of items, an inventory of `size` cells that renders them, and a router. Also the `MenuBuilder` with its checks, its fill helpers and `build()`.
- **PaginationMenu** (module `Pagination`). A 54-slot menu that shows 45 entries per page, with a previous arrow at slot 45 and a next arrow at slot 53.
- **ConfirmationMenu** (module `Confirmation`). A 27-slot menu with a "Confirm" choice at slot 11 and a "Cancel" choice at slot 15.

How the model represents the system:

- **Inventory cells.** The host inventory is an `array<Option<Stack>>` of `size` cells. `Render` is the item-to-stack projection of `createItemStack`.
- **Surface functions.** `Painted` gives the cells after a sequence of `setItem` writes. `Blanked` gives the cells after a sequence of clearing writes.
- **Callbacks are data.** A user callback, the two page-turning lambdas of the paged menu and the close-then-run lambda of the confirmation menu are constructors of `Callback`. A handler reports which callback it invoked, and the owner interprets it: the paged menu turns the page, and the confirmation menu yields its `Effect`s.
- **Exceptions.** Every exception the core throws is a `GuiError` constructor. An operation that may throw returns an `Outcome` or a `Result`.
- **Host values as parameters.** The host inventory handle (`InventoryId`), the clicking player and the plugin are plain values passed in as parameters.

Where the library's documentation comments promise more than the code does, the model follows the code:

- **Intra-batch collisions.** The comments on `addItems` and `MenuBuilder.items` (Menu.java:75-79 and :330-335) say each item must be placed in a unique slot. The code checks each item's slot only against the items already in the menu. Two items of one batch may share a slot, and the later one wins the cell (`IntraBatchCollisionAccepted`).
- **Failures after mutation.** The comment on `addItems` (Menu.java:78) names only `IllegalArgumentException`. But `addItems` validates against slots 0..53, not against the inventory size. On a smaller inventory, a write past its end fails after the item set has already grown (`Menus.Menu.AddItems`).
- **Item flags.** The record's comment (SlotItem.java:26) calls them the item flags to apply. They are never applied to the rendered stack (`RenderIgnoresSlotAndFlags`).
- **Registration.** The comments at Menu.java:252-254 and MenuClickHandler.java:178 say that closing the menu unregisters its handlers. But a menu subscribes its router with the host directly and never through `register()`. The `isRegistered` flag therefore stays false, and neither `unregisterEvents()` nor a close event ever unsubscribes the router (`Menus.Menu.UnregisterEvents`, `Menus.Menu.DeliverClose`).
- **The two validation loops differ.** `MenuBuilder.items` checks the quantity even when a custom stack is present, and never checks the material. `addItems` does the reverse (`AddChecksDisagree`).

## Model

Source paths are relative to the repository root.

| member | source | states |
|---|---|---|
| SlotItems.Legacy | src/main/java/me/touchie771/minecraftGUI/api/SlotItem.java:48-50 | the four-argument record constructor sets name, slot, material and quantity and leaves all six optional fields null |
| SlotItems.AppendLore | src/main/java/me/touchie771/minecraftGUI/api/SlotItem.java:131-155 | addLore keeps the existing lines as a prefix and appends the new lines after them in argument order; from null lore the result is exactly the new lines |
| SlotItems.PutEnchantment | src/main/java/me/touchie771/minecraftGUI/api/SlotItem.java:175-183 | addEnchantment maps the enchantment to the level, adds no other key and keeps every other entry |
| SlotItems.AddFlags | src/main/java/me/touchie771/minecraftGUI/api/SlotItem.java:235-259 | addItemFlag(s) yields exactly the union of the existing flags and the new ones |
| SlotItems.AddLoreComposes | src/main/java/me/touchie771/minecraftGUI/api/SlotItem.java:147-155 | adding lines in two calls equals adding them all in one call |
| SlotItems.AddEnchantmentLastWins | src/main/java/me/touchie771/minecraftGUI/api/SlotItem.java:175-183 | a second addEnchantment of the same enchantment overwrites the first level |
| SlotItems.AddEnchantmentsCommute | src/main/java/me/touchie771/minecraftGUI/api/SlotItem.java:175-183 | addEnchantment calls for different enchantments commute |
| SlotItems.AddFlagsComposes | src/main/java/me/touchie771/minecraftGUI/api/SlotItem.java:235-259 | adding flags in two calls gives their union, and repeating flags changes nothing |
| SlotItems.Builder.constructor | src/main/java/me/touchie771/minecraftGUI/api/SlotItem.java:66-79 | a fresh builder builds quantity 1 with every nullable field null |
| SlotItems.Builder.Build | src/main/java/me/touchie771/minecraftGUI/api/SlotItem.java:266-279 | build carries every builder field into the record unchanged, with no validation |
| SlotItems.Builder.SetItemName | src/main/java/me/touchie771/minecraftGUI/api/SlotItem.java:87-90 | the built record changes in the name only |
| SlotItems.Builder.SetMaterial | src/main/java/me/touchie771/minecraftGUI/api/SlotItem.java:98-101 | the built record changes in the material only |
| SlotItems.Builder.SetQuantity | src/main/java/me/touchie771/minecraftGUI/api/SlotItem.java:109-112 | the built record changes in the quantity only, unchecked |
| SlotItems.Builder.SetLore | src/main/java/me/touchie771/minecraftGUI/api/SlotItem.java:120-123 | the built record changes in the lore only |
| SlotItems.Builder.AddLore | src/main/java/me/touchie771/minecraftGUI/api/SlotItem.java:131-155 | the built record's lore becomes AppendLore of the old lore, nothing else changes |
| SlotItems.Builder.SetEnchantments | src/main/java/me/touchie771/minecraftGUI/api/SlotItem.java:163-166 | the built record changes in the enchantments only |
| SlotItems.Builder.AddEnchantment | src/main/java/me/touchie771/minecraftGUI/api/SlotItem.java:175-183 | the built record's enchantments become PutEnchantment of the old ones, nothing else changes |
| SlotItems.Builder.SetCustomItemStack | src/main/java/me/touchie771/minecraftGUI/api/SlotItem.java:191-194 | the built record changes in the custom stack only |
| SlotItems.Builder.SetCustomModelData | src/main/java/me/touchie771/minecraftGUI/api/SlotItem.java:202-205 | the built record changes in the model data only |
| SlotItems.Builder.SetDamage | src/main/java/me/touchie771/minecraftGUI/api/SlotItem.java:213-216 | the built record changes in the damage only |
| SlotItems.Builder.SetItemFlags | src/main/java/me/touchie771/minecraftGUI/api/SlotItem.java:224-227 | the built record changes in the flags only |
| SlotItems.Builder.AddItemFlags | src/main/java/me/touchie771/minecraftGUI/api/SlotItem.java:235-259 | the built record's flags become AddFlags of the old ones, nothing else changes |
| Clicks.ClickHandler.HandleClick | src/main/java/me/touchie771/minecraftGUI/api/ClickHandler.java:59-79 | the invoked callback and the cancelled flag the callback receives are those of Handle: a filtered click does nothing, and an allowed one cancels first (when autoCancel is set) and then runs the callback, always returning normally |
| Clicks.FilteredClickIsInert | src/main/java/me/touchie771/minecraftGUI/api/ClickHandler.java:62-64 | a click type outside the filter neither cancels the event nor runs the callback |
| Clicks.AllowedClickRunsCallback | src/main/java/me/touchie771/minecraftGUI/api/ClickHandler.java:66-77 | an allowed click runs the callback; with autoCancel the callback receives a cancelled event, and without it the flag it receives is untouched |
| Clicks.FilterSet | src/main/java/me/touchie771/minecraftGUI/api/ClickHandler.java:123-130 | filter() with no types records every click type, and otherwise exactly the given ones |
| Clicks.NewClickHandler | src/main/java/me/touchie771/minecraftGUI/api/ClickHandler.java:44-52 | the constructor fails exactly when the callback is missing; otherwise it keeps the callback and autoCancel and allows exactly the filtered types, or every type when there is no filter |
| Clicks.AllClickTypesComplete | src/main/java/me/touchie771/minecraftGUI/api/ClickHandler.java:49-50 | the all-types set holds every click type |
| Clicks.NoFilterAllowsEveryClick | src/main/java/me/touchie771/minecraftGUI/api/ClickHandler.java:49-50 | with no filter, or with a filter of zero types, every click type is allowed |
| Clicks.AutoCancelHandler | src/main/java/me/touchie771/minecraftGUI/api/ClickHandler.java:98-152 | a builder given only a callback and autoCancel(true) yields a handler that runs that callback for every click type and always cancels |
| Clicks.ClickHandlerBuilder.constructor | src/main/java/me/touchie771/minecraftGUI/api/ClickHandler.java:98-102 | a fresh builder has no callback, no filter, and autoCancel true |
| Clicks.ClickHandlerBuilder.SetCallback | src/main/java/me/touchie771/minecraftGUI/api/ClickHandler.java:111-114 | sets the callback, nothing else |
| Clicks.ClickHandlerBuilder.Filter | src/main/java/me/touchie771/minecraftGUI/api/ClickHandler.java:123-130 | replaces the filter with FilterSet of the arguments, nothing else |
| Clicks.ClickHandlerBuilder.SetAutoCancel | src/main/java/me/touchie771/minecraftGUI/api/ClickHandler.java:139-142 | sets autoCancel, nothing else |
| Clicks.ClickHandlerBuilder.Build | src/main/java/me/touchie771/minecraftGUI/api/ClickHandler.java:150-152 | build fails exactly without a callback, and otherwise carries callback, filter and autoCancel |
| Routers.Route | src/main/java/me/touchie771/minecraftGUI/api/MenuClickHandler.java:142-150 | a raw slot reaches a handler exactly when it lies in [0, size) and has a mapped handler, and then it is that handler |
| Routers.DispatchReachesOnlyMappedHandler | src/main/java/me/touchie771/minecraftGUI/api/MenuClickHandler.java:135-154 | a click invokes a callback exactly for the own inventory, a slot in [0, size) with a handler and an allowed type; it is that handler's callback, and otherwise the event is untouched |
| Routers.MenuClickHandler.constructor | src/main/java/me/touchie771/minecraftGUI/api/MenuClickHandler.java:41-45 | a new router has no handlers, no close handler, and is neither registered nor subscribed |
| Routers.MenuClickHandler.SetClickHandler | src/main/java/me/touchie771/minecraftGUI/api/MenuClickHandler.java:54-59 | throws for a slot outside [0, size) and changes nothing; otherwise maps the slot to the handler, the last write winning |
| Routers.MenuClickHandler.RemoveClickHandler | src/main/java/me/touchie771/minecraftGUI/api/MenuClickHandler.java:66-68 | removes only that slot's entry |
| Routers.MenuClickHandler.GetClickHandler | src/main/java/me/touchie771/minecraftGUI/api/MenuClickHandler.java:76-78 | returns the slot's handler, or null when it has none |
| Routers.MenuClickHandler.SetCloseHandler | src/main/java/me/touchie771/minecraftGUI/api/MenuClickHandler.java:85-87 | sets the close handler |
| Routers.MenuClickHandler.RemoveCloseHandler | src/main/java/me/touchie771/minecraftGUI/api/MenuClickHandler.java:92-94 | clears the close handler |
| Routers.MenuClickHandler.Register | src/main/java/me/touchie771/minecraftGUI/api/MenuClickHandler.java:100-107 | afterwards the router is registered, whatever it was before, so register is idempotent |
| Routers.MenuClickHandler.Unregister | src/main/java/me/touchie771/minecraftGUI/api/MenuClickHandler.java:113-118 | afterwards the router is not registered; it leaves the host registry only when the flag was set, so unregister is idempotent |
| Routers.MenuClickHandler.Subscribe | src/main/java/me/touchie771/minecraftGUI/api/Menu.java:247-249 | the host's registerEvents puts the router in the listener registry |
| Routers.MenuClickHandler.OnInventoryClick | src/main/java/me/touchie771/minecraftGUI/api/MenuClickHandler.java:135-154 | the invoked callback and the event's cancelled flag as the callback receives it are those of Dispatch |
| Routers.MenuClickHandler.OnInventoryClose | src/main/java/me/touchie771/minecraftGUI/api/MenuClickHandler.java:162-180 | a close of another inventory changes nothing; a close of its own runs the close handler if set and then unregisters |
| Routers.MenuClickHandler.Clear | src/main/java/me/touchie771/minecraftGUI/api/MenuClickHandler.java:186-189 | drops every slot handler and the close handler without touching the registration |
| Routers.MenuClickHandler.GetHandlerCount | src/main/java/me/touchie771/minecraftGUI/api/MenuClickHandler.java:196-198 | the number of slots with a handler, never more than the inventory size |
| Menus.RenderPrefersCustomStack | src/main/java/me/touchie771/minecraftGUI/api/Menu.java:207-219 | a custom stack wins over the material, and its amount is overridden only by a positive quantity; without one the stack is the material with the quantity |
| Menus.RenderIgnoresSlotAndFlags | src/main/java/me/touchie771/minecraftGUI/api/Menu.java:207-241 | neither the slot nor the item flags reach the rendered stack |
| Menus.PaintedAt | src/main/java/me/touchie771/minecraftGUI/api/Menu.java:103-105 | after the setItem loop a cell holds the rendering of the last item written to it, or its old content when none was |
| Menus.BlankedAt | src/main/java/me/touchie771/minecraftGUI/api/Menu.java:117-119 | after the clearing loop a cell is empty exactly when some argument sits at it, and otherwise unchanged |
| Menus.ItemError | src/main/java/me/touchie771/minecraftGUI/api/Menu.java:82-99 | the exception of one validation step: slot outside 0..53, missing material, quantity outside 1..64, or occupied slot; no exception means all checks pass |
| Menus.MenuAddAcceptsIff | src/main/java/me/touchie771/minecraftGUI/api/Menu.java:86-99 | addItems accepts an item exactly when its slot is in 0..53 and free and it has a custom stack or a material with quantity 1..64 |
| Menus.BuilderAddAcceptsIff | src/main/java/me/touchie771/minecraftGUI/api/Menu.java:338-351 | MenuBuilder.items accepts an item exactly when its slot is in 0..53 and free and its quantity is 1..64 |
| Menus.AddChecksDisagree | src/main/java/me/touchie771/minecraftGUI/api/Menu.java:337-354 | the builder accepts an item with no material that addItems refuses, and addItems accepts a custom stack with quantity 0 that the builder refuses |
| Menus.Validate | src/main/java/me/touchie771/minecraftGUI/api/Menu.java:82-100 | the validation loop throws the error of the first failing item, checked against the existing items only, and nothing when all pass |
| Menus.IntraBatchCollisionAccepted | src/main/java/me/touchie771/minecraftGUI/api/Menu.java:97-105 | two valid items of one batch at the same free slot both pass, both enter the set, and the later one wins the cell |
| Menus.AcceptedBatchIsNew | src/main/java/me/touchie771/minecraftGUI/api/Menu.java:97-101 | a batch that passes shares no item with the existing set, so removing it restores the set |
| Menus.AddThenRemove | src/main/java/me/touchie771/minecraftGUI/api/Menu.java:101-119 | removeItems after an accepted addItems of the same batch restores the item set and empties exactly the batch's slots |
| Menus.RemoveAbsentItemBlanksOccupiedCell | src/main/java/me/touchie771/minecraftGUI/api/Menu.java:114-120 | removing an item that is not in the menu still empties its slot, so the cells stop showing the item that holds it |
| Menus.InstallHandlers | src/main/java/me/touchie771/minecraftGUI/api/Menu.java:57-59 | copying the builder's handlers, all inside the inventory, gives the router exactly those handlers |
| Menus.PaintAll | src/main/java/me/touchie771/minecraftGUI/api/Menu.java:66-68 | rendering every item on a blank inventory makes each cell show an item at its slot, and leaves empty exactly the slots no item has |
| Menus.Menu.constructor | src/main/java/me/touchie771/minecraftGUI/api/Menu.java:51-72 | the menu has size cells, the builder's items shown on them, the builder's handlers and close handler, and a subscribed but unregistered router |
| Menus.Menu.AddItems | src/main/java/me/touchie771/minecraftGUI/api/Menu.java:81-106 | a failing batch throws the first item's error and changes nothing; otherwise the set gains exactly the batch and the cells are painted in order up to the first slot the inventory lacks, which throws |
| Menus.Menu.PaintBatch | src/main/java/me/touchie771/minecraftGUI/api/Menu.java:103-105 | the rendering loop paints the batch in order and stops with an exception at the first slot outside the inventory |
| Menus.Menu.RemoveItems | src/main/java/me/touchie771/minecraftGUI/api/Menu.java:114-120 | removes the equal items from the set and empties the cell at every argument's slot, present or not, up to the first slot outside the inventory |
| Menus.Menu.Clear | src/main/java/me/touchie771/minecraftGUI/api/Menu.java:126-129 | no items and every cell empty, whatever the state before, so clearing twice equals clearing once |
| Menus.Menu.OnClick | src/main/java/me/touchie771/minecraftGUI/api/Menu.java:158-163 | rejects a slot outside 0..53, then the router rejects one outside the inventory; otherwise the slot maps to the handler |
| Menus.Menu.RemoveClickHandler | src/main/java/me/touchie771/minecraftGUI/api/Menu.java:170-172 | removes only that slot's handler |
| Menus.Menu.GetClickHandler | src/main/java/me/touchie771/minecraftGUI/api/Menu.java:180-182 | the router's handler at the slot, or null |
| Menus.Menu.OnClose | src/main/java/me/touchie771/minecraftGUI/api/Menu.java:189-191 | sets the router's close handler |
| Menus.Menu.RemoveCloseHandler | src/main/java/me/touchie771/minecraftGUI/api/Menu.java:196-198 | clears the router's close handler |
| Menus.Menu.ClearHandlers | src/main/java/me/touchie771/minecraftGUI/api/Menu.java:203-205 | no slot handler and no close handler |
| Menus.Menu.UnregisterEvents | src/main/java/me/touchie771/minecraftGUI/api/Menu.java:256-258 | the router's flag was never set, so it stays subscribed with the host |
| Menus.Menu.DeliverClose | src/main/java/me/touchie771/minecraftGUI/api/MenuClickHandler.java:162-180 | a close of the menu's inventory runs its close handler, and the router stays subscribed |
| Menus.FillersTakeOnlyFreeSlots | src/main/java/me/touchie771/minecraftGUI/api/Menu.java:380-387 | the fill helpers add items only at free, non-excluded slots of their range, one filler per slot |
| Menus.FillLeavesNoGap | src/main/java/me/touchie771/minecraftGUI/api/Menu.java:380-387 | after a fill every non-excluded slot of the range holds an item |
| Menus.FillIsIdempotent | src/main/java/me/touchie771/minecraftGUI/api/Menu.java:375-389 | filling a second time adds nothing |
| Menus.ConfigError | src/main/java/me/touchie771/minecraftGUI/api/Menu.java:455-470 | build's checks, in order, pass exactly for a chest size with a title and a plugin |
| Menus.SizeCheckMatchesChestSizes | src/main/java/me/touchie771/minecraftGUI/api/Menu.java:456-464 | positive, a multiple of 9 and at most 54 are exactly the sizes 9, 18, 27, 36, 45 and 54 |
| Menus.HandlerFaultsEmptyIff | src/main/java/me/touchie771/minecraftGUI/api/Menu.java:57-59 | copying the handlers throws nothing exactly when every handler slot is inside the inventory |
| Menus.ItemFaultsEmptyIff | src/main/java/me/touchie771/minecraftGUI/api/Menu.java:66-68 | rendering the items throws nothing exactly when each can be rendered and lies inside the inventory |
| Menus.FillRangePastSizeBreaksBuild | src/main/java/me/touchie771/minecraftGUI/api/Menu.java:429-442 | fillRange never consults the size, so a filled slot past the inventory's end makes build fail |
| Menus.MenuBuilder.constructor | src/main/java/me/touchie771/minecraftGUI/api/Menu.java:290-297 | a fresh builder has size 0 and nothing else set |
| Menus.MenuBuilder.SetPlugin | src/main/java/me/touchie771/minecraftGUI/api/Menu.java:299-302 | sets the plugin |
| Menus.MenuBuilder.SetSize | src/main/java/me/touchie771/minecraftGUI/api/Menu.java:312-315 | stores the size unchecked |
| Menus.MenuBuilder.SetTitle | src/main/java/me/touchie771/minecraftGUI/api/Menu.java:324-327 | stores the title |
| Menus.MenuBuilder.Items | src/main/java/me/touchie771/minecraftGUI/api/Menu.java:337-354 | throws the first failing item's error and changes nothing, or adds exactly the batch |
| Menus.MenuBuilder.IsSlotFree | src/main/java/me/touchie771/minecraftGUI/api/Menu.java:444-446 | true exactly when no item of the builder sits at the slot |
| Menus.MenuBuilder.FillFree | src/main/java/me/touchie771/minecraftGUI/api/Menu.java:380-387 | the fill loop adds exactly the fillers of the free, non-excluded slots of the range |
| Menus.MenuBuilder.FillEmptyWith | src/main/java/me/touchie771/minecraftGUI/api/Menu.java:375-389 | throws for a size of 0 or less and changes nothing; otherwise fills every free slot below the size |
| Menus.MenuBuilder.FillExcept | src/main/java/me/touchie771/minecraftGUI/api/Menu.java:399-417 | like fillEmptyWith without a name, skipping the excluded slots |
| Menus.MenuBuilder.FillRange | src/main/java/me/touchie771/minecraftGUI/api/Menu.java:429-442 | throws for start < 0, end > 54 or start >= end and changes nothing; otherwise fills the free slots of [start, end) |
| Menus.MenuBuilder.OnClick | src/main/java/me/touchie771/minecraftGUI/api/Menu.java:482-488 | rejects a slot outside 0..53; otherwise the last write wins |
| Menus.MenuBuilder.OnClose | src/main/java/me/touchie771/minecraftGUI/api/Menu.java:497-500 | sets the close handler |
| Menus.MenuBuilder.Build | src/main/java/me/touchie771/minecraftGUI/api/Menu.java:455-472 | the configuration errors in order, then a handler slot outside the inventory, then an item it cannot render or place; it succeeds exactly when none applies, with a menu holding the builder's items, handlers and close handler |
| Pagination.TotalPages | src/main/java/me/touchie771/minecraftGUI/api/presets/PaginationMenu.java:69-70 | the page count is at least 1, and exactly 1 for an empty list |
| Pagination.TotalPagesBounds | src/main/java/me/touchie771/minecraftGUI/api/presets/PaginationMenu.java:69-70 | the pages hold all n entries and the last page is not empty: (pages - 1) * 45 < n <= pages * 45 |
| Pagination.ClampPage | src/main/java/me/touchie771/minecraftGUI/api/presets/PaginationMenu.java:72-73 | the settled page lies in [0, pages); an in-range page is kept, a negative one becomes 0 and one past the end becomes the last |
| Pagination.Window | src/main/java/me/touchie771/minecraftGUI/api/presets/PaginationMenu.java:75-76 | a page shows at most 45 entries, and at least one when the list is not empty |
| Pagination.PagesPartitionItems | src/main/java/me/touchie771/minecraftGUI/api/presets/PaginationMenu.java:75-80 | every list index lies in the window of exactly one page, i / 45, at slot i % 45 |
| Pagination.ContentBatch | src/main/java/me/touchie771/minecraftGUI/api/presets/PaginationMenu.java:78-82 | entry i of the window becomes a legacy item at slot i |
| Pagination.LayoutOutcome | src/main/java/me/touchie771/minecraftGUI/api/presets/PaginationMenu.java:78-90 | update throws exactly when some entry of the window has a quantity outside 1..64, with the slot of such an entry |
| Pagination.FailingLayout | src/main/java/me/touchie771/minecraftGUI/api/presets/PaginationMenu.java:78-90 | with a rejected entry at k, update shows the entries before it with their handlers, no control, and throws that entry's error |
| Pagination.PassingLayout | src/main/java/me/touchie771/minecraftGUI/api/presets/PaginationMenu.java:78-122 | with no rejected entry, update returns normally |
| Pagination.LayoutPaintable | src/main/java/me/touchie771/minecraftGUI/api/presets/PaginationMenu.java:78-122 | every item update adds can be rendered and lies on the 54 cells |
| Pagination.LayoutIndexOfSlot | src/main/java/me/touchie771/minecraftGUI/api/presets/PaginationMenu.java:78-122 | the last item update writes at slot s is entry s inside the window, the previous arrow at 45 and the next arrow at 53 when shown, and none elsewhere |
| Pagination.LayoutCellAt | src/main/java/me/touchie771/minecraftGUI/api/presets/PaginationMenu.java:78-122 | a fully accepted page shows entry i at slot i, the previous arrow at 45 exactly when a page precedes, the next arrow at 53 exactly when one follows, and nothing else; content never collides with the controls |
| Pagination.FailingLayoutCellAt | src/main/java/me/touchie771/minecraftGUI/api/presets/PaginationMenu.java:78-90 | a page stopped by a rejected entry shows the entries before it and nothing else |
| Pagination.LayoutHandlerAt | src/main/java/me/touchie771/minecraftGUI/api/presets/PaginationMenu.java:84-122 | a content slot has an auto-cancelling handler exactly when its entry has an action, slots 45 and 53 have the page-turning handlers exactly when the control is shown, and no other slot has one |
| Pagination.NextThenPreviousReturns | src/main/java/me/touchie771/minecraftGUI/api/presets/PaginationMenu.java:99-121 | turning to the next page and back returns to the same page |
| Pagination.PreviousThenNextReturns | src/main/java/me/touchie771/minecraftGUI/api/presets/PaginationMenu.java:99-121 | turning to the previous page and forward again returns to the same page |
| Pagination.EmptyListShowsNothing | src/main/java/me/touchie771/minecraftGUI/api/presets/PaginationMenu.java:65-123 | an empty list is one page with no content, no control and no handler |
| Pagination.FiftyItemsMakeTwoPages | src/main/java/me/touchie771/minecraftGUI/api/presets/PaginationMenu.java:65-123 | fifty entries make two pages: the first 45 with a next arrow, then the last 5 with a previous arrow |
| Pagination.PaginationMenu.constructor | src/main/java/me/touchie771/minecraftGUI/api/presets/PaginationMenu.java:44-45 | the pager keeps its own copy of the list and starts at page 0 |
| Pagination.PaginationMenu.New | src/main/java/me/touchie771/minecraftGUI/api/presets/PaginationMenu.java:44-54 | the 54-slot menu always builds; construction throws exactly when update of page 0 throws, and otherwise displays page 0 |
| Pagination.PaginationMenu.Place | src/main/java/me/touchie771/minecraftGUI/api/presets/PaginationMenu.java:82-89 | one addItems of a free slot fails only on the quantity and then changes nothing; otherwise the item is added and rendered, with its handler if given |
| Pagination.PaginationMenu.ShowEntry | src/main/java/me/touchie771/minecraftGUI/api/presets/PaginationMenu.java:79-89 | one loop pass extends the shown content and handlers by the entry, or throws its quantity error leaving them as they were |
| Pagination.PaginationMenu.ShowContent | src/main/java/me/touchie771/minecraftGUI/api/presets/PaginationMenu.java:78-90 | the content loop returns LayoutOutcome; on failure the menu shows the page's layout, and otherwise all content with its handlers |
| Pagination.PaginationMenu.AddControl | src/main/java/me/touchie771/minecraftGUI/api/presets/PaginationMenu.java:92-105 | adding a control at its free slot extends the shown items and handlers by it |
| Pagination.PaginationMenu.ShowControls | src/main/java/me/touchie771/minecraftGUI/api/presets/PaginationMenu.java:92-122 | after full content the menu shows the previous control and then the next control, each only when due, with their handlers |
| Pagination.PaginationMenu.ShowWindow | src/main/java/me/touchie771/minecraftGUI/api/presets/PaginationMenu.java:75-122 | from a cleared menu, the page's window is shown as its layout and handlers, and the result is LayoutOutcome |
| Pagination.PaginationMenu.ShowPage | src/main/java/me/touchie771/minecraftGUI/api/presets/PaginationMenu.java:75-122 | from a cleared menu, the menu displays the page and returns its outcome |
| Pagination.PaginationMenu.Reset | src/main/java/me/touchie771/minecraftGUI/api/presets/PaginationMenu.java:66-67 | clear and clearHandlers leave no item, no cell, no handler and no close handler from before |
| Pagination.PaginationMenu.Update | src/main/java/me/touchie771/minecraftGUI/api/presets/PaginationMenu.java:65-123 | the page is clamped into [0, pages), the menu displays exactly that page with nothing left from before, and the result is that page's outcome |
| Pagination.PaginationMenu.Click | src/main/java/me/touchie771/minecraftGUI/api/presets/PaginationMenu.java:99-121 | a click dispatches through the router; the next arrow turns to the clamped page + 1, the previous arrow to the clamped page - 1, and each redisplays; any other click changes no menu state outside what a user callback itself does |
| Confirmation.Effects | src/main/java/me/touchie771/minecraftGUI/api/presets/ConfirmationMenu.java:43-46 | a choice's callback closes the clicker's inventory and then runs its task; no callback has no effect |
| Confirmation.BuildChoiceItem | src/main/java/me/touchie771/minecraftGUI/api/presets/ConfirmationMenu.java:32-40 | a choice item has its name, slot and material and quantity 1, with no custom stack |
| Confirmation.BuildChoiceHandler | src/main/java/me/touchie771/minecraftGUI/api/presets/ConfirmationMenu.java:42-56 | a choice handler always builds, runs close-then-run for every click type and auto-cancels |
| Confirmation.ChoiceItemsPassBuilder | src/main/java/me/touchie771/minecraftGUI/api/presets/ConfirmationMenu.java:62 | MenuBuilder.items accepts the two choice items |
| Confirmation.Configure | src/main/java/me/touchie771/minecraftGUI/api/presets/ConfirmationMenu.java:58-64 | the builder holds the plugin, size 27, the title, exactly the two items and exactly the two handlers, and no close handler |
| Confirmation.Create | src/main/java/me/touchie771/minecraftGUI/api/presets/ConfirmationMenu.java:31-65 | create always builds a 27-slot menu with exactly the Confirm and Cancel items, handlers only at 11 and 15, and no close handler |
| Confirmation.CreatedSurface | src/main/java/me/touchie771/minecraftGUI/api/presets/ConfirmationMenu.java:32-40 | the menu shows the lime Confirm wool at 11, the red Cancel wool at 15, and nothing elsewhere |
| Confirmation.ChoiceDispatch | src/main/java/me/touchie771/minecraftGUI/api/presets/ConfirmationMenu.java:42-56 | for every slot and click type: slot 11 cancels, closes and runs onConfirm; slot 15 cancels, closes and runs onCancel; anything else does nothing |
| Confirmation.ConfirmRunsOnlyConfirm | src/main/java/me/touchie771/minecraftGUI/api/presets/ConfirmationMenu.java:43-46 | a click at 11 closes the inventory first, runs onConfirm and not onCancel |
| Confirmation.CancelRunsOnlyCancel | src/main/java/me/touchie771/minecraftGUI/api/presets/ConfirmationMenu.java:51-54 | a click at 15 closes the inventory first, runs onCancel and not onConfirm |
| Confirmation.Choose | src/main/java/me/touchie771/minecraftGUI/api/presets/ConfirmationMenu.java:42-56 | a click delivered to a confirmation menu yields exactly the effects of ChoiceDispatch and cancels the event exactly at the two choices |

## Left out

- Host plumbing is not modelled. This covers creating the inventory, the host's listener registry, opening a menu for a player (`PaginationMenu.open`, `Menu.getInventory`) and a player's `closeInventory`. The inventory is an array of cells, and its identity is a parameter. Subscription is a flag. Closing an inventory is an `Effect` value.
- The item meta that `createItemStack` writes is not modelled: display name, lore, enchantment application, the float conversion of the model data, and the `Damageable` check. `Render` copies those fields into the stack unchanged.
- Logging is not modelled. An exception thrown by a click callback or a close callback is caught and logged in the source. In the model such an exception is simply not propagated.
- Null arguments are not modelled, nor the null-item checks that reject them. Every nullable field of the source is an `Option`.
- Collections are values, so aliasing is not modelled. This covers a builder sharing a caller's lore list, and a caller mutating the list after handing it to the paged menu. The model therefore always behaves as if every copy the source makes had been taken.
- Iteration order of `HashSet` and `HashMap` is not modelled. `Menus.MenuBuilder.Build` picks any failing handler or item, and `Menus.PaintAll` paints the items in any order.
- Clicks.ClickHandler.HandleClick: a user callback's own effects are not modelled. The callback receives the event after the auto-cancel and may call `setCancelled(false)` or change the clicked inventory. HandleClick returns the cancelled flag as it stands when the callback is entered, not after it returns.
- Clicks.AllowedClickRunsCallback: states the cancelled flag the callback receives, for the same reason as HandleClick.
- Routers.MenuClickHandler.OnInventoryClick: the event's cancelled flag is the one the invoked callback receives. Whatever a user callback then does to the event or to the inventory is not modelled.
- Pagination.PaginationMenu.Click: for a click on a content slot, "no menu state changes" covers the library's own code only. A user callback can reach the menu through its own references, and that is not modelled.
- Menus.Menu.constructor: the constructor is public (Menu.java:51), although its comment calls it package-private. A direct `new Menu(builder, plugin)` that bypasses `build()` is not modelled. The constructor's requires are exactly what `build()` guarantees, so its throwing paths appear only through `Menus.MenuBuilder.Build`.
- Pagination.PaginationMenu.Click: an exception thrown by `update()` inside a page-turning callback is swallowed by the click handler. The method discards it, and its contract states the page and the display only, not the error.
- Pagination.TotalPages: `Math.ceil` of a double division is modelled as integer ceiling division. The two agree for every list size below 2^53.
- The `(short)` casts of the slots in `update()` are not modelled. The slots are at most 53, so the casts never change a value.
- `MenuClickHandler.isRegistered()` and `Menu.getItems()` are plain reads of the `isRegistered` and `items` fields, so they have no member of their own.
