/**
 * The confirmation preset: a three-row menu with a "Confirm" choice at
 * slot 11 and a "Cancel" choice at slot 15. Choosing either closes the
 * clicker's inventory and then runs that choice's task.
 */
module Confirmation {
  import opened Wrappers
  import opened Bukkit
  import opened Errors
  import opened SlotItems
  import opened Clicks
  import opened Routers
  import opened Menus

  const SIZE := 27
  const CONFIRM_SLOT := 11
  const CANCEL_SLOT := 15

  /** An item with only a name, a slot and a material, as builder(slot).itemName(..).material(..).build() leaves it. */
  function ChoiceItem(slot: int, caption: string, color: NamedTextColor, material: Material): SlotItem {
    SlotItem(Some(Text(caption, Some(color))), slot, Some(material), 1, None, None, None, None, None, None)
  }

  /** The green "Confirm" on lime wool at slot 11. */
  function ConfirmItem(): SlotItem {
    ChoiceItem(CONFIRM_SLOT, "Confirm", GREEN, LIME_WOOL)
  }

  /** The red "Cancel" on red wool at slot 15. */
  function CancelItem(): SlotItem {
    ChoiceItem(CANCEL_SLOT, "Cancel", RED, RED_WOOL)
  }

  /** The handler of a choice: every click type, auto-cancelling, closing the inventory and then running the task. */
  function ChoiceHandler(task: Task): ClickHandler {
    AutoCancelHandler(CloseThenRun(task))
  }

  /** The handlers of a confirmation menu: the two choices and nothing else. */
  function ChoiceHandlers(onConfirm: Task, onCancel: Task): map<int, ClickHandler> {
    map[CONFIRM_SLOT := ChoiceHandler(onConfirm), CANCEL_SLOT := ChoiceHandler(onCancel)]
  }

  /** What a choice's callback does outside the library, in order. */
  datatype Effect = CloseInventory(player: PlayerId) | RunTask(task: Task)

  /** The effects of the callback a click invoked, for the player who clicked. */
  function Effects(invoked: Option<Callback>, who: PlayerId): (r: seq<Effect>)
    ensures invoked.Some? && invoked.value.CloseThenRun? ==>
      r == [CloseInventory(who), RunTask(invoked.value.task)]
    ensures invoked.None? ==> r == []
  {
    match invoked
    case Some(CloseThenRun(t)) => [CloseInventory(who), RunTask(t)]
    case _ => []
  }

  /** One choice item through the SlotItem builder. */
  method BuildChoiceItem(slot: int, caption: string, color: NamedTextColor, material: Material) returns (it: SlotItem)
    ensures it == ChoiceItem(slot, caption, color, material)
    ensures it.itemName == Some(Text(caption, Some(color))) && it.itemSlot == slot
    ensures it.material == Some(material) && it.quantity == 1 && it.customItemStack.None?
  {
    var b := new Builder(slot);
    b.SetItemName(Some(Text(caption, Some(color))));
    b.SetMaterial(Some(material));
    it := b.Build();
  }

  /** One choice handler through the ClickHandler builder; it always builds, since the callback is set. */
  method BuildChoiceHandler(task: Task) returns (h: ClickHandler)
    ensures h == ChoiceHandler(task)
    ensures h.callback == CloseThenRun(task) && h.autoCancel
    ensures forall t :: h.Allows(t)
  {
    var b := new ClickHandlerBuilder();
    b.SetCallback(CloseThenRun(task));
    b.SetAutoCancel(true);
    var r := b.Build();
    h := r.value;
  }

  /** MenuBuilder.items accepts the two choice items on an empty builder. */
  lemma ChoiceItemsPassBuilder()
    ensures FirstInvalid(BuilderAdd, {}, [ConfirmItem(), CancelItem()]) == 2
    ensures Elements([ConfirmItem(), CancelItem()]) == {ConfirmItem(), CancelItem()}
  {
    assert ItemError(BuilderAdd, {}, ConfirmItem()).None?;
    assert ItemError(BuilderAdd, {}, CancelItem()).None?;
  }

  /** The builder create() fills: plugin, size 27, title, the two items and the two handlers. */
  method Configure(plugin: Plugin, title: Component, onConfirm: Task, onCancel: Task) returns (b: MenuBuilder)
    ensures fresh(b)
    ensures b.plugin == Some(plugin) && b.inventorySize == SIZE && b.inventoryTitle == Some(title)
    ensures b.items == {ConfirmItem(), CancelItem()}
    ensures b.clickHandlers == ChoiceHandlers(onConfirm, onCancel) && b.closeHandler.None?
  {
    var confirmItem := BuildChoiceItem(CONFIRM_SLOT, "Confirm", GREEN, LIME_WOOL);
    var cancelItem := BuildChoiceItem(CANCEL_SLOT, "Cancel", RED, RED_WOOL);
    var confirmHandler := BuildChoiceHandler(onConfirm);
    var cancelHandler := BuildChoiceHandler(onCancel);
    b := new MenuBuilder();
    b.SetPlugin(plugin);
    b.SetSize(SIZE);
    b.SetTitle(Some(title));
    ChoiceItemsPassBuilder();
    var added := b.Items([confirmItem, cancelItem]);
    var onConfirmSet := b.OnClick(CONFIRM_SLOT, confirmHandler);
    var onCancelSet := b.OnClick(CANCEL_SLOT, cancelHandler);
  }

  /**
   * create(plugin, title, onConfirm, onCancel): a 27-slot menu holding
   * exactly the two choice items, with handlers at exactly their two slots
   * and no close handler. None of build()'s checks can fail for it.
   */
  method Create(plugin: Plugin, title: Component, onConfirm: Task, onCancel: Task, inventory: InventoryId)
    returns (m: Menu)
    ensures fresh(m) && fresh(m.cells) && fresh(m.router) && m.Valid()
    ensures m.size == SIZE && m.title == title && m.inventory == inventory
    ensures m.items == {ConfirmItem(), CancelItem()}
    ensures m.router.slotHandlers == ChoiceHandlers(onConfirm, onCancel)
    ensures m.router.closeHandler.None?
    ensures Shows(m.cells[..], m.items)
  {
    var b := Configure(plugin, title, onConfirm, onCancel);
    HandlerFaultsEmptyIff(b.clickHandlers, SIZE);
    ItemFaultsEmptyIff(b.items, SIZE);
    var built := b.Build(inventory);
    m := built.value;
  }

  /** The surface of a confirmation menu: the two choices rendered at their slots, every other cell empty. */
  lemma CreatedSurface(cells: seq<Option<Stack>>, s: int)
    requires |cells| == SIZE && Shows(cells, {ConfirmItem(), CancelItem()})
    requires 0 <= s < SIZE
    ensures s == CONFIRM_SLOT ==> cells[s] == Some(Render(ConfirmItem()))
    ensures s == CANCEL_SLOT ==> cells[s] == Some(Render(CancelItem()))
    ensures s != CONFIRM_SLOT && s != CANCEL_SLOT ==> cells[s].None?
  {
    var items := {ConfirmItem(), CancelItem()};
    if s == CONFIRM_SLOT {
      ShowsLoneItem(cells, items, ConfirmItem());
    } else if s == CANCEL_SLOT {
      ShowsLoneItem(cells, items, CancelItem());
    } else {
      assert SlotFree(items, s);
    }
  }

  /**
   * A click on a confirmation menu, for every slot and click type: at slot
   * 11 of its own inventory it cancels the event, closes the clicker's
   * inventory and runs onConfirm; at slot 15, the same with onCancel;
   * anywhere else it does nothing.
   */
  lemma ChoiceDispatch(own: InventoryId, onConfirm: Task, onCancel: Task, target: InventoryId,
                       rawSlot: int, click: ClickType, wasCancelled: bool, who: PlayerId)
    ensures var r := Dispatch(own, ChoiceHandlers(onConfirm, onCancel), SIZE, target, rawSlot, click, wasCancelled);
      Effects(r.invoked, who) ==
        if target == own && rawSlot == CONFIRM_SLOT then [CloseInventory(who), RunTask(onConfirm)]
        else if target == own && rawSlot == CANCEL_SLOT then [CloseInventory(who), RunTask(onCancel)]
        else []
    ensures var r := Dispatch(own, ChoiceHandlers(onConfirm, onCancel), SIZE, target, rawSlot, click, wasCancelled);
      r.cancelled == (wasCancelled || (target == own && (rawSlot == CONFIRM_SLOT || rawSlot == CANCEL_SLOT)))
  {
    var hs := ChoiceHandlers(onConfirm, onCancel);
    if target == own && (rawSlot == CONFIRM_SLOT || rawSlot == CANCEL_SLOT) {
      assert Route(hs, SIZE, rawSlot) == Some(hs[rawSlot]);
    } else if target == own {
      assert rawSlot !in hs;
    }
  }

  /** Confirming runs onConfirm and never onCancel, unless both are the same task. */
  lemma ConfirmRunsOnlyConfirm(own: InventoryId, onConfirm: Task, onCancel: Task, click: ClickType,
                               wasCancelled: bool, who: PlayerId)
    requires onConfirm != onCancel
    ensures var r := Dispatch(own, ChoiceHandlers(onConfirm, onCancel), SIZE, own, CONFIRM_SLOT, click, wasCancelled);
      r.cancelled && RunTask(onConfirm) in Effects(r.invoked, who) && RunTask(onCancel) !in Effects(r.invoked, who)
      && Effects(r.invoked, who)[0] == CloseInventory(who)
  {
    ChoiceDispatch(own, onConfirm, onCancel, own, CONFIRM_SLOT, click, wasCancelled, who);
  }

  /** Cancelling runs onCancel and never onConfirm, unless both are the same task. */
  lemma CancelRunsOnlyCancel(own: InventoryId, onConfirm: Task, onCancel: Task, click: ClickType,
                             wasCancelled: bool, who: PlayerId)
    requires onConfirm != onCancel
    ensures var r := Dispatch(own, ChoiceHandlers(onConfirm, onCancel), SIZE, own, CANCEL_SLOT, click, wasCancelled);
      r.cancelled && RunTask(onCancel) in Effects(r.invoked, who) && RunTask(onConfirm) !in Effects(r.invoked, who)
      && Effects(r.invoked, who)[0] == CloseInventory(who)
  {
    ChoiceDispatch(own, onConfirm, onCancel, own, CANCEL_SLOT, click, wasCancelled, who);
  }

  /**
   * The host delivers a click to a confirmation menu's router; the result is
   * what the clicker's choice does.
   */
  method Choose(m: Menu, onConfirm: Task, onCancel: Task, e: ClickEvent) returns (effects: seq<Effect>)
    requires m.Valid() && m.size == SIZE && m.router.slotHandlers == ChoiceHandlers(onConfirm, onCancel)
    modifies e
    ensures effects ==
      if e.inventory == m.inventory && e.rawSlot == CONFIRM_SLOT then [CloseInventory(e.whoClicked), RunTask(onConfirm)]
      else if e.inventory == m.inventory && e.rawSlot == CANCEL_SLOT then [CloseInventory(e.whoClicked), RunTask(onCancel)]
      else []
    ensures e.cancelled ==
      (old(e.cancelled) || (e.inventory == m.inventory && (e.rawSlot == CONFIRM_SLOT || e.rawSlot == CANCEL_SLOT)))
  {
    var invoked := m.router.OnInventoryClick(e);
    ChoiceDispatch(m.inventory, onConfirm, onCancel, e.inventory, e.rawSlot, e.click, old(e.cancelled), e.whoClicked);
    effects := Effects(invoked, e.whoClicked);
  }
}
