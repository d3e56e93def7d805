/**
 * The per-menu event router: slot handlers, an optional close handler and
 * the registration state.
 */
module Routers {
  import opened Wrappers
  import opened Bukkit
  import opened Errors
  import opened Clicks

  /** A Consumer<InventoryCloseEvent> supplied by the library user. */
  datatype CloseCallback = CloseCallback(id: nat)

  /** An inventory close as the host delivers it. */
  datatype CloseEvent = CloseEvent(inventory: InventoryId)

  /** The handler a click at rawSlot reaches: the one mapped at that slot, for a slot inside [0, size). */
  function Route(handlers: map<int, ClickHandler>, size: nat, rawSlot: int): (r: Option<ClickHandler>)
    ensures r.Some? <==> 0 <= rawSlot < size && rawSlot in handlers
    ensures r.Some? ==> r.value == handlers[rawSlot]
  {
    if 0 <= rawSlot < size && rawSlot in handlers then Some(handlers[rawSlot]) else None
  }

  /** onInventoryClick as a decision over the router's state and the event. */
  function Dispatch(own: InventoryId, handlers: map<int, ClickHandler>, size: nat,
                    target: InventoryId, rawSlot: int, click: ClickType, wasCancelled: bool): ClickResult
  {
    if target != own then ClickResult(None, wasCancelled)
    else match Route(handlers, size, rawSlot)
      case None => ClickResult(None, wasCancelled)
      case Some(h) => h.Handle(click, wasCancelled)
  }

  /**
   * A click invokes exactly the handler mapped at its slot, and only for the
   * router's own inventory, a slot inside it and an allowed click type;
   * otherwise nothing happens to the event.
   */
  lemma DispatchReachesOnlyMappedHandler(own: InventoryId, handlers: map<int, ClickHandler>, size: nat,
                                         target: InventoryId, rawSlot: int, click: ClickType, wasCancelled: bool)
    ensures var r := Dispatch(own, handlers, size, target, rawSlot, click, wasCancelled);
      r.invoked.Some? <==>
        target == own && 0 <= rawSlot < size && rawSlot in handlers && handlers[rawSlot].Allows(click)
    ensures var r := Dispatch(own, handlers, size, target, rawSlot, click, wasCancelled);
      r.invoked.Some? ==> r.invoked.value == handlers[rawSlot].callback
    ensures var r := Dispatch(own, handlers, size, target, rawSlot, click, wasCancelled);
      r.invoked.None? ==> r.cancelled == wasCancelled
  {
  }

  /** A set of slots inside [0, size) has at most size elements. */
  lemma {:induction false} SlotsWithinBound(slots: set<int>, size: nat)
    requires forall s :: s in slots ==> 0 <= s < size
    ensures |slots| <= size
    decreases size
  {
    if size > 0 {
      var rest := slots - {size - 1};
      SlotsWithinBound(rest, size - 1);
      if size - 1 in slots {
        assert slots == rest + {size - 1};
      } else {
        assert slots == rest;
      }
    } else {
      assert forall s :: s !in slots;
      assert slots == {};
    }
  }

  class MenuClickHandler {
    const inventory: InventoryId
    const size: nat
    var slotHandlers: map<int, ClickHandler>
    var closeHandler: Option<CloseCallback>
    var isRegistered: bool
    /** Whether the host's listener registry holds this router; events reach it only then. */
    var subscribed: bool

    /** Only slots inside the inventory ever get a handler. */
    ghost predicate Valid()
      reads this
    {
      forall s :: s in slotHandlers ==> 0 <= s < size
    }

    constructor (inventory: InventoryId, size: nat)
      ensures Valid() && this.inventory == inventory && this.size == size
      ensures slotHandlers == map[] && closeHandler.None? && !isRegistered && !subscribed
    {
      this.inventory, this.size := inventory, size;
      slotHandlers, closeHandler := map[], None;
      isRegistered, subscribed := false, false;
    }

    /** setClickHandler: rejects a slot outside the inventory; otherwise the last write wins. */
    method SetClickHandler(slot: int, h: ClickHandler) returns (o: Outcome<GuiError>)
      requires Valid()
      modifies this`slotHandlers
      ensures Valid()
      ensures o == if 0 <= slot < size then Pass else Fail(SlotOutsideInventory(slot, size))
      ensures slotHandlers == if o.Pass? then old(slotHandlers)[slot := h] else old(slotHandlers)
    {
      if slot < 0 || slot >= size {
        return Fail(SlotOutsideInventory(slot, size));
      }
      slotHandlers := slotHandlers[slot := h];
      o := Pass;
    }

    /** removeClickHandler: deletes only that slot's entry. */
    method RemoveClickHandler(slot: int)
      requires Valid()
      modifies this`slotHandlers
      ensures Valid()
      ensures slotHandlers == old(slotHandlers) - {slot}
    {
      slotHandlers := slotHandlers - {slot};
    }

    /** getClickHandler: null for a slot without a handler. */
    function GetClickHandler(slot: int): (r: Option<ClickHandler>)
      reads this
      ensures r.Some? <==> slot in slotHandlers
      ensures r.Some? ==> r.value == slotHandlers[slot]
    {
      if slot in slotHandlers then Some(slotHandlers[slot]) else None
    }

    method SetCloseHandler(c: CloseCallback)
      modifies this`closeHandler
      ensures closeHandler == Some(c)
    {
      closeHandler := Some(c);
    }

    method RemoveCloseHandler()
      modifies this`closeHandler
      ensures closeHandler.None?
    {
      closeHandler := None;
    }

    /** register(): sets the flag only; the host registration call in it is commented out in the source. */
    method Register()
      modifies this`isRegistered
      ensures isRegistered
    {
      if !isRegistered {
        isRegistered := true;
      }
    }

    /** unregister(): leaves the host registry and clears the flag, but only when the flag was set. */
    method Unregister()
      modifies this`isRegistered, this`subscribed
      ensures !isRegistered
      ensures subscribed == (old(subscribed) && !old(isRegistered))
    {
      if isRegistered {
        subscribed := false;
        isRegistered := false;
      }
    }

    /** The host's registerEvents(router, plugin), which Menu calls directly instead of register(). */
    method Subscribe()
      modifies this`subscribed
      ensures subscribed
    {
      subscribed := true;
    }

    /** onInventoryClick: ignores other inventories and slots outside [0, size); otherwise runs the mapped handler, if any. */
    method OnInventoryClick(e: ClickEvent) returns (invoked: Option<Callback>)
      modifies e
      ensures ClickResult(invoked, e.cancelled)
           == Dispatch(inventory, slotHandlers, size, e.inventory, e.rawSlot, e.click, old(e.cancelled))
    {
      invoked := None;
      if e.inventory != inventory {
        return;
      }
      var slot := e.rawSlot;
      if slot < 0 || slot >= size {
        return;
      }
      if slot in slotHandlers {
        invoked := slotHandlers[slot].HandleClick(e);
      }
    }

    /**
     * onInventoryClose: for its own inventory, runs the close handler if set
     * (an exception in it is logged, not propagated), then unregisters.
     */
    method OnInventoryClose(ev: CloseEvent) returns (ran: Option<CloseCallback>)
      modifies this`isRegistered, this`subscribed
      ensures ev.inventory != inventory ==>
        ran.None? && isRegistered == old(isRegistered) && subscribed == old(subscribed)
      ensures ev.inventory == inventory ==>
        ran == old(closeHandler) && !isRegistered && subscribed == (old(subscribed) && !old(isRegistered))
    {
      if ev.inventory != inventory {
        return None;
      }
      ran := closeHandler;
      Unregister();
    }

    /** clear(): drops every slot handler and the close handler; registration is untouched. */
    method Clear()
      modifies this`slotHandlers, this`closeHandler
      ensures Valid()
      ensures slotHandlers == map[] && closeHandler.None?
    {
      slotHandlers := map[];
      closeHandler := None;
    }

    /** getHandlerCount(): the number of slots with a handler, never more than the inventory size. */
    function GetHandlerCount(): (n: nat)
      reads this
      requires Valid()
      ensures n == |slotHandlers.Keys|
      ensures n <= size
    {
      SlotsWithinBound(slotHandlers.Keys, size);
      |slotHandlers|
    }
  }
}
