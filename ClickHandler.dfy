/**
 * A filtered, optionally auto-cancelling wrapper around one click callback.
 */
module Clicks {
  import opened Wrappers
  import opened Bukkit
  import opened Errors

  /** The host's click kinds. */
  datatype ClickType =
    | Left | ShiftLeft | Right | ShiftRight | WindowBorderLeft | WindowBorderRight
    | Middle | NumberKey | DoubleClick | Drop | ControlDrop | Creative | SwapOffhand | Unknown

  /** EnumSet.allOf(ClickType.class). */
  const AllClickTypes: set<ClickType> :=
    {Left, ShiftLeft, Right, ShiftRight, WindowBorderLeft, WindowBorderRight,
     Middle, NumberKey, DoubleClick, Drop, ControlDrop, Creative, SwapOffhand, Unknown}

  /** A Runnable supplied by the library user. */
  datatype Task = Task(id: nat)

  /**
   * The callbacks a handler can carry: an arbitrary callback of the library
   * user, and the three lambdas the presets install.
   */
  datatype Callback =
    /** A Consumer<InventoryClickEvent> supplied by the library user. */
    | UserCallback(id: nat)
    /** PaginationMenu's previous control: currentPage--, then update(). */
    | PreviousPage
    /** PaginationMenu's next control: currentPage++, then update(). */
    | NextPage
    /** ConfirmationMenu's choices: close the clicker's inventory, then run the task. */
    | CloseThenRun(task: Task)

  /** An inventory click as the host delivers it; only the cancelled flag is mutable. */
  class ClickEvent {
    const inventory: InventoryId
    const rawSlot: int
    const click: ClickType
    const whoClicked: PlayerId
    var cancelled: bool

    constructor (inventory: InventoryId, rawSlot: int, click: ClickType, whoClicked: PlayerId)
      ensures this.inventory == inventory && this.rawSlot == rawSlot
      ensures this.click == click && this.whoClicked == whoClicked && !cancelled
    {
      this.inventory, this.rawSlot, this.click, this.whoClicked := inventory, rawSlot, click, whoClicked;
      cancelled := false;
    }
  }

  /** What handling one click does: the callback it invokes, if any, and the event's cancelled flag afterwards. */
  datatype ClickResult = ClickResult(invoked: Option<Callback>, cancelled: bool)

  /** A built handler; its fields are final. */
  datatype ClickHandler = ClickHandler(callback: Callback, allowedClickTypes: set<ClickType>, autoCancel: bool)
  {
    predicate Allows(t: ClickType) {
      t in allowedClickTypes
    }

    /** handleClick as a decision: filter first, then cancel, then the callback. */
    function Handle(t: ClickType, wasCancelled: bool): ClickResult {
      if !Allows(t) then ClickResult(None, wasCancelled)
      else ClickResult(Some(callback), autoCancel || wasCancelled)
    }

    /**
     * handleClick. An exception of the callback is caught and logged, so the
     * method always returns normally; the cancelled flag is set before the
     * callback would run.
     */
    method HandleClick(e: ClickEvent) returns (invoked: Option<Callback>)
      modifies e
      ensures ClickResult(invoked, e.cancelled) == Handle(e.click, old(e.cancelled))
    {
      if e.click !in allowedClickTypes {
        return None;
      }
      if autoCancel {
        e.cancelled := true;
      }
      invoked := Some(callback);
    }
  }

  /** A click type outside the filter neither cancels the event nor runs the callback. */
  lemma FilteredClickIsInert(h: ClickHandler, t: ClickType, wasCancelled: bool)
    requires !h.Allows(t)
    ensures h.Handle(t, wasCancelled) == ClickResult(None, wasCancelled)
  {
  }

  /** An allowed click runs the callback; with autoCancel the event ends cancelled whatever it was before. */
  lemma AllowedClickRunsCallback(h: ClickHandler, t: ClickType, wasCancelled: bool)
    requires h.Allows(t)
    ensures h.Handle(t, wasCancelled).invoked == Some(h.callback)
    ensures h.autoCancel ==> h.Handle(t, wasCancelled).cancelled
    ensures !h.autoCancel ==> h.Handle(t, wasCancelled).cancelled == wasCancelled
  {
  }

  /** The set of click types a filter(types...) call records: every kind when none is given. */
  function FilterSet(types: seq<ClickType>): (r: set<ClickType>)
    ensures |types| == 0 ==> r == AllClickTypes
    ensures |types| > 0 ==> forall t :: t in r <==> t in types
  {
    if |types| == 0 then AllClickTypes else set t | t in types
  }

  /** The package-private constructor ClickHandler(builder). */
  function NewClickHandler(callback: Option<Callback>, allowed: Option<set<ClickType>>, autoCancel: bool)
    : (r: Result<ClickHandler, GuiError>)
    ensures r.Failure? <==> callback.None?
    ensures r.Failure? ==> r.error == MissingCallback
    ensures r.Success? ==> r.value.callback == callback.value && r.value.autoCancel == autoCancel
    ensures r.Success? ==> forall t :: r.value.Allows(t) <==> (allowed.None? || t in allowed.value)
  {
    if callback.None? then Failure(MissingCallback)
    else
      AllClickTypesComplete();
      Success(ClickHandler(callback.value, if allowed.None? then AllClickTypes else allowed.value, autoCancel))
  }

  /** Every click type is in AllClickTypes. */
  lemma AllClickTypesComplete()
    ensures forall t: ClickType :: t in AllClickTypes
  {
    forall t: ClickType ensures t in AllClickTypes {
      match t
      case Left => case ShiftLeft => case Right => case ShiftRight =>
      case WindowBorderLeft => case WindowBorderRight => case Middle => case NumberKey =>
      case DoubleClick => case Drop => case ControlDrop => case Creative =>
      case SwapOffhand => case Unknown =>
    }
  }

  /** With no filter, or a filter of zero types, every click type is allowed. */
  lemma NoFilterAllowsEveryClick(c: Callback, autoCancel: bool, t: ClickType)
    ensures NewClickHandler(Some(c), None, autoCancel).value.Allows(t)
    ensures NewClickHandler(Some(c), Some(FilterSet([])), autoCancel).value.Allows(t)
  {
    AllClickTypesComplete();
  }

  /**
   * What newBuilder().callback(c).autoCancel(true).build() yields, the
   * handler every preset installs: it runs c for every click type and
   * cancels the event.
   */
  function AutoCancelHandler(c: Callback): (h: ClickHandler)
    ensures h.callback == c && h.autoCancel
    ensures forall t :: h.Allows(t)
    ensures forall t, was :: h.Handle(t, was) == ClickResult(Some(c), true)
  {
    NewClickHandler(Some(c), None, true).value
  }

  /** The fluent builder of a ClickHandler. */
  class ClickHandlerBuilder {
    var callback: Option<Callback>
    var allowedClickTypes: Option<set<ClickType>>
    var autoCancel: bool

    /** newBuilder(): no callback, no filter, autoCancel true. */
    constructor ()
      ensures callback.None? && allowedClickTypes.None? && autoCancel
    {
      callback, allowedClickTypes, autoCancel := None, None, true;
    }

    method SetCallback(c: Callback)
      modifies this
      ensures callback == Some(c)
      ensures allowedClickTypes == old(allowedClickTypes) && autoCancel == old(autoCancel)
    {
      callback := Some(c);
    }

    /** filter(types...): replaces the filter; zero types means every type. */
    method Filter(types: seq<ClickType>)
      modifies this
      ensures allowedClickTypes == Some(FilterSet(types))
      ensures callback == old(callback) && autoCancel == old(autoCancel)
    {
      if |types| == 0 {
        allowedClickTypes := Some(AllClickTypes);
      } else {
        allowedClickTypes := Some(set t | t in types);
      }
    }

    method SetAutoCancel(b: bool)
      modifies this
      ensures autoCancel == b
      ensures callback == old(callback) && allowedClickTypes == old(allowedClickTypes)
    {
      autoCancel := b;
    }

    /** build(): fails without a callback; otherwise carries the filter (all types when unset) and autoCancel. */
    function Build(): (r: Result<ClickHandler, GuiError>)
      reads this
      ensures r.Failure? <==> callback.None?
      ensures r.Success? ==> r.value.callback == callback.value && r.value.autoCancel == autoCancel
      ensures r.Success? ==> forall t :: r.value.Allows(t) <==> (allowedClickTypes.None? || t in allowedClickTypes.value)
    {
      NewClickHandler(callback, allowedClickTypes, autoCancel)
    }
  }
}
