/**
 * A menu: its item set, the host inventory it renders into (the surface, an
 * array of `size` cells), its router, and the builder that validates and
 * assembles one.
 */
module Menus {
  import opened Wrappers
  import opened Bukkit
  import opened Errors
  import opened SlotItems
  import opened Clicks
  import opened Routers

  /** The sizes build() accepts: the chest sizes 9, 18, ..., 54. */
  predicate ValidSize(n: int) {
    n == 9 || n == 18 || n == 27 || n == 36 || n == 45 || n == 54
  }

  /** The slots 0..53 that the item and click checks accept. */
  predicate InGrid(slot: int) {
    0 <= slot <= 53
  }

  // ---------------------------------------------------------------------
  // Rendering (createItemStack)

  /** Where a rendered stack comes from: a clone of the custom stack, or a new stack of the material. */
  datatype Origin = Cloned(stack: ItemStack) | OfMaterial(material: Material)

  /**
   * The host stack createItemStack produces, as the meta edits it asks for:
   * a field that is None leaves the origin's own value in place.
   */
  datatype Stack = Stack(
    origin: Origin,
    amount: int,
    name: Option<Component>,
    lore: Option<seq<Component>>,
    enchantments: Option<map<Enchantment, int>>,
    modelData: Option<int>,
    damage: Option<int>)

  /** createItemStack succeeds only for an item with a custom stack or a material. */
  predicate Renderable(it: SlotItem) {
    it.customItemStack.Some? || it.material.Some?
  }

  /** createItemStack for an item it can render. */
  function Render(it: SlotItem): Stack
    requires Renderable(it)
  {
    if it.customItemStack.Some? then
      var base := it.customItemStack.value;
      Stack(Cloned(base), if it.quantity > 0 then it.quantity else base.amount,
            it.itemName, it.lore, it.enchantments, it.customModelData, it.damage)
    else
      Stack(OfMaterial(it.material.value), it.quantity,
            it.itemName, it.lore, it.enchantments, it.customModelData, it.damage)
  }

  /**
   * The custom stack wins over the material, and its amount is overridden
   * only by a positive quantity; a material stack always takes the quantity.
   */
  lemma RenderPrefersCustomStack(it: SlotItem)
    requires Renderable(it)
    ensures it.customItemStack.Some? ==>
      Render(it).origin == Cloned(it.customItemStack.value) && Render(it) == Render(it.(material := None))
    ensures it.customItemStack.Some? && it.quantity <= 0 ==> Render(it).amount == it.customItemStack.value.amount
    ensures it.customItemStack.Some? && it.quantity > 0 ==> Render(it).amount == it.quantity
    ensures it.customItemStack.None? ==> Render(it).origin == OfMaterial(it.material.value) && Render(it).amount == it.quantity
  {
  }

  /** Neither the slot nor the item flags reach the rendered stack: createItemStack never applies the flags. */
  lemma RenderIgnoresSlotAndFlags(it: SlotItem, slot: int, flags: Option<set<ItemFlag>>)
    requires Renderable(it)
    ensures Render(it.(itemSlot := slot, itemFlags := flags)) == Render(it)
  {
  }

  // ---------------------------------------------------------------------
  // The surface as a sequence of cells

  /** A cleared surface of n cells. */
  function EmptySurface(n: nat): (r: seq<Option<Stack>>)
    ensures |r| == n && forall i :: 0 <= i < n ==> r[i].None?
  {
    seq(n, _ => None)
  }

  /** Every item of batch has its slot among n cells. */
  predicate OnSurface(batch: seq<SlotItem>, n: int) {
    forall i :: 0 <= i < |batch| ==> 0 <= batch[i].itemSlot < n
  }

  /** Every item of batch can be rendered and has its slot among n cells. */
  predicate Paintable(batch: seq<SlotItem>, n: int) {
    OnSurface(batch, n) && forall i :: 0 <= i < |batch| ==> Renderable(batch[i])
  }

  /** The cells after setItem(slot, render(item)) for each item of batch, in order. */
  function Painted(cells: seq<Option<Stack>>, batch: seq<SlotItem>): (r: seq<Option<Stack>>)
    requires Paintable(batch, |cells|)
    ensures |r| == |cells|
    decreases |batch|
  {
    if |batch| == 0 then cells
    else
      var last := batch[|batch| - 1];
      Painted(cells, batch[..|batch| - 1])[last.itemSlot := Some(Render(last))]
  }

  /** The cells after setItem(slot, null) for each item of batch, in order. */
  function Blanked(cells: seq<Option<Stack>>, batch: seq<SlotItem>): (r: seq<Option<Stack>>)
    requires OnSurface(batch, |cells|)
    ensures |r| == |cells|
    decreases |batch|
  {
    if |batch| == 0 then cells
    else Blanked(cells, batch[..|batch| - 1])[batch[|batch| - 1].itemSlot := None]
  }

  /** The index of the last item of batch at slot s, or -1 when none is. */
  function LastIndexAt(batch: seq<SlotItem>, s: int): (k: int)
    ensures -1 <= k < |batch|
    ensures k >= 0 ==> batch[k].itemSlot == s
    ensures forall j :: k < j < |batch| ==> batch[j].itemSlot != s
    decreases |batch|
  {
    if |batch| == 0 then -1
    else if batch[|batch| - 1].itemSlot == s then |batch| - 1
    else LastIndexAt(batch[..|batch| - 1], s)
  }

  /** A painted cell shows the last item written to it, or keeps its old content. */
  lemma {:induction false} PaintedAt(cells: seq<Option<Stack>>, batch: seq<SlotItem>, s: int)
    requires Paintable(batch, |cells|) && 0 <= s < |cells|
    ensures var k := LastIndexAt(batch, s);
      Painted(cells, batch)[s] == if k < 0 then cells[s] else Some(Render(batch[k]))
    decreases |batch|
  {
    if |batch| > 0 {
      var prefix := batch[..|batch| - 1];
      assert Paintable(prefix, |cells|);
      PaintedAt(cells, prefix, s);
    }
  }

  /** Painting one more item is one more cell update. */
  lemma PaintedSnoc(cells: seq<Option<Stack>>, batch: seq<SlotItem>, it: SlotItem)
    requires Paintable(batch, |cells|) && Renderable(it) && 0 <= it.itemSlot < |cells|
    ensures Paintable(batch + [it], |cells|)
    ensures Painted(cells, batch + [it]) == Painted(cells, batch)[it.itemSlot := Some(Render(it))]
  {
    assert (batch + [it])[..|batch|] == batch;
  }

  /** With pairwise distinct slots, the last item at an item's slot is that item, and a slot no item has keeps its cell. */
  lemma LastIndexAtDistinct(batch: seq<SlotItem>, s: int)
    requires forall i, j :: 0 <= i < j < |batch| ==> batch[i].itemSlot != batch[j].itemSlot
    ensures forall i :: 0 <= i < |batch| && batch[i].itemSlot == s ==> LastIndexAt(batch, s) == i
    ensures (forall i :: 0 <= i < |batch| ==> batch[i].itemSlot != s) ==> LastIndexAt(batch, s) == -1
  {
  }

  /** A blanked cell is empty exactly when some item of batch sits at it. */
  lemma {:induction false} BlankedAt(cells: seq<Option<Stack>>, batch: seq<SlotItem>, s: int)
    requires OnSurface(batch, |cells|) && 0 <= s < |cells|
    ensures Blanked(cells, batch)[s] == if LastIndexAt(batch, s) < 0 then cells[s] else None
    decreases |batch|
  {
    if |batch| > 0 {
      var prefix := batch[..|batch| - 1];
      assert OnSurface(prefix, |cells|);
      BlankedAt(cells, prefix, s);
    }
  }

  /** The number of leading items of batch whose slots lie among n cells: where a host write would first fail. */
  function FirstOffSurface(batch: seq<SlotItem>, n: int): (k: nat)
    ensures k <= |batch|
    ensures forall j :: 0 <= j < k ==> 0 <= batch[j].itemSlot < n
    ensures k < |batch| ==> !(0 <= batch[k].itemSlot < n)
  {
    ScanOffSurface(batch, n, 0)
  }

  function ScanOffSurface(batch: seq<SlotItem>, n: int, from: nat): (k: nat)
    requires from <= |batch|
    requires forall j :: 0 <= j < from ==> 0 <= batch[j].itemSlot < n
    ensures from <= k <= |batch|
    ensures forall j :: 0 <= j < k ==> 0 <= batch[j].itemSlot < n
    ensures k < |batch| ==> !(0 <= batch[k].itemSlot < n)
    decreases |batch| - from
  {
    if from == |batch| || !(0 <= batch[from].itemSlot < n) then from
    else ScanOffSurface(batch, n, from + 1)
  }

  // ---------------------------------------------------------------------
  // Validation of added items

  /** No item of the set sits at slot s. */
  predicate SlotFree(items: set<SlotItem>, s: int) {
    forall it :: it in items ==> it.itemSlot != s
  }

  /** Which validation loop runs: Menu.addItems or MenuBuilder.items. */
  datatype Check = MenuAdd | BuilderAdd

  /**
   * The exception the validation loop throws for one item, in the order of
   * its checks. Occupancy is checked against the existing items only.
   * addItems asks for a material and a quantity in 1..64 only when there is
   * no custom stack; the builder checks the quantity always and the
   * material never.
   */
  function ItemError(check: Check, existing: set<SlotItem>, it: SlotItem): (r: Option<GuiError>)
    ensures r.None? ==> InGrid(it.itemSlot) && SlotFree(existing, it.itemSlot)
    ensures r.None? && check == MenuAdd ==> Renderable(it)
    ensures r.None? && check == BuilderAdd ==> 1 <= it.quantity <= 64
    ensures r.Some? ==> r.value in {SlotOutOfRange(it.itemSlot), MissingMaterial(it.itemSlot),
                                    QuantityOutOfRange(it.itemSlot, it.quantity), SlotOccupied(it.itemSlot)}
  {
    if !InGrid(it.itemSlot) then Some(SlotOutOfRange(it.itemSlot))
    else if check == MenuAdd && it.customItemStack.None? && it.material.None? then Some(MissingMaterial(it.itemSlot))
    else if (check == BuilderAdd || it.customItemStack.None?) && !(1 <= it.quantity <= 64) then
      Some(QuantityOutOfRange(it.itemSlot, it.quantity))
    else if !SlotFree(existing, it.itemSlot) then Some(SlotOccupied(it.itemSlot))
    else None
  }

  /** addItems accepts an item exactly when its slot is in the grid and free, and it has a custom stack or a material with a quantity in 1..64. */
  lemma MenuAddAcceptsIff(existing: set<SlotItem>, it: SlotItem)
    ensures ItemError(MenuAdd, existing, it).None? <==>
      InGrid(it.itemSlot) && SlotFree(existing, it.itemSlot)
      && (it.customItemStack.Some? || (it.material.Some? && 1 <= it.quantity <= 64))
  {
  }

  /** MenuBuilder.items accepts an item exactly when its slot is in the grid and free and its quantity is in 1..64. */
  lemma BuilderAddAcceptsIff(existing: set<SlotItem>, it: SlotItem)
    ensures ItemError(BuilderAdd, existing, it).None? <==>
      InGrid(it.itemSlot) && SlotFree(existing, it.itemSlot) && 1 <= it.quantity <= 64
  {
  }

  /**
   * The two validation loops disagree: the builder takes an item with
   * neither material nor custom stack, which addItems refuses, and
   * addItems takes a custom stack with quantity 0, which the builder refuses.
   */
  lemma AddChecksDisagree(s: int, stack: ItemStack)
    requires InGrid(s)
    ensures var bare := SlotItem(None, s, None, 1, None, None, None, None, None, None);
      ItemError(BuilderAdd, {}, bare).None? && ItemError(MenuAdd, {}, bare) == Some(MissingMaterial(s))
      && !Renderable(bare)
    ensures var custom := SlotItem(None, s, None, 0, None, None, Some(stack), None, None, None);
      ItemError(MenuAdd, {}, custom).None? && ItemError(BuilderAdd, {}, custom) == Some(QuantityOutOfRange(s, 0))
  {
  }

  /** The number of leading items of batch that pass validation: where the validation loop would first throw. */
  function FirstInvalid(check: Check, existing: set<SlotItem>, batch: seq<SlotItem>): (k: nat)
    ensures k <= |batch|
    ensures forall j :: 0 <= j < k ==> ItemError(check, existing, batch[j]).None?
    ensures k < |batch| ==> ItemError(check, existing, batch[k]).Some?
  {
    ScanInvalid(check, existing, batch, 0)
  }

  function ScanInvalid(check: Check, existing: set<SlotItem>, batch: seq<SlotItem>, from: nat): (k: nat)
    requires from <= |batch|
    requires forall j :: 0 <= j < from ==> ItemError(check, existing, batch[j]).None?
    ensures from <= k <= |batch|
    ensures forall j :: 0 <= j < k ==> ItemError(check, existing, batch[j]).None?
    ensures k < |batch| ==> ItemError(check, existing, batch[k]).Some?
    decreases |batch| - from
  {
    if from == |batch| || ItemError(check, existing, batch[from]).Some? then from
    else ScanInvalid(check, existing, batch, from + 1)
  }

  /**
   * The validation loop of addItems and MenuBuilder.items: the error of the
   * first item that fails, checked against the existing items only.
   */
  method Validate(check: Check, existing: set<SlotItem>, batch: seq<SlotItem>) returns (e: Option<GuiError>)
    ensures var k := FirstInvalid(check, existing, batch);
      e == if k < |batch| then ItemError(check, existing, batch[k]) else None
  {
    var i := 0;
    while i < |batch|
      invariant 0 <= i <= |batch|
      invariant forall j :: 0 <= j < i ==> ItemError(check, existing, batch[j]).None?
    {
      e := ItemError(check, existing, batch[i]);
      if e.Some? {
        return;
      }
      i := i + 1;
    }
    e := None;
  }

  /** The items of a sequence, as the set addAll(List.of(items)) adds. */
  function Elements(batch: seq<SlotItem>): (r: set<SlotItem>)
    ensures forall it :: it in r <==> it in batch
  {
    set it | it in batch
  }

  /** Adding one more item to the sequence adds it to the set. */
  lemma ElementsSnoc(batch: seq<SlotItem>, it: SlotItem)
    ensures Elements(batch + [it]) == Elements(batch) + {it}
  {
  }

  /**
   * Two different valid items for the same free slot pass addItems together:
   * the check never compares items of one batch, and the later one wins the cell.
   */
  lemma IntraBatchCollisionAccepted(existing: set<SlotItem>, cells: seq<Option<Stack>>, a: SlotItem, b: SlotItem)
    requires a != b && a.itemSlot == b.itemSlot
    requires ItemError(MenuAdd, existing, a).None? && ItemError(MenuAdd, existing, b).None?
    requires 0 <= a.itemSlot < |cells|
    ensures FirstInvalid(MenuAdd, existing, [a, b]) == 2
    ensures Paintable([a, b], |cells|)
    ensures Painted(cells, [a, b])[a.itemSlot] == Some(Render(b))
    ensures a in Elements([a, b]) && b in Elements([a, b])
  {
    PaintedAt(cells, [a, b], a.itemSlot);
  }

  /** A batch that passes addItems shares no item with the existing ones: each accepted slot was free. */
  lemma AcceptedBatchIsNew(existing: set<SlotItem>, batch: seq<SlotItem>)
    requires FirstInvalid(MenuAdd, existing, batch) == |batch|
    ensures existing !! Elements(batch)
    ensures (existing + Elements(batch)) - Elements(batch) == existing
  {
    forall it | it in Elements(batch)
      ensures it !in existing
    {
      var j :| 0 <= j < |batch| && batch[j] == it;
      assert ItemError(MenuAdd, existing, batch[j]).None?;
    }
  }

  /**
   * removeItems after a fully accepted and painted addItems of the same batch
   * restores the item set, and empties exactly the batch's slots.
   */
  lemma AddThenRemove(existing: set<SlotItem>, cells: seq<Option<Stack>>, batch: seq<SlotItem>, s: int)
    requires FirstInvalid(MenuAdd, existing, batch) == |batch|
    requires OnSurface(batch, |cells|)
    requires 0 <= s < |cells|
    ensures Paintable(batch, |cells|)
    ensures (existing + Elements(batch)) - Elements(batch) == existing
    ensures Blanked(Painted(cells, batch), batch)[s]
         == if LastIndexAt(batch, s) < 0 then cells[s] else None
  {
    AcceptedBatchIsNew(existing, batch);
    PaintedAt(cells, batch, s);
    BlankedAt(Painted(cells, batch), batch, s);
  }

  // ---------------------------------------------------------------------
  // What a menu's surface shows

  /** Every item of a live menu can be rendered and has its slot in 0..53. */
  ghost predicate ItemsWellFormed(items: set<SlotItem>) {
    forall it :: it in items ==> Renderable(it) && InGrid(it.itemSlot)
  }

  /** Each cell shows one of the items at its slot, and a cell is empty exactly where no item is. */
  ghost predicate Shows(cells: seq<Option<Stack>>, items: set<SlotItem>) {
    forall s :: 0 <= s < |cells| ==>
      (cells[s].None? <==> SlotFree(items, s)) &&
      (cells[s].Some? ==> exists it :: it in items && it.itemSlot == s && Renderable(it) && cells[s] == Some(Render(it)))
  }

  /** Rendering one more item keeps the surface showing the grown set. */
  lemma ShowsPaint(cells: seq<Option<Stack>>, items: set<SlotItem>, it: SlotItem)
    requires Shows(cells, items) && Renderable(it) && 0 <= it.itemSlot < |cells|
    ensures Shows(cells[it.itemSlot := Some(Render(it))], items + {it})
  {
    var painted := cells[it.itemSlot := Some(Render(it))];
    forall s | 0 <= s < |painted|
      ensures (painted[s].None? <==> SlotFree(items + {it}, s))
      ensures painted[s].Some? ==> exists x :: x in items + {it} && x.itemSlot == s && Renderable(x) && painted[s] == Some(Render(x))
    {
      if s != it.itemSlot {
        if painted[s].Some? {
          var x :| x in items && x.itemSlot == s && Renderable(x) && cells[s] == Some(Render(x));
          assert x in items + {it};
        }
      }
    }
  }

  /** An item alone at its slot is what the surface shows there. */
  lemma ShowsLoneItem(cells: seq<Option<Stack>>, items: set<SlotItem>, it: SlotItem)
    requires Shows(cells, items) && it in items && 0 <= it.itemSlot < |cells|
    requires forall x :: x in items && x.itemSlot == it.itemSlot ==> x == it
    ensures Renderable(it) && cells[it.itemSlot] == Some(Render(it))
  {
    assert !SlotFree(items, it.itemSlot);
  }

  /**
   * removeItems of an item that is not in the menu still empties its slot:
   * when another item holds that slot, the surface stops showing the set.
   */
  lemma RemoveAbsentItemBlanksOccupiedCell(cells: seq<Option<Stack>>, items: set<SlotItem>,
                                           present: SlotItem, absent: SlotItem)
    requires Shows(cells, items) && present in items && absent !in items
    requires present.itemSlot == absent.itemSlot && 0 <= absent.itemSlot < |cells|
    ensures items - Elements([absent]) == items
    ensures Blanked(cells, [absent])[absent.itemSlot].None?
    ensures !Shows(Blanked(cells, [absent]), items - Elements([absent]))
  {
    BlankedAt(cells, [absent], absent.itemSlot);
    assert items - Elements([absent]) == items;
    assert !SlotFree(items, absent.itemSlot);
  }

  /**
   * The constructor's copy of the builder's handlers, one setClickHandler per
   * entry. Every key fits the inventory here, so the order of the copy does
   * not change the result.
   */
  method InstallHandlers(r: MenuClickHandler, handlers: map<int, ClickHandler>)
    requires r.Valid() && forall s :: s in handlers ==> 0 <= s < r.size
    requires r.slotHandlers == map[]
    modifies r`slotHandlers
    ensures r.Valid() && r.slotHandlers == handlers
  {
    for s := 0 to r.size
      invariant r.Valid()
      invariant forall t :: t in r.slotHandlers <==> t in handlers && t < s
      invariant forall t :: t in r.slotHandlers ==> r.slotHandlers[t] == handlers[t]
    {
      if s in handlers {
        var o := r.SetClickHandler(s, handlers[s]);
      }
    }
    assert forall t :: t in r.slotHandlers.Keys <==> t in handlers.Keys;
  }

  /** The constructor's rendering of the items, one setItem per item in set order. */
  method PaintAll(a: array<Option<Stack>>, items: set<SlotItem>)
    requires forall i :: 0 <= i < a.Length ==> a[i].None?
    requires forall it :: it in items ==> Renderable(it) && 0 <= it.itemSlot < a.Length
    modifies a
    ensures Shows(a[..], items)
  {
    var todo := items;
    while todo != {}
      invariant todo <= items
      invariant Shows(a[..], items - todo)
      decreases todo
    {
      var it :| it in todo;
      ShowsPaint(a[..], items - todo, it);
      a[it.itemSlot] := Some(Render(it));
      assert items - (todo - {it}) == (items - todo) + {it};
      todo := todo - {it};
    }
    assert items - todo == items;
  }

  // ---------------------------------------------------------------------
  // The menu

  class Menu {
    const inventory: InventoryId
    const size: nat
    const title: Component
    /** The host inventory's cells. */
    const cells: array<Option<Stack>>
    const router: MenuClickHandler
    var items: set<SlotItem>

    ghost predicate Valid()
      reads this, router
    {
      cells.Length == size && ValidSize(size)
      && router.size == size && router.inventory == inventory && router.Valid()
      && !router.isRegistered && router.subscribed
      && ItemsWellFormed(items)
    }

    /**
     * new Menu(builder, plugin), for a builder that passed build()'s checks
     * and whose handlers and items fit the inventory: installs the handlers
     * and the close handler, renders the items in set order, and subscribes
     * the router with the host directly (never through register()).
     */
    constructor (inventory: InventoryId, size: nat, title: Component, items: set<SlotItem>,
                 handlers: map<int, ClickHandler>, closeHandler: Option<CloseCallback>)
      requires ValidSize(size)
      requires forall it :: it in items ==> Renderable(it) && 0 <= it.itemSlot < size
      requires forall s :: s in handlers ==> 0 <= s < size
      ensures Valid() && fresh(cells) && fresh(router)
      ensures this.inventory == inventory && this.size == size && this.title == title
      ensures this.items == items && router.slotHandlers == handlers && router.closeHandler == closeHandler
      ensures Shows(cells[..], items)
    {
      var r := new MenuClickHandler(inventory, size);
      InstallHandlers(r, handlers);
      if closeHandler.Some? {
        r.SetCloseHandler(closeHandler.value);
      }
      var a := new Option<Stack>[size](_ => None);
      PaintAll(a, items);
      r.Subscribe();
      this.inventory, this.size, this.title := inventory, size, title;
      this.cells, this.router, this.items := a, r, items;
    }

    /**
     * addItems: validates the whole batch against the existing items before
     * changing anything; then adds every item to the set and renders them in
     * order, stopping at the first slot the inventory does not have.
     */
    method AddItems(batch: seq<SlotItem>) returns (o: Outcome<GuiError>)
      requires Valid()
      modifies this`items, cells
      ensures Valid()
      ensures var k := FirstInvalid(MenuAdd, old(items), batch);
        k < |batch| ==>
          o == Fail(ItemError(MenuAdd, old(items), batch[k]).value)
          && items == old(items) && cells[..] == old(cells[..])
      ensures var m := FirstOffSurface(batch, size);
        FirstInvalid(MenuAdd, old(items), batch) == |batch| ==>
          items == old(items) + Elements(batch)
          && Paintable(batch[..m], size)
          && cells[..] == Painted(old(cells[..]), batch[..m])
          && o == if m < |batch| then Fail(SurfaceIndexOutOfBounds(batch[m].itemSlot)) else Pass
    {
      var e := Validate(MenuAdd, items, batch);
      if e.Some? {
        return Fail(e.value);
      }
      items := items + Elements(batch);
      o := PaintBatch(batch);
    }

    /** The rendering loop of addItems: setItem for each item in order, up to the first slot the inventory lacks. */
    method PaintBatch(batch: seq<SlotItem>) returns (o: Outcome<GuiError>)
      requires Valid() && forall i :: 0 <= i < |batch| ==> Renderable(batch[i])
      modifies cells
      ensures var m := FirstOffSurface(batch, size);
        Paintable(batch[..m], size)
        && cells[..] == Painted(old(cells[..]), batch[..m])
        && o == if m < |batch| then Fail(SurfaceIndexOutOfBounds(batch[m].itemSlot)) else Pass
    {
      var n := 0;
      while n < |batch|
        invariant 0 <= n <= |batch|
        invariant forall j :: 0 <= j < n ==> 0 <= batch[j].itemSlot < size
        invariant Paintable(batch[..n], size)
        invariant cells[..] == Painted(old(cells[..]), batch[..n])
      {
        var it := batch[n];
        if it.itemSlot < 0 || it.itemSlot >= cells.Length {
          return Fail(SurfaceIndexOutOfBounds(it.itemSlot));
        }
        assert batch[..n + 1][..n] == batch[..n];
        cells[it.itemSlot] := Some(Render(it));
        n := n + 1;
      }
      assert batch[..n] == batch;
      o := Pass;
    }

    /**
     * removeItems: removes the equal items from the set, then empties the
     * cell at every argument's slot, present or not, stopping at the first
     * slot the inventory does not have.
     */
    method RemoveItems(batch: seq<SlotItem>) returns (o: Outcome<GuiError>)
      requires Valid()
      modifies this`items, cells
      ensures Valid()
      ensures items == old(items) - Elements(batch)
      ensures var m := FirstOffSurface(batch, size);
        OnSurface(batch[..m], size)
        && cells[..] == Blanked(old(cells[..]), batch[..m])
        && o == if m < |batch| then Fail(SurfaceIndexOutOfBounds(batch[m].itemSlot)) else Pass
    {
      items := items - Elements(batch);
      var n := 0;
      while n < |batch|
        invariant 0 <= n <= |batch|
        invariant forall j :: 0 <= j < n ==> 0 <= batch[j].itemSlot < size
        invariant OnSurface(batch[..n], size)
        invariant cells[..] == Blanked(old(cells[..]), batch[..n])
        modifies cells
      {
        var it := batch[n];
        if it.itemSlot < 0 || it.itemSlot >= cells.Length {
          return Fail(SurfaceIndexOutOfBounds(it.itemSlot));
        }
        assert batch[..n + 1][..n] == batch[..n];
        cells[it.itemSlot] := None;
        n := n + 1;
      }
      assert batch[..n] == batch;
      o := Pass;
    }

    /** clear(): no items and every cell empty, whatever the state before. */
    method Clear()
      requires Valid()
      modifies this`items, cells
      ensures Valid()
      ensures items == {} && cells[..] == EmptySurface(size)
    {
      items := {};
      for i := 0 to cells.Length
        invariant forall j :: 0 <= j < i ==> cells[j].None?
        modifies cells
      {
        cells[i] := None;
      }
      assert cells[..] == EmptySurface(size);
    }

    /** onClick: rejects a slot outside 0..53, then the router rejects one outside the inventory. */
    method OnClick(slot: int, h: ClickHandler) returns (o: Outcome<GuiError>)
      requires Valid()
      modifies router`slotHandlers
      ensures Valid()
      ensures o == if !InGrid(slot) then Fail(SlotOutOfRange(slot))
                   else if slot >= size then Fail(SlotOutsideInventory(slot, size))
                   else Pass
      ensures router.slotHandlers == if o.Pass? then old(router.slotHandlers)[slot := h] else old(router.slotHandlers)
    {
      if slot < 0 || slot > 53 {
        return Fail(SlotOutOfRange(slot));
      }
      o := router.SetClickHandler(slot, h);
    }

    method RemoveClickHandler(slot: int)
      requires Valid()
      modifies router`slotHandlers
      ensures Valid()
      ensures router.slotHandlers == old(router.slotHandlers) - {slot}
    {
      router.RemoveClickHandler(slot);
    }

    /** getClickHandler: the router's handler at slot, if any. */
    function GetClickHandler(slot: int): (r: Option<ClickHandler>)
      reads this, router
      ensures r.Some? <==> slot in router.slotHandlers
      ensures r.Some? ==> r.value == router.slotHandlers[slot]
    {
      router.GetClickHandler(slot)
    }

    method OnClose(c: CloseCallback)
      requires Valid()
      modifies router`closeHandler
      ensures Valid()
      ensures router.closeHandler == Some(c)
    {
      router.SetCloseHandler(c);
    }

    method RemoveCloseHandler()
      requires Valid()
      modifies router`closeHandler
      ensures Valid()
      ensures router.closeHandler.None?
    {
      router.RemoveCloseHandler();
    }

    /** clearHandlers: no slot handler and no close handler. */
    method ClearHandlers()
      requires Valid()
      modifies router`slotHandlers, router`closeHandler
      ensures Valid()
      ensures router.slotHandlers == map[] && router.closeHandler.None?
    {
      router.Clear();
    }

    /**
     * unregisterEvents: delegates to unregister(), which acts only when the
     * flag is set; the flag is never set for a menu, so the router stays
     * subscribed with the host.
     */
    method UnregisterEvents()
      requires Valid()
      modifies router`isRegistered, router`subscribed
      ensures Valid()
      ensures router.subscribed && !router.isRegistered
    {
      router.Unregister();
    }

    /**
     * The host delivers a close event to the menu's router: the close handler
     * runs for the menu's own inventory, and the router stays subscribed.
     */
    method DeliverClose(ev: CloseEvent) returns (ran: Option<CloseCallback>)
      requires Valid()
      modifies router`isRegistered, router`subscribed
      ensures Valid()
      ensures ran == if ev.inventory == inventory then old(router.closeHandler) else None
      ensures router.subscribed
    {
      ran := router.OnInventoryClose(ev);
    }
  }

  // ---------------------------------------------------------------------
  // The builder

  /** The item the fill helpers put at a free slot: the material, quantity 1, and the name if one is given. */
  function Filler(slot: int, material: Material, name: Option<Component>): SlotItem {
    SlotItem(name, slot, Some(material), 1, None, None, None, None, None, None)
  }

  /** The fillers for every slot of [lo, hi) that is not excluded and holds no existing item. */
  function Fillers(existing: set<SlotItem>, lo: int, hi: int, material: Material, name: Option<Component>,
                   excluded: set<int>): set<SlotItem>
  {
    set s | lo <= s < hi && s !in excluded && SlotFree(existing, s) :: Filler(s, material, name)
  }

  /** Fillers only take free, non-excluded slots of the range, and there is one per slot. */
  lemma FillersTakeOnlyFreeSlots(existing: set<SlotItem>, lo: int, hi: int, material: Material,
                                 name: Option<Component>, excluded: set<int>, it: SlotItem)
    requires it in Fillers(existing, lo, hi, material, name, excluded)
    ensures lo <= it.itemSlot < hi && it.itemSlot !in excluded && SlotFree(existing, it.itemSlot)
    ensures it == Filler(it.itemSlot, material, name)
  {
  }

  /** After a fill, every non-excluded slot of the range holds an item. */
  lemma FillLeavesNoGap(existing: set<SlotItem>, lo: int, hi: int, material: Material,
                        name: Option<Component>, excluded: set<int>, s: int)
    requires lo <= s < hi && s !in excluded
    ensures !SlotFree(existing + Fillers(existing, lo, hi, material, name, excluded), s)
  {
    if SlotFree(existing, s) {
      assert Filler(s, material, name) in Fillers(existing, lo, hi, material, name, excluded);
    }
  }

  /** Filling a second time adds nothing. */
  lemma FillIsIdempotent(existing: set<SlotItem>, lo: int, hi: int, material: Material,
                         name: Option<Component>, excluded: set<int>)
    ensures var once := existing + Fillers(existing, lo, hi, material, name, excluded);
      Fillers(once, lo, hi, material, name, excluded) == {}
  {
    var once := existing + Fillers(existing, lo, hi, material, name, excluded);
    forall it | it in Fillers(once, lo, hi, material, name, excluded)
      ensures false
    {
      FillLeavesNoGap(existing, lo, hi, material, name, excluded, it.itemSlot);
    }
  }

  /** Fillers over [lo, i + 1) are those over [lo, i) plus the one for slot i, if that slot qualifies. */
  lemma FillersStep(existing: set<SlotItem>, lo: int, i: int, material: Material,
                    name: Option<Component>, excluded: set<int>)
    requires lo <= i
    ensures Fillers(existing, lo, i + 1, material, name, excluded)
         == Fillers(existing, lo, i, material, name, excluded)
            + (if i !in excluded && SlotFree(existing, i) then {Filler(i, material, name)} else {})
  {
  }

  /** The size checks, then the title and plugin checks, of build(). */
  function ConfigError(size: int, title: Option<Component>, plugin: Option<Plugin>): (r: Option<GuiError>)
    ensures r.None? <==> ValidSize(size) && title.Some? && plugin.Some?
  {
    SizeCheckMatchesChestSizes(size);
    if size <= 0 then Some(SizeNotPositive(size))
    else if size % 9 != 0 then Some(SizeNotMultipleOfNine(size))
    else if size > 54 then Some(SizeTooLarge(size))
    else if title.None? then Some(TitleMissing)
    else if plugin.None? then Some(PluginMissing)
    else None
  }

  /** Positive, a multiple of 9 and at most 54 are exactly the six chest sizes. */
  lemma SizeCheckMatchesChestSizes(n: int)
    ensures (0 < n && n % 9 == 0 && n <= 54) <==> ValidSize(n)
  {
    if 0 < n && n % 9 == 0 && n <= 54 {
      var q := n / 9;
      assert n == 9 * q;
      assert 0 < q <= 6;
    }
  }

  /** The exceptions copying the handlers can throw: one per handler slot the inventory does not have. */
  function HandlerFaults(handlers: map<int, ClickHandler>, size: nat): set<GuiError> {
    set s | s in handlers && !(0 <= s < size) :: SlotOutsideInventory(s, size)
  }

  /** What rendering one item throws: createItemStack first, then the host's setItem. */
  function ItemFault(it: SlotItem, size: nat): (r: Option<GuiError>)
    ensures r.None? <==> Renderable(it) && 0 <= it.itemSlot < size
  {
    if !Renderable(it) then Some(NotRenderable(it.itemSlot))
    else if !(0 <= it.itemSlot < size) then Some(SurfaceIndexOutOfBounds(it.itemSlot))
    else None
  }

  /** The exceptions rendering the items can throw. */
  function ItemFaults(items: set<SlotItem>, size: nat): set<GuiError> {
    set it | it in items && ItemFault(it, size).Some? :: ItemFault(it, size).value
  }

  /** No handler fault exactly when every handler slot is inside the inventory. */
  lemma HandlerFaultsEmptyIff(handlers: map<int, ClickHandler>, size: nat)
    ensures HandlerFaults(handlers, size) == {} <==> forall s :: s in handlers ==> 0 <= s < size
  {
    if !forall s :: s in handlers ==> 0 <= s < size {
      var s :| s in handlers && !(0 <= s < size);
      assert SlotOutsideInventory(s, size) in HandlerFaults(handlers, size);
    }
  }

  /** No item fault exactly when every item is renderable and inside the inventory. */
  lemma ItemFaultsEmptyIff(items: set<SlotItem>, size: nat)
    ensures ItemFaults(items, size) == {} <==> forall it :: it in items ==> Renderable(it) && 0 <= it.itemSlot < size
  {
    if !forall it :: it in items ==> Renderable(it) && 0 <= it.itemSlot < size {
      var it :| it in items && !(Renderable(it) && 0 <= it.itemSlot < size);
      assert ItemFault(it, size).value in ItemFaults(items, size);
    }
  }

  /** A filled range past the inventory's end makes build() fail: fillRange never looks at the size. */
  lemma FillRangePastSizeBreaksBuild(size: nat, material: Material, s: int)
    requires 0 <= size <= s < 54
    ensures ItemFaults(Fillers({}, s, s + 1, material, None, {}), size) == {SurfaceIndexOutOfBounds(s)}
  {
    assert Fillers({}, s, s + 1, material, None, {}) == {Filler(s, material, None)};
  }

  class MenuBuilder {
    var inventorySize: int
    var inventoryTitle: Option<Component>
    var items: set<SlotItem>
    var clickHandlers: map<int, ClickHandler>
    var closeHandler: Option<CloseCallback>
    var plugin: Option<Plugin>

    /** Menu.newBuilder(): size 0, and nothing else set. */
    constructor ()
      ensures inventorySize == 0 && inventoryTitle.None? && items == {}
      ensures clickHandlers == map[] && closeHandler.None? && plugin.None?
    {
      inventorySize, inventoryTitle, items := 0, None, {};
      clickHandlers, closeHandler, plugin := map[], None, None;
    }

    method SetPlugin(p: Plugin)
      modifies this`plugin
      ensures plugin == Some(p)
    {
      plugin := Some(p);
    }

    /** size(n): stored unchecked; build() validates it. */
    method SetSize(n: int)
      modifies this`inventorySize
      ensures inventorySize == n
    {
      inventorySize := n;
    }

    method SetTitle(t: Option<Component>)
      modifies this`inventoryTitle
      ensures inventoryTitle == t
    {
      inventoryTitle := t;
    }

    /** items(batch): the builder's validation loop, then the whole batch is added. */
    method Items(batch: seq<SlotItem>) returns (o: Outcome<GuiError>)
      modifies this`items
      ensures var k := FirstInvalid(BuilderAdd, old(items), batch);
        if k < |batch| then o == Fail(ItemError(BuilderAdd, old(items), batch[k]).value) && items == old(items)
        else o == Pass && items == old(items) + Elements(batch)
    {
      var e := Validate(BuilderAdd, items, batch);
      if e.Some? {
        return Fail(e.value);
      }
      items := items + Elements(batch);
      o := Pass;
    }

    /** isSlotFree: no item of the builder sits at slot. */
    function IsSlotFree(slot: int): (r: bool)
      reads this
      ensures r <==> !exists it :: it in items && it.itemSlot == slot
    {
      SlotFree(items, slot)
    }

    /** The loop the fill helpers share: a filler at every free, non-excluded slot of [lo, hi), in slot order. */
    method FillFree(lo: int, hi: int, material: Material, name: Option<Component>, excluded: set<int>)
      requires lo <= hi
      modifies this`items
      ensures items == old(items) + Fillers(old(items), lo, hi, material, name, excluded)
    {
      var i := lo;
      while i < hi
        invariant lo <= i <= hi
        invariant items == old(items) + Fillers(old(items), lo, i, material, name, excluded)
      {
        FillersStep(old(items), lo, i, material, name, excluded);
        assert IsSlotFree(i) == SlotFree(old(items), i) by {
          forall it | it in Fillers(old(items), lo, i, material, name, excluded)
            ensures it.itemSlot != i
          {
            FillersTakeOnlyFreeSlots(old(items), lo, i, material, name, excluded, it);
          }
        }
        if i !in excluded && IsSlotFree(i) {
          items := items + {Filler(i, material, name)};
        }
        i := i + 1;
      }
    }

    /** fillEmptyWith(material, name): needs a positive size; fills every free slot below it. */
    method FillEmptyWith(material: Material, name: Option<Component>) returns (o: Outcome<GuiError>)
      modifies this`items
      ensures o == if inventorySize <= 0 then Fail(SizeNotSet) else Pass
      ensures items == if o.Fail? then old(items)
                       else old(items) + Fillers(old(items), 0, inventorySize, material, name, {})
    {
      if inventorySize <= 0 {
        return Fail(SizeNotSet);
      }
      FillFree(0, inventorySize, material, name, {});
      o := Pass;
    }

    /** fillExcept(material, excluded...): like fillEmptyWith without a name, skipping the excluded slots. */
    method FillExcept(material: Material, excludedSlots: seq<int>) returns (o: Outcome<GuiError>)
      modifies this`items
      ensures o == if inventorySize <= 0 then Fail(SizeNotSet) else Pass
      ensures items == if o.Fail? then old(items)
                       else old(items) + Fillers(old(items), 0, inventorySize, material, None, set s | s in excludedSlots)
    {
      if inventorySize <= 0 {
        return Fail(SizeNotSet);
      }
      var excluded := set s | s in excludedSlots;
      FillFree(0, inventorySize, material, None, excluded);
      o := Pass;
    }

    /** fillRange(start, end, material): needs 0 <= start < end <= 54; the size is not consulted. */
    method FillRange(start: int, end: int, material: Material) returns (o: Outcome<GuiError>)
      modifies this`items
      ensures o == if start < 0 || end > 54 || start >= end then Fail(InvalidRange(start, end)) else Pass
      ensures items == if o.Fail? then old(items)
                       else old(items) + Fillers(old(items), start, end, material, None, {})
    {
      if start < 0 || end > 54 || start >= end {
        return Fail(InvalidRange(start, end));
      }
      FillFree(start, end, material, None, {});
      o := Pass;
    }

    /** The builder's onClick: rejects a slot outside 0..53; otherwise the last write wins. */
    method OnClick(slot: int, h: ClickHandler) returns (o: Outcome<GuiError>)
      modifies this`clickHandlers
      ensures o == if InGrid(slot) then Pass else Fail(SlotOutOfRange(slot))
      ensures clickHandlers == if o.Pass? then old(clickHandlers)[slot := h] else old(clickHandlers)
    {
      if slot < 0 || slot > 53 {
        return Fail(SlotOutOfRange(slot));
      }
      clickHandlers := clickHandlers[slot := h];
      o := Pass;
    }

    method OnClose(c: CloseCallback)
      modifies this`closeHandler
      ensures closeHandler == Some(c)
    {
      closeHandler := Some(c);
    }

    /**
     * build(): the configuration checks in order; then the constructor, which
     * throws for some handler slot outside the inventory, else for some item
     * it cannot render or place (which one depends on hash order).
     */
    method Build(inventory: InventoryId) returns (r: Result<Menu, GuiError>)
      ensures ConfigError(inventorySize, inventoryTitle, plugin).Some? ==>
        r == Failure(ConfigError(inventorySize, inventoryTitle, plugin).value)
      ensures ConfigError(inventorySize, inventoryTitle, plugin).None? && HandlerFaults(clickHandlers, inventorySize) != {} ==>
        r.Failure? && r.error in HandlerFaults(clickHandlers, inventorySize)
      ensures ConfigError(inventorySize, inventoryTitle, plugin).None? && HandlerFaults(clickHandlers, inventorySize) == {}
              && ItemFaults(items, inventorySize) != {} ==>
        r.Failure? && r.error in ItemFaults(items, inventorySize)
      ensures r.Success? <==>
        ConfigError(inventorySize, inventoryTitle, plugin).None?
        && HandlerFaults(clickHandlers, inventorySize) == {} && ItemFaults(items, inventorySize) == {}
      ensures r.Success? ==>
        fresh(r.value) && fresh(r.value.cells) && fresh(r.value.router) && r.value.Valid()
        && r.value.inventory == inventory && r.value.size == inventorySize && Some(r.value.title) == inventoryTitle
        && r.value.items == items && r.value.router.slotHandlers == clickHandlers
        && r.value.router.closeHandler == closeHandler
        && Shows(r.value.cells[..], items)
    {
      var config := ConfigError(inventorySize, inventoryTitle, plugin);
      if config.Some? {
        return Failure(config.value);
      }
      var size: nat := inventorySize;
      if HandlerFaults(clickHandlers, size) != {} {
        var e :| e in HandlerFaults(clickHandlers, size);
        return Failure(e);
      }
      if ItemFaults(items, size) != {} {
        var e :| e in ItemFaults(items, size);
        return Failure(e);
      }
      HandlerFaultsEmptyIff(clickHandlers, size);
      ItemFaultsEmptyIff(items, size);
      var m := new Menu(inventory, size, inventoryTitle.value, items, clickHandlers, closeHandler);
      r := Success(m);
    }
  }
}
