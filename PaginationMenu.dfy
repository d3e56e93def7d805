/**
 * The paginated preset: a 54-slot menu showing 45 items per page in slots
 * 0..44, with a previous control at 45 and a next control at 53.
 */
module Pagination {
  import opened Wrappers
  import opened Bukkit
  import opened Errors
  import opened SlotItems
  import opened Clicks
  import opened Routers
  import opened Menus

  const SIZE: nat := 54
  const ITEMS_PER_PAGE: nat := 45
  const PREV_SLOT := 45
  const NEXT_SLOT := 53

  /** One entry of the paged list; the action, when present, is a callback of the library user. */
  datatype PageItem = PageItem(name: Component, material: Material, quantity: int, action: Option<nat>)

  /** ceil(n / 45), and 1 for an empty list. */
  function TotalPages(n: nat): (r: nat)
    ensures r >= 1
    ensures n == 0 ==> r == 1
  {
    if n == 0 then 1 else (n + ITEMS_PER_PAGE - 1) / ITEMS_PER_PAGE
  }

  /** The pages hold all n entries and no page is wholly empty: (pages - 1) * 45 < n <= pages * 45. */
  lemma TotalPagesBounds(n: nat)
    ensures n > 0 ==> (TotalPages(n) - 1) * ITEMS_PER_PAGE < n <= TotalPages(n) * ITEMS_PER_PAGE
    ensures forall page :: 0 <= page < TotalPages(n) ==> page * ITEMS_PER_PAGE <= n
  {
  }

  /** The page update() settles on: a negative page becomes 0, one past the end becomes the last. */
  function ClampPage(page: int, n: nat): (r: int)
    ensures 0 <= r < TotalPages(n)
    ensures 0 <= page < TotalPages(n) ==> r == page
    ensures page < 0 ==> r == 0
    ensures page >= TotalPages(n) ==> r == TotalPages(n) - 1
  {
    if page < 0 then 0 else if page >= TotalPages(n) then TotalPages(n) - 1 else page
  }

  /** The first list index a page shows. */
  function WindowStart(page: int): int {
    page * ITEMS_PER_PAGE
  }

  /** One past the last list index a page shows. */
  function WindowEnd(page: int, n: nat): int {
    if WindowStart(page) + ITEMS_PER_PAGE < n then WindowStart(page) + ITEMS_PER_PAGE else n
  }

  /** The items a page shows: items[page * 45 .. min(page * 45 + 45, n)), never more than 45 and, for n > 0, never none. */
  function Window(items: seq<PageItem>, page: int): (w: seq<PageItem>)
    requires 0 <= page < TotalPages(|items|)
    ensures |w| <= ITEMS_PER_PAGE
    ensures |items| > 0 ==> |w| > 0
  {
    TotalPagesBounds(|items|);
    items[WindowStart(page)..WindowEnd(page, |items|)]
  }

  /** Every list index lies in the window of exactly one page, page i / 45, at slot i % 45. */
  lemma PagesPartitionItems(n: nat, i: int)
    requires 0 <= i < n
    ensures 0 <= i / ITEMS_PER_PAGE < TotalPages(n)
    ensures WindowStart(i / ITEMS_PER_PAGE) <= i < WindowEnd(i / ITEMS_PER_PAGE, n)
    ensures i - WindowStart(i / ITEMS_PER_PAGE) == i % ITEMS_PER_PAGE
    ensures forall q :: 0 <= q < TotalPages(n) && q != i / ITEMS_PER_PAGE ==>
      !(WindowStart(q) <= i < WindowEnd(q, n))
  {
    var p := i / ITEMS_PER_PAGE;
    TotalPagesBounds(n);
    forall q | 0 <= q < TotalPages(n) && q != p
      ensures !(WindowStart(q) <= i < WindowEnd(q, n))
    {
      if q < p {
        assert WindowStart(q) + ITEMS_PER_PAGE <= WindowStart(p);
      } else {
        assert WindowStart(p) + ITEMS_PER_PAGE <= WindowStart(q);
      }
    }
  }

  /** The record new SlotItem(name, (short) slot, material, quantity) that update() adds for a content entry. */
  function ContentItem(p: PageItem, slot: int): SlotItem {
    Legacy(p.name, slot, p.material, p.quantity)
  }

  /** The content items of a window, entry i at slot i. */
  function ContentBatch(w: seq<PageItem>): (r: seq<SlotItem>)
    ensures |r| == |w|
    ensures forall i :: 0 <= i < |w| ==> r[i] == ContentItem(w[i], i) && r[i].itemSlot == i
  {
    seq(|w|, i requires 0 <= i < |w| => ContentItem(w[i], i))
  }

  /** The previous control: a yellow "Previous Page" arrow at slot 45. */
  const PrevControl: SlotItem := Legacy(Text("Previous Page", Some(YELLOW)), PREV_SLOT, ARROW, 1)

  /** The next control: a yellow "Next Page" arrow at slot 53. */
  const NextControl: SlotItem := Legacy(Text("Next Page", Some(YELLOW)), NEXT_SLOT, ARROW, 1)

  /** The number of leading entries of a window whose quantity is in 1..64: where addItems would first throw. */
  function FirstBadQuantity(w: seq<PageItem>): (k: nat)
    ensures k <= |w|
    ensures forall j :: 0 <= j < k ==> 1 <= w[j].quantity <= 64
    ensures k < |w| ==> !(1 <= w[k].quantity <= 64)
  {
    ScanBadQuantity(w, 0)
  }

  function ScanBadQuantity(w: seq<PageItem>, from: nat): (k: nat)
    requires from <= |w|
    requires forall j :: 0 <= j < from ==> 1 <= w[j].quantity <= 64
    ensures from <= k <= |w|
    ensures forall j :: 0 <= j < k ==> 1 <= w[j].quantity <= 64
    ensures k < |w| ==> !(1 <= w[k].quantity <= 64)
    decreases |w| - from
  {
    if from == |w| || !(1 <= w[from].quantity <= 64) then from
    else ScanBadQuantity(w, from + 1)
  }

  /** The controls update() adds after a full window: previous when a page precedes, then next when one follows. */
  function Controls(hasPrev: bool, hasNext: bool): seq<SlotItem> {
    (if hasPrev then [PrevControl] else []) + (if hasNext then [NextControl] else [])
  }

  /**
   * The items update() adds for a window, in order: the content up to the
   * first entry addItems rejects; when there is none, all of it, then the
   * controls.
   */
  function Layout(w: seq<PageItem>, hasPrev: bool, hasNext: bool): seq<SlotItem> {
    var k := FirstBadQuantity(w);
    if k < |w| then ContentBatch(w)[..k] else ContentBatch(w) + Controls(hasPrev, hasNext)
  }

  /** The handlers of the content entries before index k that carry an action. */
  function ContentHandlers(w: seq<PageItem>, k: nat): map<int, ClickHandler>
    requires k <= |w|
  {
    map j | 0 <= j < k && w[j].action.Some? :: AutoCancelHandler(UserCallback(w[j].action.value))
  }

  /** One more entry adds its handler, if it has an action, and changes no other slot. */
  lemma ContentHandlersSnoc(w: seq<PageItem>, k: nat)
    requires k < |w|
    ensures ContentHandlers(w, k + 1) ==
      if w[k].action.Some? then ContentHandlers(w, k)[k := AutoCancelHandler(UserCallback(w[k].action.value))]
      else ContentHandlers(w, k)
  {
    var next := ContentHandlers(w, k + 1);
    var prev := ContentHandlers(w, k);
    if w[k].action.Some? {
      var h := AutoCancelHandler(UserCallback(w[k].action.value));
      assert next.Keys == prev.Keys + {k};
      assert forall j :: j in next ==> next[j] == prev[k := h][j];
    } else {
      assert next.Keys == prev.Keys;
    }
  }

  /** The handlers update() installs for a window, matching Layout. */
  function LayoutHandlers(w: seq<PageItem>, hasPrev: bool, hasNext: bool): map<int, ClickHandler> {
    var k := FirstBadQuantity(w);
    if k < |w| then ContentHandlers(w, k) else WithControls(ContentHandlers(w, k), hasPrev, hasNext)
  }

  /** The handlers after the controls are added to the given ones: the previous control's, then the next control's. */
  function WithControls(hs: map<int, ClickHandler>, hasPrev: bool, hasNext: bool): map<int, ClickHandler> {
    var withPrev := if hasPrev then hs[PREV_SLOT := AutoCancelHandler(PreviousPage)] else hs;
    if hasNext then withPrev[NEXT_SLOT := AutoCancelHandler(NextPage)] else withPrev
  }

  /** What update() returns for a window: the exception of the first content entry addItems rejects. */
  function LayoutOutcome(w: seq<PageItem>): (o: Outcome<GuiError>)
    ensures o.Fail? <==> exists j :: 0 <= j < |w| && !(1 <= w[j].quantity <= 64)
    ensures o.Fail? ==> o.error.QuantityOutOfRange? && 0 <= o.error.slot < |w|
  {
    var k := FirstBadQuantity(w);
    if k < |w| then Fail(QuantityOutOfRange(k, w[k].quantity)) else Pass
  }

  /** With a rejected entry at k, update() shows the entries before it, with their handlers, and no control. */
  lemma FailingLayout(w: seq<PageItem>, hasPrev: bool, hasNext: bool, k: nat)
    requires k < |w| && FirstBadQuantity(w) == k
    ensures Layout(w, hasPrev, hasNext) == ContentBatch(w)[..k]
    ensures LayoutHandlers(w, hasPrev, hasNext) == ContentHandlers(w, k)
    ensures LayoutOutcome(w) == Fail(QuantityOutOfRange(k, w[k].quantity))
  {
  }

  /** With no rejected entry, update() returns normally and shows every entry of the window. */
  lemma PassingLayout(w: seq<PageItem>)
    requires FirstBadQuantity(w) == |w|
    ensures LayoutOutcome(w) == Pass
    ensures ContentBatch(w)[..|w|] == ContentBatch(w)
  {
  }

  /** Every item update() adds renders and lies on the 54-slot surface. */
  lemma LayoutPaintable(w: seq<PageItem>, hasPrev: bool, hasNext: bool)
    requires |w| <= ITEMS_PER_PAGE
    ensures Paintable(Layout(w, hasPrev, hasNext), SIZE)
  {
    var c := ContentBatch(w);
    var r := Layout(w, hasPrev, hasNext);
    var k := FirstBadQuantity(w);
    if k == |w| {
      var ctl := Controls(hasPrev, hasNext);
      assert forall j :: |w| <= j < |r| ==> r[j] == ctl[j - |w|];
    }
  }

  /**
   * Where in the layout of a window whose entries all pass the item for
   * slot s sits: entry s for a slot inside the window, the previous control
   * for 45 and the next control for 53 when they are shown, and -1 (no item)
   * for every other slot.
   */
  lemma LayoutIndexOfSlot(w: seq<PageItem>, hasPrev: bool, hasNext: bool, s: int)
    requires |w| <= ITEMS_PER_PAGE && FirstBadQuantity(w) == |w|
    ensures var r := Layout(w, hasPrev, hasNext); var k := LastIndexAt(r, s);
      if 0 <= s < |w| then k == s && r[k] == ContentItem(w[s], s)
      else if s == PREV_SLOT && hasPrev then k == |w| && r[k] == PrevControl
      else if s == NEXT_SLOT && hasNext then k == |r| - 1 && r[k] == NextControl
      else k == -1
  {
    if 0 <= s < |w| {
      ContentIndexOfSlot(w, hasPrev, hasNext, s);
    } else {
      ControlIndexOfSlot(w, hasPrev, hasNext, s);
    }
  }

  /** The content part of LayoutIndexOfSlot: entry s is the last item at slot s. */
  lemma ContentIndexOfSlot(w: seq<PageItem>, hasPrev: bool, hasNext: bool, s: int)
    requires |w| <= ITEMS_PER_PAGE && FirstBadQuantity(w) == |w| && 0 <= s < |w|
    ensures var r := Layout(w, hasPrev, hasNext);
      LastIndexAt(r, s) == s && r[s] == ContentItem(w[s], s)
  {
    var r := Layout(w, hasPrev, hasNext);
    var c := ContentBatch(w);
    assert r == c + Controls(hasPrev, hasNext);
    assert forall j :: |w| <= j < |r| ==> r[j].itemSlot >= PREV_SLOT;
    assert r[s] == c[s];
  }

  /** The control part of LayoutIndexOfSlot: the controls at 45 and 53, nothing else past the content. */
  lemma ControlIndexOfSlot(w: seq<PageItem>, hasPrev: bool, hasNext: bool, s: int)
    requires |w| <= ITEMS_PER_PAGE && FirstBadQuantity(w) == |w| && !(0 <= s < |w|)
    ensures var r := Layout(w, hasPrev, hasNext); var k := LastIndexAt(r, s);
      if s == PREV_SLOT && hasPrev then k == |w| && r[k] == PrevControl
      else if s == NEXT_SLOT && hasNext then k == |r| - 1 && r[k] == NextControl
      else k == -1
  {
    var r := Layout(w, hasPrev, hasNext);
    var c := ContentBatch(w);
    var ctl := Controls(hasPrev, hasNext);
    assert r == c + ctl;
    var k := LastIndexAt(r, s);
    assert forall j :: 0 <= j < |w| ==> r[j].itemSlot == j;
    assert forall j :: |w| <= j < |r| ==> r[j] == ctl[j - |w|];
    if s == PREV_SLOT && hasPrev {
      assert r[|w|] == PrevControl;
      assert k >= |w|;
    } else if s == NEXT_SLOT && hasNext {
      assert r[|r| - 1] == NextControl;
    } else if k >= 0 {
      assert false;
    }
  }

  /**
   * A window whose entries all pass shows entry i at slot i, the previous
   * arrow at 45 exactly when a page precedes, the next arrow at 53 exactly
   * when one follows, and nothing anywhere else.
   */
  lemma LayoutCellAt(w: seq<PageItem>, hasPrev: bool, hasNext: bool, s: int)
    requires |w| <= ITEMS_PER_PAGE && FirstBadQuantity(w) == |w| && 0 <= s < SIZE
    ensures Paintable(Layout(w, hasPrev, hasNext), SIZE)
    ensures Painted(EmptySurface(SIZE), Layout(w, hasPrev, hasNext))[s] ==
        if s < |w| then Some(Render(ContentItem(w[s], s)))
        else if s == PREV_SLOT && hasPrev then Some(Render(PrevControl))
        else if s == NEXT_SLOT && hasNext then Some(Render(NextControl))
        else None
  {
    LayoutPaintable(w, hasPrev, hasNext);
    PaintedAt(EmptySurface(SIZE), Layout(w, hasPrev, hasNext), s);
    LayoutIndexOfSlot(w, hasPrev, hasNext, s);
  }

  /**
   * A window whose entries stop at a rejected one shows the entries before
   * it and nothing else: no later entry and no control.
   */
  lemma FailingLayoutCellAt(w: seq<PageItem>, hasPrev: bool, hasNext: bool, s: int)
    requires |w| <= ITEMS_PER_PAGE && FirstBadQuantity(w) < |w| && 0 <= s < SIZE
    ensures Paintable(Layout(w, hasPrev, hasNext), SIZE)
    ensures Painted(EmptySurface(SIZE), Layout(w, hasPrev, hasNext))[s] ==
        if s < FirstBadQuantity(w) then Some(Render(ContentItem(w[s], s))) else None
  {
    var k := FirstBadQuantity(w);
    var r := Layout(w, hasPrev, hasNext);
    LayoutPaintable(w, hasPrev, hasNext);
    PaintedAt(EmptySurface(SIZE), r, s);
    var i := LastIndexAt(r, s);
    if s < k {
      assert r[s].itemSlot == s;
    }
  }

  /**
   * On a window whose entries all pass, a content slot has an
   * auto-cancelling handler exactly when its entry has an action, the
   * controls' slots have the page-turning handlers exactly when the control
   * is shown, and no other slot has a handler.
   */
  lemma LayoutHandlerAt(w: seq<PageItem>, hasPrev: bool, hasNext: bool, s: int)
    requires |w| <= ITEMS_PER_PAGE && FirstBadQuantity(w) == |w|
    ensures var hs := LayoutHandlers(w, hasPrev, hasNext);
      (0 <= s < |w| ==>
        (s in hs <==> w[s].action.Some?)
        && (s in hs ==> hs[s] == AutoCancelHandler(UserCallback(w[s].action.value))))
      && (s == PREV_SLOT ==> (s in hs <==> hasPrev) && (s in hs ==> hs[s] == AutoCancelHandler(PreviousPage)))
      && (s == NEXT_SLOT ==> (s in hs <==> hasNext) && (s in hs ==> hs[s] == AutoCancelHandler(NextPage)))
      && (!(0 <= s < |w|) && s != PREV_SLOT && s != NEXT_SLOT ==> s !in hs)
  {
  }

  /** The items update() adds for a page. */
  function Shown(items: seq<PageItem>, page: int): seq<SlotItem>
    requires 0 <= page < TotalPages(|items|)
  {
    Layout(Window(items, page), page > 0, page < TotalPages(|items|) - 1)
  }

  /** The handlers update() installs for a page. */
  function ShownHandlers(items: seq<PageItem>, page: int): map<int, ClickHandler>
    requires 0 <= page < TotalPages(|items|)
  {
    LayoutHandlers(Window(items, page), page > 0, page < TotalPages(|items|) - 1)
  }

  /** What update() returns for a page. */
  function PageOutcome(items: seq<PageItem>, page: int): Outcome<GuiError>
    requires 0 <= page < TotalPages(|items|)
  {
    LayoutOutcome(Window(items, page))
  }

  /** Turning to the next page and back returns to the same page, so to the same layout. */
  lemma NextThenPreviousReturns(n: nat, page: int)
    requires 0 <= page < TotalPages(n) - 1
    ensures ClampPage(ClampPage(page + 1, n) - 1, n) == page
  {
  }

  /** Turning to the previous page and forward again returns to the same page. */
  lemma PreviousThenNextReturns(n: nat, page: int)
    requires 0 < page < TotalPages(n)
    ensures ClampPage(ClampPage(page - 1, n) + 1, n) == page
  {
  }

  /** An empty list is one page with nothing on it: no content and no control. */
  lemma EmptyListShowsNothing()
    ensures TotalPages(0) == 1
    ensures Shown([], 0) == [] && ShownHandlers([], 0) == map[] && PageOutcome([], 0).Pass?
  {
    assert ContentBatch([]) == [];
    assert ContentHandlers([], 0) == map[];
  }

  /** Fifty entries make two pages: 45 entries and a next arrow, then 5 entries and a previous arrow. */
  lemma FiftyItemsMakeTwoPages(items: seq<PageItem>)
    requires |items| == 50
    ensures TotalPages(|items|) == 2
    ensures Window(items, 0) == items[..45] && Window(items, 1) == items[45..]
    ensures PageOutcome(items, 0).Pass? ==> Shown(items, 0) == ContentBatch(items[..45]) + [NextControl]
    ensures PageOutcome(items, 1).Pass? ==> Shown(items, 1) == ContentBatch(items[45..]) + [PrevControl]
  {
    assert Controls(false, true) == [NextControl];
    assert Controls(true, false) == [PrevControl];
  }

  class PaginationMenu {
    const menu: Menu
    /** The constructor's copy of the caller's list. */
    const items: seq<PageItem>
    var currentPage: int

    ghost predicate Valid()
      reads this, menu, menu.router
    {
      menu.Valid() && menu.size == SIZE && 0 <= currentPage < TotalPages(|items|)
    }

    /** The menu shows exactly the items shown, rendered in order on a blank surface, with exactly the handlers hs. */
    ghost predicate Showing(shown: seq<SlotItem>, hs: map<int, ClickHandler>)
      reads this, menu, menu.router, menu.cells
    {
      menu.Valid() && menu.size == SIZE && Paintable(shown, SIZE)
      && menu.items == Elements(shown)
      && menu.cells[..] == Painted(EmptySurface(SIZE), shown)
      && menu.router.slotHandlers == hs
      && menu.router.closeHandler.None?
    }

    /** The menu shows exactly what update() puts there for the page, and nothing left from before. */
    ghost predicate Displays(page: int)
      reads this, menu, menu.router, menu.cells
      requires 0 <= page < TotalPages(|items|)
    {
      Showing(Shown(items, page), ShownHandlers(items, page))
    }

    constructor (menu: Menu, items: seq<PageItem>)
      ensures this.menu == menu && this.items == items && currentPage == 0
    {
      this.menu, this.items, currentPage := menu, items, 0;
    }

    /**
     * new PaginationMenu(plugin, title, items): builds the 54-slot menu and
     * shows page 0; it throws when update() does.
     */
    static method New(plugin: Plugin, title: Component, items: seq<PageItem>, inventory: InventoryId)
      returns (r: Result<PaginationMenu, GuiError>)
      ensures r.Failure? <==> PageOutcome(items, 0).Fail?
      ensures r.Failure? ==> r.error == PageOutcome(items, 0).error
      ensures r.Success? ==>
        fresh(r.value) && fresh(r.value.menu) && r.value.Valid() && r.value.items == items
        && r.value.currentPage == 0 && r.value.menu.inventory == inventory && r.value.menu.title == title
        && r.value.Displays(0)
    {
      var b := new MenuBuilder();
      b.SetPlugin(plugin);
      b.SetSize(SIZE);
      b.SetTitle(Some(title));
      HandlerFaultsEmptyIff(map[], SIZE);
      ItemFaultsEmptyIff({}, SIZE);
      var built := b.Build(inventory);
      var p := new PaginationMenu(built.value, items);
      var o := p.Update();
      if o.Fail? {
        return Failure(o.error);
      }
      r := Success(p);
    }

    /**
     * One addItems of a single content or control item, then its handler if
     * one is given. The slot is on the surface and free, so only the
     * quantity check can fail.
     */
    method Place(it: SlotItem, h: Option<ClickHandler>) returns (o: Outcome<GuiError>)
      requires menu.Valid() && menu.size == SIZE
      requires it.customItemStack.None? && it.material.Some? && 0 <= it.itemSlot < SIZE
      requires SlotFree(menu.items, it.itemSlot)
      modifies menu`items, menu.cells, menu.router`slotHandlers
      ensures menu.Valid()
      ensures o == if 1 <= it.quantity <= 64 then Pass else Fail(QuantityOutOfRange(it.itemSlot, it.quantity))
      ensures o.Fail? ==>
        menu.items == old(menu.items) && menu.cells[..] == old(menu.cells[..])
        && menu.router.slotHandlers == old(menu.router.slotHandlers)
      ensures o.Pass? ==>
        menu.items == old(menu.items) + {it}
        && menu.cells[..] == old(menu.cells[..])[it.itemSlot := Some(Render(it))]
        && menu.router.slotHandlers ==
             if h.Some? then old(menu.router.slotHandlers)[it.itemSlot := h.value] else old(menu.router.slotHandlers)
    {
      assert FirstInvalid(MenuAdd, menu.items, [it]) == if 1 <= it.quantity <= 64 then 1 else 0;
      assert FirstOffSurface([it], SIZE) == 1;
      assert [it][..1] == [it] && [it][..0] == [];
      assert Elements([it]) == {it};
      o := menu.AddItems([it]);
      if o.Fail? {
        return;
      }
      if h.Some? {
        var placed := menu.OnClick(it.itemSlot, h.value);
      }
    }

    /**
     * One pass of update()'s loop: the entry at the given slot is added, with
     * an auto-cancelling handler when it has an action, unless addItems
     * rejects its quantity.
     */
    method ShowEntry(item: PageItem, slot: nat, ghost shown: seq<SlotItem>, ghost w: seq<PageItem>)
      returns (o: Outcome<GuiError>)
      requires slot < |w| <= ITEMS_PER_PAGE && w[slot] == item && shown == ContentBatch(w)[..slot]
      requires Showing(shown, ContentHandlers(w, slot))
      modifies menu`items, menu.cells, menu.router`slotHandlers
      ensures o == if 1 <= item.quantity <= 64 then Pass else Fail(QuantityOutOfRange(slot, item.quantity))
      ensures o.Fail? ==> Showing(shown, ContentHandlers(w, slot))
      ensures o.Pass? ==> Showing(ContentBatch(w)[..slot + 1], ContentHandlers(w, slot + 1))
    {
      var h := if item.action.Some? then Some(AutoCancelHandler(UserCallback(item.action.value))) else None;
      var it := ContentItem(item, slot);
      assert SlotFree(menu.items, slot);
      o := Place(it, h);
      if o.Pass? {
        PaintedSnoc(EmptySurface(SIZE), shown, it);
        ElementsSnoc(shown, it);
        assert ContentBatch(w)[..slot + 1] == shown + [it];
        ContentHandlersSnoc(w, slot);
      }
    }

    /**
     * The content loop of update(): entry i of items[startIndex..endIndex) is
     * added at slot i - startIndex, until addItems rejects one.
     */
    method ShowContent(startIndex: int, endIndex: int, ghost hasPrev: bool, ghost hasNext: bool)
      returns (o: Outcome<GuiError>)
      requires 0 <= startIndex <= endIndex <= |items| && endIndex - startIndex <= ITEMS_PER_PAGE
      requires Showing([], map[])
      modifies menu`items, menu.cells, menu.router`slotHandlers
      ensures var w := items[startIndex..endIndex];
        o == LayoutOutcome(w)
        && (o.Fail? ==> Showing(Layout(w, hasPrev, hasNext), LayoutHandlers(w, hasPrev, hasNext)))
        && (o.Pass? ==> FirstBadQuantity(w) == |w| && Showing(ContentBatch(w), ContentHandlers(w, |w|)))
    {
      ghost var w := items[startIndex..endIndex];
      assert ContentBatch(w)[..0] == [];
      assert ContentHandlers(w, 0) == map[];
      o := Pass;
      var i := startIndex;
      while i < endIndex
        invariant startIndex <= i <= endIndex
        invariant Showing(ContentBatch(w)[..i - startIndex], ContentHandlers(w, i - startIndex))
        invariant i - startIndex <= FirstBadQuantity(w)
        invariant o == Pass
      {
        var item := items[i];
        var slot := i - startIndex;
        assert item == w[slot];
        o := ShowEntry(item, slot, ContentBatch(w)[..slot], w);
        if o.Fail? {
          FailingLayout(w, hasPrev, hasNext, slot);
          return;
        }
        i := i + 1;
      }
      PassingLayout(w);
    }

    /** Adds one page control and its handler to a menu that shows exactly shown, with the handlers hs. */
    method AddControl(it: SlotItem, h: ClickHandler, ghost shown: seq<SlotItem>, ghost hs: map<int, ClickHandler>)
      requires it == PrevControl || it == NextControl
      requires forall i :: 0 <= i < |shown| ==> shown[i].itemSlot != it.itemSlot
      requires Showing(shown, hs)
      modifies menu`items, menu.cells, menu.router`slotHandlers
      ensures Showing(shown + [it], hs[it.itemSlot := h])
    {
      assert SlotFree(menu.items, it.itemSlot);
      var o := Place(it, Some(h));
      PaintedSnoc(EmptySurface(SIZE), shown, it);
      ElementsSnoc(shown, it);
    }

    /** The part of update() after the page is clamped: the content loop, then the controls. */
    method ShowWindow(page: int) returns (o: Outcome<GuiError>)
      requires 0 <= page < TotalPages(|items|)
      requires Showing([], map[])
      modifies menu`items, menu.cells, menu.router`slotHandlers
      ensures var w := Window(items, page); var hasPrev, hasNext := page > 0, page < TotalPages(|items|) - 1;
        o == LayoutOutcome(w) && Showing(Layout(w, hasPrev, hasNext), LayoutHandlers(w, hasPrev, hasNext))
    {
      var totalPages := (|items| + ITEMS_PER_PAGE - 1) / ITEMS_PER_PAGE;
      if totalPages == 0 {
        totalPages := 1;
      }
      assert totalPages == TotalPages(|items|);
      TotalPagesBounds(|items|);
      var startIndex := page * ITEMS_PER_PAGE;
      var endIndex := if startIndex + ITEMS_PER_PAGE < |items| then startIndex + ITEMS_PER_PAGE else |items|;
      assert Window(items, page) == items[startIndex..endIndex];
      o := ShowContent(startIndex, endIndex, page > 0, page < totalPages - 1);
      if o.Fail? {
        return;
      }
      ShowControls(page > 0, page < totalPages - 1, items[startIndex..endIndex]);
    }

    /** The controls update() adds after a window whose entries all pass. */
    method ShowControls(hasPrev: bool, hasNext: bool, ghost w: seq<PageItem>)
      requires |w| <= ITEMS_PER_PAGE
      requires Showing(ContentBatch(w), ContentHandlers(w, |w|))
      modifies menu`items, menu.cells, menu.router`slotHandlers
      ensures Showing(ContentBatch(w) + Controls(hasPrev, hasNext), WithControls(ContentHandlers(w, |w|), hasPrev, hasNext))
    {
      ghost var shown := ContentBatch(w);
      ghost var hs := ContentHandlers(w, |w|);
      if hasPrev {
        AddControl(PrevControl, AutoCancelHandler(PreviousPage), shown, hs);
        shown, hs := shown + [PrevControl], hs[PREV_SLOT := AutoCancelHandler(PreviousPage)];
      }
      if hasNext {
        assert forall i :: 0 <= i < |shown| ==> shown[i].itemSlot < NEXT_SLOT;
        AddControl(NextControl, AutoCancelHandler(NextPage), shown, hs);
        shown := shown + [NextControl];
      }
      assert shown == ContentBatch(w) + Controls(hasPrev, hasNext);
    }

    /** The layout ShowWindow leaves is what update() shows for the page. */
    method ShowPage(page: int) returns (o: Outcome<GuiError>)
      requires 0 <= page < TotalPages(|items|)
      requires Showing([], map[])
      modifies menu`items, menu.cells, menu.router`slotHandlers
      ensures Displays(page)
      ensures o == PageOutcome(items, page)
    {
      o := ShowWindow(page);
    }

    /** The first two steps of update(): clear() and clearHandlers(). */
    method Reset()
      requires menu.Valid() && menu.size == SIZE
      modifies menu`items, menu.cells, menu.router`slotHandlers, menu.router`closeHandler
      ensures Showing([], map[])
    {
      menu.Clear();
      menu.ClearHandlers();
      assert Painted(EmptySurface(SIZE), []) == EmptySurface(SIZE);
    }

    /**
     * update(): clears the items and the handlers, clamps the page, adds the
     * page's content entries with their handlers, then the controls. An
     * entry addItems rejects ends it with that exception, the entries before
     * it in place and no controls.
     */
    method Update() returns (o: Outcome<GuiError>)
      requires menu.Valid() && menu.size == SIZE
      modifies this`currentPage, menu`items, menu.cells, menu.router`slotHandlers, menu.router`closeHandler
      ensures Valid()
      ensures currentPage == ClampPage(old(currentPage), |items|)
      ensures Displays(currentPage)
      ensures o == PageOutcome(items, currentPage)
    {
      Reset();
      var totalPages := (|items| + ITEMS_PER_PAGE - 1) / ITEMS_PER_PAGE;
      if totalPages == 0 {
        totalPages := 1;
      }
      if currentPage < 0 {
        currentPage := 0;
      }
      if currentPage >= totalPages {
        currentPage := totalPages - 1;
      }
      o := ShowPage(currentPage);
    }

    /**
     * The host delivers a click on the paged menu: the router dispatches it;
     * the next control's callback then does currentPage++ and update(), the
     * previous control's currentPage-- and update(). An exception of update()
     * inside the callback is swallowed by the handler.
     */
    method Click(e: ClickEvent) returns (invoked: Option<Callback>)
      requires Valid()
      modifies e, this`currentPage, menu`items, menu.cells, menu.router`slotHandlers, menu.router`closeHandler
      ensures Valid()
      ensures ClickResult(invoked, e.cancelled)
           == Dispatch(menu.inventory, old(menu.router.slotHandlers), SIZE, e.inventory, e.rawSlot, e.click, old(e.cancelled))
      ensures invoked == Some(NextPage) ==>
        currentPage == ClampPage(old(currentPage) + 1, |items|) && Displays(currentPage)
      ensures invoked == Some(PreviousPage) ==>
        currentPage == ClampPage(old(currentPage) - 1, |items|) && Displays(currentPage)
      ensures invoked != Some(NextPage) && invoked != Some(PreviousPage) ==>
        currentPage == old(currentPage) && menu.items == old(menu.items) && menu.cells[..] == old(menu.cells[..])
        && menu.router.slotHandlers == old(menu.router.slotHandlers)
        && menu.router.closeHandler == old(menu.router.closeHandler)
    {
      invoked := menu.router.OnInventoryClick(e);
      if invoked == Some(NextPage) {
        currentPage := currentPage + 1;
        var swallowed := Update();
      } else if invoked == Some(PreviousPage) {
        currentPage := currentPage - 1;
        var swallowed := Update();
      }
    }
  }
}
