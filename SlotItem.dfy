/**
 * The immutable description of one slot's item and the builder that
 * accumulates it.
 */
module SlotItems {
  import opened Wrappers
  import opened Bukkit

  /**
   * One item of a menu. Every reference field of the Java record that may be
   * null is an Option; collections are values, so a built item shares nothing
   * with the builder that made it.
   */
  datatype SlotItem = SlotItem(
    itemName: Option<Component>,
    itemSlot: int,
    material: Option<Material>,
    quantity: int,
    lore: Option<seq<Component>>,
    enchantments: Option<map<Enchantment, int>>,
    customItemStack: Option<ItemStack>,
    customModelData: Option<int>,
    damage: Option<int>,
    itemFlags: Option<set<ItemFlag>>)

  /** The legacy four-argument constructor of the record. */
  function Legacy(itemName: Component, itemSlot: int, material: Material, quantity: int): (r: SlotItem)
    ensures r.itemName == Some(itemName) && r.itemSlot == itemSlot
    ensures r.material == Some(material) && r.quantity == quantity
    ensures r.lore.None? && r.enchantments.None? && r.customItemStack.None?
    ensures r.customModelData.None? && r.damage.None? && r.itemFlags.None?
  {
    SlotItem(Some(itemName), itemSlot, Some(material), quantity, None, None, None, None, None, None)
  }

  /** The lore a builder holds, null read as no lines. */
  function LoreLines(lore: Option<seq<Component>>): seq<Component> {
    if lore.None? then [] else lore.value
  }

  /** The lore after addLore(lines): the existing lines, then the new ones in argument order. */
  function AppendLore(lore: Option<seq<Component>>, lines: seq<Component>): (r: seq<Component>)
    ensures |r| == |LoreLines(lore)| + |lines|
    ensures r[..|LoreLines(lore)|] == LoreLines(lore)
    ensures r[|LoreLines(lore)|..] == lines
    ensures lore.None? ==> r == lines
  {
    LoreLines(lore) + lines
  }

  /** The enchantments a builder holds, null read as none. */
  function EnchantmentsOf(m: Option<map<Enchantment, int>>): map<Enchantment, int> {
    if m.None? then map[] else m.value
  }

  /** The enchantments after addEnchantment(e, level): e maps to level, every other entry is kept. */
  function PutEnchantment(m: Option<map<Enchantment, int>>, e: Enchantment, level: int): (r: map<Enchantment, int>)
    ensures r.Keys == EnchantmentsOf(m).Keys + {e}
    ensures r[e] == level
    ensures forall k :: k in EnchantmentsOf(m) && k != e ==> r[k] == EnchantmentsOf(m)[k]
  {
    EnchantmentsOf(m)[e := level]
  }

  /** The flags a builder holds, null read as none. */
  function FlagsOf(f: Option<set<ItemFlag>>): set<ItemFlag> {
    if f.None? then {} else f.value
  }

  /** The flags after addItemFlags(flags): the union of the existing flags and the new ones. */
  function AddFlags(f: Option<set<ItemFlag>>, flags: seq<ItemFlag>): (r: set<ItemFlag>)
    ensures forall x :: x in r <==> x in FlagsOf(f) || x in flags
  {
    FlagsOf(f) + set x | x in flags
  }

  /** Adding lines one call at a time is the same as adding them in one call. */
  lemma AddLoreComposes(lore: Option<seq<Component>>, first: seq<Component>, second: seq<Component>)
    ensures AppendLore(Some(AppendLore(lore, first)), second) == AppendLore(lore, first + second)
  {
    assert LoreLines(lore) + first + second == LoreLines(lore) + (first + second);
  }

  /** A later addEnchantment for the same enchantment overwrites the earlier level. */
  lemma AddEnchantmentLastWins(m: Option<map<Enchantment, int>>, e: Enchantment, first: int, second: int)
    ensures PutEnchantment(Some(PutEnchantment(m, e, first)), e, second) == PutEnchantment(m, e, second)
  {
  }

  /** addEnchantment calls for different enchantments commute. */
  lemma AddEnchantmentsCommute(m: Option<map<Enchantment, int>>, e1: Enchantment, l1: int, e2: Enchantment, l2: int)
    requires e1 != e2
    ensures PutEnchantment(Some(PutEnchantment(m, e1, l1)), e2, l2)
         == PutEnchantment(Some(PutEnchantment(m, e2, l2)), e1, l1)
  {
  }

  /** Adding flags one call at a time gives the union of all of them; repeating a flag changes nothing. */
  lemma AddFlagsComposes(f: Option<set<ItemFlag>>, first: seq<ItemFlag>, second: seq<ItemFlag>)
    ensures AddFlags(Some(AddFlags(f, first)), second) == AddFlags(f, first + second)
    ensures AddFlags(Some(AddFlags(f, first)), first) == AddFlags(f, first)
  {
  }

  /**
   * The builder. Its setters overwrite one field each; the add* methods
   * accumulate into the current collection.
   */
  class Builder {
    var itemName: Option<Component>
    const itemSlot: int
    var material: Option<Material>
    var quantity: int
    var lore: Option<seq<Component>>
    var enchantments: Option<map<Enchantment, int>>
    var customItemStack: Option<ItemStack>
    var customModelData: Option<int>
    var damage: Option<int>
    var itemFlags: Option<set<ItemFlag>>

    /** SlotItem.builder(slot): quantity 1, every other field null. */
    constructor (itemSlot: int)
      ensures Build() == SlotItem(None, itemSlot, None, 1, None, None, None, None, None, None)
    {
      this.itemSlot := itemSlot;
      itemName, material, quantity := None, None, 1;
      lore, enchantments, customItemStack := None, None, None;
      customModelData, damage, itemFlags := None, None, None;
    }

    /** build(): the record carries every field as set, with no validation of slot, material or quantity. */
    function Build(): (r: SlotItem)
      reads this
      ensures r.itemName == itemName && r.itemSlot == itemSlot && r.material == material
      ensures r.quantity == quantity && r.lore == lore && r.enchantments == enchantments
      ensures r.customItemStack == customItemStack && r.customModelData == customModelData
      ensures r.damage == damage && r.itemFlags == itemFlags
    {
      SlotItem(itemName, itemSlot, material, quantity, lore, enchantments,
               customItemStack, customModelData, damage, itemFlags)
    }

    method SetItemName(name: Option<Component>)
      modifies this
      ensures Build() == old(Build()).(itemName := name)
    {
      itemName := name;
    }

    method SetMaterial(m: Option<Material>)
      modifies this
      ensures Build() == old(Build()).(material := m)
    {
      material := m;
    }

    method SetQuantity(q: int)
      modifies this
      ensures Build() == old(Build()).(quantity := q)
    {
      quantity := q;
    }

    method SetLore(l: Option<seq<Component>>)
      modifies this
      ensures Build() == old(Build()).(lore := l)
    {
      lore := l;
    }

    /** addLore(line) and addLore(lines...): append after any existing lore. */
    method AddLore(lines: seq<Component>)
      modifies this
      ensures Build() == old(Build()).(lore := Some(AppendLore(old(lore), lines)))
    {
      lore := Some(LoreLines(lore) + lines);
    }

    method SetEnchantments(m: Option<map<Enchantment, int>>)
      modifies this
      ensures Build() == old(Build()).(enchantments := m)
    {
      enchantments := m;
    }

    /** addEnchantment(e, level): put e -> level into the current map. */
    method AddEnchantment(e: Enchantment, level: int)
      modifies this
      ensures Build() == old(Build()).(enchantments := Some(PutEnchantment(old(enchantments), e, level)))
    {
      enchantments := Some(EnchantmentsOf(enchantments)[e := level]);
    }

    method SetCustomItemStack(s: Option<ItemStack>)
      modifies this
      ensures Build() == old(Build()).(customItemStack := s)
    {
      customItemStack := s;
    }

    method SetCustomModelData(d: Option<int>)
      modifies this
      ensures Build() == old(Build()).(customModelData := d)
    {
      customModelData := d;
    }

    method SetDamage(d: Option<int>)
      modifies this
      ensures Build() == old(Build()).(damage := d)
    {
      damage := d;
    }

    method SetItemFlags(f: Option<set<ItemFlag>>)
      modifies this
      ensures Build() == old(Build()).(itemFlags := f)
    {
      itemFlags := f;
    }

    /** addItemFlag(flag) and addItemFlags(flags...): union into the current set. */
    method AddItemFlags(flags: seq<ItemFlag>)
      modifies this
      ensures Build() == old(Build()).(itemFlags := Some(AddFlags(old(itemFlags), flags)))
    {
      itemFlags := Some(FlagsOf(itemFlags) + set x | x in flags);
    }
  }
}
