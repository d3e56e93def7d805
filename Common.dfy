/** Option and outcome wrappers used throughout the model. */
module Wrappers {

  /** A Java reference that may be null. */
  datatype Option<+T> = None | Some(value: T)

  /** The result of a void Java method that may throw. */
  datatype Outcome<+E> = Pass | Fail(error: E)

  /** The result of a Java method that returns a value or throws. */
  datatype Result<+T, +E> = Success(value: T) | Failure(error: E)
}

/**
 * The host (Bukkit / Adventure) values the library handles. They are kept
 * as plain data: the library only stores, compares and forwards them.
 */
module Bukkit {
  import opened Wrappers

  /** A named text colour of the Adventure text library. */
  datatype NamedTextColor = NamedTextColor(name: string)

  const GREEN := NamedTextColor("green")
  const RED := NamedTextColor("red")
  const YELLOW := NamedTextColor("yellow")

  /** An Adventure text component: its text and an optional colour. */
  datatype Component = Text(content: string, color: Option<NamedTextColor>)

  /** An entry of the material catalogue, by its key. */
  datatype Material = Material(key: string)

  const ARROW := Material("ARROW")
  const LIME_WOOL := Material("LIME_WOOL")
  const RED_WOOL := Material("RED_WOOL")

  /** An entry of the enchantment catalogue, by its key. */
  datatype Enchantment = Enchantment(key: string)

  /** An entry of the item-flag catalogue, by its key. */
  datatype ItemFlag = ItemFlag(key: string)

  /** A pre-built item stack supplied by the caller (its NBT is the tag). */
  datatype ItemStack = ItemStack(material: Material, amount: int, tag: nat)

  /** The identity of one host inventory (the surface a menu renders into). */
  datatype InventoryId = InventoryId(id: nat)

  /** The identity of a player (the viewer of a surface). */
  datatype PlayerId = PlayerId(id: nat)

  /** The plugin that owns a menu. */
  datatype Plugin = Plugin(name: string)
}

/** Every exception the core can throw, one constructor per throw site kind. */
module Errors {

  datatype GuiError =
    /** ClickHandler: "Callback cannot be null". */
    | MissingCallback
    /** MenuClickHandler.setClickHandler: slot outside [0, inventory size). */
    | SlotOutsideInventory(slot: int, size: int)
    /** A slot outside 0..53 ("must be between 0 and 53"). */
    | SlotOutOfRange(slot: int)
    /** Menu.addItems: neither a material nor a custom stack. */
    | MissingMaterial(slot: int)
    /** A quantity outside 1..64. */
    | QuantityOutOfRange(slot: int, quantity: int)
    /** A slot already held by an existing item. */
    | SlotOccupied(slot: int)
    /** fillEmptyWith / fillExcept before a positive size is set (IllegalStateException). */
    | SizeNotSet
    /** fillRange with start < 0, end > 54 or start >= end. */
    | InvalidRange(start: int, end: int)
    /** MenuBuilder.build: the three size checks, in their order. */
    | SizeNotPositive(size: int)
    | SizeNotMultipleOfNine(size: int)
    | SizeTooLarge(size: int)
    /** MenuBuilder.build: title or plugin is null. */
    | TitleMissing
    | PluginMissing
    /** createItemStack: neither a custom stack nor a material (IllegalStateException). */
    | NotRenderable(slot: int)
    /** The host inventory rejects a cell index outside [0, size). */
    | SurfaceIndexOutOfBounds(slot: int)
}
