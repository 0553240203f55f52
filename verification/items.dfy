/** The predefined items of the game. */
module Items {
  import opened Inventory

  const BROKEN_SWORD_NAME: string := "Broken Sword"

  /** The broken sword the player pulls out of the bonfire. */
  function BrokenSword(): (item: Item)
    ensures item.name == BROKEN_SWORD_NAME && item.quantity == 1
    ensures item.imagePath == "icons/broken_sword.png"
    ensures item.description == "A sword that has seen better days. The blade is chipped and dull."
  {
    Item(BROKEN_SWORD_NAME,
         "A sword that has seen better days. The blade is chipped and dull.",
         1,
         "icons/broken_sword.png")
  }

  /** Picking up the sword and then dropping every "Broken Sword" leaves an
      inventory that held none exactly as it was. */
  lemma PickUpThenDropSword(inv: Inventory)
    requires CountNamed(inv.items, BROKEN_SWORD_NAME) == 0
    ensures RemoveItem(AddItem(inv, BrokenSword()), "Broken Sword") == inv
  {
    AddThenRemoveRestores(inv, BrokenSword());
  }
}
