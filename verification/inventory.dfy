/** The player's item list: items are plain values, the inventory is an
    ordered list of them, and both operations are old-list -> new-list. */
module Inventory {
  import opened Sequences

  /** The source stores the quantity in a C++ `int`. */
  newtype int32 = x: int | -0x8000_0000 <= x < 0x8000_0000

  /** One inventory entry. The getters of the source are the field names. */
  datatype Item = Item(name: string, description: string, quantity: int32, imagePath: string)

  datatype Inventory = Inventory(items: seq<Item>)

  /** Replaces the quantity and nothing else. */
  function SetQuantity(item: Item, newQuantity: int32): (r: Item)
    ensures r.quantity == newQuantity
    ensures r.name == item.name && r.description == item.description
    ensures r.imagePath == item.imagePath
  {
    item.(quantity := newQuantity)
  }

  /** The constructor keeps the given list as it is. */
  function NewInventory(itemsList: seq<Item>): (inv: Inventory)
    ensures |inv.items| == |itemsList|
    ensures forall i :: 0 <= i < |itemsList| ==> inv.items[i] == itemsList[i]
  {
    Inventory(itemsList)
  }

  /** The number of entries carrying a given name. */
  function CountNamed(items: seq<Item>, name: string): nat {
    if |items| == 0 then 0
    else (if items[0].name == name then 1 else 0) + CountNamed(items[1..], name)
  }

  /** Appends at the end; an entry with the same name is not merged. */
  function AddItem(inv: Inventory, item: Item): (r: Inventory)
    ensures |r.items| == |inv.items| + 1
    ensures r.items[..|inv.items|] == inv.items && r.items[|inv.items|] == item
  {
    Inventory(inv.items + [item])
  }

  /** The stable erase-if over the entries named `name`. */
  function EraseNamed(items: seq<Item>, name: string): (r: seq<Item>)
    ensures forall i :: 0 <= i < |r| ==> r[i].name != name
    ensures forall x: Item :: x.name != name ==> multiset(r)[x] == multiset(items)[x]
    ensures IsSubsequence(r, items)
  {
    if |items| == 0 then []
    else
      var rest := EraseNamed(items[1..], name);
      assert items == [items[0]] + items[1..];
      if items[0].name == name then
        SubsequenceOfTail(rest, items);
        rest
      else
        [items[0]] + rest
  }

  /** Removes every entry whose name is `name`. */
  function RemoveItem(inv: Inventory, name: string): (r: Inventory)
    ensures forall i :: 0 <= i < |r.items| ==> r.items[i].name != name
    ensures forall x: Item :: x.name != name ==> multiset(r.items)[x] == multiset(inv.items)[x]
    ensures IsSubsequence(r.items, inv.items)
  {
    Inventory(EraseNamed(inv.items, name))
  }

  /** Erasing a name that no entry carries changes nothing. */
  lemma {:induction false} EraseAbsentUnchanged(items: seq<Item>, name: string)
    requires forall i :: 0 <= i < |items| ==> items[i].name != name
    ensures EraseNamed(items, name) == items
  {
    if |items| > 0 {
      EraseAbsentUnchanged(items[1..], name);
      assert items == [items[0]] + items[1..];
    }
  }

  lemma RemoveAbsentUnchanged(inv: Inventory, name: string)
    requires CountNamed(inv.items, name) == 0
    ensures RemoveItem(inv, name) == inv
  {
    CountZeroMeansAbsent(inv.items, name);
    EraseAbsentUnchanged(inv.items, name);
  }

  lemma {:induction false} CountZeroMeansAbsent(items: seq<Item>, name: string)
    ensures CountNamed(items, name) == 0 <==> forall i :: 0 <= i < |items| ==> items[i].name != name
  {
    if |items| > 0 {
      CountZeroMeansAbsent(items[1..], name);
      assert forall i :: 1 <= i < |items| ==> items[i] == items[1..][i - 1];
    }
  }

  /** Removing the same name twice is the same as removing it once. */
  lemma RemoveIdempotent(inv: Inventory, name: string)
    ensures RemoveItem(RemoveItem(inv, name), name) == RemoveItem(inv, name)
  {
    EraseAbsentUnchanged(RemoveItem(inv, name).items, name);
  }

  lemma {:induction false} CountAppend(items: seq<Item>, item: Item, name: string)
    ensures CountNamed(items + [item], name) == CountNamed(items, name) + (if item.name == name then 1 else 0)
  {
    if |items| > 0 {
      assert (items + [item])[1..] == items[1..] + [item];
      CountAppend(items[1..], item, name);
    }
  }

  /** Adding never merges: the entries named like the new item grow by one,
      so adding a second item of an existing name leaves two of them. */
  lemma AddItemNeverMerges(inv: Inventory, item: Item)
    ensures CountNamed(AddItem(inv, item).items, item.name) == CountNamed(inv.items, item.name) + 1
    ensures CountNamed(inv.items, item.name) >= 1 ==> CountNamed(AddItem(inv, item).items, item.name) >= 2
  {
    CountAppend(inv.items, item, item.name);
  }

  /** On a list holding no entry of that name, adding an item and then
      removing its name restores the list. */
  lemma AddThenRemoveRestores(inv: Inventory, item: Item)
    requires CountNamed(inv.items, item.name) == 0
    ensures RemoveItem(AddItem(inv, item), item.name) == inv
  {
    CountZeroMeansAbsent(inv.items, item.name);
    EraseAppendNamed(inv.items, item);
    EraseAbsentUnchanged(inv.items, item.name);
  }

  lemma {:induction false} EraseAppendNamed(items: seq<Item>, item: Item)
    ensures EraseNamed(items + [item], item.name) == EraseNamed(items, item.name)
  {
    if |items| == 0 {
      assert items + [item] == [item];
      assert EraseNamed([item][1..], item.name) == [];
    } else {
      assert (items + [item])[1..] == items[1..] + [item];
      EraseAppendNamed(items[1..], item);
    }
  }
}
