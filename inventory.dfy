/**
 * The simpler inventory tool (components/tools/inventory-management/inventory-management.tsx):
 * stock rows with a storage location, a warehouse list, and a table that is
 * always sorted by one column. Deleting a warehouse here also deletes every
 * row stored in it, once its name has been typed to confirm.
 */
module Inventory {
  import opened Text
  import opened Lists
  import opened JsArray
  import opened SortKey
  import SpInventory

  /** `InventoryItem`, without `price` and `totalValue` (floating-point values this model leaves out). */
  datatype Item = Item(id: int, name: JsString, quantity: int, warehouse: JsString, location: JsString)

  /** The columns the table can be sorted by. */
  datatype Column = Name | Quantity | WarehouseName | Location | Price | TotalValue

  datatype Direction = Asc | Desc

  /** `updateQuantity`'s map: the rows with `id` get `Math.max(0, quantity + change)`. */
  function ChangeQuantity(items: seq<Item>, id: int, change: int): (r: seq<Item>)
    ensures |r| == |items|
    ensures forall i :: 0 <= i < |items| ==>
      r[i] == items[i].(quantity := r[i].quantity) &&
      (items[i].id == id ==> r[i].quantity == Max(0, items[i].quantity + change)) &&
      (items[i].id != id ==> r[i] == items[i])
  {
    Map(items, (item: Item) => if item.id == id then item.(quantity := Max(0, item.quantity + change)) else item)
  }

  /** A changed quantity is never negative, whatever the row held before. */
  lemma ChangeQuantityClamps(items: seq<Item>, id: int, change: int, i: int)
    requires 0 <= i < |items| && items[i].id == id
    ensures var r := ChangeQuantity(items, id, change);
      r[i].quantity >= 0 &&
      (items[i].quantity + change >= 0 ==> r[i].quantity == items[i].quantity + change)
  {
  }

  /** `deleteItem`'s filter: every row with `id` goes, the others stay as often as they were; `Filter` keeps their order (`Lists.FilterAppend`). */
  function RemoveItem(items: seq<Item>, id: int): (r: seq<Item>)
    ensures forall x :: x in r <==> x in items && x.id != id
    ensures forall x: Item :: x.id != id ==> multiset(r)[x] == multiset(items)[x]
  {
    var keep := (item: Item) => item.id != id;
    FilterKeepsCounts(items, keep);
    Filter(items, keep)
  }

  /** `saveEdit`'s map: the rows with `id` take the edited name, location and warehouse. */
  function EditItem(items: seq<Item>, id: int, name: JsString, location: JsString, warehouse: JsString): (r: seq<Item>)
    ensures |r| == |items|
    ensures forall i :: 0 <= i < |items| ==>
      r[i].id == items[i].id && r[i].quantity == items[i].quantity &&
      (items[i].id == id ==> r[i].name == name && r[i].location == location && r[i].warehouse == warehouse) &&
      (items[i].id != id ==> r[i] == items[i])
  {
    Map(items, (item: Item) => if item.id == id then item.(name := name, location := location, warehouse := warehouse) else item)
  }

  /** The warehouse `saveEdit` on the rows: those in `oldName` move to `newName`. */
  function RenameWarehouse(items: seq<Item>, oldName: JsString, newName: JsString): (r: seq<Item>)
    ensures |r| == |items|
    ensures forall i :: 0 <= i < |items| ==>
      r[i] == items[i].(warehouse := r[i].warehouse) &&
      r[i].warehouse == (if items[i].warehouse == oldName then newName else items[i].warehouse)
  {
    Map(items, (item: Item) => if item.warehouse == oldName then item.(warehouse := newName) else item)
  }

  /** `deleteWarehouse` on the rows: those stored in `warehouse` go, the others stay as often as they were; `Filter` keeps their order (`Lists.FilterAppend`). */
  function RemoveWarehouseItems(items: seq<Item>, warehouse: JsString): (r: seq<Item>)
    ensures forall x :: x in r <==> x in items && x.warehouse != warehouse
    ensures forall x: Item :: x.warehouse != warehouse ==> multiset(r)[x] == multiset(items)[x]
  {
    var keep := (item: Item) => item.warehouse != warehouse;
    FilterKeepsCounts(items, keep);
    Filter(items, keep)
  }

  /** The search box: the term, lower-cased, in the name, the warehouse or the location. */
  predicate MatchesSearch(item: Item, searchTerm: JsString)
  {
    var term := ToLowerCase(searchTerm);
    Includes(ToLowerCase(item.name), term) ||
    Includes(ToLowerCase(item.warehouse), term) ||
    Includes(ToLowerCase(item.location), term)
  }

  /** `filteredInventory` */
  function FilteredInventory(items: seq<Item>, searchTerm: JsString): (r: seq<Item>)
    ensures forall x :: x in r <==> x in items && MatchesSearch(x, searchTerm)
    ensures forall x: Item :: MatchesSearch(x, searchTerm) ==> multiset(r)[x] == multiset(items)[x]
  {
    var keep := (item: Item) => MatchesSearch(item, searchTerm);
    FilterKeepsCounts(items, keep);
    Filter(items, keep)
  }

  /** The value of a row in a column (`price` and `totalValue` are not modelled). */
  function ItemKey(column: Column): Item -> Key
  {
    (item: Item) =>
      match column
      case Name => Text(item.name)
      case Quantity => Number(item.quantity)
      case WarehouseName => Text(item.warehouse)
      case Location => Text(item.location)
      case Price => Unmodelled
      case TotalValue => Unmodelled
  }

  /** `sortedInventory`: the filtered rows sorted by the current column and direction. */
  function SortedInventory(view: seq<Item>, column: Column, direction: Direction): seq<Item>
  {
    SortBy(view, ByKey(ItemKey(column), direction == Asc))
  }

  /** The table holds the filtered rows, in the current column's order. */
  lemma SortedInventoryOrdered(view: seq<Item>, column: Column, direction: Direction)
    ensures var r := SortedInventory(view, column, direction);
      var key := ItemKey(column);
      multiset(r) == multiset(view) &&
      forall i, j :: 0 <= i < j < |r| ==>
        if direction == Asc then !KeyLess(key(r[j]), key(r[i])) else !KeyLess(key(r[i]), key(r[j]))
  {
    SortByKeyOrdered(view, ItemKey(column), direction == Asc);
  }

  /** `handleSort(column)`: the same column flips the direction, another column sorts ascending. */
  function NextSort(sortColumn: Column, sortDirection: Direction, column: Column): (r: (Column, Direction))
    ensures r.0 == column
    ensures column != sortColumn ==> r.1 == Asc
    ensures column == sortColumn ==> r.1 != sortDirection
  {
    if column == sortColumn then (sortColumn, if sortDirection == Asc then Desc else Asc)
    else (column, Asc)
  }

  /** Clicking the same column twice restores the order it had. */
  lemma NextSortTwice(sortColumn: Column, sortDirection: Direction, column: Column)
    ensures var (c, d) := NextSort(sortColumn, sortDirection, column);
      NextSort(c, d, column) == (column, if column == sortColumn then sortDirection else Desc)
  {
  }

  /** Everything the main component keeps in state. */
  datatype State = State(
    inventory: seq<Item>, warehouses: seq<JsString>,
    newItemName: JsString, newItemQuantity: Option<int>, newItemWarehouse: JsString,
    newItemLocation: JsString, newItemPrice: JsString, searchTerm: JsString,
    deleteConfirmOpen: bool, itemToDelete: Option<int>,
    editingItemId: Option<int>, editingItemName: JsString, editingItemLocation: JsString,
    editingItemWarehouse: JsString, sortColumn: Column, sortDirection: Direction)

  /**
   * The main component. `newItemQuantity` is `None` for an empty field and
   * otherwise the integer typed; the price fields are kept as text, since
   * only their emptiness is modelled.
   */
  class InventoryManagement {
    var inventory: seq<Item>
    var warehouses: seq<JsString>
    var newItemName: JsString
    var newItemQuantity: Option<int>
    var newItemWarehouse: JsString
    var newItemLocation: JsString
    var newItemPrice: JsString
    var searchTerm: JsString
    var deleteConfirmOpen: bool
    var itemToDelete: Option<int>
    var editingItemId: Option<int>
    var editingItemName: JsString
    var editingItemLocation: JsString
    var editingItemWarehouse: JsString
    var sortColumn: Column
    var sortDirection: Direction

    function Snapshot(): State
      reads this
    {
      State(inventory, warehouses, newItemName, newItemQuantity, newItemWarehouse, newItemLocation,
        newItemPrice, searchTerm, deleteConfirmOpen, itemToDelete, editingItemId, editingItemName,
        editingItemLocation, editingItemWarehouse, sortColumn, sortDirection)
    }

    constructor ()
      ensures Snapshot() == State([], [], [], None, [], [], [], [], false, None, None, [], [], [], Name, Asc)
    {
      inventory, warehouses := [], [];
      newItemName, newItemQuantity, newItemWarehouse, newItemLocation, newItemPrice := [], None, [], [], [];
      searchTerm := [];
      deleteConfirmOpen, itemToDelete := false, None;
      editingItemId, editingItemName, editingItemLocation, editingItemWarehouse := None, [], [], [];
      sortColumn, sortDirection := Name, Asc;
    }

    /** The form is complete: all five fields are filled in. */
    predicate FormComplete()
      reads this
    {
      newItemName != [] && newItemQuantity.Some? && newItemWarehouse != [] &&
      newItemLocation != [] && newItemPrice != []
    }

    /** `addItem()`, with `now` standing for `Date.now()`. */
    method AddItem(now: int)
      modifies this
      ensures !old(FormComplete()) ==> Snapshot() == old(Snapshot())
      ensures old(FormComplete()) ==>
        Snapshot() == old(Snapshot()).(
          inventory := old(inventory) +
            [Item(now, old(newItemName), old(newItemQuantity).value, old(newItemWarehouse), old(newItemLocation))],
          newItemName := [], newItemQuantity := None, newItemWarehouse := [],
          newItemLocation := [], newItemPrice := [])
    {
      if FormComplete() {
        var newItem := Item(now, newItemName, newItemQuantity.value, newItemWarehouse, newItemLocation);
        inventory := inventory + [newItem];
        newItemName, newItemQuantity, newItemWarehouse, newItemLocation, newItemPrice := [], None, [], [], [];
      }
    }

    /** `updateQuantity(id, change)` */
    method UpdateQuantity(id: int, change: int)
      modifies this
      ensures Snapshot() == old(Snapshot()).(inventory := ChangeQuantity(old(inventory), id, change))
    {
      inventory := ChangeQuantity(inventory, id, change);
    }

    /** `confirmDelete(id)`: remembers the row and opens the dialog. */
    method ConfirmDelete(id: int)
      modifies this
      ensures Snapshot() == old(Snapshot()).(itemToDelete := Some(id), deleteConfirmOpen := true)
    {
      itemToDelete := Some(id);
      deleteConfirmOpen := true;
    }

    /** `deleteItem()`: removes the remembered row, if any, and closes the dialog. */
    method DeleteItem()
      modifies this
      ensures old(itemToDelete).None? ==> Snapshot() == old(Snapshot())
      ensures old(itemToDelete).Some? ==>
        Snapshot() == old(Snapshot()).(
          inventory := RemoveItem(old(inventory), old(itemToDelete).value),
          deleteConfirmOpen := false, itemToDelete := None)
    {
      if itemToDelete.Some? {
        inventory := RemoveItem(inventory, itemToDelete.value);
        deleteConfirmOpen := false;
        itemToDelete := None;
      }
    }

    /** `startEditing(id, name, price, location, warehouse)`; the price is not modelled. */
    method StartEditing(id: int, name: JsString, location: JsString, warehouse: JsString)
      modifies this
      ensures Snapshot() == old(Snapshot()).(
        editingItemId := Some(id), editingItemName := name,
        editingItemLocation := location, editingItemWarehouse := warehouse)
    {
      editingItemId := Some(id);
      editingItemName := name;
      editingItemLocation := location;
      editingItemWarehouse := warehouse;
    }

    /** `saveEdit()`: edits the row being edited, if any, and leaves editing. */
    method SaveEdit()
      modifies this
      ensures Snapshot() == if old(editingItemId).None? then old(Snapshot())
        else old(Snapshot()).(
          inventory := EditItem(old(inventory), old(editingItemId).value,
            old(editingItemName), old(editingItemLocation), old(editingItemWarehouse)),
          editingItemId := None, editingItemName := [], editingItemLocation := [], editingItemWarehouse := [])
    {
      if editingItemId.Some? {
        inventory := EditItem(inventory, editingItemId.value, editingItemName, editingItemLocation, editingItemWarehouse);
        editingItemId := None;
        editingItemName, editingItemLocation, editingItemWarehouse := [], [], [];
      }
    }

    /** `handleSort(column)` */
    method HandleSort(column: Column)
      modifies this
      ensures Snapshot() == old(Snapshot()).(
        sortColumn := NextSort(old(sortColumn), old(sortDirection), column).0,
        sortDirection := NextSort(old(sortColumn), old(sortDirection), column).1)
    {
      if column == sortColumn {
        sortDirection := if sortDirection == Asc then Desc else Asc;
      } else {
        sortColumn := column;
        sortDirection := Asc;
      }
    }

    /** The table as shown: filtered by the search box, then sorted. */
    function Table(): seq<Item>
      reads this
    {
      SortedInventory(FilteredInventory(inventory, searchTerm), sortColumn, sortDirection)
    }
  }

  /** The warehouse tab, with the name typed to confirm a delete. */
  class WarehouseManagement {
    var newWarehouse: JsString
    var editingWarehouse: Option<JsString>
    var editedWarehouseName: JsString
    var deleteConfirmOpen: bool
    var warehouseToDelete: Option<JsString>
    var confirmDeleteName: JsString

    constructor ()
      ensures newWarehouse == [] && editingWarehouse == None && editedWarehouseName == []
      ensures !deleteConfirmOpen && warehouseToDelete == None && confirmDeleteName == []
    {
      newWarehouse, editingWarehouse, editedWarehouseName := [], None, [];
      deleteConfirmOpen, warehouseToDelete, confirmDeleteName := false, None, [];
    }

    /** `addWarehouse()` */
    method AddWarehouse(app: InventoryManagement)
      modifies this, app
      ensures app.Snapshot() == old(app.Snapshot()).(warehouses := SpInventory.AddWarehouseName(old(app.warehouses), old(newWarehouse)))
      ensures newWarehouse == if old(newWarehouse) != [] && old(newWarehouse) !in old(app.warehouses) then [] else old(newWarehouse)
      ensures editingWarehouse == old(editingWarehouse) && editedWarehouseName == old(editedWarehouseName)
      ensures deleteConfirmOpen == old(deleteConfirmOpen) && warehouseToDelete == old(warehouseToDelete)
      ensures confirmDeleteName == old(confirmDeleteName)
    {
      if newWarehouse != [] && newWarehouse !in app.warehouses {
        app.warehouses := app.warehouses + [newWarehouse];
        newWarehouse := [];
      }
    }

    /** `startEditing(warehouse)` */
    method StartEditing(warehouse: JsString)
      modifies this
      ensures editingWarehouse == Some(warehouse) && editedWarehouseName == warehouse
      ensures newWarehouse == old(newWarehouse)
      ensures deleteConfirmOpen == old(deleteConfirmOpen) && warehouseToDelete == old(warehouseToDelete)
      ensures confirmDeleteName == old(confirmDeleteName)
    {
      editingWarehouse := Some(warehouse);
      editedWarehouseName := warehouse;
    }

    /**
     * `saveEdit()`: with a non-empty warehouse being edited and a non-empty
     * new name, renames it in the list and in every row stored in it.
     */
    method SaveEdit(app: InventoryManagement)
      modifies this, app
      ensures var w, name := old(editingWarehouse), old(editedWarehouseName);
        app.Snapshot() == if w.Some? && w.value != [] && name != []
          then old(app.Snapshot()).(
            warehouses := SpInventory.ReplaceName(old(app.warehouses), w.value, name),
            inventory := RenameWarehouse(old(app.inventory), w.value, name))
          else old(app.Snapshot())
      ensures var w, name := old(editingWarehouse), old(editedWarehouseName);
        var saved := w.Some? && w.value != [] && name != [];
        editingWarehouse == (if saved then None else w) && editedWarehouseName == (if saved then [] else name)
      ensures newWarehouse == old(newWarehouse)
      ensures deleteConfirmOpen == old(deleteConfirmOpen) && warehouseToDelete == old(warehouseToDelete)
      ensures confirmDeleteName == old(confirmDeleteName)
    {
      if editingWarehouse.Some? && editingWarehouse.value != [] && editedWarehouseName != [] {
        var w := editingWarehouse.value;
        app.warehouses := SpInventory.ReplaceName(app.warehouses, w, editedWarehouseName);
        editingWarehouse := None;
        app.inventory := RenameWarehouse(app.inventory, w, editedWarehouseName);
        editedWarehouseName := [];
      }
    }

    /** `confirmDelete(warehouse)`: opens the dialog with an empty confirmation box. */
    method ConfirmDelete(warehouse: JsString)
      modifies this
      ensures warehouseToDelete == Some(warehouse) && deleteConfirmOpen && confirmDeleteName == []
      ensures newWarehouse == old(newWarehouse)
      ensures editingWarehouse == old(editingWarehouse) && editedWarehouseName == old(editedWarehouseName)
    {
      warehouseToDelete := Some(warehouse);
      deleteConfirmOpen := true;
      confirmDeleteName := [];
    }

    /** The confirmation box allows the delete: it holds exactly the (non-empty) warehouse's name. */
    predicate Confirmed()
      reads this
    {
      warehouseToDelete.Some? && warehouseToDelete.value != [] && confirmDeleteName == warehouseToDelete.value
    }

    /**
     * `deleteWarehouse()`: only once confirmed, removes the warehouse and
     * every row stored in it, and closes the dialog.
     */
    method DeleteWarehouse(app: InventoryManagement)
      modifies this, app
      ensures !old(Confirmed()) ==>
        app.Snapshot() == old(app.Snapshot()) && deleteConfirmOpen == old(deleteConfirmOpen) &&
        warehouseToDelete == old(warehouseToDelete) && confirmDeleteName == old(confirmDeleteName)
      ensures old(Confirmed()) ==>
        var w := old(warehouseToDelete).value;
        app.Snapshot() == old(app.Snapshot()).(
          warehouses := Filter(old(app.warehouses), (x: JsString) => x != w),
          inventory := RemoveWarehouseItems(old(app.inventory), w)) &&
        !deleteConfirmOpen && warehouseToDelete == None && confirmDeleteName == []
      ensures newWarehouse == old(newWarehouse)
      ensures editingWarehouse == old(editingWarehouse) && editedWarehouseName == old(editedWarehouseName)
    {
      if Confirmed() {
        var w := warehouseToDelete.value;
        app.warehouses := Filter(app.warehouses, (x: JsString) => x != w);
        app.inventory := RemoveWarehouseItems(app.inventory, w);
        deleteConfirmOpen := false;
        warehouseToDelete := None;
        confirmDeleteName := [];
      }
    }
  }

  /** After a confirmed delete no row is left in that warehouse, and no name in the list is it. */
  lemma DeleteWarehouseEmptiesIt(warehouses: seq<JsString>, items: seq<Item>, w: JsString)
    ensures var r := RemoveWarehouseItems(items, w);
      forall i :: 0 <= i < |r| ==> r[i].warehouse != w
    ensures w !in Filter(warehouses, (x: JsString) => x != w)
  {
    var r := RemoveWarehouseItems(items, w);
    forall i | 0 <= i < |r| ensures r[i].warehouse != w {
      assert r[i] in r;
    }
  }
}
