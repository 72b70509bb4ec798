/**
 * The inventory tool with suppliers, products and outbound records
 * (components/tools/sp-inventory-management/inventory-management.tsx).
 *
 * The page keeps five lists: the stock rows, the warehouse names, the
 * suppliers, the products and the outbound records. Every handler replaces
 * some of them; renaming a warehouse, supplier or product rewrites the rows
 * and records that mention the old name. The filtered and sorted table is a
 * pure view of the stock rows.
 */
module SpInventory {
  import opened Text
  import opened Lists
  import opened JsArray
  import opened SortKey

  /** `InventoryItem`, without `unitPrice` (a floating-point value this model leaves out). */
  datatype Item = Item(id: int, name: JsString, quantity: int, warehouse: JsString, supplier: JsString)

  /** `Supplier` and `Product` have the same shape: an id and a name. */
  datatype Named = Named(id: int, name: JsString)

  type Supplier = Named

  type Product = Named

  datatype OutboundRecord = OutboundRecord(
    id: int, productId: int, productName: JsString, quantity: int,
    recipient: JsString, date: JsString, warehouse: JsString, supplier: JsString)

  /** The columns the table can be sorted by. */
  datatype Column = Name | Quantity | WarehouseName | UnitPrice | SupplierName | TotalValue

  datatype Direction = Ascending | Descending

  datatype SortConfig = SortConfig(key: Column, direction: Direction)

  /** `updateQuantity`'s map: the rows with `id` get `Math.max(0, quantity + change)`. */
  function ChangeQuantity(items: seq<Item>, id: int, change: int): (r: seq<Item>)
    ensures |r| == |items|
    ensures forall i :: 0 <= i < |items| ==>
      r[i] == items[i].(quantity := r[i].quantity) &&
      (items[i].id == id ==> r[i].quantity == Max(0, items[i].quantity + change)) &&
      (items[i].id != id ==> r[i] == items[i])
  {
    Map(items, (item: Item) => if item.id == id then item.(quantity := Max(0, item.quantity + change)) else item)
  }

  /** Stock never goes below zero: non-negative quantities stay non-negative. */
  lemma ChangeQuantityKeepsStock(items: seq<Item>, id: int, change: int)
    requires forall i :: 0 <= i < |items| ==> items[i].quantity >= 0
    ensures var r := ChangeQuantity(items, id, change);
      forall i :: 0 <= i < |r| ==> r[i].quantity >= 0
  {
  }

  /** `deleteItem`'s filter: every row with `id` goes, the others stay as often as they were; `Filter` keeps their order (`Lists.FilterAppend`). */
  function RemoveItem(items: seq<Item>, id: int): (r: seq<Item>)
    ensures forall x :: x in r <==> x in items && x.id != id
    ensures forall x: Item :: x.id != id ==> multiset(r)[x] == multiset(items)[x]
  {
    var keep := (item: Item) => item.id != id;
    FilterKeepsCounts(items, keep);
    Filter(items, keep)
  }

  /** `saveEdit`'s map: the rows with `id` take the new name; nothing else changes. */
  function RenameItem(items: seq<Item>, id: int, newName: JsString): (r: seq<Item>)
    ensures |r| == |items|
    ensures forall i :: 0 <= i < |items| ==>
      r[i] == items[i].(name := r[i].name) &&
      r[i].name == (if items[i].id == id then newName else items[i].name)
  {
    Map(items, (item: Item) => if item.id == id then item.(name := newName) else item)
  }

  /** `updateWarehouseName` on the stock rows. */
  function RenameWarehouse(items: seq<Item>, oldName: JsString, newName: JsString): (r: seq<Item>)
    ensures |r| == |items|
    ensures forall i :: 0 <= i < |items| ==>
      r[i] == items[i].(warehouse := r[i].warehouse) &&
      r[i].warehouse == (if items[i].warehouse == oldName then newName else items[i].warehouse)
  {
    Map(items, (item: Item) => if item.warehouse == oldName then item.(warehouse := newName) else item)
  }

  /** `updateWarehouseName` on the outbound records. */
  function RenameRecordWarehouse(records: seq<OutboundRecord>, oldName: JsString, newName: JsString): (r: seq<OutboundRecord>)
    ensures |r| == |records|
    ensures forall i :: 0 <= i < |records| ==>
      r[i] == records[i].(warehouse := r[i].warehouse) &&
      r[i].warehouse == (if records[i].warehouse == oldName then newName else records[i].warehouse)
  {
    Map(records, (rec: OutboundRecord) => if rec.warehouse == oldName then rec.(warehouse := newName) else rec)
  }

  /** `updateSupplierName` on the stock rows. */
  function RenameSupplier(items: seq<Item>, oldName: JsString, newName: JsString): (r: seq<Item>)
    ensures |r| == |items|
    ensures forall i :: 0 <= i < |items| ==>
      r[i] == items[i].(supplier := r[i].supplier) &&
      r[i].supplier == (if items[i].supplier == oldName then newName else items[i].supplier)
  {
    Map(items, (item: Item) => if item.supplier == oldName then item.(supplier := newName) else item)
  }

  /** `updateSupplierName` on the outbound records. */
  function RenameRecordSupplier(records: seq<OutboundRecord>, oldName: JsString, newName: JsString): (r: seq<OutboundRecord>)
    ensures |r| == |records|
    ensures forall i :: 0 <= i < |records| ==>
      r[i] == records[i].(supplier := r[i].supplier) &&
      r[i].supplier == (if records[i].supplier == oldName then newName else records[i].supplier)
  {
    Map(records, (rec: OutboundRecord) => if rec.supplier == oldName then rec.(supplier := newName) else rec)
  }

  /** `updateProductName` on the stock rows. */
  function RenameProduct(items: seq<Item>, oldName: JsString, newName: JsString): (r: seq<Item>)
    ensures |r| == |items|
    ensures forall i :: 0 <= i < |items| ==>
      r[i] == items[i].(name := r[i].name) &&
      r[i].name == (if items[i].name == oldName then newName else items[i].name)
  {
    Map(items, (item: Item) => if item.name == oldName then item.(name := newName) else item)
  }

  /** `updateProductName` on the outbound records. */
  function RenameRecordProduct(records: seq<OutboundRecord>, oldName: JsString, newName: JsString): (r: seq<OutboundRecord>)
    ensures |r| == |records|
    ensures forall i :: 0 <= i < |records| ==>
      r[i] == records[i].(productName := r[i].productName) &&
      r[i].productName == (if records[i].productName == oldName then newName else records[i].productName)
  {
    Map(records, (rec: OutboundRecord) => if rec.productName == oldName then rec.(productName := newName) else rec)
  }

  /** Renaming a warehouse to a name no row uses yet, and back, restores every row. */
  lemma RenameWarehouseBack(items: seq<Item>, oldName: JsString, newName: JsString)
    requires forall i :: 0 <= i < |items| ==> items[i].warehouse != newName
    ensures RenameWarehouse(RenameWarehouse(items, oldName, newName), newName, oldName) == items
  {
    var r := RenameWarehouse(RenameWarehouse(items, oldName, newName), newName, oldName);
    forall i | 0 <= i < |items| ensures r[i] == items[i] {
    }
  }

  /** The search box: the term, lower-cased, in the name, the warehouse or the supplier. */
  predicate MatchesSearch(item: Item, searchTerm: JsString)
  {
    var term := ToLowerCase(searchTerm);
    Includes(ToLowerCase(item.name), term) ||
    Includes(ToLowerCase(item.warehouse), term) ||
    Includes(ToLowerCase(item.supplier), term)
  }

  /** `filteredInventory` */
  function FilteredInventory(items: seq<Item>, searchTerm: JsString): (r: seq<Item>)
    ensures forall x :: x in r <==> x in items && MatchesSearch(x, searchTerm)
    ensures forall x: Item :: MatchesSearch(x, searchTerm) ==> multiset(r)[x] == multiset(items)[x]
  {
    var keep := (item: Item) => MatchesSearch(item, searchTerm);
    FilterKeepsCounts(items, keep);
    Filter(items, keep)
  }

  /** An empty search box shows every row, in order. */
  lemma EmptySearchKeepsAll(items: seq<Item>)
    ensures FilteredInventory(items, []) == items
  {
    var keep := (item: Item) => MatchesSearch(item, []);
    forall i | 0 <= i < |items| ensures keep(items[i]) {
      IncludesEmpty(ToLowerCase(items[i].name));
    }
    FilterKeepsAll(items, keep);
  }

  /** The value of a row in the column `key` (`unitPrice` and `totalValue` are not modelled). */
  function ItemKey(key: Column): Item -> Key
  {
    (item: Item) =>
      match key
      case Name => Text(item.name)
      case Quantity => Number(item.quantity)
      case WarehouseName => Text(item.warehouse)
      case SupplierName => Text(item.supplier)
      case UnitPrice => Unmodelled
      case TotalValue => Unmodelled
  }

  /** `sortedInventory`: the filtered rows, sorted by the chosen column if there is one. */
  function SortedInventory(view: seq<Item>, sortConfig: Option<SortConfig>): seq<Item>
  {
    match sortConfig
    case None => view
    case Some(config) => SortBy(view, ByKey(ItemKey(config.key), config.direction == Ascending))
  }

  /** The sorted table holds the filtered rows, in the chosen column's order. */
  lemma SortedInventoryOrdered(view: seq<Item>, config: SortConfig)
    ensures var r := SortedInventory(view, Some(config));
      var key := ItemKey(config.key);
      multiset(r) == multiset(view) &&
      forall i, j :: 0 <= i < j < |r| ==>
        if config.direction == Ascending then !KeyLess(key(r[j]), key(r[i])) else !KeyLess(key(r[i]), key(r[j]))
  {
    SortByKeyOrdered(view, ItemKey(config.key), config.direction == Ascending);
  }

  /** `requestSort(key)`: descending only when the same column is currently ascending. */
  function NextSortConfig(sortConfig: Option<SortConfig>, key: Column): (r: SortConfig)
    ensures r.key == key
    ensures r.direction == Descending <==> sortConfig == Some(SortConfig(key, Ascending))
  {
    if sortConfig.Some? && sortConfig.value.key == key && sortConfig.value.direction == Ascending
    then SortConfig(key, Descending)
    else SortConfig(key, Ascending)
  }

  /** Clicking one column header three times: ascending, descending, ascending again. */
  lemma RequestSortCycles(sortConfig: Option<SortConfig>, key: Column)
    requires sortConfig.None? || sortConfig.value.key != key
    ensures NextSortConfig(Some(NextSortConfig(sortConfig, key)), key) == SortConfig(key, Descending)
    ensures NextSortConfig(Some(NextSortConfig(Some(NextSortConfig(sortConfig, key)), key)), key) ==
      SortConfig(key, Ascending)
  {
  }

  /** Every value in `names` is different. */
  predicate Distinct(names: seq<JsString>)
  {
    forall i, j :: 0 <= i < j < |names| ==> names[i] != names[j]
  }

  /** `addWarehouse`'s update: a new, non-empty name is appended; anything else is refused. */
  function AddWarehouseName(warehouses: seq<JsString>, name: JsString): (r: seq<JsString>)
    ensures name == [] || name in warehouses ==> r == warehouses
    ensures name != [] && name !in warehouses ==> r == warehouses + [name]
    ensures Distinct(warehouses) ==> Distinct(r)
  {
    if name != [] && name !in warehouses then warehouses + [name] else warehouses
  }

  /** The names of a supplier or product list. */
  function Names(entries: seq<Named>): (r: seq<JsString>)
    ensures |r| == |entries|
    ensures forall i :: 0 <= i < |entries| ==> r[i] == entries[i].name
  {
    Map(entries, (e: Named) => e.name)
  }

  /**
   * `addSupplier` and `addProduct`'s update: a new, non-empty name is
   * appended with the id given; anything else is refused.
   */
  function AddNamed(entries: seq<Named>, name: JsString, id: int): (r: seq<Named>)
    ensures name == [] || name in Names(entries) ==> r == entries
    ensures name != [] && name !in Names(entries) ==> r == entries + [Named(id, name)]
    ensures Distinct(Names(entries)) ==> Distinct(Names(r))
  {
    if name != [] && name !in Names(entries) then
      var r := entries + [Named(id, name)];
      assert Names(r) == Names(entries) + [name];
      r
    else entries
  }

  /** `entries.find(e => e.id === id)` */
  function NamedById(entries: seq<Named>, id: int): (r: Option<Named>)
    ensures r.None? <==> forall i :: 0 <= i < |entries| ==> entries[i].id != id
    ensures r.Some? ==>
      r.value.id == id &&
      exists i :: 0 <= i < |entries| && entries[i] == r.value && forall j :: 0 <= j < i ==> entries[j].id != id
  {
    Find(entries, (e: Named) => e.id == id)
  }

  /** The edit's map: the entries with `id` take the new name; nothing else changes. */
  function RenameById(entries: seq<Named>, id: int, newName: JsString): (r: seq<Named>)
    ensures |r| == |entries|
    ensures forall i :: 0 <= i < |entries| ==>
      r[i].id == entries[i].id &&
      r[i].name == (if entries[i].id == id then newName else entries[i].name)
  {
    Map(entries, (e: Named) => if e.id == id then e.(name := newName) else e)
  }

  /** The delete's filter: the entries with `id` go, the others stay as often as they were; `Filter` keeps their order (`Lists.FilterAppend`). */
  function WithoutId(entries: seq<Named>, id: int): (r: seq<Named>)
    ensures forall x :: x in r <==> x in entries && x.id != id
    ensures forall x: Named :: x.id != id ==> multiset(r)[x] == multiset(entries)[x]
  {
    var keep := (e: Named) => e.id != id;
    FilterKeepsCounts(entries, keep);
    Filter(entries, keep)
  }

  /** The first stock row with that name, as `inventory.find(item => item.name === name)`. */
  function FirstNamed(items: seq<Item>, name: JsString): (r: Option<Item>)
    ensures r.None? <==> forall i :: 0 <= i < |items| ==> items[i].name != name
    ensures r.Some? ==>
      r.value.name == name &&
      exists i :: 0 <= i < |items| && items[i] == r.value && forall j :: 0 <= j < i ==> items[j].name != name
  {
    Find(items, (item: Item) => item.name == name)
  }

  /** A shipment recorded: the record appended, and the stock of its product lowered, never below zero. */
  function WithShipment(s: State, record: OutboundRecord): State
  {
    s.(outboundRecords := s.outboundRecords + [record],
       inventory := ChangeQuantity(s.inventory, record.productId, -record.quantity))
  }

  /** `updateWarehouseName` on the whole state: stock rows and records renamed. */
  function WarehouseRenamed(s: State, oldName: JsString, newName: JsString): State
  {
    s.(inventory := RenameWarehouse(s.inventory, oldName, newName),
       outboundRecords := RenameRecordWarehouse(s.outboundRecords, oldName, newName))
  }

  /** `updateSupplierName` on the whole state. */
  function SupplierRenamed(s: State, oldName: JsString, newName: JsString): State
  {
    s.(inventory := RenameSupplier(s.inventory, oldName, newName),
       outboundRecords := RenameRecordSupplier(s.outboundRecords, oldName, newName))
  }

  /** `updateProductName` on the whole state. */
  function ProductRenamed(s: State, oldName: JsString, newName: JsString): State
  {
    s.(inventory := RenameProduct(s.inventory, oldName, newName),
       outboundRecords := RenameRecordProduct(s.outboundRecords, oldName, newName))
  }

  /**
   * The state after a supplier's rename to `newName`: the supplier list renamed by id
   * and, when the supplier was found under a non-empty name, its stock rows and
   * records too.
   */
  function SupplierEdited(s: State, id: int, newName: JsString): State
  {
    var renamed := s.(suppliers := RenameById(s.suppliers, id, newName));
    var found := NamedById(s.suppliers, id);
    if found.Some? && found.value.name != [] then SupplierRenamed(renamed, found.value.name, newName) else renamed
  }

  /**
   * The state after a product's rename to `newName`: the product list renamed by id
   * and, when the product was found under a non-empty name, its stock rows and
   * records too.
   */
  function ProductEdited(s: State, id: int, newName: JsString): State
  {
    var renamed := s.(products := RenameById(s.products, id, newName));
    var found := NamedById(s.products, id);
    if found.Some? && found.value.name != [] then ProductRenamed(renamed, found.value.name, newName) else renamed
  }

  /** Everything the main component keeps in state. */
  datatype State = State(
    inventory: seq<Item>, warehouses: seq<JsString>, suppliers: seq<Supplier>, products: seq<Product>,
    outboundRecords: seq<OutboundRecord>, sortConfig: Option<SortConfig>,
    newItemName: JsString, newItemQuantity: Option<int>, newItemWarehouse: JsString,
    newItemUnitPrice: JsString, newItemSupplier: JsString, searchTerm: JsString,
    deleteConfirmOpen: bool, itemToDelete: Option<int>, editingItemId: Option<int>, editingItemName: JsString)

  /**
   * The main component. `newItemQuantity` is `None` for an empty field and
   * otherwise the integer typed; `newItemUnitPrice` is kept as text, since
   * only its emptiness is modelled.
   */
  class InventoryManagement {
    var inventory: seq<Item>
    var warehouses: seq<JsString>
    var suppliers: seq<Supplier>
    var products: seq<Product>
    var outboundRecords: seq<OutboundRecord>
    var sortConfig: Option<SortConfig>
    var newItemName: JsString
    var newItemQuantity: Option<int>
    var newItemWarehouse: JsString
    var newItemUnitPrice: JsString
    var newItemSupplier: JsString
    var searchTerm: JsString
    var deleteConfirmOpen: bool
    var itemToDelete: Option<int>
    var editingItemId: Option<int>
    var editingItemName: JsString

    function Snapshot(): State
      reads this
    {
      State(inventory, warehouses, suppliers, products, outboundRecords, sortConfig,
        newItemName, newItemQuantity, newItemWarehouse, newItemUnitPrice, newItemSupplier, searchTerm,
        deleteConfirmOpen, itemToDelete, editingItemId, editingItemName)
    }

    constructor ()
      ensures Snapshot() == State([], [], [], [], [], None, [], None, [], [], [], [], false, None, None, [])
    {
      inventory, warehouses, suppliers, products, outboundRecords := [], [], [], [], [];
      sortConfig := None;
      newItemName, newItemQuantity, newItemWarehouse, newItemUnitPrice, newItemSupplier := [], None, [], [], [];
      searchTerm := [];
      deleteConfirmOpen, itemToDelete, editingItemId, editingItemName := false, None, None, [];
    }

    /** The form is complete: all five fields are filled in. */
    predicate FormComplete()
      reads this
    {
      newItemName != [] && newItemQuantity.Some? && newItemWarehouse != [] &&
      newItemUnitPrice != [] && newItemSupplier != []
    }

    /** `addItem()`, with `now` standing for `Date.now()`. */
    method AddItem(now: int)
      modifies this
      ensures !old(FormComplete()) ==> Snapshot() == old(Snapshot())
      ensures old(FormComplete()) ==>
        Snapshot() == old(Snapshot()).(
          inventory := old(inventory) +
            [Item(now, old(newItemName), old(newItemQuantity).value, old(newItemWarehouse), old(newItemSupplier))],
          newItemName := [], newItemQuantity := None, newItemWarehouse := [],
          newItemUnitPrice := [], newItemSupplier := [])
    {
      if FormComplete() {
        var newItem := Item(now, newItemName, newItemQuantity.value, newItemWarehouse, newItemSupplier);
        inventory := inventory + [newItem];
        newItemName, newItemQuantity, newItemWarehouse, newItemUnitPrice, newItemSupplier := [], None, [], [], [];
      }
    }

    /** `updateQuantity(id, change)` */
    method UpdateQuantity(id: int, change: int)
      modifies this
      ensures Snapshot() == old(Snapshot()).(inventory := ChangeQuantity(old(inventory), id, change))
    {
      inventory := ChangeQuantity(inventory, id, change);
    }

    /** `confirmDelete(id)`: remembers the row and opens the dialog. */
    method ConfirmDelete(id: int)
      modifies this
      ensures Snapshot() == old(Snapshot()).(itemToDelete := Some(id), deleteConfirmOpen := true)
    {
      itemToDelete := Some(id);
      deleteConfirmOpen := true;
    }

    /** `deleteItem()`: removes the remembered row, if any, and closes the dialog. */
    method DeleteItem()
      modifies this
      ensures old(itemToDelete).None? ==> Snapshot() == old(Snapshot())
      ensures old(itemToDelete).Some? ==>
        Snapshot() == old(Snapshot()).(
          inventory := RemoveItem(old(inventory), old(itemToDelete).value),
          deleteConfirmOpen := false, itemToDelete := None)
    {
      if itemToDelete.Some? {
        inventory := RemoveItem(inventory, itemToDelete.value);
        deleteConfirmOpen := false;
        itemToDelete := None;
      }
    }

    /** `startEditing(id, name)` */
    method StartEditing(id: int, name: JsString)
      modifies this
      ensures Snapshot() == old(Snapshot()).(editingItemId := Some(id), editingItemName := name)
    {
      editingItemId := Some(id);
      editingItemName := name;
    }

    /** `saveEdit()`: renames the row being edited, if any, and leaves editing. */
    method SaveEdit()
      modifies this
      ensures old(editingItemId).None? ==> Snapshot() == old(Snapshot())
      ensures old(editingItemId).Some? ==>
        Snapshot() == old(Snapshot()).(
          inventory := RenameItem(old(inventory), old(editingItemId).value, old(editingItemName)),
          editingItemId := None, editingItemName := [])
    {
      if editingItemId.Some? {
        inventory := RenameItem(inventory, editingItemId.value, editingItemName);
        editingItemId := None;
        editingItemName := [];
      }
    }

    /** `requestSort(key)` */
    method RequestSort(key: Column)
      modifies this
      ensures Snapshot() == old(Snapshot()).(sortConfig := Some(NextSortConfig(old(sortConfig), key)))
    {
      sortConfig := Some(NextSortConfig(sortConfig, key));
    }

    /** The table as shown: filtered by the search box, then sorted. */
    function Table(): seq<Item>
      reads this
    {
      SortedInventory(FilteredInventory(inventory, searchTerm), sortConfig)
    }

    /**
     * `addOutboundRecord(...)`, with `now` and `date` standing for
     * `Date.now()` and `new Date().toISOString()`: records the shipment and
     * lowers the stock of the rows with `productId`, never below zero.
     */
    method AddOutboundRecord(productId: int, productName: JsString, quantity: int, recipient: JsString,
                             warehouse: JsString, supplier: JsString, now: int, date: JsString)
      modifies this
      ensures Snapshot() == WithShipment(old(Snapshot()),
        OutboundRecord(now, productId, productName, quantity, recipient, date, warehouse, supplier))
    {
      var newRecord := OutboundRecord(now, productId, productName, quantity, recipient, date, warehouse, supplier);
      ghost var shipped := WithShipment(Snapshot(), newRecord);
      outboundRecords := outboundRecords + [newRecord];
      inventory := ChangeQuantity(inventory, productId, -quantity);
      assert Snapshot() == shipped;
    }

    /** `updateWarehouseName(oldName, newName)` */
    method UpdateWarehouseName(oldName: JsString, newName: JsString)
      modifies this
      ensures Snapshot() == WarehouseRenamed(old(Snapshot()), oldName, newName)
    {
      inventory := RenameWarehouse(inventory, oldName, newName);
      outboundRecords := RenameRecordWarehouse(outboundRecords, oldName, newName);
    }

    /** `updateSupplierName(oldName, newName)` */
    method UpdateSupplierName(oldName: JsString, newName: JsString)
      modifies this
      ensures Snapshot() == SupplierRenamed(old(Snapshot()), oldName, newName)
    {
      inventory := RenameSupplier(inventory, oldName, newName);
      outboundRecords := RenameRecordSupplier(outboundRecords, oldName, newName);
    }

    /** `updateProductName(oldName, newName)` */
    method UpdateProductName(oldName: JsString, newName: JsString)
      modifies this
      ensures Snapshot() == ProductRenamed(old(Snapshot()), oldName, newName)
    {
      inventory := RenameProduct(inventory, oldName, newName);
      outboundRecords := RenameRecordProduct(outboundRecords, oldName, newName);
    }
  }

  /** `warehouses.map(w => w === oldName ? newName : w)` */
  function ReplaceName(names: seq<JsString>, oldName: JsString, newName: JsString): (r: seq<JsString>)
    ensures |r| == |names|
    ensures forall i :: 0 <= i < |names| ==> r[i] == if names[i] == oldName then newName else names[i]
  {
    Map(names, (w: JsString) => if w == oldName then newName else w)
  }

  /** The warehouse tab: its add box, the name being edited and the name to delete. */
  class WarehouseManagement {
    var newWarehouse: JsString
    var editingWarehouse: Option<JsString>
    var editedWarehouseName: JsString
    var deleteConfirmOpen: bool
    var warehouseToDelete: Option<JsString>

    constructor ()
      ensures newWarehouse == [] && editingWarehouse == None && editedWarehouseName == []
      ensures !deleteConfirmOpen && warehouseToDelete == None
    {
      newWarehouse, editingWarehouse, editedWarehouseName := [], None, [];
      deleteConfirmOpen, warehouseToDelete := false, None;
    }

    /** `addWarehouse()` */
    method AddWarehouse(app: InventoryManagement)
      modifies this, app
      ensures app.Snapshot() == old(app.Snapshot()).(warehouses := AddWarehouseName(old(app.warehouses), old(newWarehouse)))
      ensures newWarehouse == if old(newWarehouse) != [] && old(newWarehouse) !in old(app.warehouses) then [] else old(newWarehouse)
      ensures editingWarehouse == old(editingWarehouse) && editedWarehouseName == old(editedWarehouseName)
      ensures deleteConfirmOpen == old(deleteConfirmOpen) && warehouseToDelete == old(warehouseToDelete)
    {
      if newWarehouse != [] && newWarehouse !in app.warehouses {
        app.warehouses := app.warehouses + [newWarehouse];
        newWarehouse := [];
      }
    }

    /** `startEditing(warehouse)` */
    method StartEditing(warehouse: JsString)
      modifies this
      ensures editingWarehouse == Some(warehouse) && editedWarehouseName == warehouse
      ensures newWarehouse == old(newWarehouse)
      ensures deleteConfirmOpen == old(deleteConfirmOpen) && warehouseToDelete == old(warehouseToDelete)
    {
      editingWarehouse := Some(warehouse);
      editedWarehouseName := warehouse;
    }

    /**
     * `saveEdit()`: with a warehouse being edited and a non-empty new name,
     * renames it in the list and, through `updateWarehouseName`, in every row
     * and record.
     */
    method SaveEdit(app: InventoryManagement)
      modifies this, app
      ensures var w, name := old(editingWarehouse), old(editedWarehouseName);
        app.Snapshot() == if w.Some? && w.value != [] && name != []
          then WarehouseRenamed(old(app.Snapshot()).(warehouses := ReplaceName(old(app.warehouses), w.value, name)), w.value, name)
          else old(app.Snapshot())
      ensures var w, name := old(editingWarehouse), old(editedWarehouseName);
        var saved := w.Some? && w.value != [] && name != [];
        editingWarehouse == (if saved then None else w) && editedWarehouseName == (if saved then [] else name)
      ensures newWarehouse == old(newWarehouse)
      ensures deleteConfirmOpen == old(deleteConfirmOpen) && warehouseToDelete == old(warehouseToDelete)
    {
      if editingWarehouse.Some? && editingWarehouse.value != [] && editedWarehouseName != [] {
        app.warehouses := ReplaceName(app.warehouses, editingWarehouse.value, editedWarehouseName);
        app.UpdateWarehouseName(editingWarehouse.value, editedWarehouseName);
        editingWarehouse := None;
        editedWarehouseName := [];
      }
    }

    /** `confirmDelete(warehouse)` */
    method ConfirmDelete(warehouse: JsString)
      modifies this
      ensures warehouseToDelete == Some(warehouse) && deleteConfirmOpen
      ensures newWarehouse == old(newWarehouse)
      ensures editingWarehouse == old(editingWarehouse) && editedWarehouseName == old(editedWarehouseName)
    {
      warehouseToDelete := Some(warehouse);
      deleteConfirmOpen := true;
    }

    /**
     * `deleteWarehouse()`: drops the name from the list; the stock rows and
     * records that mention it are left as they are.
     */
    method DeleteWarehouse(app: InventoryManagement)
      modifies this, app
      ensures var w := old(warehouseToDelete);
        !(w.Some? && w.value != []) ==>
          app.Snapshot() == old(app.Snapshot()) &&
          deleteConfirmOpen == old(deleteConfirmOpen) && warehouseToDelete == old(warehouseToDelete)
      ensures var w := old(warehouseToDelete);
        w.Some? && w.value != [] ==>
          app.Snapshot() == old(app.Snapshot()).(warehouses := Filter(old(app.warehouses), (x: JsString) => x != w.value)) &&
          !deleteConfirmOpen && warehouseToDelete == None
      ensures newWarehouse == old(newWarehouse)
      ensures editingWarehouse == old(editingWarehouse) && editedWarehouseName == old(editedWarehouseName)
    {
      if warehouseToDelete.Some? && warehouseToDelete.value != [] {
        var w := warehouseToDelete.value;
        app.warehouses := Filter(app.warehouses, (x: JsString) => x != w);
        deleteConfirmOpen := false;
        warehouseToDelete := None;
      }
    }
  }

  /** The supplier tab: its add box, the supplier being edited and the one to delete. */
  class SupplierManagement {
    var newSupplier: JsString
    var editingSupplier: Option<int>
    var editedSupplierName: JsString
    var deleteConfirmOpen: bool
    var supplierToDelete: Option<int>

    constructor ()
      ensures newSupplier == [] && editingSupplier == None && editedSupplierName == []
      ensures !deleteConfirmOpen && supplierToDelete == None
    {
      newSupplier, editingSupplier, editedSupplierName := [], None, [];
      deleteConfirmOpen, supplierToDelete := false, None;
    }

    /** `addSupplier()`, with `now` standing for `Date.now()`. */
    method AddSupplier(app: InventoryManagement, now: int)
      modifies this, app
      ensures app.Snapshot() == old(app.Snapshot()).(suppliers := AddNamed(old(app.suppliers), old(newSupplier), now))
      ensures newSupplier == if old(newSupplier) != [] && old(newSupplier) !in Names(old(app.suppliers)) then [] else old(newSupplier)
      ensures editingSupplier == old(editingSupplier) && editedSupplierName == old(editedSupplierName)
      ensures deleteConfirmOpen == old(deleteConfirmOpen) && supplierToDelete == old(supplierToDelete)
    {
      if newSupplier != [] && newSupplier !in Names(app.suppliers) {
        app.suppliers := app.suppliers + [Named(now, newSupplier)];
        newSupplier := [];
      }
    }

    /** `startEditing(supplier)` */
    method StartEditing(supplier: Supplier)
      modifies this
      ensures editingSupplier == Some(supplier.id) && editedSupplierName == supplier.name
      ensures newSupplier == old(newSupplier)
      ensures deleteConfirmOpen == old(deleteConfirmOpen) && supplierToDelete == old(supplierToDelete)
    {
      editingSupplier := Some(supplier.id);
      editedSupplierName := supplier.name;
    }

    /** The part of `saveEdit()` that changes the main component's state. */
    method Rename(app: InventoryManagement, id: int, newName: JsString)
      modifies app
      ensures app.Snapshot() == SupplierEdited(old(app.Snapshot()), id, newName)
    {
      var oldName := NamedById(app.suppliers, id);
      app.suppliers := RenameById(app.suppliers, id, newName);
      if oldName.Some? && oldName.value.name != [] {
        app.UpdateSupplierName(oldName.value.name, newName);
      }
    }

    /**
     * `saveEdit()`: with a supplier being edited and a non-empty new name,
     * renames it in the list and, when its old name is non-empty, in every
     * stock row and record through `updateSupplierName`.
     */
    method SaveEdit(app: InventoryManagement)
      modifies this, app
      ensures app.Snapshot() == if old(editingSupplier).Some? && old(editedSupplierName) != []
        then SupplierEdited(old(app.Snapshot()), old(editingSupplier).value, old(editedSupplierName))
        else old(app.Snapshot())
      ensures var saved := old(editingSupplier).Some? && old(editedSupplierName) != [];
        editingSupplier == (if saved then None else old(editingSupplier)) &&
        editedSupplierName == (if saved then [] else old(editedSupplierName))
      ensures newSupplier == old(newSupplier)
      ensures deleteConfirmOpen == old(deleteConfirmOpen) && supplierToDelete == old(supplierToDelete)
    {
      if editingSupplier.Some? && editedSupplierName != [] {
        Rename(app, editingSupplier.value, editedSupplierName);
        editingSupplier := None;
        editedSupplierName := [];
      }
    }

    /** `confirmDelete(id)` */
    method ConfirmDelete(id: int)
      modifies this
      ensures supplierToDelete == Some(id) && deleteConfirmOpen
      ensures newSupplier == old(newSupplier)
      ensures editingSupplier == old(editingSupplier) && editedSupplierName == old(editedSupplierName)
    {
      supplierToDelete := Some(id);
      deleteConfirmOpen := true;
    }

    /**
     * `deleteSupplier()`: drops the supplier from the list; the stock rows
     * and records that name it are left as they are.
     */
    method DeleteSupplier(app: InventoryManagement)
      modifies this, app
      ensures old(supplierToDelete).None? ==>
        app.Snapshot() == old(app.Snapshot()) && deleteConfirmOpen == old(deleteConfirmOpen) && supplierToDelete == None
      ensures old(supplierToDelete).Some? ==>
        app.Snapshot() == old(app.Snapshot()).(suppliers := WithoutId(old(app.suppliers), old(supplierToDelete).value)) &&
        !deleteConfirmOpen && supplierToDelete == None
      ensures newSupplier == old(newSupplier)
      ensures editingSupplier == old(editingSupplier) && editedSupplierName == old(editedSupplierName)
    {
      if supplierToDelete.Some? {
        app.suppliers := WithoutId(app.suppliers, supplierToDelete.value);
        deleteConfirmOpen := false;
        supplierToDelete := None;
      }
    }
  }

  /** The product tab: its add box, the product being edited and the one to delete. */
  class ProductManagement {
    var newProduct: JsString
    var editingProduct: Option<int>
    var editedProductName: JsString
    var deleteConfirmOpen: bool
    var productToDelete: Option<int>

    constructor ()
      ensures newProduct == [] && editingProduct == None && editedProductName == []
      ensures !deleteConfirmOpen && productToDelete == None
    {
      newProduct, editingProduct, editedProductName := [], None, [];
      deleteConfirmOpen, productToDelete := false, None;
    }

    /** `addProduct()`, with `now` standing for `Date.now()`. */
    method AddProduct(app: InventoryManagement, now: int)
      modifies this, app
      ensures app.Snapshot() == old(app.Snapshot()).(products := AddNamed(old(app.products), old(newProduct), now))
      ensures newProduct == if old(newProduct) != [] && old(newProduct) !in Names(old(app.products)) then [] else old(newProduct)
      ensures editingProduct == old(editingProduct) && editedProductName == old(editedProductName)
      ensures deleteConfirmOpen == old(deleteConfirmOpen) && productToDelete == old(productToDelete)
    {
      if newProduct != [] && newProduct !in Names(app.products) {
        app.products := app.products + [Named(now, newProduct)];
        newProduct := [];
      }
    }

    /** `startEditing(product)` */
    method StartEditing(product: Product)
      modifies this
      ensures editingProduct == Some(product.id) && editedProductName == product.name
      ensures newProduct == old(newProduct)
      ensures deleteConfirmOpen == old(deleteConfirmOpen) && productToDelete == old(productToDelete)
    {
      editingProduct := Some(product.id);
      editedProductName := product.name;
    }

    /** The part of `saveEdit()` that changes the main component's state. */
    method Rename(app: InventoryManagement, id: int, newName: JsString)
      modifies app
      ensures app.Snapshot() == ProductEdited(old(app.Snapshot()), id, newName)
    {
      var oldName := NamedById(app.products, id);
      app.products := RenameById(app.products, id, newName);
      if oldName.Some? && oldName.value.name != [] {
        app.UpdateProductName(oldName.value.name, newName);
      }
    }

    /**
     * `saveEdit()`: with a product being edited and a non-empty new name,
     * renames it in the list and, when its old name is non-empty, in every
     * stock row and record through `updateProductName`.
     */
    method SaveEdit(app: InventoryManagement)
      modifies this, app
      ensures app.Snapshot() == if old(editingProduct).Some? && old(editedProductName) != []
        then ProductEdited(old(app.Snapshot()), old(editingProduct).value, old(editedProductName))
        else old(app.Snapshot())
      ensures var saved := old(editingProduct).Some? && old(editedProductName) != [];
        editingProduct == (if saved then None else old(editingProduct)) &&
        editedProductName == (if saved then [] else old(editedProductName))
      ensures newProduct == old(newProduct)
      ensures deleteConfirmOpen == old(deleteConfirmOpen) && productToDelete == old(productToDelete)
    {
      if editingProduct.Some? && editedProductName != [] {
        Rename(app, editingProduct.value, editedProductName);
        editingProduct := None;
        editedProductName := [];
      }
    }

    /** `confirmDelete(id)` */
    method ConfirmDelete(id: int)
      modifies this
      ensures productToDelete == Some(id) && deleteConfirmOpen
      ensures newProduct == old(newProduct)
      ensures editingProduct == old(editingProduct) && editedProductName == old(editedProductName)
    {
      productToDelete := Some(id);
      deleteConfirmOpen := true;
    }

    /**
     * `deleteProduct()`: drops the product from the list; the stock rows and
     * records that name it are left as they are.
     */
    method DeleteProduct(app: InventoryManagement)
      modifies this, app
      ensures old(productToDelete).None? ==>
        app.Snapshot() == old(app.Snapshot()) && deleteConfirmOpen == old(deleteConfirmOpen) && productToDelete == None
      ensures old(productToDelete).Some? ==>
        app.Snapshot() == old(app.Snapshot()).(products := WithoutId(old(app.products), old(productToDelete).value)) &&
        !deleteConfirmOpen && productToDelete == None
      ensures newProduct == old(newProduct)
      ensures editingProduct == old(editingProduct) && editedProductName == old(editedProductName)
    {
      if productToDelete.Some? {
        app.products := WithoutId(app.products, productToDelete.value);
        deleteConfirmOpen := false;
        productToDelete := None;
      }
    }
  }

  /** What the outbound button does with the form as filled in. */
  datatype Outbound = Ignored | Refused | Ship(item: Item, quantity: int)

  /**
   * `handleOutbound`'s decision: the first stock row named like the selected
   * product, a quantity and a recipient are all needed; more than is in
   * stock is refused with an alert; anything else ships.
   */
  function DecideOutbound(inventory: seq<Item>, selectedProduct: JsString, quantity: Option<int>, recipient: JsString): (r: Outbound)
    ensures r.Ignored? <==>
      quantity.None? || recipient == [] || forall i :: 0 <= i < |inventory| ==> inventory[i].name != selectedProduct
    ensures r.Refused? <==>
      quantity.Some? && recipient != [] && FirstNamed(inventory, selectedProduct).Some? &&
      quantity.value > FirstNamed(inventory, selectedProduct).value.quantity
    ensures r.Ship? ==>
      Some(r.item) == FirstNamed(inventory, selectedProduct) &&
      r.item.name == selectedProduct && r.item in inventory && r.quantity <= r.item.quantity &&
      Some(r.quantity) == quantity && recipient != []
  {
    var product := FirstNamed(inventory, selectedProduct);
    if product.None? || quantity.None? || recipient == [] then Ignored
    else if quantity.value > product.value.quantity then Refused
    else Ship(product.value, quantity.value)
  }

  /**
   * A shipment out of stock that was not negative leaves the stock not
   * negative, and the shipped row `k` loses exactly the quantity shipped
   * (a negative quantity raises it).
   */
  lemma ShipmentFromStock(inventory: seq<Item>, selectedProduct: JsString, quantity: Option<int>, recipient: JsString, k: int)
    requires forall i :: 0 <= i < |inventory| ==> inventory[i].quantity >= 0
    requires DecideOutbound(inventory, selectedProduct, quantity, recipient).Ship?
    requires 0 <= k < |inventory| && inventory[k] == DecideOutbound(inventory, selectedProduct, quantity, recipient).item
    ensures var d := DecideOutbound(inventory, selectedProduct, quantity, recipient);
      var r := ChangeQuantity(inventory, d.item.id, -d.quantity);
      (forall i :: 0 <= i < |r| ==> r[i].quantity >= 0) &&
      (d.quantity >= 0 ==> r[k].quantity == inventory[k].quantity - d.quantity) &&
      (d.quantity < 0 ==> r[k].quantity > inventory[k].quantity)
  {
    var d := DecideOutbound(inventory, selectedProduct, quantity, recipient);
    TakeFromRow(inventory, k, d.quantity);
  }

  /** Taking `q`, at most its stock, from row `k` through its id. */
  lemma TakeFromRow(inventory: seq<Item>, k: int, q: int)
    requires forall i :: 0 <= i < |inventory| ==> inventory[i].quantity >= 0
    requires 0 <= k < |inventory| && q <= inventory[k].quantity
    ensures var r := ChangeQuantity(inventory, inventory[k].id, -q);
      (forall i :: 0 <= i < |r| ==> r[i].quantity >= 0) &&
      (q >= 0 ==> r[k].quantity == inventory[k].quantity - q) &&
      (q < 0 ==> r[k].quantity > inventory[k].quantity)
  {
    ChangeQuantityKeepsStock(inventory, inventory[k].id, -q);
  }

  /** The outbound tab's form. `outboundQuantity` is `None` for an empty field. */
  class OutboundManagement {
    var selectedProduct: JsString
    var outboundQuantity: Option<int>
    var recipient: JsString

    constructor ()
      ensures selectedProduct == [] && outboundQuantity == None && recipient == []
    {
      selectedProduct, outboundQuantity, recipient := [], None, [];
    }

    /** What the outbound button would do now. */
    function Pending(app: InventoryManagement): Outbound
      reads this, app
    {
      DecideOutbound(app.inventory, selectedProduct, outboundQuantity, recipient)
    }

    /**
     * `handleOutbound()`, with `now` and `date` standing for `Date.now()`
     * and the ISO date; `alerted` is whether the too-large quantity alert
     * was shown. A shipment is recorded, lowers the stock and clears the
     * form; anything else changes nothing.
     */
    method HandleOutbound(app: InventoryManagement, now: int, date: JsString) returns (alerted: bool)
      modifies this, app
      ensures alerted == old(Pending(app)).Refused?
      ensures old(Pending(app)).Ship? ==>
        var d := old(Pending(app));
        app.Snapshot() == WithShipment(old(app.Snapshot()),
          OutboundRecord(now, d.item.id, d.item.name, d.quantity, old(recipient), date, d.item.warehouse, d.item.supplier))
      ensures old(Pending(app)).Ship? ==> selectedProduct == [] && outboundQuantity == None && recipient == []
      ensures !old(Pending(app)).Ship? ==> app.Snapshot() == old(app.Snapshot())
      ensures !old(Pending(app)).Ship? ==>
        selectedProduct == old(selectedProduct) && outboundQuantity == old(outboundQuantity) && recipient == old(recipient)
    {
      var decision := Pending(app);
      alerted := decision.Refused?;
      if decision.Ship? {
        var p := decision.item;
        app.AddOutboundRecord(p.id, p.name, decision.quantity, recipient, p.warehouse, p.supplier, now, date);
        selectedProduct := [];
        outboundQuantity := None;
        recipient := [];
      }
    }
  }
}
