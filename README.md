# nav-next tools, modelled in Dafny

This project models the logic of the browser tools in the nav-next repository. Each tool is a React component. Its state is a set of lists and text fields, and its handlers replace some of them.

In the model, each component is a Dafny `class` with a field per state variable and a `method` per handler. Each method's contract states the component's whole new state. The new state is given through a `Snapshot()` of the fields and the pure functions that the handlers' `map`/`filter` callbacks compute. The properties the tools promise are proved about those functions as lemmas.

The tools modelled:

- **Hash-distance lottery** (`hooks/useHashCalculation.ts`, `app/tools/hash-random/page.tsx` and the panels under `components/tools/hash-random/`). Names and the salt are hashed. Names are ranked by the summed code-unit differences between their hash and the salt's hash over the positions both hashes share. The ranking uses a stable sort (section 22.1.3.27 of ECMA-262, 10th edition). The page shows the first `count` rows as the draw and the first 1000 as the table. The participant panel tokenises its text box. The seed panel validates its inputs. Named snapshots of the inputs can be saved, loaded and deleted.
- **Two inventory tools**:
  - `components/tools/sp-inventory-management/`: stock rows, warehouses, suppliers, products and outbound records. Renames cascade into the stock rows and records. Outbound shipments are checked against stock.
  - `components/tools/inventory-management/`: stock rows with a location, and warehouses whose delete must be confirmed by typing the name.
- **Checklists** (`components/tools/checkout-list/`): named checklists of tickable items, one of them current.
- **Navigation page** (`components/navigation.tsx`): category and sub-category selection, a case-insensitive search, and expandable categories.
- **Data route** (`app/api/load-yaml-data/route.ts`): YAML files grouped into the category object the navigation page shows.
- **Catgirl generator** (`components/tools/CatgirlGenerator/`): nickname wrapping with the isolate controls U+2067 and U+2066 of Unicode UAX #9, section 2.1. Also text reversal and `#r`/`#l` template substitution.
- **Toast hook** (`components/ui/use-toast.tsx`): append, remove and dismiss notifications.

Strings are sequences of UTF-16 code units (`Text.JsString`), because `split('')`, `charCodeAt`, `length` and `<` all work per code unit. `Array.prototype.sort` is modelled by `JsArray.SortBy`, the unique stable order for a consistent comparator. The in-place method `JsArray.Sort` is proved to produce it. The MD5 function is a parameter `md5`, and nothing proved depends on what it returns.

The lottery's error handling, as the code does it:

- An empty salt or an empty participant list clears the results instead of raising an error. A salt of white space alone is ranked against like any other.
- The seed panel shows a message for an invalid seed or count, but stores the invalid value anyway.
- The count is not checked when the draw is cut. `slice(0, 0)` draws nobody, and a negative count drops that many rows from the end.

## Model

| member | source | states |
|---|---|---|
| HashCalculation.CalcMd5Distance | hooks/useHashCalculation.ts:4-13 | the loop returns the summed absolute code-unit differences over the first min(|s1|, |s2|) positions, with equal positions adding 0 |
| HashCalculation.Diff | hooks/useHashCalculation.ts:7-10 | the difference of two code units is 0 exactly when they are equal |
| HashCalculation.DistanceSelf | hooks/useHashCalculation.ts:4-13 | every hash is at distance 0 from itself |
| HashCalculation.DistanceSymmetric | hooks/useHashCalculation.ts:6-10 | the distance does not depend on the order of its arguments, for strings of any lengths |
| HashCalculation.DistanceOverlap | hooks/useHashCalculation.ts:6 | cutting both strings to their shared length keeps the distance |
| HashCalculation.DistanceExtend | hooks/useHashCalculation.ts:6 | appending anything to the longer string leaves the distance unchanged |
| HashCalculation.DistanceZeroIff | hooks/useHashCalculation.ts:7-10 | the distance is 0 exactly when the two strings agree on their shared prefix |
| HashCalculation.Distance | hooks/useHashCalculation.ts:4-13 | `calcMd5Distance` as a value: 0 from itself (DistanceSelf), symmetric (DistanceSymmetric), 0 exactly on an agreeing shared prefix (DistanceZeroIff), blind to what lies past the shorter string (DistanceOverlap, DistanceExtend) |
| HashCalculation.ByDistanceConsistent | hooks/useHashCalculation.ts:22-24 | the comparator `a[2] - b[2]` is antisymmetric in sign and transitive, so the stable order it gives is unique |
| HashCalculation.ByDistance | hooks/useHashCalculation.ts:22-24 | `a[2] - b[2]`: a consistent comparator (ByDistanceConsistent) whose stable order is unique |
| HashCalculation.Tuples | hooks/useHashCalculation.ts:16-20 | one row per name, in order, holding the name, its hash and the hash's distance from the target |
| HashCalculation.MakeSortedNameHashDistanceTuple | hooks/useHashCalculation.ts:15-26 | mapping the names to rows, then sorting the array in place by distance, gives the ranking |
| HashCalculation.Ranking | hooks/useHashCalculation.ts:15-26 | the rows stably sorted by distance: ordered (RankingSorted), a permutation of the participants with their hashes and distances (RankingPermutes), equal distances in input order (RankingStable); the in-place sort computes it (MakeSortedNameHashDistanceTuple) |
| HashCalculation.RankingSorted | hooks/useHashCalculation.ts:22-24 | the ranking never puts a row after one with a greater distance |
| HashCalculation.RankingPermutes | hooks/useHashCalculation.ts:16-24 | the ranking's names are the participants with the same multiplicities, and each row carries md5(name) and that hash's distance from the target |
| HashCalculation.WithDistance | hooks/useHashCalculation.ts:22-24 | the rows at one distance are exactly the rows of the list with that distance |
| HashCalculation.WithDistanceSort | hooks/useHashCalculation.ts:22-24 | the stable sort keeps the order of the rows within each distance |
| HashCalculation.RankingStable | hooks/useHashCalculation.ts:22-24 | participants at equal distance keep their input order in the ranking, duplicates included |
| HashCalculation.BlankSaltAccepted | hooks/useHashCalculation.ts:33-40 | a blank, non-empty salt is not rejected: the results are the ranking against md5(salt), listing every participant as often as entered |
| HashCalculation.Settled | hooks/useHashCalculation.ts:33-49 | the results the hook ends on: cleared for an empty salt or list, else the ranking against md5(salt) (Start and Complete reach it; BlankSaltAccepted for blank salts) |
| HashCalculation.HashCalculation.constructor | hooks/useHashCalculation.ts:29-31 | the hook starts with no results, no salt hash and no pending calculation |
| HashCalculation.HashCalculation.Start | hooks/useHashCalculation.ts:33-49 | with a non-empty salt and participants the calculation is marked pending and the old results stay; otherwise results and salt hash are cleared at once |
| HashCalculation.HashCalculation.Complete | hooks/useHashCalculation.ts:36-42 | the delayed step stores md5(salt) and the ranking against it, and clears the pending flag |
| HashRandomPage.Page.constructor | app/tools/hash-random/page.tsx:16-18 | the page starts with an empty salt, a count of 1 and no participants |
| HashRandomPage.DrawResult | app/tools/hash-random/page.tsx:101 | for count >= 0 the draw is the first min(count, n) rows of the ranking; a negative count drops that many rows from the end |
| HashRandomPage.TableRows | app/tools/hash-random/page.tsx:105 | the table shows the first min(1000, n) rows of the full ranking |
| HashRandomPage.DrawAll | app/tools/hash-random/page.tsx:101 | a count of at least n draws the whole ranking, in order, without error |
| HashRandomPage.DrawWithinTable | app/tools/hash-random/page.tsx:101-105 | for 0 <= count <= 1000 the draw is a prefix of the table rows |
| ParticipantList.Split | components/tools/hash-random/ParticipantList.tsx:11 | `split` with a regular expression always returns at least one piece |
| ParticipantList.FirstSep | components/tools/hash-random/ParticipantList.tsx:11 | the index of the first separator: nothing before it is one, and it is one when it is inside the text |
| ParticipantList.LeadingSeps | components/tools/hash-random/ParticipantList.tsx:11 | the length of the leading separator run: all of it separators, and the code unit after it is not one |
| ParticipantList.TokensAreWords | components/tools/hash-random/ParticipantList.tsx:11 | `split(/[class]+/).filter(Boolean)` yields exactly the maximal runs outside the class, in order of appearance |
| ParticipantList.WordsAreWords | components/tools/hash-random/ParticipantList.tsx:11 | no token is empty and no token holds a separator |
| ParticipantList.Tokens | components/tools/hash-random/ParticipantList.tsx:11 | `split(/[class]+/).filter(Boolean)`: exactly the maximal runs outside the class (TokensAreWords), none empty or holding a separator (WordsAreWords), and joining them back tokenises to the same list (TokensOfJoin) |
| ParticipantList.Participants | components/tools/hash-random/ParticipantList.tsx:11 | the names in the text box: none for blank text (ParticipantsOfBlank), and stable under re-entry one space apart (ParticipantsIdempotent) |
| ParticipantList.TokensOfSeps | components/tools/hash-random/ParticipantList.tsx:11 | text made only of separators, the empty text included, gives no tokens |
| ParticipantList.TokensOfWord | components/tools/hash-random/ParticipantList.tsx:11 | a non-empty text without separators is exactly one token |
| ParticipantList.TokensSplitAt | components/tools/hash-random/ParticipantList.tsx:11 | a separator splits the tokens: those before it, then those after it |
| ParticipantList.TokensOfJoin | components/tools/hash-random/ParticipantList.tsx:11 | non-empty tokens without separators, joined by one separator each, tokenise back to the same list |
| ParticipantList.ParticipantsOfBlank | components/tools/hash-random/ParticipantList.tsx:11 | empty or white-space-only text names nobody |
| ParticipantList.ParticipantsIdempotent | components/tools/hash-random/ParticipantList.tsx:11 | the names re-entered one space apart give the same list of names |
| ParticipantList.ParticipantList.constructor | components/tools/hash-random/ParticipantList.tsx:8 | the text box starts empty |
| ParticipantList.ParticipantList.HandleRoll | components/tools/hash-random/ParticipantList.tsx:10-13 | the page's participants become the tokens of the text box; salt and count are untouched |
| RandomSeed.SaltError | components/tools/hash-random/RandomSeed.tsx:14-18 | the salt message is set exactly when the input trims to the empty string, and is otherwise cleared |
| RandomSeed.CountError | components/tools/hash-random/RandomSeed.tsx:23-27 | the count message is set exactly when the input is below 1, and is otherwise cleared |
| RandomSeed.RandomSeed.constructor | components/tools/hash-random/RandomSeed.tsx:11 | both error messages start empty |
| RandomSeed.RandomSeed.ValidateSalt | components/tools/hash-random/RandomSeed.tsx:13-20 | sets the salt message for the input, keeps the count message, and always hands the salt to the page |
| RandomSeed.RandomSeed.ValidateCount | components/tools/hash-random/RandomSeed.tsx:22-29 | sets the count message for the input, keeps the salt message, and always hands the count to the page |
| SaveLoadSelection.SaveLoadSelection.constructor | components/tools/hash-random/SaveLoadSelection.tsx:28-29 | no saved draws and an empty name box |
| SaveLoadSelection.SaveLoadSelection.SaveSelection | components/tools/hash-random/SaveLoadSelection.tsx:31-40 | an empty name changes nothing; otherwise exactly one entry with the page's salt, count and participants is appended, duplicates allowed, and the name is cleared |
| SaveLoadSelection.SaveLoadSelection.LoadSelection | components/tools/hash-random/SaveLoadSelection.tsx:43-47 | the page takes the saved salt, count and participants |
| SaveLoadSelection.SaveLoadSelection.DeleteSelection | components/tools/hash-random/SaveLoadSelection.tsx:49-53 | the list becomes the copy with `splice(index, 1)` applied; the name box is untouched |
| SaveLoadSelection.DeleteRemovesOne | components/tools/hash-random/SaveLoadSelection.tsx:49-53 | a valid index removes exactly that entry: one shorter, entries before it in place, entries after it moved up by one |
| SaveLoadSelection.DeletePastEnd | components/tools/hash-random/SaveLoadSelection.tsx:51 | an index past the end removes nothing |
| SaveLoadSelection.SaveThenLoad | components/tools/hash-random/SaveLoadSelection.tsx:31-47 | saving and then loading the new entry leaves salt, count and participants as they were |
| JsArray.InsertBy | hooks/useHashCalculation.ts:22-24 | one insertion step of the stable order adds exactly one element |
| JsArray.InsertByPermutes | hooks/useHashCalculation.ts:22-24 | one insertion step adds exactly the inserted element to the multiset |
| JsArray.InsertBySorted | hooks/useHashCalculation.ts:22-24 | inserting into an ordered list keeps it ordered, for a consistent comparator |
| JsArray.SortBy | hooks/useHashCalculation.ts:22-24 | the stable sort keeps the length |
| JsArray.SortByPermutes | hooks/useHashCalculation.ts:22-24 | the stable sort only reorders: the output is a permutation of the input |
| JsArray.SortBySorted | hooks/useHashCalculation.ts:22-24 | with a consistent comparator no element ends up after one the comparator puts after it |
| JsArray.InsertByAt | hooks/useHashCalculation.ts:22-24 | an inserted element goes right after the run of elements it does not precede |
| JsArray.Sort | hooks/useHashCalculation.ts:22-24 | sorting the array in place leaves it holding the stable order of its old contents |
| JsArray.RelativeIndex | components/tools/hash-random/SaveLoadSelection.tsx:51 | a relative index counts from the end when negative, and is clamped into the array |
| JsArray.Slice | app/tools/hash-random/page.tsx:101-105 | `slice(start, end)` for 0 <= start <= end is the clamped range, and never longer than the array |
| JsArray.SpliceOne | components/tools/hash-random/SaveLoadSelection.tsx:51 | `splice(i, 1)` drops exactly element i when it exists, and nothing at or past the end |
| SortKey.KeyLessOrder | components/tools/inventory-management/inventory-management.tsx:171-172 | `<` on one column's values is irreflexive, asymmetric, transitive and total up to equality |
| SortKey.KeyLess | components/tools/inventory-management/inventory-management.tsx:171-172 | `x < y` on one column's values: a strict order in which unordered values are equal (KeyLessOrder) |
| SortKey.ByKeyConsistent | components/tools/inventory-management/inventory-management.tsx:170-174 | the -1/1/0 column comparator is consistent in either direction |
| SortKey.ThreeWay | components/tools/inventory-management/inventory-management.tsx:171-173 | -1/1/0 by `<` and `>`, flipped for descending: consistent in either direction (ByKeyConsistent) |
| SortKey.ByKey | components/tools/inventory-management/inventory-management.tsx:170-174 | the column comparator: consistent (ByKeyConsistent), and its sort orders rows by the column (SortByKeyOrdered) |
| SortKey.SortByKeyOrdered | components/tools/sp-inventory-management/inventory-management.tsx:177-183 | sorting by a column never puts a row after one whose value is `<` its own (ascending) or `>` its own (descending), and only reorders |
| SpInventory.ChangeQuantity | components/tools/sp-inventory-management/inventory-management.tsx:123-131 | the rows with the id get max(0, quantity + change); every other row and field is unchanged |
| SpInventory.ChangeQuantityKeepsStock | components/tools/sp-inventory-management/inventory-management.tsx:126 | quantities that were not negative stay not negative |
| SpInventory.RemoveItem | components/tools/sp-inventory-management/inventory-management.tsx:140 | the rows with the id go; every other row stays as often as it was |
| SpInventory.RenameItem | components/tools/sp-inventory-management/inventory-management.tsx:153-158 | the rows with the id take the new name; nothing else changes |
| SpInventory.RenameWarehouse | components/tools/sp-inventory-management/inventory-management.tsx:265-269 | exactly the rows in the old warehouse move to the new one; lengths and other fields unchanged |
| SpInventory.RenameRecordWarehouse | components/tools/sp-inventory-management/inventory-management.tsx:270-274 | exactly the records of the old warehouse move to the new one; lengths and other fields unchanged |
| SpInventory.RenameSupplier | components/tools/sp-inventory-management/inventory-management.tsx:278-282 | exactly the rows of the old supplier take the new name; nothing else changes |
| SpInventory.RenameRecordSupplier | components/tools/sp-inventory-management/inventory-management.tsx:283-287 | exactly the records of the old supplier take the new name; nothing else changes |
| SpInventory.RenameProduct | components/tools/sp-inventory-management/inventory-management.tsx:291-295 | exactly the rows named like the old product take the new name; nothing else changes |
| SpInventory.RenameRecordProduct | components/tools/sp-inventory-management/inventory-management.tsx:296-300 | exactly the records of the old product take the new name; nothing else changes |
| SpInventory.RenameWarehouseBack | components/tools/sp-inventory-management/inventory-management.tsx:264-275 | renaming to an unused name and back restores every row |
| SpInventory.FilteredInventory | components/tools/sp-inventory-management/inventory-management.tsx:164-168 | a row is shown exactly when the lower-cased term is in its lower-cased name, warehouse or supplier |
| SpInventory.EmptySearchKeepsAll | components/tools/sp-inventory-management/inventory-management.tsx:164-168 | an empty search box shows every row, in order |
| SpInventory.SortedInventoryOrdered | components/tools/sp-inventory-management/inventory-management.tsx:170-185 | with a sort chosen the table holds the filtered rows, in the column's order |
| SpInventory.MatchesSearch | components/tools/sp-inventory-management/inventory-management.tsx:164-168 | the term, lower-cased, in the lower-cased name, warehouse or supplier: exactly the rows FilteredInventory keeps |
| SpInventory.ItemKey | components/tools/sp-inventory-management/inventory-management.tsx:177-183 | the value a column sorts by; text columns compare by `<` on strings, the quantity by number (SortedInventoryOrdered) |
| SpInventory.SortedInventory | components/tools/sp-inventory-management/inventory-management.tsx:170-185 | without a sort the filtered rows as they are; with one, those rows in the column's order (SortedInventoryOrdered) |
| SpInventory.InventoryManagement.Table | components/tools/sp-inventory-management/inventory-management.tsx:164-185 | the filtered rows, then sorted: membership by FilteredInventory, order by SortedInventoryOrdered |
| SpInventory.NextSortConfig | components/tools/sp-inventory-management/inventory-management.tsx:187-193 | the key is the one clicked, and the direction is descending exactly when that key was ascending |
| SpInventory.RequestSortCycles | components/tools/sp-inventory-management/inventory-management.tsx:187-193 | clicking a new column three times sorts it ascending, descending, then ascending |
| SpInventory.AddWarehouseName | components/tools/sp-inventory-management/inventory-management.tsx:589-594 | an empty or present name is refused; a new one is appended, so the list stays duplicate-free |
| SpInventory.Names | components/tools/sp-inventory-management/inventory-management.tsx:724 | the names of the entries, in order |
| SpInventory.AddNamed | components/tools/sp-inventory-management/inventory-management.tsx:723-728 | an empty or present name is refused; a new one is appended with the given id, so the names stay duplicate-free |
| SpInventory.NamedById | components/tools/sp-inventory-management/inventory-management.tsx:737 | the first entry with the id, or none when no entry has it |
| SpInventory.RenameById | components/tools/sp-inventory-management/inventory-management.tsx:738 | the entries with the id take the new name; nothing else changes |
| SpInventory.WithoutId | components/tools/sp-inventory-management/inventory-management.tsx:754 | the entries with the id go; every other entry stays as often as it was |
| SpInventory.FirstNamed | components/tools/sp-inventory-management/inventory-management.tsx:998 | the first stock row with the name, or none when no row has it |
| SpInventory.ReplaceName | components/tools/sp-inventory-management/inventory-management.tsx:603 | exactly the occurrences of the old name become the new name |
| SpInventory.InventoryManagement.constructor | components/tools/sp-inventory-management/inventory-management.tsx:63-79 | every list and form field empty, nothing selected, no sort |
| SpInventory.InventoryManagement.AddItem | components/tools/sp-inventory-management/inventory-management.tsx:104-121 | with all five fields filled, exactly one row is appended and the form is cleared; otherwise nothing changes |
| SpInventory.InventoryManagement.UpdateQuantity | components/tools/sp-inventory-management/inventory-management.tsx:123-131 | only the stock rows change, by ChangeQuantity |
| SpInventory.InventoryManagement.ConfirmDelete | components/tools/sp-inventory-management/inventory-management.tsx:133-136 | remembers the row and opens the dialog; nothing else changes |
| SpInventory.InventoryManagement.DeleteItem | components/tools/sp-inventory-management/inventory-management.tsx:138-144 | with a row remembered, removes it and closes the dialog; otherwise nothing changes |
| SpInventory.InventoryManagement.StartEditing | components/tools/sp-inventory-management/inventory-management.tsx:146-149 | remembers the row and its name; nothing else changes |
| SpInventory.InventoryManagement.SaveEdit | components/tools/sp-inventory-management/inventory-management.tsx:151-162 | with a row being edited, renames it and leaves editing; otherwise nothing changes |
| SpInventory.InventoryManagement.RequestSort | components/tools/sp-inventory-management/inventory-management.tsx:187-193 | only the sort changes, to NextSortConfig |
| SpInventory.InventoryManagement.AddOutboundRecord | components/tools/sp-inventory-management/inventory-management.tsx:241-262 | exactly one record is appended, and the rows with the product id drop to max(0, q - n); nothing else changes |
| SpInventory.InventoryManagement.UpdateWarehouseName | components/tools/sp-inventory-management/inventory-management.tsx:264-275 | rows and records of the old warehouse are renamed; nothing else changes |
| SpInventory.InventoryManagement.UpdateSupplierName | components/tools/sp-inventory-management/inventory-management.tsx:277-288 | rows and records of the old supplier are renamed; nothing else changes |
| SpInventory.InventoryManagement.UpdateProductName | components/tools/sp-inventory-management/inventory-management.tsx:290-301 | rows and records of the old product are renamed; nothing else changes |
| SpInventory.WarehouseManagement.constructor | components/tools/sp-inventory-management/inventory-management.tsx:583-587 | the tab starts with empty boxes, nothing edited and no dialog |
| SpInventory.WarehouseManagement.AddWarehouse | components/tools/sp-inventory-management/inventory-management.tsx:589-594 | the list changes by AddWarehouseName, and the box is cleared exactly when the name was taken |
| SpInventory.WarehouseManagement.StartEditing | components/tools/sp-inventory-management/inventory-management.tsx:596-599 | remembers the warehouse and puts its name in the edit box |
| SpInventory.WarehouseManagement.SaveEdit | components/tools/sp-inventory-management/inventory-management.tsx:601-608 | with a non-empty warehouse being edited and a non-empty new name, renames it in the list, rows and records, then leaves editing; otherwise nothing changes |
| SpInventory.WarehouseManagement.ConfirmDelete | components/tools/sp-inventory-management/inventory-management.tsx:610-613 | remembers the warehouse and opens the dialog |
| SpInventory.WarehouseManagement.DeleteWarehouse | components/tools/sp-inventory-management/inventory-management.tsx:615-621 | with a non-empty warehouse remembered, drops it from the list only, leaving rows and records as they are; otherwise nothing changes |
| SpInventory.SupplierManagement.constructor | components/tools/sp-inventory-management/inventory-management.tsx:716-721 | the tab starts with empty boxes, nothing edited and no dialog |
| SpInventory.SupplierManagement.AddSupplier | components/tools/sp-inventory-management/inventory-management.tsx:723-728 | the list changes by AddNamed, and the box is cleared exactly when the name was taken |
| SpInventory.SupplierManagement.StartEditing | components/tools/sp-inventory-management/inventory-management.tsx:730-733 | remembers the supplier's id and puts its name in the edit box |
| SpInventory.SupplierManagement.Rename | components/tools/sp-inventory-management/inventory-management.tsx:737-741 | renames the supplier by id and, when its old name was non-empty, its rows and records |
| SpInventory.SupplierManagement.SaveEdit | components/tools/sp-inventory-management/inventory-management.tsx:735-745 | with a supplier being edited and a non-empty new name, renames as Rename does and leaves editing; otherwise nothing changes |
| SpInventory.SupplierManagement.ConfirmDelete | components/tools/sp-inventory-management/inventory-management.tsx:747-750 | remembers the supplier and opens the dialog |
| SpInventory.SupplierManagement.DeleteSupplier | components/tools/sp-inventory-management/inventory-management.tsx:752-758 | with a supplier remembered, drops it from the list only; otherwise nothing changes |
| SpInventory.ProductManagement.constructor | components/tools/sp-inventory-management/inventory-management.tsx:853-858 | the tab starts with empty boxes, nothing edited and no dialog |
| SpInventory.ProductManagement.AddProduct | components/tools/sp-inventory-management/inventory-management.tsx:860-865 | the list changes by AddNamed, and the box is cleared exactly when the name was taken |
| SpInventory.ProductManagement.StartEditing | components/tools/sp-inventory-management/inventory-management.tsx:867-870 | remembers the product's id and puts its name in the edit box |
| SpInventory.ProductManagement.Rename | components/tools/sp-inventory-management/inventory-management.tsx:874-878 | renames the product by id and, when its old name was non-empty, its rows and records |
| SpInventory.ProductManagement.SaveEdit | components/tools/sp-inventory-management/inventory-management.tsx:872-882 | with a product being edited and a non-empty new name, renames as Rename does and leaves editing; otherwise nothing changes |
| SpInventory.ProductManagement.ConfirmDelete | components/tools/sp-inventory-management/inventory-management.tsx:884-887 | remembers the product and opens the dialog |
| SpInventory.ProductManagement.DeleteProduct | components/tools/sp-inventory-management/inventory-management.tsx:889-895 | with a product remembered, drops it from the list only; otherwise nothing changes |
| SpInventory.DecideOutbound | components/tools/sp-inventory-management/inventory-management.tsx:997-1005 | nothing happens exactly when a row of that name, a quantity or a recipient is missing; the alert comes exactly when the quantity exceeds the stock of the first row with that name; anything else ships that first row |
| SpInventory.ShipmentFromStock | components/tools/sp-inventory-management/inventory-management.tsx:1001-1005 | a shipment from non-negative stock keeps every quantity non-negative; the shipped row loses exactly the quantity, and a negative quantity, which nothing refuses, raises its stock |
| SpInventory.WithShipment | components/tools/sp-inventory-management/inventory-management.tsx:241-262 | the record appended and its product's stock lowered by the quantity, never below zero (AddOutboundRecord reaches it; ShipmentFromStock keeps stock non-negative) |
| SpInventory.TakeFromRow | components/tools/sp-inventory-management/inventory-management.tsx:258 | taking at most a row's stock from it through its id keeps every quantity non-negative and lowers that row by exactly the amount |
| SpInventory.OutboundManagement.constructor | components/tools/sp-inventory-management/inventory-management.tsx:993-995 | the outbound form starts empty |
| SpInventory.OutboundManagement.Pending | components/tools/sp-inventory-management/inventory-management.tsx:997-1005 | what the outbound button would do now: refused, ignored or shipped as DecideOutbound says (HandleOutbound acts on it) |
| SpInventory.OutboundManagement.HandleOutbound | components/tools/sp-inventory-management/inventory-management.tsx:997-1011 | the alert shows exactly on a refusal; a shipment is recorded and clears the form; anything else changes nothing |
| Inventory.ChangeQuantity | components/tools/inventory-management/inventory-management.tsx:99-108 | the rows with the id get max(0, quantity + change); every other row and field is unchanged |
| Inventory.ChangeQuantityClamps | components/tools/inventory-management/inventory-management.tsx:102 | a changed quantity is never negative, and is exactly quantity + change when that is not negative |
| Inventory.RemoveItem | components/tools/inventory-management/inventory-management.tsx:117 | the rows with the id go; every other row stays as often as it was |
| Inventory.EditItem | components/tools/inventory-management/inventory-management.tsx:133-146 | the rows with the id take the edited name, location and warehouse; nothing else changes |
| Inventory.RenameWarehouse | components/tools/inventory-management/inventory-management.tsx:552-556 | exactly the rows in the old warehouse move to the new one |
| Inventory.RemoveWarehouseItems | components/tools/inventory-management/inventory-management.tsx:569 | the rows in the warehouse go; every other row stays as often as it was |
| Inventory.FilteredInventory | components/tools/inventory-management/inventory-management.tsx:164-168 | a row is shown exactly when the lower-cased term is in its lower-cased name, warehouse or location, with its multiplicity |
| Inventory.SortedInventoryOrdered | components/tools/inventory-management/inventory-management.tsx:170-174 | the table holds the filtered rows, in the current column's order |
| Inventory.MatchesSearch | components/tools/inventory-management/inventory-management.tsx:164-168 | the term, lower-cased, in the lower-cased name, warehouse or location: exactly the rows FilteredInventory keeps |
| Inventory.ItemKey | components/tools/inventory-management/inventory-management.tsx:170-174 | the value a column sorts by; text columns compare by `<` on strings, the quantity by number (SortedInventoryOrdered) |
| Inventory.SortedInventory | components/tools/inventory-management/inventory-management.tsx:170-174 | the filtered rows in the current column's order, a permutation of them (SortedInventoryOrdered) |
| Inventory.InventoryManagement.Table | components/tools/inventory-management/inventory-management.tsx:164-174 | the filtered rows, then sorted: membership by FilteredInventory, order by SortedInventoryOrdered |
| Inventory.NextSort | components/tools/inventory-management/inventory-management.tsx:155-162 | the same column flips the direction; another column becomes the sort column, ascending |
| Inventory.NextSortTwice | components/tools/inventory-management/inventory-management.tsx:155-162 | clicking a column twice: the sort column's direction comes back, and a new column ends descending |
| Inventory.InventoryManagement.constructor | components/tools/inventory-management/inventory-management.tsx:44-61 | empty lists and fields, sorted by name ascending |
| Inventory.InventoryManagement.AddItem | components/tools/inventory-management/inventory-management.tsx:77-97 | with all five fields filled, exactly one row is appended and the form is cleared; otherwise nothing changes |
| Inventory.InventoryManagement.UpdateQuantity | components/tools/inventory-management/inventory-management.tsx:99-108 | only the stock rows change, by ChangeQuantity |
| Inventory.InventoryManagement.ConfirmDelete | components/tools/inventory-management/inventory-management.tsx:110-113 | remembers the row and opens the dialog; nothing else changes |
| Inventory.InventoryManagement.DeleteItem | components/tools/inventory-management/inventory-management.tsx:115-121 | with a row remembered, removes it and closes the dialog; otherwise nothing changes |
| Inventory.InventoryManagement.StartEditing | components/tools/inventory-management/inventory-management.tsx:123-129 | fills the edit fields for the row; nothing else changes |
| Inventory.InventoryManagement.SaveEdit | components/tools/inventory-management/inventory-management.tsx:131-153 | with a row being edited, applies EditItem and clears the edit fields; otherwise nothing changes |
| Inventory.InventoryManagement.HandleSort | components/tools/inventory-management/inventory-management.tsx:155-162 | only the sort column and direction change, to NextSort |
| Inventory.WarehouseManagement.constructor | components/tools/inventory-management/inventory-management.tsx:528-533 | the tab starts with empty boxes, nothing edited and no dialog |
| Inventory.WarehouseManagement.AddWarehouse | components/tools/inventory-management/inventory-management.tsx:535-540 | an empty or present name is refused; a new one is appended and the box cleared |
| Inventory.WarehouseManagement.StartEditing | components/tools/inventory-management/inventory-management.tsx:542-545 | remembers the warehouse and puts its name in the edit box |
| Inventory.WarehouseManagement.SaveEdit | components/tools/inventory-management/inventory-management.tsx:547-558 | with a non-empty warehouse being edited and a non-empty new name, renames it in the list and in its rows, then leaves editing; otherwise nothing changes |
| Inventory.WarehouseManagement.ConfirmDelete | components/tools/inventory-management/inventory-management.tsx:560-564 | remembers the warehouse, opens the dialog and empties the confirmation box |
| Inventory.WarehouseManagement.DeleteWarehouse | components/tools/inventory-management/inventory-management.tsx:566-574 | only when the box holds the warehouse's non-empty name, removes it and every row stored in it and closes the dialog; otherwise nothing changes |
| Inventory.DeleteWarehouseEmptiesIt | components/tools/inventory-management/inventory-management.tsx:568-569 | after the delete no row is in that warehouse and the name is gone from the list |
| Checklists.Toggled | components/tools/checkout-list/combined-checklist-app.tsx:82-86 | exactly the items with the id flip; ids and texts stay |
| Checklists.ToggledTwice | components/tools/checkout-list/combined-checklist-app.tsx:82-86 | ticking an item twice restores the items |
| Checklists.Unticked | components/tools/checkout-list/combined-checklist-app.tsx:110 | every item unticked, ids and texts kept |
| Checklists.UntickedIdempotent | components/tools/checkout-list/combined-checklist-app.tsx:110 | resetting twice is resetting once |
| Checklists.WithoutItem | components/tools/checkout-list/combined-checklist-app.tsx:97 | the items with the id go; every other item stays as often as it was |
| Checklists.EditCurrent | components/tools/checkout-list/combined-checklist-app.tsx:69-73 | only the current checklist's items are edited; ids, names and other checklists are unchanged |
| Checklists.ToggleItemTwice | components/tools/checkout-list/combined-checklist-app.tsx:77-90 | toggling the same item twice changes no checklist |
| Checklists.ResetTwice | components/tools/checkout-list/combined-checklist-app.tsx:107-112 | resetting the current checklist is idempotent |
| Checklists.ResetUnticksAll | components/tools/checkout-list/combined-checklist-app.tsx:107-112 | after a reset no item of the current checklist is ticked |
| Checklists.Renamed | components/tools/checkout-list/combined-checklist-app.tsx:167-169 | the checklists with the id take the name; nothing else changes |
| Checklists.WithoutChecklist | components/tools/checkout-list/combined-checklist-app.tsx:183 | the checklists with the id go; every other checklist stays as often as it was |
| Checklists.ChecklistApp.constructor | components/tools/checkout-list/combined-checklist-app.tsx:27-32 | no checklists, nothing current, empty boxes, no edit |
| Checklists.ChecklistApp.AddChecklist | components/tools/checkout-list/combined-checklist-app.tsx:46-60 | a blank name changes nothing; otherwise one empty checklist is appended and becomes current, and the box is cleared |
| Checklists.ChecklistApp.AddItem | components/tools/checkout-list/combined-checklist-app.tsx:62-75 | a blank text or no current checklist changes nothing; otherwise one unticked item is appended to the current checklist only |
| Checklists.ChecklistApp.ToggleItem | components/tools/checkout-list/combined-checklist-app.tsx:77-90 | only the current checklist's matching items flip |
| Checklists.ChecklistApp.DeleteItem | components/tools/checkout-list/combined-checklist-app.tsx:92-105 | only the current checklist loses the matching items |
| Checklists.ChecklistApp.ResetChecklist | components/tools/checkout-list/combined-checklist-app.tsx:107-117 | only the current checklist's items are unticked |
| Checklists.ChecklistApp.StartEditing | components/tools/checkout-list/combined-checklist-app.tsx:161-164 | remembers the checklist and its name |
| Checklists.ChecklistApp.SaveEdit | components/tools/checkout-list/combined-checklist-app.tsx:166-175 | renames the checklist with no check on the name and leaves editing; the name box keeps its text |
| Checklists.ChecklistApp.CancelEdit | components/tools/checkout-list/combined-checklist-app.tsx:177-180 | leaves editing and empties the name box |
| Checklists.ChecklistApp.DeleteChecklist | components/tools/checkout-list/combined-checklist-app.tsx:182-192 | removes the checklist; the selection is cleared exactly when it was that checklist |
| Navigation.SubCategoryItems | components/navigation.tsx:49 | an item is listed exactly when it is in one of the sub-categories |
| Navigation.EveryItem | components/navigation.tsx:48-50 | an item is listed exactly when it is in some sub-category of some category |
| Navigation.EveryItemAppend | components/navigation.tsx:48-50 | a category added last adds its items after all the others |
| Navigation.Lookup | components/navigation.tsx:52 | the sub-categories under the key, or none exactly when no category has that key |
| Navigation.SubCategoryNamed | components/navigation.tsx:54 | the items of the first sub-category with the name, or none exactly when no sub-category has it |
| Navigation.SelectItems | components/navigation.tsx:47-55 | "all" lists every item; a missing category lists nothing; a category with sub-category "all" lists its sub-categories' items |
| Navigation.SelectSubCategory | components/navigation.tsx:53-55 | a specific sub-category lists the items of the first one with that name, or nothing |
| Navigation.Search | components/navigation.tsx:57-62 | an empty term keeps the list; otherwise an item is kept exactly when the lower-cased term is in its lower-cased name or description |
| Navigation.SearchKeepsMatches | components/navigation.tsx:57-62 | a matching item keeps its multiplicity, and an item that does not match is dropped |
| Navigation.SearchMatchingAll | components/navigation.tsx:57-62 | a term every item matches drops nothing |
| Navigation.MatchesSearch | components/navigation.tsx:57-62 | the term, lower-cased, in the lower-cased name or description: exactly the items Search keeps |
| Navigation.ToggledCategory | components/navigation.tsx:67-73 | the category becomes expanded exactly when it was not; other categories keep their state |
| Navigation.ToggleTwice | components/navigation.tsx:67-73 | toggling twice restores which categories are expanded, and the list itself when the category was absent |
| Navigation.Navigation.constructor | components/navigation.tsx:24-29 | empty search, category and sub-category "all", no data, nothing expanded |
| Navigation.Navigation.LoadData | components/navigation.tsx:32-42 | the fetched data replaces the data; a failed fetch changes nothing |
| Navigation.Navigation.UpdateFilteredItems | components/navigation.tsx:44-65 | the shown items become the selection, searched; nothing else changes |
| Navigation.Navigation.ToggleCategory | components/navigation.tsx:67-73 | only the expanded list changes, by ToggledCategory |
| LoadYamlData.LastDot | app/api/load-yaml-data/route.ts:40 | the position of the last dot, with no dot after it |
| LoadYamlData.Stem | app/api/load-yaml-data/route.ts:40 | the name without its last extension; a name whose only dot leads keeps it |
| LoadYamlData.StemOfYamlFile | app/api/load-yaml-data/route.ts:25-40 | `<stem>.yml` and `<stem>.yaml` are processed and become the category `<stem>` |
| LoadYamlData.SubKey | app/api/load-yaml-data/route.ts:45 | an item's group is never the empty name: a missing or empty sub-category goes to 默认 |
| LoadYamlData.IsYamlFile | app/api/load-yaml-data/route.ts:25 | the name ends in `.yml` or `.yaml`; other files change nothing (OtherFilesIgnored) |
| LoadYamlData.YamlFiles | app/api/load-yaml-data/route.ts:25 | the `.yml` and `.yaml` files of the listing, in order (OtherFilesIgnored) |
| LoadYamlData.Strip | app/api/load-yaml-data/route.ts:49-53 | the pushed item: name, url and description, without the sub-category (GroupByKey) |
| LoadYamlData.Insert | app/api/load-yaml-data/route.ts:46-53 | a new group is created, at the end, exactly when none has the key; existing groups keep their names and places |
| LoadYamlData.ItemsOfInsert | app/api/load-yaml-data/route.ts:46-53 | one step adds the item to the end of exactly its own group |
| LoadYamlData.GroupByKey | app/api/load-yaml-data/route.ts:44-54 | each group holds exactly the items of its sub-category, stripped, in file order |
| LoadYamlData.GroupPartitions | app/api/load-yaml-data/route.ts:44-54 | group names are distinct and the group sizes add up to the number of items |
| LoadYamlData.Group | app/api/load-yaml-data/route.ts:43-54 | the grouping of a file: each group holds its sub-category's stripped items in file order (GroupByKey), names distinct and sizes adding up (GroupPartitions); the loop computes it (GroupItems) |
| LoadYamlData.Put | app/api/load-yaml-data/route.ts:57-60 | the key now maps to the new groups, every other key keeps its value, and existing keys keep their places |
| LoadYamlData.AddFile | app/api/load-yaml-data/route.ts:35-60 | one file: unreadable fails, not an array is skipped (NotAnArraySkipped), else its stem maps to its grouping (LaterFileWins) |
| LoadYamlData.BuildData | app/api/load-yaml-data/route.ts:29-61 | the files in order: the last file with a stem decides it (LaterFileWins), and one failure fails all (BuildDataFailsOnward) |
| LoadYamlData.Respond | app/api/load-yaml-data/route.ts:21-68 | the JSON of the built categories, or the 500 error for a failed listing or an unreadable file (UnreadableFails); the loop computes it (Get) |
| LoadYamlData.OtherFilesIgnored | app/api/load-yaml-data/route.ts:25 | a file that is not `.yml` or `.yaml` changes nothing, whatever it holds |
| LoadYamlData.NotAnArraySkipped | app/api/load-yaml-data/route.ts:35-38 | a parse result that is not an array contributes no category |
| LoadYamlData.LaterFileWins | app/api/load-yaml-data/route.ts:40-60 | the last file with a stem decides that category; other categories are unchanged |
| LoadYamlData.BuildDataFailsOnward | app/api/load-yaml-data/route.ts:29-66 | once a file fails, the whole build fails |
| LoadYamlData.UnreadableFails | app/api/load-yaml-data/route.ts:29-66 | one unreadable `.yml` or `.yaml` file makes the response the 500 error |
| LoadYamlData.GroupItems | app/api/load-yaml-data/route.ts:43-54 | the `forEach` loop builds the grouping of the file |
| LoadYamlData.Get | app/api/load-yaml-data/route.ts:21-68 | the loop over the listing gives the response Respond specifies |
| NicknameGenerator.NicknameShape | components/tools/CatgirlGenerator/NicknameGenerator.tsx:14-18 | both results are the prefix, U+2067, the suffix and U+2066, two longer than prefix and suffix; `result`'s middle is `result2`'s reversed |
| NicknameGenerator.ResultRecoversSuffix | components/tools/CatgirlGenerator/NicknameGenerator.tsx:15-16 | reversing the middle of `result` gives the suffix as typed |
| NicknameGenerator.DefaultNickname | components/tools/CatgirlGenerator/NicknameGenerator.tsx:8-9 | the initial fields give 爱蜜莉雅, U+2067, ~碳, U+2066 and its unreversed twin |
| NicknameGenerator.Result | components/tools/CatgirlGenerator/NicknameGenerator.tsx:15-16 | the prefix, U+2067, the reversed suffix, U+2066 (NicknameShape), and the suffix is recovered by reversing the middle (ResultRecoversSuffix) |
| NicknameGenerator.Result2 | components/tools/CatgirlGenerator/NicknameGenerator.tsx:17 | the prefix, U+2067, the suffix as typed, U+2066 (NicknameShape) |
| TextReversal.Reverse | components/tools/CatgirlGenerator/TextReversal.tsx:13 | same length, and output[i] is input[n-1-i] |
| TextReversal.ReverseInvolution | components/tools/CatgirlGenerator/TextReversal.tsx:13 | reversing twice gives the input back |
| TextReversal.ReverseAppend | components/tools/CatgirlGenerator/TextReversal.tsx:13 | reversing a concatenation reverses the parts and swaps them |
| CustomTemplate.ReplaceTag | components/tools/CatgirlGenerator/CustomTemplate.tsx:13 | one global replace never lengthens the text; its first code unit is the replacement when the text starts with the tag, and unchanged otherwise |
| CustomTemplate.OnePass | components/tools/CatgirlGenerator/CustomTemplate.tsx:13 | a single left-to-right scan replacing both tags leaves neither tag |
| CustomTemplate.TemplateIsOnePass | components/tools/CatgirlGenerator/CustomTemplate.tsx:13 | the two chained replaces do what the single scan does |
| CustomTemplate.TemplateHasNoTags | components/tools/CatgirlGenerator/CustomTemplate.tsx:13 | the output holds neither `#r` nor `#l` |
| CustomTemplate.NoHashUnchanged | components/tools/CatgirlGenerator/CustomTemplate.tsx:13 | an input without `#` comes out unchanged |
| CustomTemplate.TemplateLength | components/tools/CatgirlGenerator/CustomTemplate.tsx:13 | output length is input length minus the number of `#r` and `#l` |
| CustomTemplate.OnePassLength | components/tools/CatgirlGenerator/CustomTemplate.tsx:13 | each tag the scan meets shortens the text by one code unit |
| CustomTemplate.Template | components/tools/CatgirlGenerator/CustomTemplate.tsx:13 | `#r` becomes U+2067 and `#l` U+2066: no tag is left (TemplateHasNoTags), it is the one-pass scan (TemplateIsOnePass), text without `#` is kept (NoHashUnchanged), and each tag shortens it by one (TemplateLength) |
| Toast.WithoutToast | components/ui/use-toast.tsx:24-26 | the toasts with the id go; every other toast stays as often as it was |
| Toast.RemoveAbsent | components/ui/use-toast.tsx:24-26 | removing an id no toast has changes nothing |
| Toast.Dismissed | components/ui/use-toast.tsx:28-34 | only the toasts with the id lose their handler; length, order and other fields stay |
| Toast.DismissIdempotent | components/ui/use-toast.tsx:28-34 | dismissing twice is dismissing once |
| Toast.AfterOpenChange | components/ui/use-toast.tsx:17-19 | opening, or a toast without a handler, changes nothing |
| Toast.CloseTwice | components/ui/use-toast.tsx:17-19 | closing a shown toast takes its handler away, and closing it again changes nothing |
| Toast.Toaster.constructor | components/ui/use-toast.tsx:10 | no toasts |
| Toast.Toaster.ShowToast | components/ui/use-toast.tsx:12-22 | exactly one toast with the props, the id and a self-dismissing handler is appended |
| Toast.Toaster.RemoveToast | components/ui/use-toast.tsx:24-26 | the list becomes WithoutToast |
| Toast.Toaster.Dismiss | components/ui/use-toast.tsx:28-34 | the list becomes Dismissed |
| Toast.Toaster.OpenChange | components/ui/use-toast.tsx:17-19 | calling a toast's handler dismisses it exactly on a close |
| Text.TrimEmptyIffBlank | components/tools/hash-random/RandomSeed.tsx:14 | `trim()` gives the empty string exactly for all-white-space text |
| Text.TrimStart | components/tools/checkout-list/combined-checklist-app.tsx:47 | the leading white space removed: the removed part is blank, and the rest does not start with white space |
| Text.TrimEnd | components/tools/checkout-list/combined-checklist-app.tsx:47 | the trailing white space removed: the removed part is blank, and the rest does not end with white space |
| Text.Trim | components/tools/hash-random/RandomSeed.tsx:14 | both ends' white space removed: empty exactly for blank text (TrimEmptyIffBlank) |
| Text.IsWhitespace | components/tools/hash-random/ParticipantList.tsx:11 | the code units `\s` matches and `trim` strips; blank text names nobody (ParticipantsOfBlank) |
| Text.ToLowerCase | components/navigation.tsx:59-60 | same length, each code unit lower-cased |
| Text.IncludesEmpty | components/navigation.tsx:57-62 | every string includes the empty string |
| Text.IncludesAt | components/navigation.tsx:59-60 | `includes` holds exactly when the substring occurs at some position |
| Text.Includes | components/navigation.tsx:59-60 | `sub` occurs at some position (IncludesAt); the empty string is in every string (IncludesEmpty) |
| Text.LessIrreflexive | components/tools/inventory-management/inventory-management.tsx:171-172 | no string is `<` itself |
| Text.LessAsymmetric | components/tools/inventory-management/inventory-management.tsx:171-172 | two strings are never `<` each other both ways |
| Text.LessTransitive | components/tools/inventory-management/inventory-management.tsx:171-172 | string `<` is transitive |
| Text.LessTotal | components/tools/inventory-management/inventory-management.tsx:171-172 | two strings are equal or ordered one way |
| Text.Less | components/tools/inventory-management/inventory-management.tsx:171-172 | string `<` by code units, a proper prefix first: irreflexive, asymmetric, transitive and total up to equality (LessIrreflexive, LessAsymmetric, LessTransitive, LessTotal) |
| Lists.Filter | components/ui/use-toast.tsx:25 | `filter` keeps exactly the passing elements and never lengthens |
| Lists.FilterCount | components/ui/use-toast.tsx:25 | each passing element keeps its multiplicity, and the others vanish |
| Lists.FilterKeepsCounts | components/ui/use-toast.tsx:25 | a removal by `filter` keeps every passing element as often as it occurred |
| Lists.FilterAppend | components/navigation.tsx:70 | `filter` distributes over concatenation, so survivors keep their relative order |
| Lists.FilterKeepsAll | components/navigation.tsx:58-61 | a filter every element passes returns the list unchanged |
| Lists.Map | components/ui/use-toast.tsx:30-32 | `map` keeps the length and applies the callback at each index |
| Lists.MapAppend | components/navigation.tsx:48-50 | `map` distributes over concatenation |
| Lists.FindIndex | components/navigation.tsx:54 | the first index that passes, or -1 exactly when none does |
| Lists.Find | components/navigation.tsx:54 | the first element that passes, or none exactly when none does |
| Lists.Concat | components/navigation.tsx:48-50 | `flatMap` lists exactly the elements of the inner lists |
| Lists.ConcatAppend | components/navigation.tsx:48-50 | `flatMap` distributes over concatenation |

## Left out

- The MD5 algorithm (RFC 1321) comes from a package outside the repository. The hash is a parameter `md5`, so nothing about its output alphabet or length is proved.
- The 1000 ms `setTimeout`/`clearTimeout` of the lottery hook is not modelled as a timer. The effect is split into `Start` and `Complete`, and a cancelled timer is simply a `Complete` that never runs.
- The copy and toast timers and the clipboard are browser APIs and are left out.
- `localStorage` loading and saving, JSON export through an anchor download, FileReader import, `fetch('/api/load-yaml-data')`, and `fs` and `js-yaml` in the data route are input and output:
  - the route's directory listing is a parameter, with each file paired with what parsing it gives;
  - a failed fetch is `None`.
- Ids and dates from `Date.now()`, `new Date().toISOString()` and `Math.random()` are method parameters. Two ids taken in the same millisecond can collide, and nothing here rules that out.
- Floating-point fields and arithmetic (`unitPrice`, `price`, `totalValue`, the charts) are not represented:
  - a row carries no price;
  - sorting by a price column compares every two rows as equal.
- `parseInt`, `parseFloat`, `|| 0` and `NaN` are left out. A filled quantity field is the integer typed, and an empty one is `None`.
- SpInventory.DecideOutbound: a quantity text that `parseInt` reads as `NaN` passes the stock check in the code and is recorded. Here every filled field is an integer, so that case does not arise.
- Text.ToLowerCase: maps only the ASCII letters A-Z. Full Unicode case mapping is not modelled.
- Navigation.Lookup: the category object is a list of keys in insertion order. `Object.values` orders keys that look like array indices first, and keys inherited from `Object.prototype` such as `constructor` would be found by `data[key]`. Neither is modelled.
- LoadYamlData.GroupItems: the grouping object is modelled the same way, so `Object.entries` order for index-like sub-category names is not captured. An element of a parsed array that is not an object, and non-string `name`/`url`/`description` fields, are also not modelled.
- LoadYamlData.Group: a sub-category named like an `Object.prototype` member (`constructor`, `toString`, `__proto__`) finds an inherited value in the plain grouping object (app/api/load-yaml-data/route.ts:46-49). `push` on it then throws, and the route answers 500. The model groups such items like any other. A file named `__proto__.yml` likewise sets the prototype of the response object instead of adding a category, which `LoadYamlData.Put` does not capture either.
- RandomSeed.RandomSeed.ValidateCount: the count is `Number(e.target.value)` (components/tools/hash-random/RandomSeed.tsx:59), which can be fractional. A count of 0.5 shows the error, and `slice(0, 0.5)` then draws nobody. The model's count is an integer, so fractional counts are not represented.
- LoadYamlData.Stem: models `path.parse(name).name` for names the directory listing can produce. A name ending in a dot is not distinguished.
- JsArray.Slice: its contract pins the result down only for 0 <= start <= end; for other arguments it only bounds the length. The negative count of the draw is stated by `HashRandomPage.DrawResult`.
- Navigation.SelectItems: its own contract covers the "all" cases and the missing category. The specific sub-category case is stated by `Navigation.SelectSubCategory`.
- The checklist handlers' `showToast` notifications are left out. The toast list is modelled on its own.
- The unused `count` argument of `useHashCalculation` is left out.
- Rendering, the tabs, dialogs as UI, the dark-mode toggles, the compressor tool, and React's render timing and stale closures between two handlers in one event are left out. Each handler is modelled as acting on the state as it was when the handler started.
