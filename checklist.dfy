/**
 * The checklist tool (components/tools/checkout-list/combined-checklist-app.tsx):
 * named checklists of items that can be ticked off. One checklist is the
 * current one (the empty id when none is); item handlers act on it only.
 */
module Checklists {
  import opened Text
  import opened Lists

  datatype ChecklistItem = ChecklistItem(id: JsString, text: JsString, completed: bool)

  datatype Checklist = Checklist(id: JsString, name: JsString, items: seq<ChecklistItem>)

  /** `toggleItem`'s inner map: the items with `itemId` flip; nothing else changes. */
  function Toggled(items: seq<ChecklistItem>, itemId: JsString): (r: seq<ChecklistItem>)
    ensures |r| == |items|
    ensures forall i :: 0 <= i < |items| ==>
      r[i].id == items[i].id && r[i].text == items[i].text &&
      r[i].completed == (if items[i].id == itemId then !items[i].completed else items[i].completed)
  {
    Map(items, (item: ChecklistItem) => if item.id == itemId then item.(completed := !item.completed) else item)
  }

  /** Ticking an item twice leaves the list as it was. */
  lemma ToggledTwice(items: seq<ChecklistItem>, itemId: JsString)
    ensures Toggled(Toggled(items, itemId), itemId) == items
  {
  }

  /** `resetChecklist`'s inner map: every item unticked, ids and texts kept. */
  function Unticked(items: seq<ChecklistItem>): (r: seq<ChecklistItem>)
    ensures |r| == |items|
    ensures forall i :: 0 <= i < |items| ==> r[i] == items[i].(completed := false)
  {
    Map(items, (item: ChecklistItem) => item.(completed := false))
  }

  /** Resetting twice is resetting once. */
  lemma UntickedIdempotent(items: seq<ChecklistItem>)
    ensures Unticked(Unticked(items)) == Unticked(items)
  {
  }

  /** `deleteItem`'s inner filter: the items with `itemId` go, the others stay as often as they were; `Filter` keeps their order (`Lists.FilterAppend`). */
  function WithoutItem(items: seq<ChecklistItem>, itemId: JsString): (r: seq<ChecklistItem>)
    ensures forall x :: x in r <==> x in items && x.id != itemId
    ensures forall x: ChecklistItem :: x.id != itemId ==> multiset(r)[x] == multiset(items)[x]
  {
    var keep := (item: ChecklistItem) => item.id != itemId;
    FilterKeepsCounts(items, keep);
    Filter(items, keep)
  }

  /** What an item handler does to the current checklist's items. */
  datatype ItemEdit = Append(item: ChecklistItem) | Toggle(itemId: JsString) | Delete(itemId: JsString) | Reset

  function ApplyItemEdit(items: seq<ChecklistItem>, edit: ItemEdit): seq<ChecklistItem>
  {
    match edit
    case Append(item) => items + [item]
    case Toggle(itemId) => Toggled(items, itemId)
    case Delete(itemId) => WithoutItem(items, itemId)
    case Reset => Unticked(items)
  }

  /**
   * The outer map every item handler shares: the checklists whose id is
   * `current` get the edit, the others are left exactly as they were.
   */
  function EditCurrent(checklists: seq<Checklist>, current: JsString, edit: ItemEdit): (r: seq<Checklist>)
    ensures |r| == |checklists|
    ensures forall i :: 0 <= i < |checklists| ==>
      r[i].id == checklists[i].id && r[i].name == checklists[i].name &&
      r[i].items == (if checklists[i].id == current then ApplyItemEdit(checklists[i].items, edit) else checklists[i].items)
  {
    Map(checklists, (list: Checklist) => if list.id == current then list.(items := ApplyItemEdit(list.items, edit)) else list)
  }

  /** Ticking the same item of the current checklist twice changes no checklist. */
  lemma ToggleItemTwice(checklists: seq<Checklist>, current: JsString, itemId: JsString)
    ensures EditCurrent(EditCurrent(checklists, current, Toggle(itemId)), current, Toggle(itemId)) == checklists
  {
    var r := EditCurrent(EditCurrent(checklists, current, Toggle(itemId)), current, Toggle(itemId));
    forall i | 0 <= i < |checklists| ensures r[i] == checklists[i] {
      ToggledTwice(checklists[i].items, itemId);
    }
  }

  /** Resetting the current checklist twice is resetting it once. */
  lemma ResetTwice(checklists: seq<Checklist>, current: JsString)
    ensures EditCurrent(EditCurrent(checklists, current, Reset), current, Reset) == EditCurrent(checklists, current, Reset)
  {
    var r, s := EditCurrent(EditCurrent(checklists, current, Reset), current, Reset), EditCurrent(checklists, current, Reset);
    forall i | 0 <= i < |checklists| ensures r[i] == s[i] {
      UntickedIdempotent(checklists[i].items);
    }
  }

  /** After a reset no item of the current checklist is ticked. */
  lemma ResetUnticksAll(checklists: seq<Checklist>, current: JsString)
    ensures var r := EditCurrent(checklists, current, Reset);
      forall i, j :: 0 <= i < |r| && r[i].id == current && 0 <= j < |r[i].items| ==> !r[i].items[j].completed
  {
  }

  /** `saveEdit(id)`'s map: the checklists with `id` take the name, with their items unchanged. */
  function Renamed(checklists: seq<Checklist>, id: JsString, name: JsString): (r: seq<Checklist>)
    ensures |r| == |checklists|
    ensures forall i :: 0 <= i < |checklists| ==>
      r[i] == checklists[i].(name := r[i].name) &&
      r[i].name == (if checklists[i].id == id then name else checklists[i].name)
  {
    Map(checklists, (list: Checklist) => if list.id == id then list.(name := name) else list)
  }

  /** `deleteChecklist(id)`'s filter: the checklists with `id` go, the others stay as often as they were; `Filter` keeps their order (`Lists.FilterAppend`). */
  function WithoutChecklist(checklists: seq<Checklist>, id: JsString): (r: seq<Checklist>)
    ensures forall x :: x in r <==> x in checklists && x.id != id
    ensures forall x: Checklist :: x.id != id ==> multiset(r)[x] == multiset(checklists)[x]
  {
    var keep := (list: Checklist) => list.id != id;
    FilterKeepsCounts(checklists, keep);
    Filter(checklists, keep)
  }

  /** Everything the component keeps in state, besides its notifications. */
  datatype State = State(
    checklists: seq<Checklist>, currentChecklist: JsString, newItemText: JsString,
    newChecklistName: JsString, editingId: Option<JsString>, editName: JsString)

  class ChecklistApp {
    var checklists: seq<Checklist>
    var currentChecklist: JsString
    var newItemText: JsString
    var newChecklistName: JsString
    var editingId: Option<JsString>
    var editName: JsString

    function Snapshot(): State
      reads this
    {
      State(checklists, currentChecklist, newItemText, newChecklistName, editingId, editName)
    }

    constructor ()
      ensures Snapshot() == State([], [], [], [], None, [])
    {
      checklists, currentChecklist, newItemText, newChecklistName := [], [], [], [];
      editingId, editName := None, [];
    }

    /**
     * `addChecklist()`, with `now` standing for `Date.now().toString()`: a
     * blank name does nothing; otherwise an empty checklist is appended
     * and becomes the current one.
     */
    method AddChecklist(now: JsString)
      modifies this
      ensures IsBlank(old(newChecklistName)) ==> Snapshot() == old(Snapshot())
      ensures !IsBlank(old(newChecklistName)) ==>
        Snapshot() == old(Snapshot()).(
          checklists := old(checklists) + [Checklist(now, old(newChecklistName), [])],
          newChecklistName := [], currentChecklist := now)
    {
      TrimEmptyIffBlank(newChecklistName);
      if Trim(newChecklistName) == [] {
        return;
      }
      var newChecklist := Checklist(now, newChecklistName, []);
      checklists := checklists + [newChecklist];
      newChecklistName := [];
      currentChecklist := newChecklist.id;
    }

    /**
     * `addItem()`, with `now` standing for `Date.now().toString()`: a blank
     * text or no current checklist does nothing; otherwise an unticked item
     * is appended to the current checklist.
     */
    method AddItem(now: JsString)
      modifies this
      ensures IsBlank(old(newItemText)) || old(currentChecklist) == [] ==> Snapshot() == old(Snapshot())
      ensures !IsBlank(old(newItemText)) && old(currentChecklist) != [] ==>
        Snapshot() == old(Snapshot()).(
          checklists := EditCurrent(old(checklists), old(currentChecklist),
            Append(ChecklistItem(now, old(newItemText), false))),
          newItemText := [])
    {
      TrimEmptyIffBlank(newItemText);
      if Trim(newItemText) == [] || currentChecklist == [] {
        return;
      }
      var newItem := ChecklistItem(now, newItemText, false);
      checklists := EditCurrent(checklists, currentChecklist, Append(newItem));
      newItemText := [];
    }

    /** `toggleItem(itemId)` */
    method ToggleItem(itemId: JsString)
      modifies this
      ensures Snapshot() == old(Snapshot()).(checklists := EditCurrent(old(checklists), currentChecklist, Toggle(itemId)))
    {
      checklists := EditCurrent(checklists, currentChecklist, Toggle(itemId));
    }

    /** `deleteItem(itemId)` */
    method DeleteItem(itemId: JsString)
      modifies this
      ensures Snapshot() == old(Snapshot()).(checklists := EditCurrent(old(checklists), currentChecklist, Delete(itemId)))
    {
      checklists := EditCurrent(checklists, currentChecklist, Delete(itemId));
    }

    /** `resetChecklist()` */
    method ResetChecklist()
      modifies this
      ensures Snapshot() == old(Snapshot()).(checklists := EditCurrent(old(checklists), currentChecklist, Reset))
    {
      checklists := EditCurrent(checklists, currentChecklist, Reset);
    }

    /** `startEditing(id, name)` */
    method StartEditing(id: JsString, name: JsString)
      modifies this
      ensures Snapshot() == old(Snapshot()).(editingId := Some(id), editName := name)
    {
      editingId := Some(id);
      editName := name;
    }

    /** `saveEdit(id)`: renames without any check on the name, and leaves editing; the name box keeps its text. */
    method SaveEdit(id: JsString)
      modifies this
      ensures Snapshot() == old(Snapshot()).(checklists := Renamed(old(checklists), id, editName), editingId := None)
    {
      checklists := Renamed(checklists, id, editName);
      editingId := None;
    }

    /** `cancelEdit()` */
    method CancelEdit()
      modifies this
      ensures Snapshot() == old(Snapshot()).(editingId := None, editName := [])
    {
      editingId := None;
      editName := [];
    }

    /** `deleteChecklist(id)`: the selection is cleared exactly when it was that checklist. */
    method DeleteChecklist(id: JsString)
      modifies this
      ensures Snapshot() == old(Snapshot()).(
        checklists := WithoutChecklist(old(checklists), id),
        currentChecklist := if old(currentChecklist) == id then [] else old(currentChecklist))
    {
      checklists := WithoutChecklist(checklists, id);
      if currentChecklist == id {
        currentChecklist := [];
      }
    }
  }
}
