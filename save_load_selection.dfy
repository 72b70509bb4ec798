/**
 * Saved draws (components/tools/hash-random/SaveLoadSelection.tsx): a named
 * snapshot of the page's salt, count and participants can be stored in a
 * list, loaded back into the page, or deleted by its position in the list.
 */
module SaveLoadSelection {
  import opened Text
  import opened JsArray
  import HashRandomPage

  /** `SelectionData`: what a saved draw remembers. */
  datatype SelectionData = SelectionData(salt: JsString, count: int, participants: seq<JsString>)

  /** One entry of the saved list. */
  datatype Selection = Selection(name: JsString, data: SelectionData)

  /** The panel's state: the saved list and the name typed for the next save. */
  class SaveLoadSelection {
    var savedSelections: seq<Selection>
    var selectionName: JsString

    constructor ()
      ensures savedSelections == [] && selectionName == []
    {
      savedSelections := [];
      selectionName := [];
    }

    /**
     * `saveSelection()`: with a name typed, appends a snapshot of the page
     * under that name (duplicate names allowed) and clears the name; with no
     * name, does nothing.
     */
    method SaveSelection(page: HashRandomPage.Page)
      modifies this
      ensures old(selectionName) == [] ==>
        savedSelections == old(savedSelections) && selectionName == old(selectionName)
      ensures old(selectionName) != [] ==>
        savedSelections == old(savedSelections) +
          [Selection(old(selectionName), SelectionData(page.salt, page.count, page.participants))] &&
        selectionName == []
    {
      if selectionName != [] {
        var newSelection := Selection(selectionName, SelectionData(page.salt, page.count, page.participants));
        savedSelections := savedSelections + [newSelection];
        selectionName := [];
      }
    }

    /** `loadSelection(selection)`: the page takes the saved salt, count and participants. */
    method LoadSelection(selection: Selection, page: HashRandomPage.Page)
      modifies page
      ensures page.salt == selection.data.salt
      ensures page.count == selection.data.count
      ensures page.participants == selection.data.participants
    {
      page.salt := selection.data.salt;
      page.count := selection.data.count;
      page.participants := selection.data.participants;
    }

    /** `deleteSelection(index)`: `splice(index, 1)` on a copy of the list. */
    method DeleteSelection(index: int)
      modifies this
      ensures savedSelections == SpliceOne(old(savedSelections), index)
      ensures selectionName == old(selectionName)
    {
      var newSelections := SpliceOne(savedSelections, index);
      savedSelections := newSelections;
    }
  }

  /** Deleting a valid position removes exactly that entry; the rest keep their order. */
  lemma DeleteRemovesOne(saved: seq<Selection>, index: int)
    requires 0 <= index < |saved|
    ensures var r := SpliceOne(saved, index);
      |r| == |saved| - 1 &&
      (forall i :: 0 <= i < index ==> r[i] == saved[i]) &&
      (forall i :: index <= i < |r| ==> r[i] == saved[i + 1])
  {
  }

  /** An index past the end deletes nothing. */
  lemma DeletePastEnd(saved: seq<Selection>, index: int)
    requires index >= |saved|
    ensures SpliceOne(saved, index) == saved
  {
  }

  /** Saving and then loading the new entry puts the page back as it was when saved. */
  method SaveThenLoad(panel: SaveLoadSelection, page: HashRandomPage.Page)
    requires panel.selectionName != []
    modifies panel, page
    ensures page.salt == old(page.salt)
    ensures page.count == old(page.count)
    ensures page.participants == old(page.participants)
  {
    panel.SaveSelection(page);
    var last := panel.savedSelections[|panel.savedSelections| - 1];
    panel.LoadSelection(last, page);
  }
}
