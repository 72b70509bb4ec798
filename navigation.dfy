/**
 * The navigation page (components/navigation.tsx): links grouped in
 * categories and sub-categories, a category and sub-category selection, a
 * search box, and a set of expanded categories in the side bar.
 *
 * The category object is an association list in its keys' insertion order,
 * the order `Object.values` lists string keys in.
 */
module Navigation {
  import opened Text
  import opened Lists

  datatype NavItem = NavItem(name: JsString, url: JsString, description: JsString)

  datatype SubCategory = SubCategory(name: JsString, items: seq<NavItem>)

  /** One key of `CategoryData` with its sub-categories. */
  datatype Category = Category(key: JsString, subCategories: seq<SubCategory>)

  type CategoryData = seq<Category>

  /** "all" */
  const All: JsString := [0x61, 0x6C, 0x6C]

  /** `subCategories.flatMap(subCategory => subCategory.items)` */
  function SubCategoryItems(subs: seq<SubCategory>): (r: seq<NavItem>)
    ensures forall x :: x in r <==> exists i :: 0 <= i < |subs| && x in subs[i].items
  {
    var itemLists := Map(subs, (s: SubCategory) => s.items);
    assert forall i :: 0 <= i < |subs| ==> itemLists[i] == subs[i].items;
    Concat(itemLists)
  }

  /** `Object.values(data).flatMap(...)`: every item of every sub-category of every category. */
  function EveryItem(data: CategoryData): (r: seq<NavItem>)
    ensures forall x :: x in r <==>
      exists i, j :: 0 <= i < |data| && 0 <= j < |data[i].subCategories| && x in data[i].subCategories[j].items
  {
    var itemLists := Map(data, (c: Category) => SubCategoryItems(c.subCategories));
    assert forall i :: 0 <= i < |data| ==> itemLists[i] == SubCategoryItems(data[i].subCategories);
    Concat(itemLists)
  }

  /** Adding a category adds its items after all the others. */
  lemma EveryItemAppend(data: CategoryData, c: Category)
    ensures EveryItem(data + [c]) == EveryItem(data) + SubCategoryItems(c.subCategories)
  {
    var f := (c: Category) => SubCategoryItems(c.subCategories);
    MapAppend(data, [c], f);
    ConcatAppend(Map(data, f), Map([c], f));
    assert Map([c], f) == [SubCategoryItems(c.subCategories)];
  }

  /** `data[key]`: the sub-categories under that key, if it is there. */
  function Lookup(data: CategoryData, key: JsString): (r: Option<seq<SubCategory>>)
    ensures r.None? <==> forall i :: 0 <= i < |data| ==> data[i].key != key
    ensures r.Some? ==> exists i :: 0 <= i < |data| && data[i].key == key && data[i].subCategories == r.value
  {
    match Find(data, (c: Category) => c.key == key)
    case None => None
    case Some(c) => Some(c.subCategories)
  }

  /** The items of the first sub-category with that name. */
  function SubCategoryNamed(subs: seq<SubCategory>, name: JsString): (r: Option<seq<NavItem>>)
    ensures r.None? <==> forall i :: 0 <= i < |subs| ==> subs[i].name != name
    ensures r.Some? ==>
      exists i :: 0 <= i < |subs| && subs[i].name == name && subs[i].items == r.value &&
        forall j :: 0 <= j < i ==> subs[j].name != name
  {
    match Find(subs, (s: SubCategory) => s.name == name)
    case None => None
    case Some(s) => Some(s.items)
  }

  /** The items the selection shows before the search box is applied. */
  function SelectItems(data: CategoryData, activeCategory: JsString, activeSubCategory: JsString): (r: seq<NavItem>)
    ensures activeCategory == All ==> r == EveryItem(data)
    ensures activeCategory != All && Lookup(data, activeCategory).None? ==> r == []
    ensures activeCategory != All && activeSubCategory == All && Lookup(data, activeCategory).Some? ==>
      r == SubCategoryItems(Lookup(data, activeCategory).value)
  {
    if activeCategory == All then EveryItem(data)
    else
      match Lookup(data, activeCategory)
      case None => []
      case Some(subs) =>
        if activeSubCategory == All then SubCategoryItems(subs)
        else
          match SubCategoryNamed(subs, activeSubCategory)
          case None => []
          case Some(items) => items
  }

  /** A specific sub-category shows exactly the items of the first one with that name, or nothing. */
  lemma SelectSubCategory(data: CategoryData, activeCategory: JsString, activeSubCategory: JsString)
    requires activeCategory != All && activeSubCategory != All
    ensures var r := SelectItems(data, activeCategory, activeSubCategory);
      var subs := Lookup(data, activeCategory);
      if subs.Some? && SubCategoryNamed(subs.value, activeSubCategory).Some?
      then r == SubCategoryNamed(subs.value, activeSubCategory).value
      else r == []
  {
  }

  /** The search box: the term, lower-cased, in the name or the description. */
  predicate MatchesSearch(item: NavItem, searchTerm: JsString)
  {
    var term := ToLowerCase(searchTerm);
    Includes(ToLowerCase(item.name), term) || Includes(ToLowerCase(item.description), term)
  }

  /** `if (searchTerm) items = items.filter(...)` */
  function Search(items: seq<NavItem>, searchTerm: JsString): (r: seq<NavItem>)
    ensures searchTerm == [] ==> r == items
    ensures searchTerm != [] ==> forall x :: x in r <==> x in items && MatchesSearch(x, searchTerm)
  {
    if searchTerm == [] then items else Filter(items, (item: NavItem) => MatchesSearch(item, searchTerm))
  }

  /** The search keeps the matching items in their order and with their repetitions. */
  lemma SearchKeepsMatches(items: seq<NavItem>, searchTerm: JsString, x: NavItem)
    requires searchTerm != []
    ensures multiset(Search(items, searchTerm))[x] == if MatchesSearch(x, searchTerm) then multiset(items)[x] else 0
  {
    FilterCount(items, (item: NavItem) => MatchesSearch(item, searchTerm), x);
  }

  /** A search term matching all the shown items drops none of them. */
  lemma SearchMatchingAll(items: seq<NavItem>, searchTerm: JsString)
    requires forall i :: 0 <= i < |items| ==> MatchesSearch(items[i], searchTerm)
    ensures Search(items, searchTerm) == items
  {
    if searchTerm != [] {
      FilterKeepsAll(items, (item: NavItem) => MatchesSearch(item, searchTerm));
    }
  }

  /** `toggleCategory`'s update: removes the category if it is there, appends it if not. */
  function ToggledCategory(expanded: seq<JsString>, category: JsString): (r: seq<JsString>)
    ensures category in r <==> category !in expanded
    ensures forall c :: c != category ==> (c in r <==> c in expanded)
  {
    if category in expanded then Filter(expanded, (c: JsString) => c != category) else expanded + [category]
  }

  /** Toggling twice restores whether the category is expanded, and an absent one leaves the list as it was. */
  lemma ToggleTwice(expanded: seq<JsString>, category: JsString)
    ensures var r := ToggledCategory(ToggledCategory(expanded, category), category);
      (forall c :: c in r <==> c in expanded) &&
      (category !in expanded ==> r == expanded)
  {
    if category !in expanded {
      var keep := (c: JsString) => c != category;
      FilterAppend(expanded, [category], keep);
      FilterKeepsAll(expanded, keep);
      assert Filter([category], keep) == [];
    }
  }

  /** The component's state. */
  class Navigation {
    var searchTerm: JsString
    var activeCategory: JsString
    var activeSubCategory: JsString
    var data: CategoryData
    var filteredItems: seq<NavItem>
    var expandedCategories: seq<JsString>

    constructor ()
      ensures searchTerm == [] && activeCategory == All && activeSubCategory == All
      ensures data == [] && filteredItems == [] && expandedCategories == []
    {
      searchTerm, activeCategory, activeSubCategory := [], All, All;
      data, filteredItems, expandedCategories := [], [], [];
    }

    /** The first effect: the fetched data, or nothing when the fetch failed. */
    method LoadData(fetched: Option<CategoryData>)
      modifies this
      ensures data == if fetched.Some? then fetched.value else old(data)
      ensures searchTerm == old(searchTerm) && activeCategory == old(activeCategory)
      ensures activeSubCategory == old(activeSubCategory)
      ensures filteredItems == old(filteredItems) && expandedCategories == old(expandedCategories)
    {
      if fetched.Some? {
        data := fetched.value;
      }
    }

    /** The second effect, run whenever the search, the selection or the data change. */
    method UpdateFilteredItems()
      modifies this
      ensures filteredItems == Search(SelectItems(data, activeCategory, activeSubCategory), searchTerm)
      ensures searchTerm == old(searchTerm) && activeCategory == old(activeCategory)
      ensures activeSubCategory == old(activeSubCategory)
      ensures data == old(data) && expandedCategories == old(expandedCategories)
    {
      var items: seq<NavItem> := [];
      if activeCategory == All {
        items := EveryItem(data);
      } else if activeSubCategory == All {
        var subs := Lookup(data, activeCategory);
        items := if subs.Some? then SubCategoryItems(subs.value) else [];
      } else {
        var subs := Lookup(data, activeCategory);
        var found := if subs.Some? then SubCategoryNamed(subs.value, activeSubCategory) else None;
        items := if found.Some? then found.value else [];
      }
      if searchTerm != [] {
        var term := searchTerm;
        items := Filter(items, (item: NavItem) => MatchesSearch(item, term));
      }
      filteredItems := items;
    }

    /** `toggleCategory(category)` */
    method ToggleCategory(category: JsString)
      modifies this
      ensures expandedCategories == ToggledCategory(old(expandedCategories), category)
      ensures searchTerm == old(searchTerm) && activeCategory == old(activeCategory)
      ensures activeSubCategory == old(activeSubCategory)
      ensures data == old(data) && filteredItems == old(filteredItems)
    {
      if category in expandedCategories {
        expandedCategories := Filter(expandedCategories, (c: JsString) => c != category);
      } else {
        expandedCategories := expandedCategories + [category];
      }
    }
  }
}
