/**
 * The data route (app/api/load-yaml-data/route.ts): every `.yml` or `.yaml`
 * file of the data directory becomes one category, named after the file
 * without its extension, whose items are grouped by their `subcategory`
 * field. The result is the category object the navigation page shows.
 *
 * Reading the directory and the files and parsing YAML are not modelled:
 * the directory listing is a parameter, each file paired with what parsing
 * it gives. A failure to list or read anything makes the whole response
 * the 500 error.
 */
module LoadYamlData {
  import opened Text
  import opened Lists
  import opened Navigation

  /** One element of a parsed file; `subcategory` is `None` when the field is absent. */
  datatype ParsedItem = ParsedItem(name: JsString, url: JsString, description: JsString, subcategory: Option<JsString>)

  /** What reading and parsing one file gives. */
  datatype FileContent =
    | Unreadable                       // `readFile` or `yaml.load` throws
    | NotAnArray                       // parsed, but not an array
    | Items(items: seq<ParsedItem>)

  datatype YamlFile = YamlFile(name: JsString, content: FileContent)

  /** The JSON response: the category object, or the 500 error. */
  datatype Response = Json(data: CategoryData) | ServerError

  /** ".yml" */
  const Yml: JsString := [0x2E, 0x79, 0x6D, 0x6C]

  /** ".yaml" */
  const Yaml: JsString := [0x2E, 0x79, 0x61, 0x6D, 0x6C]

  /** 默认 ("default"), the group of items without a sub-category */
  const Default: JsString := [0x9ED8, 0x8BA4]

  const Dot: CodeUnit := 0x2E

  /** The files the route parses. */
  predicate IsYamlFile(name: JsString)
  {
    EndsWith(name, Yml) || EndsWith(name, Yaml)
  }

  /** The index of the last `.` in `s`, or -1 when there is none. */
  function LastDot(s: JsString): (r: int)
    ensures -1 <= r < |s|
    ensures r >= 0 ==> s[r] == Dot
    ensures forall i :: r < i < |s| ==> s[i] != Dot
  {
    if s == [] then -1
    else if s[|s| - 1] == Dot then |s| - 1
    else LastDot(s[..|s| - 1])
  }

  /**
   * `path.parse(file).name` for a file name that does not end in a dot:
   * everything before the last dot, unless that dot is the first code unit
   * (a hidden file such as `.yml` has no extension).
   */
  function Stem(name: JsString): (r: JsString)
    ensures LastDot(name) <= 0 ==> r == name
    ensures LastDot(name) > 0 ==> r + name[LastDot(name)..] == name && Dot !in name[LastDot(name) + 1..]
  {
    var d := LastDot(name);
    if d <= 0 then name else name[..d]
  }

  /** Code units without a dot do not move the last dot. */
  lemma {:induction false} LastDotSkips(a: JsString, b: JsString)
    requires Dot !in b
    ensures LastDot(a + b) == LastDot(a)
    decreases |b|
  {
    if b != [] {
      var t := a + b;
      assert t[|t| - 1] == b[|b| - 1] && b[|b| - 1] in b;
      assert t[..|t| - 1] == a + b[..|b| - 1];
      assert forall c :: c in b[..|b| - 1] ==> c in b;
      LastDotSkips(a, b[..|b| - 1]);
    } else {
      assert a + b == a;
    }
  }

  /** A file `<stem>.yml` or `<stem>.yaml` with a non-empty stem is the category `<stem>`. */
  lemma StemOfYamlFile(stem: JsString, ext: JsString)
    requires ext == Yml || ext == Yaml
    requires stem != []
    ensures IsYamlFile(stem + ext)
    ensures Stem(stem + ext) == stem
  {
    var name := stem + ext;
    assert name == (stem + [Dot]) + ext[1..];
    assert (stem + [Dot])[..|stem|] == stem;
    LastDotSkips(stem + [Dot], ext[1..]);
    assert name[..|stem|] == stem;
    assert name[|name| - |ext|..] == ext;
  }

  /** The group an item goes to: its sub-category, or 默认 when that is absent or empty. */
  function SubKey(item: ParsedItem): (r: JsString)
    ensures r != []
  {
    if item.subcategory.Some? && item.subcategory.value != [] then item.subcategory.value else Default
  }

  /** The output item: name, url and description, without the sub-category. */
  function Strip(item: ParsedItem): NavItem
  {
    NavItem(item.name, item.url, item.description)
  }

  /**
   * One step of the grouping: `x` is pushed onto the group named `key`,
   * which is created at the end when it does not exist yet.
   */
  function Insert(groups: seq<SubCategory>, key: JsString, x: NavItem): (r: seq<SubCategory>)
    ensures |r| == |groups| || |r| == |groups| + 1
    ensures |r| == |groups| + 1 <==> forall i :: 0 <= i < |groups| ==> groups[i].name != key
    ensures forall i :: 0 <= i < |groups| ==> r[i].name == groups[i].name
    ensures |r| == |groups| + 1 ==> r[|groups|] == SubCategory(key, [x])
  {
    if groups == [] then [SubCategory(key, [x])]
    else if groups[0].name == key then [groups[0].(items := groups[0].items + [x])] + groups[1..]
    else
      var rest := Insert(groups[1..], key, x);
      assert (forall i :: 0 <= i < |groups| ==> groups[i].name != key) <==>
        (forall i :: 0 <= i < |groups| - 1 ==> groups[1..][i].name != key);
      [groups[0]] + rest
  }

  /** The grouping of a whole file, item by item in file order. */
  function Group(items: seq<ParsedItem>): seq<SubCategory>
  {
    if items == [] then []
    else
      var last := items[|items| - 1];
      Insert(Group(items[..|items| - 1]), SubKey(last), Strip(last))
  }

  /** The items of the first group named `key`, or none. */
  function ItemsOf(groups: seq<SubCategory>, key: JsString): seq<NavItem>
  {
    if groups == [] then []
    else if groups[0].name == key then groups[0].items
    else ItemsOf(groups[1..], key)
  }

  /** `ItemsOf` is what the navigation page shows for that sub-category. */
  lemma {:induction false} ItemsOfNamed(groups: seq<SubCategory>, key: JsString)
    ensures ItemsOf(groups, key) == if SubCategoryNamed(groups, key).Some? then SubCategoryNamed(groups, key).value else []
  {
    if groups != [] && groups[0].name != key {
      ItemsOfNamed(groups[1..], key);
      var p := (s: SubCategory) => s.name == key;
      assert FindIndex(groups, p) == if FindIndex(groups[1..], p) == -1 then -1 else 1 + FindIndex(groups[1..], p);
    }
  }

  /** The items that go to the group `key`. */
  function InGroup(key: JsString): ParsedItem -> bool
  {
    (item: ParsedItem) => SubKey(item) == key
  }

  /** One step of the grouping adds `x` to exactly the group `key`. */
  lemma {:induction false} ItemsOfInsert(groups: seq<SubCategory>, key: JsString, x: NavItem, k: JsString)
    ensures ItemsOf(Insert(groups, key, x), k) == ItemsOf(groups, k) + (if k == key then [x] else [])
  {
    var r := Insert(groups, key, x);
    if groups == [] {
    } else if groups[0].name == key {
      assert r[1..] == groups[1..];
    } else {
      assert r[0] == groups[0] && r[1..] == Insert(groups[1..], key, x);
      ItemsOfInsert(groups[1..], key, x, k);
    }
  }

  /**
   * Every item lands in the group of its sub-category (or 默认), and each
   * group holds its items in file order.
   */
  lemma {:induction false} GroupByKey(items: seq<ParsedItem>, k: JsString)
    ensures ItemsOf(Group(items), k) == Map(Filter(items, InGroup(k)), Strip)
    decreases |items|
  {
    if items != [] {
      var init, last := items[..|items| - 1], items[|items| - 1];
      assert items == init + [last];
      GroupByKey(init, k);
      ItemsOfInsert(Group(init), SubKey(last), Strip(last), k);
      FilterAppend(init, [last], InGroup(k));
      MapAppend(Filter(init, InGroup(k)), Filter([last], InGroup(k)), Strip);
    }
  }

  /** No two groups share a name. */
  predicate DistinctNames(groups: seq<SubCategory>)
  {
    forall i, j :: 0 <= i < j < |groups| ==> groups[i].name != groups[j].name
  }

  /** The total number of items over all groups. */
  function Size(groups: seq<SubCategory>): nat
  {
    if groups == [] then 0 else |groups[0].items| + Size(groups[1..])
  }

  /** One step of the grouping keeps the names distinct. */
  lemma InsertDistinct(groups: seq<SubCategory>, key: JsString, x: NavItem)
    requires DistinctNames(groups)
    ensures DistinctNames(Insert(groups, key, x))
  {
    var r := Insert(groups, key, x);
    forall i, j | 0 <= i < j < |r| ensures r[i].name != r[j].name {
      if j == |groups| {
        assert r[i].name == groups[i].name;
      }
    }
  }

  /** One step of the grouping adds one item. */
  lemma {:induction false} InsertSize(groups: seq<SubCategory>, key: JsString, x: NavItem)
    ensures Size(Insert(groups, key, x)) == Size(groups) + 1
  {
    var r := Insert(groups, key, x);
    if groups == [] {
      assert Size(r) == 1 + Size(r[1..]);
    } else if groups[0].name == key {
      assert r[1..] == groups[1..];
    } else {
      assert r[1..] == Insert(groups[1..], key, x);
      InsertSize(groups[1..], key, x);
    }
  }

  /** Every item lands in exactly one group: the names are distinct and the sizes add up. */
  lemma {:induction false} GroupPartitions(items: seq<ParsedItem>)
    ensures DistinctNames(Group(items))
    ensures Size(Group(items)) == |items|
    decreases |items|
  {
    if items != [] {
      var init, last := items[..|items| - 1], items[|items| - 1];
      GroupPartitions(init);
      InsertDistinct(Group(init), SubKey(last), Strip(last));
      InsertSize(Group(init), SubKey(last), Strip(last));
    }
  }

  /**
   * `data[category] = groups`: an existing key keeps its position and takes
   * the new value; a new key goes at the end.
   */
  function Put(data: CategoryData, key: JsString, value: seq<SubCategory>): (r: CategoryData)
    ensures Lookup(r, key) == Some(value)
    ensures forall k :: k != key ==> Lookup(r, k) == Lookup(data, k)
    ensures |r| == |data| || |r| == |data| + 1
    ensures forall i :: 0 <= i < |data| ==> r[i].key == data[i].key
  {
    if data == [] then
      var r := [Category(key, value)];
      assert forall k :: k != key ==> Lookup(r, k).None?;
      r
    else if data[0].key == key then
      var r := [Category(key, value)] + data[1..];
      assert Lookup(r, key) == Some(value) by {
        assert FindIndex(r, (c: Category) => c.key == key) == 0;
      }
      forall k | k != key ensures Lookup(r, k) == Lookup(data, k) {
        LookupSkip(r, k);
        LookupSkip(data, k);
      }
      r
    else
      var rest := Put(data[1..], key, value);
      var r := [data[0]] + rest;
      assert r[1..] == rest;
      forall k | k != data[0].key ensures Lookup(r, k) == Lookup(rest, k) && Lookup(data, k) == Lookup(data[1..], k) {
        LookupSkip(r, k);
        LookupSkip(data, k);
      }
      forall k | k == data[0].key ensures Lookup(r, k) == Lookup(data, k) {
        assert FindIndex(r, (c: Category) => c.key == k) == 0;
        assert FindIndex(data, (c: Category) => c.key == k) == 0;
      }
      r
  }

  /** A first category with another key does not change what `Lookup` finds. */
  lemma LookupSkip(data: CategoryData, k: JsString)
    requires data != [] && data[0].key != k
    ensures Lookup(data, k) == Lookup(data[1..], k)
  {
    var p := (c: Category) => c.key == k;
    assert FindIndex(data, p) == if FindIndex(data[1..], p) == -1 then -1 else 1 + FindIndex(data[1..], p);
  }

  /** What one file does to the category object; `None` is the 500 error. */
  function AddFile(data: CategoryData, file: YamlFile): Option<CategoryData>
  {
    match file.content
    case Unreadable => None
    case NotAnArray => Some(data)
    case Items(items) => Some(Put(data, Stem(file.name), Group(items)))
  }

  /** The category object after the given files, in order; `None` once a file fails. */
  function BuildData(files: seq<YamlFile>): Option<CategoryData>
  {
    if files == [] then Some([])
    else
      match BuildData(files[..|files| - 1])
      case None => None
      case Some(data) => AddFile(data, files[|files| - 1])
  }

  /** The `.yml` and `.yaml` files of a listing, in order. */
  function YamlFiles(files: seq<YamlFile>): seq<YamlFile>
  {
    Filter(files, (f: YamlFile) => IsYamlFile(f.name))
  }

  /** `GET()`: the response for a directory listing, or for a listing that failed (`None`). */
  function Respond(listing: Option<seq<YamlFile>>): Response
  {
    if listing.None? then ServerError
    else
      match BuildData(YamlFiles(listing.value))
      case None => ServerError
      case Some(data) => Json(data)
  }

  /** A file that is not `.yml` or `.yaml` changes nothing, whatever it holds. */
  lemma OtherFilesIgnored(files: seq<YamlFile>, other: YamlFile)
    requires !IsYamlFile(other.name)
    ensures Respond(Some(files + [other])) == Respond(Some(files))
  {
    var keep := (f: YamlFile) => IsYamlFile(f.name);
    FilterAppend(files, [other], keep);
    assert Filter([other], keep) == [];
    assert Filter(files, keep) + [] == Filter(files, keep);
  }

  /** A parse result that is not an array contributes no category. */
  lemma NotAnArraySkipped(files: seq<YamlFile>, name: JsString)
    ensures BuildData(files + [YamlFile(name, NotAnArray)]) == BuildData(files)
  {
    assert (files + [YamlFile(name, NotAnArray)])[..|files|] == files;
  }

  /** The last file with a given stem decides that category. */
  lemma LaterFileWins(files: seq<YamlFile>, name: JsString, items: seq<ParsedItem>)
    requires BuildData(files).Some?
    ensures var r := BuildData(files + [YamlFile(name, Items(items))]);
      r.Some? && Lookup(r.value, Stem(name)) == Some(Group(items)) &&
      forall k :: k != Stem(name) ==> Lookup(r.value, k) == Lookup(BuildData(files).value, k)
  {
    assert (files + [YamlFile(name, Items(items))])[..|files|] == files;
  }

  /** One unreadable file in the prefix makes the whole build fail. */
  lemma {:induction false} BuildDataFailsOnward(files: seq<YamlFile>, i: nat)
    requires i <= |files| && BuildData(files[..i]).None?
    ensures BuildData(files).None?
    decreases |files| - i
  {
    if i == |files| {
      assert files[..i] == files;
    } else {
      assert files[..i + 1][..i] == files[..i];
      BuildDataFailsOnward(files, i + 1);
    }
  }

  /** Any unreadable `.yml` or `.yaml` file turns the response into the 500 error. */
  lemma UnreadableFails(files: seq<YamlFile>, k: int)
    requires 0 <= k < |files| && files[k].content.Unreadable? && IsYamlFile(files[k].name)
    ensures Respond(Some(files)) == ServerError
  {
    var keep := (f: YamlFile) => IsYamlFile(f.name);
    var yamlFiles := YamlFiles(files);
    assert files[k] in yamlFiles;
    var j :| 0 <= j < |yamlFiles| && yamlFiles[j] == files[k];
    var prefix := yamlFiles[..j + 1];
    assert prefix[..j] == yamlFiles[..j];
    assert BuildData(prefix).None?;
    BuildDataFailsOnward(yamlFiles, j + 1);
  }

  /** `parsedData.forEach(...)`: groups one file's items in a loop. */
  method GroupItems(parsedData: seq<ParsedItem>) returns (subCategories: seq<SubCategory>)
    ensures subCategories == Group(parsedData)
  {
    subCategories := [];
    for i := 0 to |parsedData|
      invariant subCategories == Group(parsedData[..i])
    {
      var item := parsedData[i];
      subCategories := Insert(subCategories, SubKey(item), Strip(item));
      assert parsedData[..i + 1][..i] == parsedData[..i];
    }
    assert parsedData[..|parsedData|] == parsedData;
  }

  /** `GET()`: the loop over the directory's files. */
  method Get(listing: Option<seq<YamlFile>>) returns (response: Response)
    ensures response == Respond(listing)
  {
    if listing.None? {
      return ServerError;
    }
    var yamlFiles := YamlFiles(listing.value);
    var data: CategoryData := [];
    for i := 0 to |yamlFiles|
      invariant BuildData(yamlFiles[..i]) == Some(data)
    {
      var file := yamlFiles[i];
      assert yamlFiles[..i + 1][..i] == yamlFiles[..i];
      match file.content {
        case Unreadable =>
          assert BuildData(yamlFiles[..i + 1]).None?;
          BuildDataFailsOnward(yamlFiles, i + 1);
          return ServerError;
        case NotAnArray =>
        case Items(parsedData) =>
          var category := Stem(file.name);
          var subCategories := GroupItems(parsedData);
          data := Put(data, category, subCategories);
      }
    }
    assert yamlFiles[..|yamlFiles|] == yamlFiles;
    response := Json(data);
  }
}
