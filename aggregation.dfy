/**
 * The aggregator of fetch_all_models.py: `search_for_training_data_files`
 * collects an item's training-data file names, and `process_items` files
 * each item's name under its category, adds its training-data files to
 * Training_Data, and keeps the (name, type) pairs of uncategorized items,
 * all under a cap of 30,000 entries per list.
 */
module Aggregation {
  import opened Wrappers
  import opened PyStr
  import opened Listing
  import opened Categories

  /** `MAX_NAME_LENGTH`. */
  const MaxNameLength := 500

  /** `MAX_ITEMS_PER_CATEGORY`. */
  const MaxItemsPerCategory := 30000

  /** `name[:MAX_NAME_LENGTH]` when the name is longer. */
  function TruncateName(name: string): (r: string)
    ensures |r| <= MaxNameLength && StartsWith(name, r)
    ensures |name| <= MaxNameLength ==> r == name
  {
    if |name| > MaxNameLength then name[..MaxNameLength] else name
  }

  // ---------------------------------------------------------------------------
  // search_for_training_data_files
  // ---------------------------------------------------------------------------

  /** `name.replace('/', '_').replace('\\', '_')`. */
  function ReplaceSlashes(s: string): (r: string)
    ensures |r| == |s| && '/' !in r && '\\' !in r
    ensures forall i :: 0 <= i < |s| ==> r[i] == if s[i] == '/' || s[i] == '\\' then '_' else s[i]
  {
    seq(|s|, i requires 0 <= i < |s| => if s[i] == '/' || s[i] == '\\' then '_' else s[i])
  }

  /** What every training-data name the search returns satisfies. */
  predicate SafeTrainingName(n: string) {
    n != [] && |n| <= MaxNameLength && '/' !in n && '\\' !in n && n[0] != '.'
  }

  /**
   * The name as the search keeps it: truncated, then, when it holds a
   * path separator or starts with a dot, separators replaced and leading
   * dots dropped.
   */
  function CleanTrainingName(name: string): (r: string)
    ensures r == [] || SafeTrainingName(r)
  {
    var t := TruncateName(name);
    if '/' in t || '\\' in t || StartsWith(t, ".") then
      var u := ReplaceSlashes(t);
      var r := LStrip(u, {'.'});
      LStripSuffix(u, {'.'});
      assert forall i :: 0 <= i < |r| ==> r[i] == u[|u| - |r| + i];
      r
    else
      assert t == [] || t[0] != '.';
      t
  }

  /** A name with neither separator nor leading dot is only truncated. */
  lemma CleanTrainingNameOfPlainName(name: string)
    requires '/' !in name && '\\' !in name && (name == [] || name[0] != '.') && |name| <= MaxNameLength
    ensures CleanTrainingName(name) == name
  {
    assert !StartsWith(name, ".");
  }

  /** `"../x"` is kept as `"_x"`: the separator replaced, the leading dots dropped. */
  lemma CleanTrainingNameExample()
    ensures CleanTrainingName("../x") == "_x"
  {
    assert '/' in "../x";
    assert ReplaceSlashes("../x") == ".._x";
    assert LStrip(".._x", {'.'}) == "_x";
  }

  /** What one file adds: its cleaned name, when its type is exactly `"Training Data"` and the name is non-empty. */
  function FileContribution(f: FileEntry): (r: seq<string>)
    ensures |r| <= 1
    ensures r != [] <==> f.fileType == Some("Training Data") && CleanTrainingName(f.name) != []
    ensures r != [] ==> r == [CleanTrainingName(f.name)]
  {
    if f.fileType == Some("Training Data") && CleanTrainingName(f.name) != [] then [CleanTrainingName(f.name)] else []
  }

  /** No file of the list is a named `"Training Data"` file. */
  predicate NoneContribute(files: seq<FileEntry>) {
    forall i :: 0 <= i < |files| ==> FileContribution(files[i]) == []
  }

  /** The names found in a list of files, in order. */
  function FileNames(files: seq<FileEntry>): (r: seq<string>)
    ensures |r| <= |files|
  {
    if files == [] then [] else FileNames(files[..|files| - 1]) + FileContribution(files[|files| - 1])
  }

  /** No name is found exactly when no file contributes one. */
  lemma {:induction false} FileNamesEmpty(files: seq<FileEntry>)
    ensures FileNames(files) == [] <==> NoneContribute(files)
    decreases |files|
  {
    if files != [] {
      var init := files[..|files| - 1];
      FileNamesEmpty(init);
      assert forall i :: 0 <= i < |init| ==> init[i] == files[i];
    }
  }

  /** The names found in the versions of an item, version by version, in order. */
  function VersionNames(versions: seq<ModelVersion>): (r: seq<string>)
  {
    if versions == [] then [] else VersionNames(versions[..|versions| - 1]) + FileNames(versions[|versions| - 1].files)
  }

  /** No name is found exactly when no file of any version contributes one. */
  lemma {:induction false} VersionNamesEmpty(versions: seq<ModelVersion>)
    ensures VersionNames(versions) == [] <==> NoVersionContributes(versions)
    decreases |versions|
  {
    if versions != [] {
      var init := versions[..|versions| - 1];
      var last := versions[|versions| - 1].files;
      VersionNamesEmpty(init);
      FileNamesEmpty(last);
      NoVersionContributesSnoc(versions);
      assert VersionNames(versions) == [] <==> VersionNames(init) == [] && FileNames(last) == [];
    }
  }

  /** No file of any of the versions contributes a name. */
  predicate NoVersionContributes(versions: seq<ModelVersion>) {
    forall j :: 0 <= j < |versions| ==> NoneContribute(versions[j].files)
  }

  lemma NoVersionContributesSnoc(versions: seq<ModelVersion>)
    requires versions != []
    ensures var init := versions[..|versions| - 1];
            NoVersionContributes(versions) <==> NoVersionContributes(init) && NoneContribute(versions[|versions| - 1].files)
  {
    var init := versions[..|versions| - 1];
    assert forall j :: 0 <= j < |init| ==> init[j] == versions[j];
  }

  /** `search_for_training_data_files(item)`, as a value: empty exactly when no file of the item contributes a name. */
  function TrainingDataFiles(item: Item): (r: seq<string>)
    ensures r == [] <==> forall j :: 0 <= j < |item.versions| ==> NoneContribute(item.versions[j].files)
  {
    VersionNamesEmpty(item.versions);
    VersionNames(item.versions)
  }

  lemma {:induction false} FileNamesSafe(files: seq<FileEntry>)
    ensures forall i :: 0 <= i < |FileNames(files)| ==> SafeTrainingName(FileNames(files)[i])
    decreases |files|
  {
    if files != [] {
      FileNamesSafe(files[..|files| - 1]);
    }
  }

  lemma {:induction false} VersionNamesSafe(versions: seq<ModelVersion>)
    ensures forall i :: 0 <= i < |VersionNames(versions)| ==> SafeTrainingName(VersionNames(versions)[i])
    decreases |versions|
  {
    if versions != [] {
      VersionNamesSafe(versions[..|versions| - 1]);
      FileNamesSafe(versions[|versions| - 1].files);
    }
  }

  /**
   * Every name the search returns is non-empty, at most 500 characters,
   * free of `/` and `\`, and does not start with a dot.
   */
  lemma TrainingDataFilesSafe(item: Item)
    ensures forall i :: 0 <= i < |TrainingDataFiles(item)| ==> SafeTrainingName(TrainingDataFiles(item)[i])
  {
    VersionNamesSafe(item.versions);
  }

  /** Concatenated file lists give concatenated results: traversal order is kept. */
  lemma {:induction false} FileNamesAppend(a: seq<FileEntry>, b: seq<FileEntry>)
    ensures FileNames(a + b) == FileNames(a) + FileNames(b)
    decreases |b|
  {
    if b != [] {
      var b' := b[..|b| - 1];
      assert (a + b)[..|a + b| - 1] == a + b';
      assert (a + b)[|a + b| - 1] == b[|b| - 1];
      FileNamesAppend(a, b');
    } else {
      assert a + b == a;
    }
  }

  /** Files of any other type are passed over. */
  lemma {:induction false} OtherTypesContributeNothing(files: seq<FileEntry>)
    requires forall i :: 0 <= i < |files| ==> files[i].fileType != Some("Training Data")
    ensures FileNames(files) == []
    decreases |files|
  {
    if files != [] {
      OtherTypesContributeNothing(files[..|files| - 1]);
    }
  }

  /** The inner loop of `search_for_training_data_files`: one version's files, appended to `names`. */
  method AppendFileNames(names: seq<string>, files: seq<FileEntry>) returns (r: seq<string>)
    ensures r == names + FileNames(files)
  {
    r := names;
    var k := 0;
    while k < |files|
      invariant 0 <= k <= |files|
      invariant r == names + FileNames(files[..k])
    {
      var f := files[k];
      ghost var before := r;
      if f.fileType == Some("Training Data") {
        var name := CleanTrainingName(f.name);
        if name != [] {
          r := r + [name];
        }
      }
      FileNamesStep(names, files, k, before, r);
      k := k + 1;
    }
    assert files[..k] == files;
  }

  /** One turn of the inner loop: the names so far, then what file `k` contributes. */
  lemma FileNamesStep(names: seq<string>, files: seq<FileEntry>, k: nat, before: seq<string>, r: seq<string>)
    requires k < |files| && before == names + FileNames(files[..k])
    requires var f := files[k];
             r == if f.fileType == Some("Training Data") && CleanTrainingName(f.name) != []
                  then before + [CleanTrainingName(f.name)] else before
    ensures r == names + FileNames(files[..k + 1])
  {
    assert files[..k + 1][..k] == files[..k];
    assert FileNames(files[..k + 1]) == FileNames(files[..k]) + FileContribution(files[k]);
  }

  /** `search_for_training_data_files(item)`: the versions in order, each version's files in order. */
  method SearchForTrainingDataFiles(item: Item) returns (names: seq<string>)
    ensures names == TrainingDataFiles(item)
  {
    names := [];
    var v := 0;
    while v < |item.versions|
      invariant 0 <= v <= |item.versions|
      invariant names == VersionNames(item.versions[..v])
    {
      names := AppendFileNames(names, item.versions[v].files);
      assert item.versions[..v + 1][..v] == item.versions[..v];
      v := v + 1;
    }
    assert item.versions[..v] == item.versions;
  }

  // ---------------------------------------------------------------------------
  // process_items
  // ---------------------------------------------------------------------------

  /** `other_item_types`: an uncategorized item's name and its raw `type`. */
  type OtherEntry = (string, Option<string>)

  /** The aggregator's two containers, `categorized_items` and `other_item_types`. */
  datatype Tally = Tally(lists: map<Category, seq<string>>, others: seq<OtherEntry>)

  /** `categorized_items` has a list under each of the five keys. */
  predicate Complete(t: Tally) {
    forall c: Category :: c in t.lists
  }

  /** No list holds more than the cap. */
  predicate WithinCaps(t: Tally) {
    && Complete(t)
    && (forall c: Category :: |t.lists[c]| <= MaxItemsPerCategory)
    && |t.others| <= MaxItemsPerCategory
  }

  /** `t` is `u` with entries appended and nothing removed or reordered. */
  predicate Extends(u: Tally, t: Tally)
    requires Complete(u) && Complete(t)
  {
    (forall c: Category :: StartsWithSeq(t.lists[c], u.lists[c])) && StartsWithSeq(t.others, u.others)
  }

  predicate StartsWithSeq<T(==)>(s: seq<T>, p: seq<T>) {
    |p| <= |s| && s[..|p|] == p
  }

  /** The tally `fetch_all_models` starts with: five empty lists, no others. */
  function EmptyTally(): (t: Tally)
    ensures WithinCaps(t) && OthersMirror(t)
  {
    var m: map<Category, seq<string>> := map[Checkpoints := [], Embeddings := [], Lora := [], TrainingData := [], Other := []];
    assert forall c: Category :: c in m && m[c] == [] by {
      forall c: Category
        ensures c in m && m[c] == []
      {
        assert c.Checkpoints? || c.Embeddings? || c.Lora? || c.TrainingData? || c.Other?;
      }
    }
    Tally(m, [])
  }

  /** `files_to_add = training_data_files[:remaining_capacity]` and the extend, or nothing when there is no room. */
  function AddTrainingFiles(lists: map<Category, seq<string>>, files: seq<string>): (r: map<Category, seq<string>>)
    requires TrainingData in lists
    ensures r.Keys == lists.Keys
    ensures forall c :: c in lists && c != TrainingData ==> r[c] == lists[c]
    ensures r[TrainingData] == lists[TrainingData] + FirstFiles(files, MaxItemsPerCategory - |lists[TrainingData]|)
  {
    if files == [] then lists
    else
      var remaining := MaxItemsPerCategory - |lists[TrainingData]|;
      if remaining <= 0 then lists
      else
        var add := if |files| > remaining then files[..remaining] else files;
        lists[TrainingData := lists[TrainingData] + add]
  }

  /** `files[:remaining]` when `remaining` is positive, nothing otherwise. */
  function FirstFiles(files: seq<string>, remaining: int): (r: seq<string>)
    ensures remaining <= 0 ==> r == []
    ensures remaining > 0 ==> |r| == (if |files| < remaining then |files| else remaining) && StartsWithSeq(files, r)
  {
    if remaining <= 0 then [] else if |files| > remaining then files[..remaining] else files
  }

  /** The body of `process_items`' loop for one item, as a function of the tally before it. */
  function ProcessItem(t: Tally, item: Item): (r: Tally)
    requires Complete(t)
    ensures Complete(r)
  {
    var name := TruncateName(item.name);
    var category := CategorizeItem(item.itemType);
    if |t.lists[category]| >= MaxItemsPerCategory then t
    else
      var lists1 := t.lists[category := t.lists[category] + [name]];
      var lists2 := AddTrainingFiles(lists1, TrainingDataFiles(item));
      var others := if category == Other && |t.others| < MaxItemsPerCategory then t.others + [(name, item.itemType)] else t.others;
      Tally(lists2, others)
  }

  /** `process_items(items, ...)`: the items one after another. */
  function ProcessItems(t: Tally, items: seq<Item>): (r: Tally)
    requires Complete(t)
    ensures Complete(r)
    decreases |items|
  {
    if items == [] then t else ProcessItems(ProcessItem(t, items[0]), items[1..])
  }

  /** One item keeps every list at most 30,000 long. */
  lemma ProcessItemWithinCaps(t: Tally, item: Item)
    requires WithinCaps(t)
    ensures WithinCaps(ProcessItem(t, item))
  {
    var r := ProcessItem(t, item);
    var category := CategorizeItem(item.itemType);
    if |t.lists[category]| < MaxItemsPerCategory {
      var lists1 := t.lists[category := t.lists[category] + [TruncateName(item.name)]];
      assert forall c: Category :: |lists1[c]| <= MaxItemsPerCategory;
      AddTrainingFilesWithinCap(lists1, TrainingDataFiles(item));
    }
  }

  lemma AddTrainingFilesWithinCap(lists: map<Category, seq<string>>, files: seq<string>)
    requires forall c: Category :: c in lists && |lists[c]| <= MaxItemsPerCategory
    ensures var r := AddTrainingFiles(lists, files);
            forall c: Category :: c in r && |r[c]| <= MaxItemsPerCategory
  {
  }

  /** One item only appends: every list before it is a prefix of the same list after it. */
  lemma ProcessItemExtends(t: Tally, item: Item)
    requires Complete(t)
    ensures Extends(t, ProcessItem(t, item))
  {
    var r := ProcessItem(t, item);
    var category := CategorizeItem(item.itemType);
    if |t.lists[category]| < MaxItemsPerCategory {
      var lists1 := t.lists[category := t.lists[category] + [TruncateName(item.name)]];
      forall c: Category
        ensures StartsWithSeq(r.lists[c], t.lists[c])
      {
        assert StartsWithSeq(lists1[c], t.lists[c]);
        var files := TrainingDataFiles(item);
        if c == TrainingData && r.lists[c] != lists1[c] {
          var remaining := MaxItemsPerCategory - |lists1[TrainingData]|;
          var add := if |files| > remaining then files[..remaining] else files;
          assert r.lists[c] == lists1[c] + add;
          assert (lists1[c] + add)[..|t.lists[c]|] == lists1[c][..|t.lists[c]|];
        }
      }
      assert StartsWithSeq(r.others, t.others);
    }
  }

  /** An item whose category list is full adds nothing anywhere, training-data files included. */
  lemma FullCategoryAddsNothing(t: Tally, item: Item)
    requires Complete(t) && |t.lists[CategorizeItem(item.itemType)]| >= MaxItemsPerCategory
    ensures ProcessItem(t, item) == t
  {
  }

  /** Only items classified Other reach `other_item_types`, paired with their raw type. */
  lemma OthersOnlyFromOther(t: Tally, item: Item)
    requires Complete(t)
    ensures var r := ProcessItem(t, item);
            r.others == t.others
            || (CategorizeItem(item.itemType) == Other && r.others == t.others + [(TruncateName(item.name), item.itemType)])
  {
  }

  /** An accepted item's name is the last entry of its category list, except that its own training files may follow it. */
  lemma AcceptedNameIsFiled(t: Tally, item: Item)
    requires Complete(t)
    requires CategorizeItem(item.itemType) != TrainingData
    requires |t.lists[CategorizeItem(item.itemType)]| < MaxItemsPerCategory
    ensures var c := CategorizeItem(item.itemType);
            ProcessItem(t, item).lists[c] == t.lists[c] + [TruncateName(item.name)]
  {
  }

  /**
   * Where the item is accepted, Training_Data gains the item's own name
   * when it is a Training_Data item, then as many of its training-data
   * files as the room left allows, in order; the other lists other than
   * the item's own are unchanged.
   */
  lemma TrainingFilesFiled(t: Tally, item: Item)
    requires Complete(t)
    requires |t.lists[CategorizeItem(item.itemType)]| < MaxItemsPerCategory
    ensures var c := CategorizeItem(item.itemType);
            var before := if c == TrainingData then t.lists[TrainingData] + [TruncateName(item.name)] else t.lists[TrainingData];
            var r := ProcessItem(t, item);
            && r.lists[TrainingData] == before + FirstFiles(TrainingDataFiles(item), MaxItemsPerCategory - |before|)
            && forall c' :: c' != c && c' != TrainingData ==> r.lists[c'] == t.lists[c']
  {
  }

  /** The caps hold after any sequence of items. */
  lemma {:induction false} ProcessItemsWithinCaps(t: Tally, items: seq<Item>)
    requires WithinCaps(t)
    ensures WithinCaps(ProcessItems(t, items))
    decreases |items|
  {
    if items != [] {
      ProcessItemWithinCaps(t, items[0]);
      ProcessItemsWithinCaps(ProcessItem(t, items[0]), items[1..]);
    }
  }

  lemma ExtendsTransitive(a: Tally, b: Tally, c: Tally)
    requires Complete(a) && Complete(b) && Complete(c)
    requires Extends(a, b) && Extends(b, c)
    ensures Extends(a, c)
  {
    forall k: Category
      ensures StartsWithSeq(c.lists[k], a.lists[k])
    {
      assert c.lists[k][..|b.lists[k]|][..|a.lists[k]|] == c.lists[k][..|a.lists[k]|];
    }
    assert c.others[..|b.others|][..|a.others|] == c.others[..|a.others|];
  }

  /** Entries are never removed or reordered by any sequence of items. */
  lemma {:induction false} ProcessItemsExtends(t: Tally, items: seq<Item>)
    requires Complete(t)
    ensures Extends(t, ProcessItems(t, items))
    decreases |items|
  {
    if items == [] {
      assert Extends(t, t) by {
        assert forall c: Category :: t.lists[c][..|t.lists[c]|] == t.lists[c];
        assert t.others[..|t.others|] == t.others;
      }
    } else {
      var t1 := ProcessItem(t, items[0]);
      ProcessItemExtends(t, items[0]);
      ProcessItemsExtends(t1, items[1..]);
      ExtendsTransitive(t, t1, ProcessItems(t1, items[1..]));
    }
  }

  /** Processing two batches in turn is processing them together, as page after page does. */
  lemma {:induction false} ProcessItemsAppend(t: Tally, a: seq<Item>, b: seq<Item>)
    requires Complete(t)
    ensures ProcessItems(t, a + b) == ProcessItems(ProcessItems(t, a), b)
    decreases |a|
  {
    if a != [] {
      assert (a + b)[0] == a[0] && (a + b)[1..] == a[1..] + b;
      ProcessItemsAppend(ProcessItem(t, a[0]), a[1..], b);
    } else {
      assert a + b == b;
    }
  }

  /** The names in `other_item_types`, without their types. */
  function OtherNames(others: seq<OtherEntry>): (r: seq<string>)
    ensures |r| == |others|
  {
    seq(|others|, i requires 0 <= i < |others| => others[i].0)
  }

  /** `other_item_types` names exactly the items of the Other list, in its order. */
  predicate OthersMirror(t: Tally) {
    Complete(t) && OtherNames(t.others) == t.lists[Other]
  }

  /** One item keeps `other_item_types` in step with the Other list: both take the item or neither does. */
  lemma ProcessItemMirror(t: Tally, item: Item)
    requires OthersMirror(t)
    ensures OthersMirror(ProcessItem(t, item))
  {
    var r := ProcessItem(t, item);
    var category := CategorizeItem(item.itemType);
    if |t.lists[category]| < MaxItemsPerCategory {
      var name := TruncateName(item.name);
      var lists1 := t.lists[category := t.lists[category] + [name]];
      assert r.lists[Other] == lists1[Other];
      if category == Other {
        assert r.others == t.others + [(name, item.itemType)];
        assert OtherNames(r.others) == OtherNames(t.others) + [name];
      }
    }
  }

  /** `other_item_types` stays in step with the Other list over any sequence of items. */
  lemma {:induction false} ProcessItemsMirror(t: Tally, items: seq<Item>)
    requires OthersMirror(t)
    ensures OthersMirror(ProcessItems(t, items))
    decreases |items|
  {
    if items != [] {
      ProcessItemMirror(t, items[0]);
      ProcessItemsMirror(ProcessItem(t, items[0]), items[1..]);
    }
  }

  /**
   * The two containers `process_items` updates in place.  Each method
   * leaves them as the specification functions above say.
   */
  class Aggregator {
    var categorized: map<Category, seq<string>>
    var otherItemTypes: seq<OtherEntry>

    function Current(): Tally
      reads this
    {
      Tally(categorized, otherItemTypes)
    }

    /** The dictionary and list `fetch_all_models` creates. */
    constructor ()
      ensures Current() == EmptyTally()
    {
      categorized := map[Checkpoints := [], Embeddings := [], Lora := [], TrainingData := [], Other := []];
      otherItemTypes := [];
    }

    /** One pass of `process_items`' loop. */
    method ProcessOne(item: Item)
      requires Complete(Current())
      modifies this
      ensures Current() == ProcessItem(old(Current()), item)
    {
      var name := item.name;
      if |name| > MaxNameLength {
        name := name[..MaxNameLength];
      }
      var category := CategorizeItem(item.itemType);
      if |categorized[category]| >= MaxItemsPerCategory {
        return;
      }
      assert name == TruncateName(item.name);
      categorized := categorized[category := categorized[category] + [name]];
      ghost var lists1 := categorized;
      var trainingFiles := SearchForTrainingDataFiles(item);
      if trainingFiles != [] {
        var remaining := MaxItemsPerCategory - |categorized[TrainingData]|;
        if remaining > 0 {
          var add := if |trainingFiles| > remaining then trainingFiles[..remaining] else trainingFiles;
          categorized := categorized[TrainingData := categorized[TrainingData] + add];
        }
      }
      assert categorized == AddTrainingFiles(lists1, trainingFiles);
      if category == Other && |otherItemTypes| < MaxItemsPerCategory {
        otherItemTypes := otherItemTypes + [(name, item.itemType)];
      }
    }

    /** `process_items(items, categorized_items, other_item_types)`. */
    method ProcessAll(items: seq<Item>)
      requires Complete(Current())
      modifies this
      ensures Current() == ProcessItems(old(Current()), items)
    {
      var i := 0;
      while i < |items|
        invariant 0 <= i <= |items|
        invariant Complete(Current())
        invariant ProcessItems(old(Current()), items) == ProcessItems(Current(), items[i..])
      {
        assert items[i..][0] == items[i] && items[i..][1..] == items[i + 1..];
        ProcessOne(items[i]);
        i := i + 1;
      }
    }
  }
}
