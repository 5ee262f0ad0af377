/**
 * How the pieces fit together.  `fetch_all_models` (fetch_all_models.py)
 * paginates, aggregates page after page and writes the ledger under the
 * sanitized account name; `process_username` (civitAI_Model_downloader.py)
 * reads the ledger back under the account name as given, turns the counts
 * into its report, and turns each listing page into download tasks.  The
 * script directory is a map from file names to contents.
 */
module Orchestrator {
  import opened Wrappers
  import opened Listing
  import opened Categories
  import opened Aggregation
  import opened Ledger
  import Usernames
  import Pagination

  // ---------------------------------------------------------------------------
  // process_username: one page's download tasks
  // ---------------------------------------------------------------------------

  /** One `executor.submit(download_model_files, item_name, version, item_with_base_model, ...)`. */
  datatype Task = Task(name: string, version: ModelVersion, item: Item)

  /** An item's tasks: one per model version, in order, on a copy of the item whose `baseModel` is the version's. */
  function VersionTasks(item: Item): (r: seq<Task>)
    ensures |r| == |item.versions|
  {
    seq(|item.versions|, j requires 0 <= j < |item.versions| =>
      Task(item.name, item.versions[j], item.(baseModel := item.versions[j].baseModel)))
  }

  /** The item loop of one page, from the set of names already taken on; a taken name is passed over. */
  function TasksFrom(items: seq<Item>, seen: set<string>): (r: seq<Task>)
    ensures forall i :: 0 <= i < |r| ==> r[i].name !in seen && r[i].item.baseModel == r[i].version.baseModel
    decreases |items|
  {
    if items == [] then []
    else if items[0].name in seen then TasksFrom(items[1..], seen)
    else VersionTasks(items[0]) + TasksFrom(items[1..], seen + {items[0].name})
  }

  /** A page's task list; `downloaded_item_names` starts empty on every page. */
  function PageTasks(items: seq<Item>): (r: seq<Task>)
    ensures items != [] ==> |VersionTasks(items[0])| <= |r| && r[..|VersionTasks(items[0])|] == VersionTasks(items[0])
  {
    TasksFrom(items, {})
  }

  /** The task lists of successive pages, one after another. */
  function AllTasks(pages: seq<seq<Item>>): (r: seq<Task>)
    ensures forall i :: 0 <= i < |r| ==> r[i].item.baseModel == r[i].version.baseModel
    decreases |pages|
  {
    if pages == [] then [] else PageTasks(pages[0]) + AllTasks(pages[1..])
  }

  /** The names of the items in `items`. */
  function NamesOf(items: seq<Item>): set<string> {
    set i | 0 <= i < |items| :: items[i].name
  }

  /** Reference: the page's items in order, each expanded unless an earlier item on the page has its name. */
  function FirstOccurrenceTasks(items: seq<Item>): (r: seq<Task>)
    ensures forall i :: 0 <= i < |r| ==> r[i].name in NamesOf(items)
    decreases |items|
  {
    if items == [] then []
    else
      var init := items[..|items| - 1];
      var last := items[|items| - 1];
      FirstOccurrenceTasks(init) + (if last.name in NamesOf(init) then [] else VersionTasks(last))
  }

  lemma NamesOfCons(items: seq<Item>)
    requires items != []
    ensures NamesOf(items) == {items[0].name} + NamesOf(items[1..])
  {
    forall n | n in NamesOf(items)
      ensures n in {items[0].name} + NamesOf(items[1..])
    {
      var i :| 0 <= i < |items| && items[i].name == n;
      if i > 0 {
        assert items[1..][i - 1] == items[i];
      }
    }
    forall n | n in NamesOf(items[1..])
      ensures n in NamesOf(items)
    {
      var i :| 0 <= i < |items[1..]| && items[1..][i].name == n;
      assert items[i + 1] == items[1..][i];
    }
  }

  /** Two stretches of a page in turn: the second starts with every name of the first taken. */
  lemma {:induction false} TasksFromAppend(a: seq<Item>, b: seq<Item>, seen: set<string>)
    ensures TasksFrom(a + b, seen) == TasksFrom(a, seen) + TasksFrom(b, seen + NamesOf(a))
    decreases |a|
  {
    if a == [] {
      assert a + b == b;
      assert seen + NamesOf(a) == seen;
    } else {
      assert (a + b)[0] == a[0] && (a + b)[1..] == a[1..] + b;
      NamesOfCons(a);
      var seen1 := if a[0].name in seen then seen else seen + {a[0].name};
      assert seen1 + NamesOf(a[1..]) == seen + NamesOf(a);
      TasksFromAppend(a[1..], b, seen1);
      if a[0].name !in seen {
        var v := VersionTasks(a[0]);
        assert v + (TasksFrom(a[1..], seen1) + TasksFrom(b, seen1 + NamesOf(a[1..])))
               == (v + TasksFrom(a[1..], seen1)) + TasksFrom(b, seen1 + NamesOf(a[1..]));
      }
    }
  }

  /** The loop with its seen-name set yields exactly the first occurrences' tasks, in page order. */
  lemma {:induction false} PageTasksAreFirstOccurrences(items: seq<Item>)
    ensures PageTasks(items) == FirstOccurrenceTasks(items)
    decreases |items|
  {
    if items != [] {
      var init := items[..|items| - 1];
      var last := items[|items| - 1];
      assert items == init + [last];
      TasksFromAppend(init, [last], {});
      assert {} + NamesOf(init) == NamesOf(init);
      assert [last][1..] == [];
      PageTasksAreFirstOccurrences(init);
    }
  }

  /** An item whose name an earlier item on the same page already has contributes no task. */
  lemma DuplicateNameIgnored(a: seq<Item>, x: Item, b: seq<Item>)
    requires x.name in NamesOf(a)
    ensures PageTasks(a + [x] + b) == PageTasks(a + b)
  {
    TasksFromAppend(a + [x], b, {});
    TasksFromAppend(a, [x], {});
    TasksFromAppend(a, b, {});
    assert [x][1..] == [];
    assert NamesOf(a + [x]) == NamesOf(a) by {
      forall n | n in NamesOf(a + [x])
        ensures n in NamesOf(a)
      {
        var i :| 0 <= i < |a + [x]| && (a + [x])[i].name == n;
        if i < |a| {
          assert (a + [x])[i] == a[i];
        }
      }
      forall n | n in NamesOf(a)
        ensures n in NamesOf(a + [x])
      {
        var i :| 0 <= i < |a| && a[i].name == n;
        assert (a + [x])[i] == a[i];
      }
    }
  }

  /** The set is not carried from page to page: an item repeated on the next page is expanded again. */
  lemma RepeatOnNextPage(item: Item)
    ensures PageTasks([item, item]) == VersionTasks(item)
    ensures AllTasks([[item], [item]]) == VersionTasks(item) + VersionTasks(item)
  {
    var v := VersionTasks(item);
    assert [item, item][1..] == [item] && [item][1..] == [];
    TasksFromCons([item, item], {});
    TasksFromCons([item], {item.name});
    TasksFromCons([item], {});
    assert v + [] == v;
    assert PageTasks([item]) == v;
    assert [[item], [item]][1..] == [[item]] && [[item]][1..] == [];
    assert AllTasks([[item]]) == v + [];
  }

  /** `t` is a task for an item of the page: its name, one of its versions, and its copy with that version's `baseModel`. */
  ghost predicate FromPage(items: seq<Item>, t: Task) {
    exists i :: 0 <= i < |items| && t.name == items[i].name && t.version in items[i].versions
                && t.item == items[i].(baseModel := t.version.baseModel)
  }

  /** Every task on a page comes from an item of that page, with `baseModel` copied from its version. */
  lemma {:induction false} TasksFromPage(items: seq<Item>, seen: set<string>)
    ensures forall k :: 0 <= k < |TasksFrom(items, seen)| ==> FromPage(items, TasksFrom(items, seen)[k])
    decreases |items|
  {
    if items != [] {
      var seen1 := if items[0].name in seen then seen else seen + {items[0].name};
      TasksFromPage(items[1..], seen1);
      var rest := TasksFrom(items[1..], seen1);
      forall k | 0 <= k < |rest|
        ensures FromPage(items, rest[k])
      {
        var i :| 0 <= i < |items[1..]| && rest[k].name == items[1..][i].name && rest[k].version in items[1..][i].versions
                 && rest[k].item == items[1..][i].(baseModel := rest[k].version.baseModel);
        assert items[i + 1] == items[1..][i];
      }
      if items[0].name !in seen {
        var v := VersionTasks(items[0]);
        forall k | 0 <= k < |v|
          ensures FromPage(items, v[k])
        {
          assert v[k].version == items[0].versions[k];
        }
        assert TasksFrom(items, seen) == v + rest;
        forall k | 0 <= k < |v + rest|
          ensures FromPage(items, (v + rest)[k])
        {
          if k >= |v| {
            assert (v + rest)[k] == rest[k - |v|];
          }
        }
      }
    }
  }

  /** One round of the item loop. */
  lemma TasksFromCons(items: seq<Item>, seen: set<string>)
    requires items != []
    ensures items[0].name in seen ==> TasksFrom(items, seen) == TasksFrom(items[1..], seen)
    ensures items[0].name !in seen ==> TasksFrom(items, seen) == VersionTasks(items[0]) + TasksFrom(items[1..], seen + {items[0].name})
  {
  }

  /** The two loops of `process_username` over one page. */
  method ProcessPageItems(items: seq<Item>) returns (tasks: seq<Task>)
    ensures tasks == PageTasks(items)
  {
    var seen: set<string> := {};
    tasks := [];
    for i := 0 to |items|
      invariant PageTasks(items) == tasks + TasksFrom(items[i..], seen)
    {
      var item := items[i];
      TasksFromCons(items[i..], seen);
      assert items[i..][1..] == items[i + 1..];
      if item.name !in seen {
        ghost var before := tasks;
        seen := seen + {item.name};
        tasks := SubmitVersions(tasks, item);
        SeqAssoc(before, VersionTasks(item), TasksFrom(items[i + 1..], seen));
      }
    }
    assert items[|items|..] == [];
  }

  lemma SeqAssoc(a: seq<Task>, b: seq<Task>, c: seq<Task>)
    ensures a + (b + c) == (a + b) + c
  {
  }

  /** The inner loop: one task per version, appended to `download_futures`. */
  method SubmitVersions(tasks: seq<Task>, item: Item) returns (r: seq<Task>)
    ensures r == tasks + VersionTasks(item)
  {
    r := tasks;
    for j := 0 to |item.versions|
      invariant r == tasks + VersionTasks(item)[..j]
    {
      var v := item.versions[j];
      assert VersionTasks(item)[..j + 1] == VersionTasks(item)[..j] + [Task(item.name, v, item.(baseModel := v.baseModel))];
      r := r + [Task(item.name, v, item.(baseModel := v.baseModel))];
    }
    assert VersionTasks(item)[..|item.versions|] == VersionTasks(item);
  }

  // ---------------------------------------------------------------------------
  // process_username: the counts it reports
  // ---------------------------------------------------------------------------

  /** `summary_data.get(key, 0)`. */
  function GetCount(summary: Counts, key: string): (n: int)
    ensures key !in summary ==> n == 0
    ensures key in summary ==> n == summary[key]
  {
    if key in summary then summary[key] else 0
  }

  /** The numbers the report prints, with the selected-type count they are worked out from. */
  datatype Report = Report(total: int, selected: int, downloaded: int, skipped: int, failed: int)

  /**
   * The arithmetic of `process_username` around the downloads; `downloaded`
   * is the count of files found on disk afterwards.  Skipped, failed and
   * downloaded always add up to the ledger's total.
   */
  function CountsReport(summary: Counts, d: DownloadType, downloaded: int): (r: Report)
    ensures r.total == GetCount(summary, "Total") && r.downloaded == downloaded
    ensures r.skipped + r.failed + r.downloaded == r.total
    ensures r.selected == (if d == All then r.total else GetCount(summary, CategoryName(d.category)))
    ensures d == All ==> r.skipped == 0
  {
    var total := GetCount(summary, "Total");
    var selected := if d == All then total else GetCount(summary, DownloadTypeName(d));
    var skipped := if d == All then 0 else total - selected;
    Report(total, selected, downloaded, skipped, selected - downloaded)
  }

  /**
   * Read from the ledger `format_summary` wrote, the report's total is the
   * sum of the list lengths and the selected count is the chosen
   * category's list length.
   */
  lemma RoundTripLookups(t: Tally, m: Counts)
    requires Complete(t)
    requires m == map["Total" := TotalCount(t), "Checkpoints" := |t.lists[Checkpoints]|, "Embeddings" := |t.lists[Embeddings]|,
                      "Lora" := |t.lists[Lora]|, "Training_Data" := |t.lists[TrainingData]|, "Other" := |t.lists[Other]|]
    ensures GetCount(m, "Total") == TotalCount(t)
    ensures forall c: Category :: GetCount(m, CategoryName(c)) == |t.lists[c]|
  {
    forall c: Category
      ensures GetCount(m, CategoryName(c)) == |t.lists[c]|
    {
      match c
      case Checkpoints =>
      case Embeddings =>
      case Lora =>
      case TrainingData =>
      case Other =>
    }
  }

  lemma LedgerReport(t: Tally, d: DownloadType, downloaded: int)
    requires Complete(t) && ListingSafe(t)
    ensures ReadSummary(Some(Concat(SummaryLines(t)))).Ok?
    ensures var r := CountsReport(ReadSummary(Some(Concat(SummaryLines(t)))).value, d, downloaded);
            && r.total == TotalCount(t)
            && r.selected == (if d == All then TotalCount(t) else |t.lists[d.category]|)
  {
    SummaryRoundTrip(t);
    RoundTripLookups(t, ReadSummary(Some(Concat(SummaryLines(t)))).value);
  }

  // ---------------------------------------------------------------------------
  // fetch_all_models and the ledger file
  // ---------------------------------------------------------------------------

  /** The script directory's files, by name. */
  type Files = map<string, string>

  /** `f"{name}.txt"`, the ledger's file name for an account name. */
  function LedgerFile(name: string): (f: string)
    ensures |f| == |name| + 4 && f[..|name|] == name && f[|name|..] == ".txt"
  {
    name + ".txt"
  }

  lemma LedgerFileInjective(a: string, b: string)
    requires LedgerFile(a) == LedgerFile(b)
    ensures a == b
  {
    assert a == LedgerFile(a)[..|a|];
    assert b == LedgerFile(b)[..|b|];
  }

  /** What `open(path)` finds: the contents, or `None` for `FileNotFoundError`. */
  function Lookup(files: Files, name: string): (r: Option<string>)
    ensures r.None? <==> name !in files
    ensures r.Some? ==> r.value == files[name]
  {
    if name in files then Some(files[name]) else None
  }

  /** The pages' items, in order, each page's batch handed to `process_items` when it is non-empty. */
  function ProcessPages(t: Tally, pages: seq<Page>): (r: Tally)
    requires Complete(t)
    ensures Complete(r)
    decreases |pages|
  {
    if pages == [] then t
    else
      var before := ProcessPages(t, pages[..|pages| - 1]);
      var items := pages[|pages| - 1].items;
      if items != [] then ProcessItems(before, items) else before
  }

  lemma {:induction false} ProcessPagesKeepsInvariants(t: Tally, pages: seq<Page>)
    requires WithinCaps(t) && OthersMirror(t)
    ensures WithinCaps(ProcessPages(t, pages)) && OthersMirror(ProcessPages(t, pages))
    decreases |pages|
  {
    if pages != [] {
      var before := ProcessPages(t, pages[..|pages| - 1]);
      ProcessPagesKeepsInvariants(t, pages[..|pages| - 1]);
      ProcessItemsWithinCaps(before, pages[|pages| - 1].items);
      ProcessItemsMirror(before, pages[|pages| - 1].items);
    }
  }

  /** What `fetch_all_models` ends with. */
  datatype FetchResult =
    | Rejected   // `sanitize_username` raised: `{}` is returned and nothing is written
    | Fetched(tally: Tally, run: Pagination.Outcome, ledger: string, text: string)

  /** `fetch_all_models(token, username)` against a listing service `fetch`. */
  function FetchAllModels(fetch: string -> Pagination.Response, username: string): (r: FetchResult)
    ensures r.Fetched? ==> Complete(r.tally)
  {
    match Usernames.SanitizeUsername(username)
    case Err(_) => Rejected
    case Ok(safe) =>
      var run := Pagination.PaginateAll(fetch, username);
      var t := ProcessPages(EmptyTally(), run.pages);
      Fetched(t, run, LedgerFile(safe), Concat(SummaryLines(t)))
  }

  /** `write_summary`'s effect on the directory: the ledger replaced by the new text. */
  function WriteLedger(files: Files, r: FetchResult): (f: Files)
    ensures r.Fetched? ==> r.ledger in f && f[r.ledger] == r.text
    ensures r.Rejected? ==> f == files
  {
    if r.Fetched? then files[r.ledger := r.text] else files
  }

  /**
   * A run is rejected exactly when the account name is; otherwise the
   * tally is within the caps, `other_item_types` mirrors the Other list,
   * at most 1000 pages were fetched, and the ledger is named after the
   * sanitized account name.
   */
  lemma FetchAllModelsOutcome(fetch: string -> Pagination.Response, username: string)
    ensures FetchAllModels(fetch, username).Rejected? <==> Usernames.SanitizeUsername(username).Err?
    ensures var r := FetchAllModels(fetch, username);
            r.Fetched? ==>
              && WithinCaps(r.tally) && OthersMirror(r.tally)
              && |r.run.fetched| <= Pagination.MaxPages
              && r.ledger == LedgerFile(Usernames.SanitizeUsername(username).value)
              && Usernames.ValidUsername(Usernames.SanitizeUsername(username).value)
  {
    if Usernames.SanitizeUsername(username).Ok? {
      ProcessPagesKeepsInvariants(EmptyTally(), Pagination.PaginateAll(fetch, username).pages);
      Pagination.FetchBound(fetch, Some(Pagination.StartUrl(username)), {}, 0);
    }
  }

  /**
   * The downloader reads the ledger under the account name as given.  When
   * sanitizing changed the name and no file of the raw name was there
   * before, it finds no file and counts from an empty dictionary: every
   * count is 0.
   */
  lemma RenamedLedgerUnread(fetch: string -> Pagination.Response, username: string, files: Files, d: DownloadType, downloaded: int)
    requires Usernames.SanitizeUsername(username).Ok? && Usernames.SanitizeUsername(username).value != username
    requires LedgerFile(username) !in files
    ensures var after := WriteLedger(files, FetchAllModels(fetch, username));
            && ReadSummary(Lookup(after, LedgerFile(username))) == Ok(map[])
            && CountsReport(map[], d, downloaded).total == 0
            && CountsReport(map[], d, downloaded).selected == 0
  {
    var safe := Usernames.SanitizeUsername(username).value;
    if LedgerFile(safe) == LedgerFile(username) {
      LedgerFileInjective(safe, username);
    }
  }

  /** When sanitizing leaves the name alone, the downloader reads back what was written and reports its counts. */
  lemma KeptNameLedgerRead(fetch: string -> Pagination.Response, username: string, files: Files, d: DownloadType, downloaded: int)
    requires Usernames.SanitizeUsername(username) == Ok(username)
    requires ListingSafe(FetchAllModels(fetch, username).tally)
    ensures var r := FetchAllModels(fetch, username);
            var read := ReadSummary(Lookup(WriteLedger(files, r), LedgerFile(username)));
            && read.Ok?
            && CountsReport(read.value, d, downloaded).total == TotalCount(r.tally)
            && CountsReport(read.value, d, downloaded).selected
               == (if d == All then TotalCount(r.tally) else |r.tally.lists[d.category]|)
  {
    LedgerReport(FetchAllModels(fetch, username).tally, d, downloaded);
  }

  /**
   * The driver of `fetch_all_models`: the pagination loop, the aggregator
   * fed page by page, and the summary text.  Its result is the
   * specification's.
   */
  method RunFetchAllModels(fetch: string -> Pagination.Response, username: string) returns (r: FetchResult)
    ensures r == FetchAllModels(fetch, username)
  {
    var checked := Usernames.SanitizeUsername(username);
    if checked.Err? {
      return Rejected;
    }
    var agg := new Aggregator();
    var run := Pagination.PaginateApi(fetch, username);
    for i := 0 to |run.pages|
      invariant Complete(agg.Current())
      invariant agg.Current() == ProcessPages(EmptyTally(), run.pages[..i])
    {
      assert run.pages[..i + 1][..i] == run.pages[..i];
      var items := run.pages[i].items;
      if items != [] {
        agg.ProcessAll(items);
      }
    }
    assert run.pages[..|run.pages|] == run.pages;
    var text := FormatSummary(agg.Current());
    r := Fetched(agg.Current(), run, LedgerFile(checked.value), text);
  }
}
