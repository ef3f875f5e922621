/** The client's page state and how a hot update of the page manifest is reconciled.

    The manifest module exports a table of pages. During development the client keeps
    it in a state record and, when a new manifest arrives, swaps in the new table while
    keeping the identity of everything whose contents did not change, so that views
    depending on those objects need not re-render. Object identity is modelled by
    `Ref`: a replaced object gets a fresh address from `nextAddr`. */
module ClientState {
  import opened Results
  import opened Tables
  import opened Values
  import opened Order

  /** A page as the manifest exports it: its static data and, outside a production build,
      the path of its data bundle. A page whose `findPages` gave no static data carries
      `undefined` (`JUndefined`). */
  datatype ClientPage = ClientPage(staticData: Ref<Json>, dataPath: Option<string>)

  type Pages = Table<ClientPage>

  /** Static data of every page, keyed by page path. */
  type StaticDataTable = Table<Ref<Json>>

  /** The static data of a page that may be missing. */
  function StaticDataOfPage(page: Option<ClientPage>): Option<Ref<Json>> {
    match page
    case Some(p) => Some(p.staticData)
    case None => None
  }

  /** `toStaticData(pages)`: each page path mapped to that page's static data object. */
  function ToStaticData(pages: Pages): (r: StaticDataTable)
    requires WellFormed(pages)
    ensures WellFormed(r)
    ensures Keys(r) == Keys(pages)
    ensures forall x :: Get(r, x) == StaticDataOfPage(Get(pages, x))
    decreases |pages|
  {
    if |pages| == 0 then []
    else
      assert Keys(pages[1..]) == Keys(pages)[1..];
      var r := [(pages[0].0, pages[0].1.staticData)] + ToStaticData(pages[1..]);
      assert Keys(r) == [pages[0].0] + Keys(pages[1..]);
      assert r[1..] == ToStaticData(pages[1..]);
      r
  }

  /** The client's hot-reload state: the current page table, its sorted paths, and the
      static data of every page seen so far. `nextAddr` is where the next object is allocated. */
  datatype HotState = HotState(
    pages: Pages,
    pagePaths: Ref<seq<string>>,
    staticData: Ref<StaticDataTable>,
    nextAddr: nat)

  /** What the hot-reload code keeps true of its state: the paths list is the sorted key
      list of the page table, and the static data table agrees with every current page. */
  predicate Valid(s: HotState) {
    && WellFormed(s.pages)
    && s.pagePaths.val == Sort(Keys(s.pages))
    && WellFormed(s.staticData.val)
    && (forall i :: 0 <= i < |s.pages| ==> Get(s.staticData.val, s.pages[i].0) == Some(s.pages[i].1.staticData))
    && s.pagePaths.addr < s.nextAddr
    && s.staticData.addr < s.nextAddr
  }

  /** The state built from the manifest loaded at start-up, with objects allocated from `addr`. */
  function InitialState(initialPages: Pages, addr: nat): (s: HotState)
    requires WellFormed(initialPages)
    ensures Valid(s)
    ensures s.pages == initialPages
    ensures Sorted(s.pagePaths.val)
  {
    assert forall i :: 0 <= i < |initialPages| ==> Get(initialPages, initialPages[i].0) == Some(initialPages[i].1) by {
      forall i | 0 <= i < |initialPages| { GetAt(initialPages, i); }
    }
    HotState(initialPages, Ref(addr, Sort(Keys(initialPages))), Ref(addr + 1, ToStaticData(initialPages)), addr + 2)
  }

  /** The new page at `path` has static data deep-equal to the current page at `path`. */
  predicate KeepsStaticData(current: Pages, path: string, newStatic: Ref<Json>) {
    match Get(current, path)
    case Some(page) => DeepEqual(page.staticData, newStatic)
    case None => false
  }

  /** `path` is a page of the new table that is new or whose static data is not deep-equal
      to the current page's. */
  predicate StaticDataChanged(current: Pages, newPages: Pages, path: string) {
    match Get(newPages, path)
    case Some(page) => !KeepsStaticData(current, path, page.staticData)
    case None => false
  }

  /** The first half of the loop over the new table: a page whose static data is
      deep-equal to the current page's takes over the current object; every other page
      is left as it is. */
  function AdoptUnchanged(current: Pages, newPages: Pages): (r: Pages)
    ensures Keys(r) == Keys(newPages)
    ensures forall i :: 0 <= i < |newPages| ==> r[i].1.dataPath == newPages[i].1.dataPath
    ensures forall i :: 0 <= i < |newPages| ==>
      r[i].1.staticData
      == if KeepsStaticData(current, newPages[i].0, newPages[i].1.staticData)
         then Get(current, newPages[i].0).value.staticData
         else newPages[i].1.staticData
  {
    seq(|newPages|, i requires 0 <= i < |newPages| => AdoptOne(current, newPages[i]))
  }

  function AdoptOne(current: Pages, entry: (string, ClientPage)): (string, ClientPage) {
    var (path, page) := entry;
    if KeepsStaticData(current, path, page.staticData)
    then (path, page.(staticData := Get(current, path).value.staticData))
    else (path, page)
  }

  /** The second half of the loop: `newStaticData`, the static data of every page that is
      new or whose static data changed, in the new table's order. */
  function CollectChanged(current: Pages, newPages: Pages): (r: StaticDataTable)
    requires WellFormed(newPages)
    ensures WellFormed(r)
    ensures forall x :: x in Keys(r) <==> StaticDataChanged(current, newPages, x)
    ensures forall x :: StaticDataChanged(current, newPages, x) ==> Get(r, x) == StaticDataOfPage(Get(newPages, x))
    decreases |newPages|
  {
    if |newPages| == 0 then []
    else
      var path := newPages[0].0;
      var page := newPages[0].1;
      var tail := newPages[1..];
      assert newPages == [newPages[0]] + tail;
      KeysCons(newPages[0], tail);
      GetCons(newPages[0], tail);
      var rest := CollectChanged(current, tail);
      assert !StaticDataChanged(current, tail, path);
      if KeepsStaticData(current, path, page.staticData) then rest
      else
        KeysCons((path, page.staticData), rest);
        GetCons((path, page.staticData), rest);
        [(path, page.staticData)] + rest
  }

  /** `setPages(newPages)`, the hot-update handler for the page manifest. The page table is
      always replaced. The static data table is replaced by a fresh object, the current one
      spread with the changed entries, only if some page's static data changed. The paths
      list is replaced only if the sorted key list differs from the current one. */
  function SetPages(s: HotState, newPages: Pages): (r: HotState)
    requires WellFormed(newPages) && WellFormed(s.staticData.val)
    ensures Keys(r.pages) == Keys(newPages)
    ensures Sorted(r.pagePaths.val)
    ensures r.nextAddr > s.nextAddr
  {
    var pages' := AdoptUnchanged(s.pages, newPages);
    var changed := CollectChanged(s.pages, newPages);
    var staticData' := if |changed| == 0 then s.staticData else Ref(s.nextAddr, Spread(s.staticData.val, changed));
    var newPagePaths := Sort(Keys(newPages));
    var pagePaths' := if s.pagePaths.val == newPagePaths then s.pagePaths else Ref(s.nextAddr + 1, newPagePaths);
    HotState(pages', pagePaths', staticData', s.nextAddr + 2)
  }

  /** A page of the new table keeps the current static data object exactly when that
      object is deep-equal to the new one; otherwise it carries the new object. Nothing
      else about the page changes. */
  lemma SetPagesReusesStaticData(s: HotState, newPages: Pages, i: nat)
    requires WellFormed(newPages) && WellFormed(s.staticData.val)
    requires i < |newPages|
    ensures var r := SetPages(s, newPages);
      && r.pages[i].0 == newPages[i].0
      && r.pages[i].1.dataPath == newPages[i].1.dataPath
      && (KeepsStaticData(s.pages, newPages[i].0, newPages[i].1.staticData) ==>
            r.pages[i].1.staticData == Get(s.pages, newPages[i].0).value.staticData)
      && (!KeepsStaticData(s.pages, newPages[i].0, newPages[i].1.staticData) ==>
            r.pages[i].1.staticData == newPages[i].1.staticData)
  {
  }

  /** Some page of `newPages` is new or has static data that is not deep-equal to the current. */
  predicate AnyStaticDataChanged(current: Pages, newPages: Pages) {
    exists i :: 0 <= i < |newPages| && StaticDataChanged(current, newPages, newPages[i].0)
  }

  /** Nothing is collected as changed exactly when no static data changed. */
  lemma ChangedEmptyIff(current: Pages, newPages: Pages)
    requires WellFormed(newPages)
    ensures |CollectChanged(current, newPages)| == 0 <==> !AnyStaticDataChanged(current, newPages)
  {
    var changed := CollectChanged(current, newPages);
    if |changed| > 0 {
      assert changed[0].0 in Keys(changed);
      assert Get(newPages, changed[0].0).Some?;
    }
  }

  /** The static data table keeps its identity when no static data changed. Otherwise it
      is a new object holding the current entries, including those of removed pages,
      overwritten by the changed ones. */
  lemma SetPagesStaticData(s: HotState, newPages: Pages)
    requires WellFormed(newPages) && Valid(s)
    ensures var r := SetPages(s, newPages);
      && (r.staticData == s.staticData <==> !AnyStaticDataChanged(s.pages, newPages))
      && (AnyStaticDataChanged(s.pages, newPages) ==>
            forall x :: x in Keys(r.staticData.val) <==> x in Keys(s.staticData.val) || StaticDataChanged(s.pages, newPages, x))
      && (forall x :: Get(r.staticData.val, x)
            == if StaticDataChanged(s.pages, newPages, x) then StaticDataOfPage(Get(newPages, x)) else Get(s.staticData.val, x))
  {
    ChangedEmptyIff(s.pages, newPages);
    var changed := CollectChanged(s.pages, newPages);
    if |changed| > 0 {
      SpreadKeys(s.staticData.val, changed);
    }
  }

  /** The paths list is always the sorted key list of the new table, and it keeps its
      identity exactly when the new table has the same set of paths as the current one:
      an edit that only changes page contents leaves it alone. */
  lemma SetPagesPagePaths(s: HotState, newPages: Pages)
    requires WellFormed(newPages) && Valid(s)
    ensures var r := SetPages(s, newPages);
      && r.pagePaths.val == Sort(Keys(newPages))
      && (r.pagePaths == s.pagePaths <==> forall x :: x in Keys(s.pages) <==> x in Keys(newPages))
  {
    SortEqualIff(Keys(s.pages), Keys(newPages));
    SameKeysIff(Keys(s.pages), Keys(newPages));
  }

  /** A hot update keeps the state consistent. */
  lemma SetPagesValid(s: HotState, newPages: Pages)
    requires WellFormed(newPages) && Valid(s)
    ensures Valid(SetPages(s, newPages))
  {
    var r := SetPages(s, newPages);
    SetPagesPagePaths(s, newPages);
    SetPagesStaticData(s, newPages);
    forall i | 0 <= i < |r.pages|
      ensures Get(r.staticData.val, r.pages[i].0) == Some(r.pages[i].1.staticData)
    {
      var path := newPages[i].0;
      GetAt(newPages, i);
      if KeepsStaticData(s.pages, path, newPages[i].1.staticData) {
        var j :| 0 <= j < |s.pages| && s.pages[j] == (path, Get(s.pages, path).value);
        assert Get(s.staticData.val, s.pages[j].0) == Some(s.pages[j].1.staticData);
      }
    }
  }

  // ===================== lookups with the `/404` fallback =====================

  const NotFoundPath: string := "/404"

  /** `pages[path] || pages['/404']`. */
  function FindPage(pages: Pages, path: string): (r: Option<ClientPage>)
    requires WellFormed(pages)
    ensures r.Some? <==> path in Keys(pages) || NotFoundPath in Keys(pages)
    ensures r.Some? ==>
      exists i :: 0 <= i < |pages| && pages[i].1 == r.value
        && (pages[i].0 == path || (pages[i].0 == NotFoundPath && path !in Keys(pages)))
  {
    match Get(pages, path)
    case Some(page) => Some(page)
    case None => Get(pages, NotFoundPath)
  }

  /** `useDataPath(path)`: the data path of the page, or of the `/404` page when the path
      is unknown, or `null` (`None`) — also `null` when that data path is missing or empty. */
  function DataPathOf(pages: Pages, path: string): (r: Option<string>)
    requires WellFormed(pages)
    ensures r.Some? ==> r.value != "" && FindPage(pages, path).Some? && FindPage(pages, path).value.dataPath == r
    ensures r.None? ==> FindPage(pages, path).None? || FindPage(pages, path).value.dataPath in {None, Some("")}
  {
    match FindPage(pages, path)
    case None => None
    case Some(page) => if page.dataPath == Some("") then None else page.dataPath
  }

  /** `getStaticData(path)`: the static data of the page, or of the `/404` page when the
      path is unknown, or the shared empty object `emptyData` when neither exists or the
      static data found is falsy (`page?.staticData || emptyData`). The result is never a
      falsy value, and anything but `emptyData` is the found page's own static data. */
  function StaticDataOf(pages: Pages, path: string, emptyData: Ref<Json>): (r: Ref<Json>)
    requires WellFormed(pages)
    ensures r == emptyData || Truthy(r.val)
    ensures r != emptyData ==> FindPage(pages, path).Some? && FindPage(pages, path).value.staticData == r
  {
    match FindPage(pages, path)
    case None => emptyData
    case Some(page) => if Truthy(page.staticData.val) then page.staticData else emptyData
  }

  /** The exact lookup order: the page itself, then `/404`, then the empty object; a page
      that is found but whose static data is falsy also yields the empty object. */
  lemma StaticDataFallback(pages: Pages, path: string, emptyData: Ref<Json>)
    requires WellFormed(pages)
    ensures forall i :: 0 <= i < |pages| && pages[i].0 == path ==>
      StaticDataOf(pages, path, emptyData)
      == if Truthy(pages[i].1.staticData.val) then pages[i].1.staticData else emptyData
    ensures path !in Keys(pages) ==> forall i :: 0 <= i < |pages| && pages[i].0 == NotFoundPath ==>
      StaticDataOf(pages, path, emptyData)
      == if Truthy(pages[i].1.staticData.val) then pages[i].1.staticData else emptyData
    ensures path !in Keys(pages) && NotFoundPath !in Keys(pages) ==> StaticDataOf(pages, path, emptyData) == emptyData
  {
    forall i | 0 <= i < |pages| && pages[i].0 == path
      ensures StaticDataOf(pages, path, emptyData)
        == if Truthy(pages[i].1.staticData.val) then pages[i].1.staticData else emptyData
    {
      GetAt(pages, i);
    }
    forall i | 0 <= i < |pages| && pages[i].0 == NotFoundPath && path !in Keys(pages)
      ensures StaticDataOf(pages, path, emptyData)
        == if Truthy(pages[i].1.staticData.val) then pages[i].1.staticData else emptyData
    {
      GetAt(pages, i);
    }
  }

  /** What `useStaticData` returns before any selector is applied: one page's static data,
      or the whole table. */
  datatype StaticView = OnePage(data: Ref<Json>) | AllPages(table: StaticDataTable)

  /** A path argument counts only when it is a non-empty string. */
  predicate PathGiven(path: Option<string>) {
    path.Some? && path.value != ""
  }

  /** `useStaticData(path?)` during development. */
  function HotUseStaticData(s: HotState, path: Option<string>, emptyData: Ref<Json>): (r: StaticView)
    requires WellFormed(s.pages)
    ensures r.OnePage? <==> PathGiven(path)
    ensures r.OnePage? ==> r.data == emptyData || Truthy(r.data.val)
  {
    if PathGiven(path) then OnePage(StaticDataOf(s.pages, path.value, emptyData)) else AllPages(s.staticData.val)
  }

  /** `useStaticData(path?)` in a static build. `freshEmpty` is the `{}` a call creates when
      neither the page nor `/404` exists. */
  function StaticUseStaticData(initialPages: Pages, path: Option<string>, freshEmpty: Ref<Json>): (r: StaticView)
    requires WellFormed(initialPages)
    ensures r.OnePage? <==> PathGiven(path)
    ensures r.OnePage? ==> r.data == freshEmpty || Truthy(r.data.val)
    ensures r.AllPages? ==> Keys(r.table) == Keys(initialPages)
  {
    if PathGiven(path) then OnePage(StaticDataOf(initialPages, path.value, freshEmpty)) else AllPages(ToStaticData(initialPages))
  }

  /** In a consistent state the one-page view agrees with the whole-table view for every
      current page whose static data is truthy. For a page with falsy static data, such as
      `undefined`, the one-page view is the empty object while the table holds the falsy value. */
  lemma HotViewsAgree(s: HotState, i: nat, emptyData: Ref<Json>)
    requires Valid(s) && i < |s.pages| && s.pages[i].0 != ""
    ensures HotUseStaticData(s, Some(s.pages[i].0), emptyData).OnePage?
    ensures Truthy(s.pages[i].1.staticData.val) ==>
      Some(HotUseStaticData(s, Some(s.pages[i].0), emptyData).data)
      == Get(HotUseStaticData(s, None, emptyData).table, s.pages[i].0)
    ensures !Truthy(s.pages[i].1.staticData.val) ==>
      && HotUseStaticData(s, Some(s.pages[i].0), emptyData).data == emptyData
      && Get(HotUseStaticData(s, None, emptyData).table, s.pages[i].0) == Some(s.pages[i].1.staticData)
  {
    StaticDataFallback(s.pages, s.pages[i].0, emptyData);
  }

  /** Before any hot update, development and static builds answer `useStaticData` alike
      (the empty-object fallback aside, which is a fresh object in a static build). */
  lemma InitialStateMatchesStaticMode(initialPages: Pages, addr: nat, path: Option<string>, emptyData: Ref<Json>)
    requires WellFormed(initialPages)
    ensures HotUseStaticData(InitialState(initialPages, addr), path, emptyData)
         == StaticUseStaticData(initialPages, path, emptyData)
  {
  }

  /** `usePagePaths()` in a static build: the manifest's keys in iteration order. The list
      is sorted only when the development branch runs, so here it is left as it is. */
  function StaticUsePagePaths(initialPages: Pages): seq<string> {
    Keys(initialPages)
  }

  /** Development and static builds list the same page paths at start-up exactly when the
      manifest's keys already come in sorted order. */
  lemma PagePathsModesAgreeIff(initialPages: Pages, addr: nat)
    requires WellFormed(initialPages)
    ensures InitialState(initialPages, addr).pagePaths.val == StaticUsePagePaths(initialPages)
        <==> Sorted(Keys(initialPages))
  {
    var ks := Keys(initialPages);
    if Sorted(ks) {
      SortedUnique(Sort(ks), ks);
    }
  }

  /** A hot update that brings nothing new, i.e. a table with the same paths, in the same
      order, with the same data paths and deep-equal static data as the current one, keeps
      the identity of the paths list, of the static data table and of every page's static data. */
  lemma SetPagesUnchangedReload(s: HotState, newPages: Pages)
    requires Valid(s) && WellFormed(newPages)
    requires Keys(newPages) == Keys(s.pages)
    requires forall i :: 0 <= i < |newPages| ==> DeepEqual(newPages[i].1.staticData, s.pages[i].1.staticData)
    ensures var r := SetPages(s, newPages);
      && r.staticData == s.staticData
      && r.pagePaths == s.pagePaths
      && forall i :: 0 <= i < |newPages| ==> r.pages[i].1.staticData == s.pages[i].1.staticData
  {
    forall i | 0 <= i < |newPages|
      ensures KeepsStaticData(s.pages, newPages[i].0, newPages[i].1.staticData)
      ensures Get(s.pages, newPages[i].0) == Some(s.pages[i].1)
    {
      GetAt(s.pages, i);
    }
    SetPagesStaticData(s, newPages);
    SetPagesPagePaths(s, newPages);
  }
}
