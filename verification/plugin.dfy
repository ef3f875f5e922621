/** The plugin hooks that serve the synthesised modules: `resolveId` claims the virtual
    module ids, and `load` produces each one's source text from the current page table. */
module Plugin {
  import opened Results
  import opened Strings
  import opened Tables
  import opened Values
  import opened PageAddress
  import opened PageModules
  import opened Bundles

  /** `resolveId(id)`: `Some(id)` for the ids the plugin serves, `None` (`undefined`)
      for every other id, which is left to the next resolver. */
  function ResolveId(id: string): (r: Option<string>)
    ensures r.Some? ==> r.value == id
  {
    if id == ThemeModuleId || id == SsrDataModuleId || id == PagesModuleId || StartsWith(id, PagesModuleId + "/")
    then Some(id)
    else None
  }

  /** The error message `load` throws for a page missing from the table. */
  function PageNotFound(pageId: string): string {
    "Page not found: " + pageId
  }

  /** `load(id)` against the page table `pages` (the awaited result of `getPages()`).
      `Failure` is a thrown error and `Success(None)` is `undefined`, i.e. not handled
      here. `themePath` is what `resolveTheme` resolves the theme to. The manifest is
      rendered without an `isBuild` argument, which reads as not building. */
  function Load(id: string, pages: PagesData, themePath: string, stringify: Json -> string): Result<Option<string>, string> {
    if id == PagesModuleId then Success(Some(RenderPageList(pages, false, stringify)))
    else if StartsWith(id, PagesModuleId + "/") then
      var pageId := PageIdOfModule(id);
      match Get(pages, pageId)
      case None => Failure(PageNotFound(pageId))
      case Some(page) => Success(Some(RenderOnePageData(page.data)))
    else if id == ThemeModuleId then Success(Some("export { default } from \"" + themePath + "\";"))
    else if id == SsrDataModuleId then Success(Some(RenderPageListInSsr(pages)))
    else Success(None)
  }

  /** The theme and server-render ids are not under the pages prefix. */
  lemma OtherIdsOutsidePages()
    ensures !StartsWith(ThemeModuleId, PagesModuleId + "/")
    ensures !StartsWith(SsrDataModuleId, PagesModuleId + "/")
  {
    assert ThemeModuleId[18] != (PagesModuleId + "/")[18];
    assert SsrDataModuleId[18] != (PagesModuleId + "/")[18];
  }

  /** `resolveId` claims exactly the ids `load` answers: every claimed id yields source
      text or an error, and every other id is left alone by both. */
  lemma ResolveMatchesLoad(id: string, pages: PagesData, themePath: string, stringify: Json -> string)
    ensures ResolveId(id).Some? <==> Load(id, pages, themePath, stringify) != Success(None)
  {
    OtherIdsOutsidePages();
  }

  /** A page-data request fails with "Page not found" exactly when the decoded page is not
      in the table; otherwise it yields that page's data bundle, never an empty result. */
  lemma LoadOnePage(id: string, pages: PagesData, themePath: string, stringify: Json -> string)
    requires StartsWith(id, PagesModuleId + "/")
    ensures var r := Load(id, pages, themePath, stringify);
      var pageId := id[|PagesModuleId|..];
      && (r.Failure? <==> DecodeSubPath(pageId) !in Keys(pages))
      && (r.Failure? ==> r.error == PageNotFound(DecodeSubPath(pageId)))
      && (r.Success? ==> r.value == Some(RenderOnePageData(Get(pages, DecodeSubPath(pageId)).value.data)))
  {
    assert id != PagesModuleId;
  }

  /** The bundle address the escape gives a page is loaded as that page's data bundle:
      encoding then decoding finds the page again. */
  lemma LoadEncodedPage(pages: PagesData, i: nat, themePath: string, stringify: Json -> string)
    requires WellFormed(pages) && i < |pages|
    requires IsAbsolute(pages[i].0) && pages[i].0 != RootSubPath
    ensures Load(PagesModuleId + "/" + PageUri(pages[i].0), pages, themePath, stringify)
         == Success(Some(RenderOnePageData(pages[i].1.data)))
  {
    var id := PagesModuleId + "/" + PageUri(pages[i].0);
    assert StartsWith(id, PagesModuleId + "/");
    assert id != PagesModuleId;
    ModuleIdRoundTrip(pages[i].0);
    GetAt(pages, i);
  }

  /** The root page's bundle is reachable both as `pages/__index` and as `pages/`. */
  lemma LoadRootAliases(pages: PagesData, themePath: string, stringify: Json -> string)
    ensures Load(PagesModuleId + RootSubPath, pages, themePath, stringify)
         == Load(PagesModuleId + "/", pages, themePath, stringify)
  {
    var a := PagesModuleId + RootSubPath;
    var b := PagesModuleId + "/";
    assert a[..|b|] == b && a != PagesModuleId && a[|PagesModuleId|..] == RootSubPath;
    assert b[..|b|] == b && b != PagesModuleId && b[|PagesModuleId|..] == "/";
  }

  /** The manifest served during development reads back as one entry per page, each with a
      `dataPath` equal to its lazy import's path. */
  lemma LoadManifestIsDevelopment(pages: PagesData, themePath: string, stringify: Json -> string)
    requires SingleLineInputs(pages, stringify)
    ensures var r := Load(PagesModuleId, pages, themePath, stringify);
      && r.Success? && r.value.Some?
      && ReadManifest(Split(r.value.value, '\n')) == Some(IntendedEntries(pages, false, stringify))
      && forall e :: e in IntendedEntries(pages, false, stringify) ==> e.dataPath == Some(e.importPath)
  {
    ReadRenderedPageList(pages, false, stringify);
  }
}
