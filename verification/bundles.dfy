/** The two bundles synthesised from the page table besides the manifest: the
    server-render bundle that imports every page eagerly, and one page's data bundle.
    Both are template literals spanning several lines, so each is written here as its
    list of lines joined by line breaks. */
module Bundles {
  import opened Results
  import opened Strings
  import opened Tables
  import opened PageAddress
  import opened Lines
  import opened PageModules

  /** A name made of `prefix` and the decimal rendering of `index`. */
  predicate IsNumberedName(name: string, prefix: string, index: nat) {
    && StartsWith(name, prefix)
    && (forall k :: |prefix| <= k < |name| ==> IsDigit(name[k]))
    && ParseDecimal(name[|prefix|..]) == index
  }

  lemma NumberedName(prefix: string, i: nat)
    ensures IsNumberedName(prefix + NatToString(i), prefix, i)
  {
    var name := prefix + NatToString(i);
    assert name[..|prefix|] == prefix;
    assert name[|prefix|..] == NatToString(i);
    ParseNatToString(i);
  }

  lemma NumberSingleLine(n: nat)
    ensures '\n' !in NatToString(n)
  {
  }

  // ===================== the server-render bundle =====================

  /** One page's eager import in the server-render bundle. */
  datatype SsrImport = SsrImport(pageId: string, binding: string, source: string)

  /** The address the server-render bundle imports a page's data bundle from: the escaped
      root sub-path for `/`, the identifier itself for every other page. */
  function SsrSource(pageId: string): string {
    PublicPagesPrefix + SsrSubPath(pageId)
  }

  function SsrImports(pages: PagesData): (r: seq<SsrImport>)
    ensures |r| == |pages|
  {
    seq(|pages|, i requires 0 <= i < |pages| =>
      SsrImport(pages[i].0, "page" + NatToString(i), SsrSource(pages[i].0)))
  }

  /** The three lines registering one page: an empty entry, the import of its data
      bundle, and the entry set to that import. */
  function SsrLines(x: SsrImport): seq<string> {
    ["pages[\"" + x.pageId + "\"] = {};", "import " + x.binding + " from \"" + x.source + "\";",
     "pages[\"" + x.pageId + "\"] = " + x.binding + ";"]
  }

  /** One page's snippet: its lines, after a line break. */
  function SsrCode(x: SsrImport): string {
    Block(SsrLines(x))
  }

  /** The lines of the template before the joined snippets, and after them (the
      template's last line break leaves an empty last line). */
  const SsrHead: seq<string> := ["", "const pages = {};", ""]
  const SsrTail: seq<string> := ["", "export default pages;", ""]

  /** `renderPageListInSSR(pagesData)`: the server-render bundle's source text. */
  function RenderPageListInSsr(pages: PagesData): string {
    var imports := SsrImports(pages);
    Join(SsrHead, "\n") + Join(seq(|imports|, i requires 0 <= i < |imports| => SsrCode(imports[i])), "\n")
      + Join(SsrTail, "\n")
  }

  /** Every page gets its own binding `page<index>`, which reads back as its position, and
      imports the bundle whose address decodes back to that page. */
  lemma SsrImportsAddressPages(pages: PagesData)
    ensures forall i :: 0 <= i < |pages| ==> IsNumberedName(SsrImports(pages)[i].binding, "page", i)
    ensures forall i, j :: 0 <= i < j < |pages| ==> SsrImports(pages)[i].binding != SsrImports(pages)[j].binding
    ensures forall i :: 0 <= i < |pages| ==>
      var src := SsrImports(pages)[i].source;
      && StartsWith(src, PublicPagesPrefix)
      && (IsAbsolute(pages[i].0) && pages[i].0 != RootSubPath ==> DecodeSubPath(src[|PublicPagesPrefix|..]) == pages[i].0)
  {
    var r := SsrImports(pages);
    forall i | 0 <= i < |pages|
      ensures IsNumberedName(r[i].binding, "page", i)
      ensures StartsWith(r[i].source, PublicPagesPrefix)
      ensures IsAbsolute(pages[i].0) && pages[i].0 != RootSubPath ==> DecodeSubPath(r[i].source[|PublicPagesPrefix|..]) == pages[i].0
    {
      NumberedName("page", i);
      assert r[i].source[..|PublicPagesPrefix|] == PublicPagesPrefix;
      assert r[i].source[|PublicPagesPrefix|..] == SsrSubPath(pages[i].0);
      if IsAbsolute(pages[i].0) && pages[i].0 != RootSubPath {
        EscapeRoundTrip(pages[i].0);
      }
    }
    forall i, j | 0 <= i < j < |pages|
      ensures r[i].binding != r[j].binding
    {
      NumberedNamesDistinct("page", i, j);
    }
  }

  // ---- reading the server-render bundle back ----

  function SsrGroups(pages: PagesData): (gs: seq<seq<string>>)
    ensures |gs| == |pages|
  {
    var xs := SsrImports(pages);
    seq(|xs|, i requires 0 <= i < |xs| => SsrLines(xs[i]))
  }

  /** The server-render bundle is the head lines, one three-line block per page, and the
      tail. */
  lemma RenderPageListInSsrLines(pages: PagesData)
    ensures RenderPageListInSsr(pages) == Join(SsrHead + BlockLines(SsrGroups(pages)) + SsrTail[1..], "\n")
  {
    var imports := SsrImports(pages);
    var groups := SsrGroups(pages);
    var codes := seq(|imports|, i requires 0 <= i < |imports| => SsrCode(imports[i]));
    assert codes == seq(|groups|, i requires 0 <= i < |groups| => Block(groups[i]));
    FramedBlocks(SsrHead, groups, SsrTail);
  }

  /** Reads one three-line block as (page identifier, import source): the block must
      assign the same page twice and import binding `page<i>`. */
  function ReadSsrBlock(block: seq<string>, i: nat): Option<(string, string)> {
    if |block| != 3 then None
    else
      var binding := "page" + NatToString(i);
      var id := Unwrap(block[0], "pages[\"", "\"] = {};");
      var src := Unwrap(block[1], "import " + binding + " from \"", "\";");
      var id' := Unwrap(block[2], "pages[\"", "\"] = " + binding + ";");
      if id.None? || src.None? || id' != id then None
      else Some((id.value, src.value))
  }

  /** Reads a server-render bundle, split into lines, as the list of (page identifier,
      import source) pairs. */
  function ReadSsrBundle(ls: seq<string>): Option<seq<(string, string)>> {
    if |ls| >= 5 && ls[..3] == SsrHead && ls[|ls| - 2..] == SsrTail[1..] then
      var body := ls[3..|ls| - 2];
      if |body| == 0 then Some([]) else ReadBlocks(body, 3, 0, ReadSsrBlock)
    else None
  }

  /** What the server-render bundle is meant to hold: every page, in table order, with the
      address of its data bundle. */
  function IntendedSsrPairs(pages: PagesData): (r: seq<(string, string)>)
    ensures |r| == |pages|
  {
    seq(|pages|, i requires 0 <= i < |pages| => (pages[i].0, SsrSource(pages[i].0)))
  }

  lemma ReadSsrLines(x: SsrImport, i: nat)
    requires x.binding == "page" + NatToString(i)
    ensures ReadSsrBlock(SsrLines(x), i) == Some((x.pageId, x.source))
  {
    UnwrapWrapped("pages[\"", x.pageId, "\"] = {};");
    UnwrapWrapped("import " + x.binding + " from \"", x.source, "\";");
    UnwrapWrapped("pages[\"", x.pageId, "\"] = " + x.binding + ";");
    assert SsrLines(x)[2] == "pages[\"" + x.pageId + ("\"] = " + x.binding + ";");
  }

  lemma ReadSsrBody(pages: PagesData)
    requires |pages| > 0
    ensures ReadBlocks(BlockLines(SsrGroups(pages)), 3, 0, ReadSsrBlock) == Some(IntendedSsrPairs(pages))
  {
    var gs := SsrGroups(pages);
    var want := IntendedSsrPairs(pages);
    forall j | 0 <= j < |gs|
      ensures |gs[j]| == 3 && ReadSsrBlock(gs[j], 0 + j) == Some(want[j])
    {
      ReadSsrLines(SsrImports(pages)[j], j);
    }
    ReadBlockLines(gs, 3, 0, ReadSsrBlock, want);
  }

  predicate SsrSingleLineInputs(pages: PagesData) {
    forall i :: 0 <= i < |pages| ==> '\n' !in pages[i].0
  }

  lemma SsrSourceSingleLine(pageId: string)
    requires '\n' !in pageId
    ensures '\n' !in SsrSource(pageId)
  {
    assert '\n' !in PublicPagesPrefix;
    assert '\n' !in RootSubPath;
  }

  lemma SsrLinesSingleLine(x: SsrImport)
    requires '\n' !in x.pageId && '\n' !in x.binding && '\n' !in x.source
    ensures forall k :: 0 <= k < |SsrLines(x)| ==> '\n' !in SsrLines(x)[k]
  {
  }

  lemma SsrBundleSingleLine(pages: PagesData)
    requires SsrSingleLineInputs(pages)
    ensures forall k :: 0 <= k < |SsrHead + BlockLines(SsrGroups(pages)) + SsrTail[1..]| ==>
      '\n' !in (SsrHead + BlockLines(SsrGroups(pages)) + SsrTail[1..])[k]
  {
    var gs := SsrGroups(pages);
    forall i | 0 <= i < |gs|
      ensures forall k :: 0 <= k < |gs[i]| ==> '\n' !in gs[i][k]
    {
      NumberSingleLine(i);
      SsrSourceSingleLine(pages[i].0);
      SsrLinesSingleLine(SsrImports(pages)[i]);
    }
    BlockLinesSingleLine(gs);
    FramedSingleLine(SsrHead, BlockLines(gs), SsrTail[1..]);
  }

  /** Split at line breaks, the server-render bundle reads back as every page of the table,
      in order, each importing its data bundle's address. */
  lemma ReadRenderedSsrBundle(pages: PagesData)
    requires SsrSingleLineInputs(pages)
    ensures ReadSsrBundle(Split(RenderPageListInSsr(pages), '\n')) == Some(IntendedSsrPairs(pages))
  {
    var gs := SsrGroups(pages);
    var ls := SsrHead + BlockLines(gs) + SsrTail[1..];
    RenderPageListInSsrLines(pages);
    SsrBundleSingleLine(pages);
    SplitJoin(ls, '\n');
    assert ls[..3] == SsrHead;
    assert ls[|ls| - 2..] == SsrTail[1..];
    assert ls[3..|ls| - 2] == BlockLines(gs);
    if |pages| > 0 {
      ReadSsrBody(pages);
    }
  }

  // ===================== one page's data bundle =====================

  /** One data module's namespace import in a page's data bundle. */
  datatype DataImport = DataImport(dataKey: string, binding: string, source: string)

  function DataImports(onePageData: Table<string>): (r: seq<DataImport>)
    ensures |r| == |onePageData|
  {
    seq(|onePageData|, i requires 0 <= i < |onePageData| =>
      DataImport(onePageData[i].0, "m" + NatToString(i), Slash(onePageData[i].1)))
  }

  /** The two lines exporting one data key: the namespace import and the assignment. */
  function DataLines(x: DataImport): seq<string> {
    ["import * as " + x.binding + " from \"" + x.source + "\";", "modules[\"" + x.dataKey + "\"] = " + x.binding + ";"]
  }

  /** One data key's snippet: its lines, after a line break. */
  function DataImportCode(x: DataImport): string {
    Block(DataLines(x))
  }

  /** The lines of the template before the joined snippets, and after them. */
  const BundleHead: seq<string> := ["", "  const modules = {};", "  "]
  const BundleTail: seq<string> := ["", "  export default modules;"]

  /** `renderOnePageData(onePageData)`: one page's data bundle source text. */
  function RenderOnePageData(onePageData: Table<string>): string {
    var imports := DataImports(onePageData);
    Join(BundleHead, "\n") + Join(seq(|imports|, i requires 0 <= i < |imports| => DataImportCode(imports[i])), "\n")
      + Join(BundleTail, "\n")
  }

  /** Every data key gets its own binding `m<index>`, which reads back as its position, and
      imports its module path in forward-slash form. */
  lemma DataImportsDistinct(onePageData: Table<string>)
    ensures forall i :: 0 <= i < |onePageData| ==> IsNumberedName(DataImports(onePageData)[i].binding, "m", i)
    ensures forall i, j :: 0 <= i < j < |onePageData| ==> DataImports(onePageData)[i].binding != DataImports(onePageData)[j].binding
    ensures forall i :: 0 <= i < |onePageData| ==>
      '\\' !in DataImports(onePageData)[i].source && |DataImports(onePageData)[i].source| == |onePageData[i].1|
  {
    var r := DataImports(onePageData);
    forall i | 0 <= i < |onePageData|
      ensures IsNumberedName(r[i].binding, "m", i)
    {
      NumberedName("m", i);
    }
    forall i, j | 0 <= i < j < |onePageData|
      ensures r[i].binding != r[j].binding
    {
      NumberedNamesDistinct("m", i, j);
    }
  }

  // ---- reading a data bundle back ----

  function DataGroups(onePageData: Table<string>): (gs: seq<seq<string>>)
    ensures |gs| == |onePageData|
  {
    var xs := DataImports(onePageData);
    seq(|xs|, i requires 0 <= i < |xs| => DataLines(xs[i]))
  }

  /** A data bundle is the head lines, one two-line block per data key, and the tail. */
  lemma RenderOnePageDataLines(onePageData: Table<string>)
    ensures RenderOnePageData(onePageData) == Join(BundleHead + BlockLines(DataGroups(onePageData)) + BundleTail[1..], "\n")
  {
    var imports := DataImports(onePageData);
    var groups := DataGroups(onePageData);
    var codes := seq(|imports|, i requires 0 <= i < |imports| => DataImportCode(imports[i]));
    assert codes == seq(|groups|, i requires 0 <= i < |groups| => Block(groups[i]));
    FramedBlocks(BundleHead, groups, BundleTail);
  }

  /** Reads one two-line block as (data key, module path): the block must import binding
      `m<i>` and store it under its key. */
  function ReadDataBlock(block: seq<string>, i: nat): Option<(string, string)> {
    if |block| != 2 then None
    else
      var binding := "m" + NatToString(i);
      var src := Unwrap(block[0], "import * as " + binding + " from \"", "\";");
      var key := Unwrap(block[1], "modules[\"", "\"] = " + binding + ";");
      if src.None? || key.None? then None
      else Some((key.value, src.value))
  }

  /** Reads a data bundle, split into lines, as the list of (data key, module path) pairs
      it exports. */
  function ReadDataBundle(ls: seq<string>): Option<seq<(string, string)>> {
    if |ls| >= 4 && ls[..3] == BundleHead && ls[|ls| - 1] == BundleTail[1] then
      var body := ls[3..|ls| - 1];
      if |body| == 0 then Some([]) else ReadBlocks(body, 2, 0, ReadDataBlock)
    else None
  }

  /** What a data bundle is meant to export: every data key, in order, bound to its
      module path in forward-slash form. */
  function IntendedDataPairs(onePageData: Table<string>): (r: seq<(string, string)>)
    ensures |r| == |onePageData|
  {
    seq(|onePageData|, i requires 0 <= i < |onePageData| => (onePageData[i].0, Slash(onePageData[i].1)))
  }

  lemma ReadDataLines(x: DataImport, i: nat)
    requires x.binding == "m" + NatToString(i)
    ensures ReadDataBlock(DataLines(x), i) == Some((x.dataKey, x.source))
  {
    UnwrapWrapped("import * as " + x.binding + " from \"", x.source, "\";");
    UnwrapWrapped("modules[\"", x.dataKey, "\"] = " + x.binding + ";");
    assert DataLines(x)[1] == "modules[\"" + x.dataKey + ("\"] = " + x.binding + ";");
  }

  lemma ReadDataBody(onePageData: Table<string>)
    requires |onePageData| > 0
    ensures ReadBlocks(BlockLines(DataGroups(onePageData)), 2, 0, ReadDataBlock) == Some(IntendedDataPairs(onePageData))
  {
    var gs := DataGroups(onePageData);
    var want := IntendedDataPairs(onePageData);
    forall j | 0 <= j < |gs|
      ensures |gs[j]| == 2 && ReadDataBlock(gs[j], 0 + j) == Some(want[j])
    {
      ReadDataLines(DataImports(onePageData)[j], j);
    }
    ReadBlockLines(gs, 2, 0, ReadDataBlock, want);
  }

  predicate DataSingleLineInputs(onePageData: Table<string>) {
    forall i :: 0 <= i < |onePageData| ==> '\n' !in onePageData[i].0 && '\n' !in onePageData[i].1
  }

  lemma SlashSingleLine(path: string)
    requires '\n' !in path
    ensures '\n' !in Slash(path)
  {
  }

  lemma DataLinesSingleLine(x: DataImport)
    requires '\n' !in x.dataKey && '\n' !in x.binding && '\n' !in x.source
    ensures forall k :: 0 <= k < |DataLines(x)| ==> '\n' !in DataLines(x)[k]
  {
  }

  lemma DataBundleSingleLine(onePageData: Table<string>)
    requires DataSingleLineInputs(onePageData)
    ensures forall k :: 0 <= k < |BundleHead + BlockLines(DataGroups(onePageData)) + BundleTail[1..]| ==>
      '\n' !in (BundleHead + BlockLines(DataGroups(onePageData)) + BundleTail[1..])[k]
  {
    var gs := DataGroups(onePageData);
    forall i | 0 <= i < |gs|
      ensures forall k :: 0 <= k < |gs[i]| ==> '\n' !in gs[i][k]
    {
      NumberSingleLine(i);
      SlashSingleLine(onePageData[i].1);
      DataLinesSingleLine(DataImports(onePageData)[i]);
    }
    BlockLinesSingleLine(gs);
    FramedSingleLine(BundleHead, BlockLines(gs), BundleTail[1..]);
  }

  /** Split at line breaks, a page's data bundle reads back as every data key of the page,
      in order, bound to its module path with backslashes turned into slashes. */
  lemma ReadRenderedDataBundle(onePageData: Table<string>)
    requires DataSingleLineInputs(onePageData)
    ensures ReadDataBundle(Split(RenderOnePageData(onePageData), '\n')) == Some(IntendedDataPairs(onePageData))
  {
    var gs := DataGroups(onePageData);
    var ls := BundleHead + BlockLines(gs) + BundleTail[1..];
    RenderOnePageDataLines(onePageData);
    DataBundleSingleLine(onePageData);
    SplitJoin(ls, '\n');
    assert ls[..3] == BundleHead;
    assert ls[|ls| - 1] == BundleTail[1];
    assert ls[3..|ls| - 1] == BlockLines(gs);
    if |onePageData| > 0 {
      ReadDataBody(onePageData);
    }
  }
}
