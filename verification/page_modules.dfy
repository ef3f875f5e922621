/** The page table and the page manifest synthesised from it. */
module PageModules {
  import opened Results
  import opened Strings
  import opened Tables
  import opened Values
  import opened PageAddress

  /** One page as the page finder reports it: its data keys mapped to module paths,
      and its static data. */
  datatype PageData = PageData(data: Table<string>, staticData: Json)

  /** The page table, keyed by page identifier in the object's iteration order. */
  type PagesData = Table<PageData>

  // ===================== the page manifest =====================

  /** The properties of one manifest entry. `stringify` stands for `JSON.stringify`. */
  function EntryProps(pageId: string, page: PageData, isBuild: bool, stringify: Json -> string): seq<string> {
    var dataPath := DataPath(pageId);
    [StaticKey + stringify(page.staticData), ImportPre + dataPath + ImportPost]
      + (if !isBuild then [DataPathPre + dataPath + DataPathPost] else [])
  }

  function PropLine(prop: string): string {
    PropIndent + prop + ","
  }

  const EntryClose: string := "  },"

  /** The lines of one manifest entry: a header naming the page, one line per property,
      and a closing brace. */
  function EntryLines(pageId: string, page: PageData, isBuild: bool, stringify: Json -> string): seq<string> {
    var props := EntryProps(pageId, page, isBuild, stringify);
    ["  \"" + pageId + "\": {"] + seq(|props|, i requires 0 <= i < |props| => PropLine(props[i])) + [EntryClose]
  }

  function EntriesLines(pages: PagesData, isBuild: bool, stringify: Json -> string): seq<string>
    decreases |pages|
  {
    if |pages| == 0 then []
    else EntryLines(pages[0].0, pages[0].1, isBuild, stringify) + EntriesLines(pages[1..], isBuild, stringify)
  }

  const ManifestOpen: string := "export default {"
  const ManifestClose: string := "}"

  function ManifestLines(pages: PagesData, isBuild: bool, stringify: Json -> string): seq<string> {
    [ManifestOpen] + EntriesLines(pages, isBuild, stringify) + [ManifestClose]
  }

  /** `renderPageList(pagesData, isBuild)`: the manifest module's source text. */
  function RenderPageList(pages: PagesData, isBuild: bool, stringify: Json -> string): string {
    Join(ManifestLines(pages, isBuild, stringify), "\n")
  }

  // ---- reading a manifest back ----

  /** What one manifest entry says about its page. */
  datatype ManifestEntry = ManifestEntry(pageId: string, staticJson: string, importPath: string, dataPath: Option<string>)

  /** The entry the manifest is meant to hold for a page: its serialised static data, a
      lazy import of its data bundle and, outside a production build, the bundle's path. */
  function IntendedEntry(pageId: string, page: PageData, isBuild: bool, stringify: Json -> string): ManifestEntry {
    ManifestEntry(pageId, stringify(page.staticData), DataPath(pageId), if isBuild then None else Some(DataPath(pageId)))
  }

  function IntendedEntries(pages: PagesData, isBuild: bool, stringify: Json -> string): (es: seq<ManifestEntry>)
    ensures |es| == |pages|
    ensures forall i :: 0 <= i < |pages| ==> es[i] == IntendedEntry(pages[i].0, pages[i].1, isBuild, stringify)
  {
    seq(|pages|, i requires 0 <= i < |pages| => IntendedEntry(pages[i].0, pages[i].1, isBuild, stringify))
  }

  /** The text between `pre` and `post`, when `line` is made of exactly those. */
  function Unwrap(line: string, pre: string, post: string): (r: Option<string>)
    ensures r.Some? ==> line == pre + r.value + post
  {
    if |pre| + |post| <= |line| && StartsWith(line, pre) && EndsWith(line, post) then
      var r := line[|pre|..|line| - |post|];
      assert line == line[..|pre|] + r + line[|line| - |post|..];
      Some(r)
    else None
  }

  lemma UnwrapWrapped(pre: string, x: string, post: string)
    ensures Unwrap(pre + x + post, pre, post) == Some(x)
  {
    var line := pre + x + post;
    assert line[..|pre|] == pre;
    assert line[|line| - |post|..] == post;
    assert line[|pre|..|line| - |post|] == x;
  }

  const HeaderPre: string := "  \""
  const HeaderPost: string := "\": {"
  const PropIndent: string := "    "
  const StaticKey: string := "staticData: "
  const ImportPre: string := "data: () => import(\""
  const ImportPost: string := "\")"
  const DataPathPre: string := "dataPath: \""
  const DataPathPost: string := "\""

  /** The property text of a line `    <prop>,` that has the shape `pre + x + post`. */
  function ReadProp(line: string, pre: string, post: string): (r: Option<string>)
    ensures r.Some? ==> line == PropLine(pre + r.value + post)
  {
    match Unwrap(line, PropIndent, ",")
    case None => None
    case Some(prop) => Unwrap(prop, pre, post)
  }

  lemma ReadPropLine(pre: string, x: string, post: string)
    ensures ReadProp(PropLine(pre + x + post), pre, post) == Some(x)
  {
    UnwrapWrapped(PropIndent, pre + x + post, ",");
    UnwrapWrapped(pre, x, post);
  }

  /** Reads a run of manifest entries, four lines each, or five when a `dataPath` line
      precedes the closing brace. */
  function ReadEntries(ls: seq<string>): Option<seq<ManifestEntry>>
    decreases |ls|
  {
    if |ls| == 0 then Some([])
    else if |ls| < 4 then None
    else
      var id := Unwrap(ls[0], HeaderPre, HeaderPost);
      var st := ReadProp(ls[1], StaticKey, "");
      var imp := ReadProp(ls[2], ImportPre, ImportPost);
      if id.None? || st.None? || imp.None? then None
      else if ls[3] == EntryClose then
        match ReadEntries(ls[4..])
        case None => None
        case Some(rest) => Some([ManifestEntry(id.value, st.value, imp.value, None)] + rest)
      else
        var dp := ReadProp(ls[3], DataPathPre, DataPathPost);
        if dp.None? || |ls| < 5 || ls[4] != EntryClose then None
        else
          match ReadEntries(ls[5..])
          case None => None
          case Some(rest) => Some([ManifestEntry(id.value, st.value, imp.value, Some(dp.value))] + rest)
  }

  /** Reads the lines of a manifest module: the opening line, the entries, the closing brace. */
  function ReadManifest(ls: seq<string>): Option<seq<ManifestEntry>> {
    if |ls| >= 2 && ls[0] == ManifestOpen && ls[|ls| - 1] == ManifestClose then ReadEntries(ls[1..|ls| - 1])
    else None
  }

  /** The rendered lines of one entry, spelled out. */
  lemma EntryLinesSpelled(pageId: string, page: PageData, isBuild: bool, stringify: Json -> string)
    ensures var dataPath := DataPath(pageId);
      EntryLines(pageId, page, isBuild, stringify)
      == [HeaderPre + pageId + HeaderPost, PropLine(StaticKey + stringify(page.staticData) + ""),
          PropLine(ImportPre + dataPath + ImportPost)]
         + (if isBuild then [] else [PropLine(DataPathPre + dataPath + DataPathPost)]) + [EntryClose]
  {
    assert StaticKey + stringify(page.staticData) + "" == StaticKey + stringify(page.staticData);
  }

  /** Reading consumes four lines when the fourth closes the entry, five otherwise. */
  lemma ReadEntriesStep(ls: seq<string>, e: ManifestEntry, width: nat)
    requires width == 4 || width == 5
    requires width <= |ls|
    requires ls[0] == HeaderPre + e.pageId + HeaderPost
    requires ls[1] == PropLine(StaticKey + e.staticJson + "")
    requires ls[2] == PropLine(ImportPre + e.importPath + ImportPost)
    requires width == 4 ==> ls[3] == EntryClose && e.dataPath.None?
    requires width == 5 ==> e.dataPath.Some? && ls[3] == PropLine(DataPathPre + e.dataPath.value + DataPathPost) && ls[4] == EntryClose
    ensures ReadEntries(ls) == match ReadEntries(ls[width..])
            case None => None
            case Some(es) => Some([e] + es)
  {
    UnwrapWrapped(HeaderPre, e.pageId, HeaderPost);
    ReadPropLine(StaticKey, e.staticJson, "");
    ReadPropLine(ImportPre, e.importPath, ImportPost);
    if width == 5 {
      assert ls[3][2] == ' ' && EntryClose[2] == '}';
      ReadPropLine(DataPathPre, e.dataPath.value, DataPathPost);
    }
  }

  /** One rendered entry reads back as the intended entry, whatever follows it. */
  lemma ReadEntryLines(pageId: string, page: PageData, isBuild: bool, stringify: Json -> string, rest: seq<string>)
    ensures ReadEntries(EntryLines(pageId, page, isBuild, stringify) + rest)
         == match ReadEntries(rest)
            case None => None
            case Some(es) => Some([IntendedEntry(pageId, page, isBuild, stringify)] + es)
  {
    var e := IntendedEntry(pageId, page, isBuild, stringify);
    var lines := EntryLines(pageId, page, isBuild, stringify);
    var ls := lines + rest;
    EntryLinesSpelled(pageId, page, isBuild, stringify);
    var width := if isBuild then 4 else 5;
    assert |lines| == width;
    assert ls[width..] == rest;
    ReadEntriesStep(ls, e, width);
  }

  lemma IntendedEntriesCons(pages: PagesData, isBuild: bool, stringify: Json -> string)
    requires |pages| > 0
    ensures IntendedEntries(pages, isBuild, stringify)
         == [IntendedEntry(pages[0].0, pages[0].1, isBuild, stringify)] + IntendedEntries(pages[1..], isBuild, stringify)
  {
    var es := IntendedEntries(pages, isBuild, stringify);
    var rest := IntendedEntries(pages[1..], isBuild, stringify);
    forall i | 1 <= i < |es|
      ensures es[i] == rest[i - 1]
    {
      assert pages[1..][i - 1] == pages[i];
    }
  }

  lemma {:induction false} ReadEntriesLines(pages: PagesData, isBuild: bool, stringify: Json -> string)
    ensures ReadEntries(EntriesLines(pages, isBuild, stringify)) == Some(IntendedEntries(pages, isBuild, stringify))
    decreases |pages|
  {
    if |pages| == 0 {
      assert EntriesLines(pages, isBuild, stringify) == [];
    } else {
      var rest := EntriesLines(pages[1..], isBuild, stringify);
      assert EntriesLines(pages, isBuild, stringify) == EntryLines(pages[0].0, pages[0].1, isBuild, stringify) + rest;
      ReadEntriesLines(pages[1..], isBuild, stringify);
      ReadEntryLines(pages[0].0, pages[0].1, isBuild, stringify, rest);
      IntendedEntriesCons(pages, isBuild, stringify);
    }
  }

  /** The manifest holds exactly one entry per page, in the table's order, and each entry
      is the intended one for its page: the page's serialised static data, a lazy import
      of its data path, and a `dataPath` property exactly when not building. */
  lemma ReadRenderedManifest(pages: PagesData, isBuild: bool, stringify: Json -> string)
    ensures ReadManifest(ManifestLines(pages, isBuild, stringify)) == Some(IntendedEntries(pages, isBuild, stringify))
  {
    var ls := ManifestLines(pages, isBuild, stringify);
    assert ls[1..|ls| - 1] == EntriesLines(pages, isBuild, stringify);
    ReadEntriesLines(pages, isBuild, stringify);
  }

  /** No line break inside any generated line: page identifiers and serialised static data
      are free of line breaks. */
  predicate SingleLineInputs(pages: PagesData, stringify: Json -> string) {
    forall i :: 0 <= i < |pages| ==> '\n' !in pages[i].0 && '\n' !in stringify(pages[i].1.staticData)
  }

  lemma FixedTextSingleLine()
    ensures '\n' !in HeaderPre && '\n' !in HeaderPost && '\n' !in PropIndent && '\n' !in StaticKey
    ensures '\n' !in ImportPre && '\n' !in ImportPost && '\n' !in DataPathPre && '\n' !in DataPathPost
    ensures '\n' !in EntryClose && '\n' !in PublicPagesPrefix && '\n' !in RootToken
  {
  }

  lemma DataPathSingleLine(pageId: string)
    requires '\n' !in pageId
    ensures '\n' !in DataPath(pageId)
  {
    FixedTextSingleLine();
    assert '\n' !in DropFirst(pageId);
    assert '\n' !in PageUri(pageId);
  }

  lemma EntryLinesSingleLine(pageId: string, page: PageData, isBuild: bool, stringify: Json -> string)
    requires '\n' !in pageId && '\n' !in stringify(page.staticData)
    ensures forall k :: 0 <= k < |EntryLines(pageId, page, isBuild, stringify)| ==> '\n' !in EntryLines(pageId, page, isBuild, stringify)[k]
  {
    FixedTextSingleLine();
    EntryLinesSpelled(pageId, page, isBuild, stringify);
    DataPathSingleLine(pageId);
    var dataPath := DataPath(pageId);
    assert '\n' !in PropLine(StaticKey + stringify(page.staticData) + "");
    assert '\n' !in PropLine(ImportPre + dataPath + ImportPost);
    assert '\n' !in PropLine(DataPathPre + dataPath + DataPathPost);
  }

  lemma {:induction false} EntriesLinesSingleLine(pages: PagesData, isBuild: bool, stringify: Json -> string)
    requires SingleLineInputs(pages, stringify)
    ensures forall k :: 0 <= k < |EntriesLines(pages, isBuild, stringify)| ==> '\n' !in EntriesLines(pages, isBuild, stringify)[k]
    decreases |pages|
  {
    if |pages| > 0 {
      var first := EntryLines(pages[0].0, pages[0].1, isBuild, stringify);
      var rest := EntriesLines(pages[1..], isBuild, stringify);
      assert EntriesLines(pages, isBuild, stringify) == first + rest;
      assert SingleLineInputs(pages[1..], stringify) by {
        forall i | 0 <= i < |pages[1..]|
          ensures '\n' !in pages[1..][i].0 && '\n' !in stringify(pages[1..][i].1.staticData)
        {
          assert pages[1..][i] == pages[i + 1];
        }
      }
      EntriesLinesSingleLine(pages[1..], isBuild, stringify);
      EntryLinesSingleLine(pages[0].0, pages[0].1, isBuild, stringify);
    }
  }

  /** Split at line breaks, the manifest text reads back as one intended entry per page. */
  lemma ReadRenderedPageList(pages: PagesData, isBuild: bool, stringify: Json -> string)
    requires SingleLineInputs(pages, stringify)
    ensures ReadManifest(Split(RenderPageList(pages, isBuild, stringify), '\n')) == Some(IntendedEntries(pages, isBuild, stringify))
  {
    var ls := ManifestLines(pages, isBuild, stringify);
    EntriesLinesSingleLine(pages, isBuild, stringify);
    assert forall k :: 0 <= k < |ls| ==> '\n' !in ls[k];
    SplitJoin(ls, '\n');
    ReadRenderedManifest(pages, isBuild, stringify);
  }

  /** The text is the `export default { ... }` object literal around the entries. */
  lemma RenderPageListShape(pages: PagesData, isBuild: bool, stringify: Json -> string)
    ensures StartsWith(RenderPageList(pages, isBuild, stringify), ManifestOpen)
    ensures EndsWith(RenderPageList(pages, isBuild, stringify), ManifestClose)
  {
    JoinEnds(ManifestLines(pages, isBuild, stringify), "\n");
  }

  /** A `dataPath` property is emitted for a page exactly when not building. */
  lemma ManifestDataPathIffDev(pages: PagesData, isBuild: bool, stringify: Json -> string, i: nat)
    requires i < |pages|
    ensures var es := ReadManifest(ManifestLines(pages, isBuild, stringify));
      && es.Some? && |es.value| == |pages|
      && (es.value[i].dataPath.Some? <==> !isBuild)
      && (!isBuild ==> es.value[i].dataPath.value == es.value[i].importPath)
  {
    ReadRenderedManifest(pages, isBuild, stringify);
  }
}
