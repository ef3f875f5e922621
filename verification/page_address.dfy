/** How page identifiers become module addresses and back.

    A page identifier is an absolute route such as `/` or `/docs/intro`. Its data bundle is
    addressed by appending the identifier to a pages prefix. The root page would give an
    address ending in `/`, which the module resolver cannot tell apart from the prefix
    itself, so the root is written as the reserved token `__index` instead. */
module PageAddress {
  import opened Strings

  /** The virtual module ids the plugin serves. */
  const PagesModuleId: string := "@!virtual-modules/pages"
  const ThemeModuleId: string := "@!virtual-modules/theme"
  const SsrDataModuleId: string := "@!virtual-modules/ssrData"

  /** The public prefix generated code imports page bundles from. */
  const PublicPagesPrefix: string := "/@react-pages/pages"

  /** The escaped form of the root page. */
  const RootToken: string := "__index"
  const RootSubPath: string := "/__index"

  predicate IsAbsolute(pageId: string) {
    |pageId| > 0 && pageId[0] == '/'
  }

  /** `pageId.slice(1)` — on the empty string, `slice(1)` gives the empty string. */
  function DropFirst(s: string): (r: string)
    ensures |s| > 0 ==> s == s[..1] + r
    ensures |s| == 0 ==> r == ""
  {
    if |s| == 0 then "" else s[1..]
  }

  /** The page's address below the pages prefix, without the leading separator. */
  function PageUri(pageId: string): (uri: string)
    ensures pageId == "/" ==> uri == RootToken
    ensures IsAbsolute(pageId) && pageId != "/" ==> "/" + uri == pageId
  {
    DropFirst(pageId) + (if pageId == "/" then RootToken else "")
  }

  /** The address of the page's data bundle as written into the page manifest. */
  function DataPath(pageId: string): string {
    PublicPagesPrefix + "/" + PageUri(pageId) + ".js"
  }

  /** The address suffix the server-render bundle imports a page's data from. */
  function SsrSubPath(pageId: string): (sub: string)
    ensures IsAbsolute(pageId) ==> sub == "/" + PageUri(pageId)
  {
    if pageId == "/" then RootSubPath else pageId
  }

  /** The decoder run by the module loader: the escaped root comes back as `/`, every
      other suffix is already the page identifier. */
  function DecodeSubPath(sub: string): (pageId: string)
    ensures sub != RootSubPath ==> pageId == sub
    ensures sub == RootSubPath ==> pageId == "/"
  {
    if sub == RootSubPath then "/" else sub
  }

  /** The page a pages-module id names: the id with the module prefix removed, decoded. */
  function PageIdOfModule(id: string): string
    requires StartsWith(id, PagesModuleId + "/")
  {
    DecodeSubPath(id[|PagesModuleId|..])
  }

  /** Reading a pages-module id decodes whatever follows the module prefix. */
  lemma PageIdOfModuleSuffix(sub: string)
    requires StartsWith(sub, "/")
    ensures StartsWith(PagesModuleId + sub, PagesModuleId + "/")
    ensures PageIdOfModule(PagesModuleId + sub) == DecodeSubPath(sub)
  {
    ConcatSplits(PagesModuleId, sub);
    var id := PagesModuleId + sub;
    assert id[..|PagesModuleId| + 1] == PagesModuleId + sub[..1];
  }

  /** The escape is undone by the decoder, for every absolute identifier except the
      reserved `/__index` itself (see `UriCollision`). */
  lemma EscapeRoundTrip(pageId: string)
    requires IsAbsolute(pageId) && pageId != RootSubPath
    ensures DecodeSubPath("/" + PageUri(pageId)) == pageId
    ensures DecodeSubPath(SsrSubPath(pageId)) == pageId
  {
    assert RootSubPath == "/" + RootToken;
  }

  /** The module id built from a page's address is read back as that page. */
  lemma ModuleIdRoundTrip(pageId: string)
    requires IsAbsolute(pageId) && pageId != RootSubPath
    ensures StartsWith(PagesModuleId + "/" + PageUri(pageId), PagesModuleId + "/")
    ensures PageIdOfModule(PagesModuleId + "/" + PageUri(pageId)) == pageId
  {
    var sub := "/" + PageUri(pageId);
    assert PagesModuleId + "/" + PageUri(pageId) == PagesModuleId + sub;
    assert StartsWith(sub, "/");
    PageIdOfModuleSuffix(sub);
    EscapeRoundTrip(pageId);
  }

  /** Two absolute identifiers share an address exactly when they are equal or are the
      root and the literal `/__index`: the escape is injective everywhere else. */
  lemma UriCollision(p: string, q: string)
    requires IsAbsolute(p) && IsAbsolute(q)
    ensures PageUri(p) == PageUri(q) <==> p == q || (p == "/" && q == RootSubPath) || (p == RootSubPath && q == "/")
  {
    assert RootSubPath == "/" + RootToken;
    if p == "/" && q != "/" {
      assert q == "/" + PageUri(q);
      assert PageUri(q) == RootToken <==> q == RootSubPath;
    } else if q == "/" && p != "/" {
      assert p == "/" + PageUri(p);
      assert PageUri(p) == RootToken <==> p == RootSubPath;
    } else if p != "/" && q != "/" {
      assert p == "/" + PageUri(p) && q == "/" + PageUri(q);
      assert p != RootSubPath || q != "/";
    }
  }

  /** The manifest's data path and the server-render import name the same bundle, and
      both decode back to the page. */
  lemma DataPathDecodes(pageId: string)
    requires IsAbsolute(pageId) && pageId != RootSubPath
    ensures var d := DataPath(pageId);
      && StartsWith(d, PublicPagesPrefix + "/") && EndsWith(d, ".js")
      && d[|PublicPagesPrefix|..|d| - 3] == SsrSubPath(pageId)
      && DecodeSubPath(d[|PublicPagesPrefix|..|d| - 3]) == pageId
  {
    var d := DataPath(pageId);
    assert d == PublicPagesPrefix + ("/" + PageUri(pageId)) + ".js";
    assert d[..|PublicPagesPrefix + "/"|] == PublicPagesPrefix + "/";
    assert d[|d| - 3..] == ".js";
    assert d[|PublicPagesPrefix|..|d| - 3] == "/" + PageUri(pageId);
    EscapeRoundTrip(pageId);
  }
}
