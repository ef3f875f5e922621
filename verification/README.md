# A model of the react-pages page pipeline

This project models the core of vite-plugin-react-pages in Dafny:

- **Module synthesis** (`pages.ts`). Three renderers turn the page table into module source text:
  - the page manifest (`renderPageList`);
  - the server-render bundle (`renderPageListInSSR`);
  - one page's data bundle (`renderOnePageData`).
- **Addressing.** The renderers share one rule for addresses: the root page `/` gets the reserved address token `__index`.
- **Plugin hooks** (`index.ts`):
  - `resolveId` claims the virtual module ids;
  - `load` serves each module. For a page's data bundle it strips the pages prefix, turns `/__index` back into `/`, and looks the page up, failing with `Page not found: <id>` when the page is missing.
- **Client state** (`client/state.ts`):
  - `setPages`, the development-time hot update of the page table. It reuses every static data object whose new contents are deep-equal to the old, merges only the changed static data into the shared table, and replaces the sorted path list only when the set of paths changes.
  - `toStaticData`.
  - The `/404` fallbacks of `getStaticData` and `useDataPath`.
  - The static-build `useStaticData` and `usePagePaths`.

Modules, one per file:

| module | file | what it holds |
|---|---|---|
| `Results` | results.dfy | `Option` and `Result` |
| `Strings` | strings.dfy | prefix/suffix tests, `Join` and its inverse `Split`, decimal rendering and parsing of indices, `slash` |
| `Lines` | lines.dfy | the line-level view of text built from snippets that each start with a line break, and a reader for runs of fixed-size blocks |
| `Order` | order.dfy | the default JavaScript string order and the sort used for the path list |
| `Tables` | tables.dfy | a JavaScript object used as a dictionary: a sequence of (key, value) pairs with distinct keys, in iteration order; lookup, assignment and object spread |
| `Values` | values.dfy | JSON values (and `undefined`), JavaScript truthiness, and object identity (`Ref`) |
| `PageAddress` | page_address.dfy | module-id constants, the `/` ⇄ `__index` escape and its decoder |
| `PageModules` | page_modules.dfy | the page table and the manifest renderer, with a reader for the manifest |
| `Bundles` | bundles.dfy | the server-render and data bundle renderers, with a reader for each |
| `Plugin` | plugin.dfy | `resolveId` and `load` |
| `ClientState` | client_state.dfy | the hot-reload state record, `setPages`, `toStaticData`, the lookups with the `/404` fallback |

## How the model is built

- **Tables.** A JavaScript object used as a dictionary is a sequence of distinct-key pairs. Iteration order is therefore part of the value: the renderers emit pages in table order, and `{...a, ...b}` keeps `a`'s keys in place and appends `b`'s new ones.
- **Object identity.** Identity matters to `setPages`, whose whole point is to keep references stable. It is modelled by `Ref(addr, val)`:
  - `dequal` compares `val`;
  - identity compares the whole `Ref`;
  - a new object takes a fresh address from the state's `nextAddr`.
- **Renderers and their readers.** Each renderer is paired with a reader that parses its output back. The round-trip lemmas prove that splitting the rendered text at line breaks and reading it returns exactly what the renderer was meant to encode, in order.
  - Both bundles are template literals that span several lines. The model writes each one as its list of lines joined by line breaks.
- **Injected dependencies.** `JSON.stringify` is a function parameter (`stringify`). The theme path that `resolveTheme` would produce is a parameter of `Load`. The page table `load` awaits from `getPages()` is a parameter too.

## Behaviour worth noting

- The manifest lists pages in the table's iteration order (`for ... in`, pages.ts:16).
- Every manifest entry carries the lazy `data: () => import(...)` reference. Outside a build, the entry also gets a `dataPath` string (pages.ts:19-28).
- `load` calls `renderPageList` with no `isBuild` argument (index.ts:86). The served manifest therefore always includes `dataPath`.
- In a static build, `usePagePaths` returns the manifest's keys unsorted. The in-place sort at state.ts:44 runs only in the development branch.
- A page whose static data is falsy reads differently in the two views. This happens, for example, when `findPages` gave none and the manifest writes `staticData: undefined` (pages.ts:20).
  - `useStaticData(path)` gives the empty object (`|| emptyData` at state.ts:118, `|| {}` at state.ts:152).
  - `useStaticData()` holds the falsy value under that path.

## Model

| member | source | states |
|---|---|---|
| PageAddress.DataPath | packages/react-pages/src/node/dynamic-modules/pages.ts:18 | no contract; PageAddress.DataPathDecodes states its shape and that it decodes back to the page |
| PageAddress.PageIdOfModule | packages/react-pages/src/node/index.ts:90-91 | no contract; PageAddress.PageIdOfModuleSuffix and PageAddress.ModuleIdRoundTrip state what it reads |
| PageAddress.PageUri | packages/react-pages/src/node/dynamic-modules/pages.ts:17 | the root page `/` gets the uri `__index`; any other absolute page id gets its id without the leading `/` |
| PageAddress.SsrSubPath | packages/react-pages/src/node/dynamic-modules/pages.ts:42-47 | the server-render sub-path of an absolute page id is `/` followed by its uri: `/__index` for the root, the id itself otherwise |
| PageAddress.DecodeSubPath | packages/react-pages/src/node/index.ts:90-91 | the decoder maps `/__index` to `/` and leaves every other suffix unchanged |
| PageAddress.PageIdOfModuleSuffix | packages/react-pages/src/node/index.ts:89-91 | an id made of the pages module id and a suffix starting with `/` takes the page-data branch and decodes to the decoded suffix |
| PageAddress.EscapeRoundTrip | packages/react-pages/src/node/index.ts:90-91 | for every absolute page id other than `/__index`, decoding `/` + its uri (pages.ts:17), or its server-render sub-path, gives the page id back |
| PageAddress.ModuleIdRoundTrip | packages/react-pages/src/node/index.ts:89-91 | the module id `@!virtual-modules/pages/<uri>` of such a page takes the page-data branch and decodes to the page id |
| PageAddress.UriCollision | packages/react-pages/src/node/dynamic-modules/pages.ts:17 | two absolute page ids share a uri exactly when they are equal or are `/` and `/__index` |
| PageAddress.DataPathDecodes | packages/react-pages/src/node/dynamic-modules/pages.ts:17-18 | the data path is `/@react-pages/pages/<uri>.js`, and the part between the prefix and `.js` decodes back to the page id |
| Strings.SplitJoin | packages/react-pages/src/node/dynamic-modules/pages.ts:36 | joining lines that contain no line break and splitting the result at line breaks gives the lines back |
| Strings.Slash | packages/react-pages/src/node/dynamic-modules/pages.ts:65 | `slash(path)` has the path's length, turns every `\` into `/`, keeps every other character, and leaves no `\` |
| Strings.SlashIdempotent | packages/react-pages/src/node/dynamic-modules/pages.ts:65 | normalising a normalised path changes nothing |
| Strings.SlashFixesForwardPaths | packages/react-pages/src/node/dynamic-modules/pages.ts:65 | a path is left unchanged exactly when it holds no `\` |
| Strings.NatToString | packages/react-pages/src/node/dynamic-modules/pages.ts:50 | an index is rendered as at least one decimal digit with no leading zero |
| Strings.ParseNatToString | packages/react-pages/src/node/dynamic-modules/pages.ts:50 | the rendered index parses back to the index |
| Strings.NumberedNamesDistinct | packages/react-pages/src/node/dynamic-modules/pages.ts:64-66 | two bindings with the same prefix (`page`, `m`) are equal exactly when their indices are equal |
| Order.Sort | packages/react-pages/src/client/state.ts:89 | `sort()` returns a sorted permutation of the keys |
| Order.SortedUnique | packages/react-pages/src/client/state.ts:89-90 | two sorted lists holding the same strings are equal |
| Order.SortEqualIff | packages/react-pages/src/client/state.ts:89-90 | two key lists sort to the same list exactly when they hold the same keys |
| Tables.Get | packages/react-pages/src/node/index.ts:93 | `t[k]` is defined exactly when `k` is a key, and then it is the value stored under `k` |
| Tables.Put | packages/react-pages/src/client/state.ts:83-86 | each property write of the spread keeps the table well formed, keeps the key list when the key exists and appends the key otherwise, and changes the lookup of that key only |
| Tables.Spread | packages/react-pages/src/client/state.ts:83-86 | `{...a, ...b}` answers every lookup from `b` when the key is in `b` and from `a` otherwise, and keeps `a`'s keys first and in order |
| Tables.SpreadKeys | packages/react-pages/src/client/state.ts:83-86 | the spread object's keys are the union of both operands' keys, so keys of removed pages stay |
| PageModules.RenderPageList | packages/react-pages/src/node/dynamic-modules/pages.ts:14-37 | no contract; PageModules.ReadRenderedManifest and PageModules.ReadRenderedPageList read its output back |
| PageModules.ReadRenderedManifest | packages/react-pages/src/node/dynamic-modules/pages.ts:14-36 | the manifest's lines read back as exactly one entry per page, in table order, each with the page's serialised static data, the data path as lazy import and, outside a build, the data path as `dataPath` |
| PageModules.ReadRenderedPageList | packages/react-pages/src/node/dynamic-modules/pages.ts:14-36 | the same, starting from the manifest text split at line breaks, for ids and serialised data free of line breaks |
| PageModules.RenderPageListShape | packages/react-pages/src/node/dynamic-modules/pages.ts:15-35 | the manifest starts with `export default {` and ends with `}` |
| PageModules.ManifestDataPathIffDev | packages/react-pages/src/node/dynamic-modules/pages.ts:26-28 | an entry has a `dataPath` exactly when not building, and that path equals the lazy import's path |
| Bundles.RenderPageListInSsr | packages/react-pages/src/node/dynamic-modules/pages.ts:39-60 | no contract; Bundles.RenderPageListInSsrLines and Bundles.ReadRenderedSsrBundle state its lines and read them back |
| Bundles.SsrImportsAddressPages | packages/react-pages/src/node/dynamic-modules/pages.ts:40-53 | each page gets the binding `page<index>`, which reads back as its position; bindings are pairwise distinct; each source starts with `/@react-pages/pages` and decodes back to the page |
| Bundles.RenderPageListInSsrLines | packages/react-pages/src/node/dynamic-modules/pages.ts:48-59 | the server-render bundle is the head lines, one three-line block per page separated by empty lines, and the tail lines |
| Bundles.ReadRenderedSsrBundle | packages/react-pages/src/node/dynamic-modules/pages.ts:39-60 | the server-render bundle split at line breaks reads back as every page in table order, each registered under its id twice and importing its data bundle from the escaped address |
| Bundles.RenderOnePageData | packages/react-pages/src/node/dynamic-modules/pages.ts:62-72 | no contract; Bundles.RenderOnePageDataLines and Bundles.ReadRenderedDataBundle state its lines and read them back |
| Bundles.DataImportsDistinct | packages/react-pages/src/node/dynamic-modules/pages.ts:63-66 | each data key gets the binding `m<idx>`, which reads back as its position; bindings are pairwise distinct; every source is slash-normalised |
| Bundles.RenderOnePageDataLines | packages/react-pages/src/node/dynamic-modules/pages.ts:64-71 | a data bundle is the head lines, one two-line block per data key separated by empty lines, and the tail line |
| Bundles.ReadRenderedDataBundle | packages/react-pages/src/node/dynamic-modules/pages.ts:62-72 | a data bundle split at line breaks reads back as every data key in order, each set to the namespace import of its slash-normalised module path |
| Plugin.Load | packages/react-pages/src/node/index.ts:83-105 | no contract; Plugin.ResolveMatchesLoad, Plugin.LoadOnePage, Plugin.LoadEncodedPage, Plugin.LoadRootAliases and Plugin.LoadManifestIsDevelopment state its branches |
| Plugin.ResolveId | packages/react-pages/src/node/index.ts:75-82 | a claimed id is returned unchanged |
| Plugin.OtherIdsOutsidePages | packages/react-pages/src/node/index.ts:16-18 | the theme and server-render ids do not start with the pages id followed by `/` |
| Plugin.ResolveMatchesLoad | packages/react-pages/src/node/index.ts:75-104 | `resolveId` claims an id exactly when `load` answers it with source text or an error, rather than `undefined` |
| Plugin.LoadOnePage | packages/react-pages/src/node/index.ts:89-97 | a page-data request fails with `Page not found: <decoded id>` exactly when the decoded id is not a key; otherwise it yields `renderOnePageData` of that page's data |
| Plugin.LoadEncodedPage | packages/react-pages/src/node/index.ts:89-97 | requesting the module id built from a page's escaped uri yields that page's data bundle |
| Plugin.LoadRootAliases | packages/react-pages/src/node/index.ts:90-91 | the ids ending in `/__index` and in `/` load the same thing |
| Plugin.LoadManifestIsDevelopment | packages/react-pages/src/node/index.ts:85-87 | the served manifest reads back as one entry per page, each with a `dataPath` equal to its lazy import's path |
| Values.DeepEqual | packages/react-pages/src/client/state.ts:70 | no contract; `dequal` compares contents and ignores identity, which ClientState.SetPagesReusesStaticData and ClientState.SetPagesUnchangedReload rely on |
| ClientState.AdoptUnchanged | packages/react-pages/src/client/state.ts:63-71 | each page of the new table keeps its key and data path, and takes over the current static data object exactly when its new static data is deep-equal to it |
| ClientState.ToStaticData | packages/react-pages/src/client/state.ts:166-172 | the result has the pages' keys in the same order, each mapped to that page's static data object |
| ClientState.InitialState | packages/react-pages/src/client/state.ts:41-47 | the start-up state is consistent: sorted paths of the manifest, and a static data table agreeing with every page |
| ClientState.CollectChanged | packages/react-pages/src/client/state.ts:72-75 | `newStaticData` holds exactly the pages that are new or whose static data is not deep-equal to the current page's, each with its new static data |
| ClientState.SetPages | packages/react-pages/src/client/state.ts:59-93 | after an update, the page table has the new table's keys, the path list is sorted, and the allocation point advances |
| ClientState.SetPagesReusesStaticData | packages/react-pages/src/client/state.ts:63-71 | a page keeps the current static data object when its new static data is deep-equal to it, and carries the new object otherwise; its key and data path are those of the new table |
| ClientState.ChangedEmptyIff | packages/react-pages/src/client/state.ts:72-82 | nothing is collected exactly when no page is new or changed |
| ClientState.SetPagesStaticData | packages/react-pages/src/client/state.ts:81-86 | the static data table keeps its identity exactly when nothing changed; otherwise its keys are the old keys plus the changed ones, and changed entries win |
| ClientState.SetPagesPagePaths | packages/react-pages/src/client/state.ts:88-92 | the path list is the sorted new key list, and it keeps its identity exactly when the set of paths is unchanged |
| ClientState.SetPagesValid | packages/react-pages/src/client/state.ts:59-93 | an update preserves consistency: sorted paths of the current table, and a static data table that agrees with every current page |
| ClientState.SetPagesUnchangedReload | packages/react-pages/src/client/state.ts:59-93 | a reload with the same paths and deep-equal static data keeps the identity of the path list, the static data table and every page's static data |
| ClientState.FindPage | packages/react-pages/src/client/state.ts:117 | `pages[path]` with the fallback `pages['/404']` finds a page exactly when the path or `/404` is a key; it is the page at the path, or the `/404` page when the path is missing |
| ClientState.DataPathOf | packages/react-pages/src/client/state.ts:98-103 | `useDataPath` yields the found page's data path when it is non-empty and `null` otherwise |
| ClientState.StaticDataOf | packages/react-pages/src/client/state.ts:115-119 | `getStaticData` never returns a falsy value: the result is the shared empty object or truthy static data of the page found by the `/404` lookup |
| ClientState.StaticDataFallback | packages/react-pages/src/client/state.ts:114-119 | `getStaticData` returns the page's static data, or `/404`'s when the path is missing, or the shared empty object when both are missing or the static data found is falsy |
| ClientState.HotUseStaticData | packages/react-pages/src/client/state.ts:121-130 | `useStaticData(path)` gives one page's view exactly when `path` is a non-empty string, and that view is the empty object or truthy data |
| ClientState.HotViewsAgree | packages/react-pages/src/client/state.ts:121-130 | in a consistent state, `useStaticData(path)` for a current page with truthy static data equals that page's entry in `useStaticData()`; with falsy static data it is the empty object while the entry holds the falsy value |
| ClientState.InitialStateMatchesStaticMode | packages/react-pages/src/client/state.ts:149-158 | before any update, development and static builds answer `useStaticData(path?)` alike, including the `/404` fallback |
| ClientState.StaticUseStaticData | packages/react-pages/src/client/state.ts:149-158 | the static build's `useStaticData(path)` gives one page's view exactly when `path` is a non-empty string, that view is a fresh `{}` or truthy data, and `useStaticData()` has the manifest's keys in order |
| ClientState.StaticUsePagePaths | packages/react-pages/src/client/state.ts:144 | no contract; ClientState.PagePathsModesAgreeIff compares it with the development list |
| ClientState.PagePathsModesAgreeIff | packages/react-pages/src/client/state.ts:144 | at start-up, the static build's page paths equal the development list exactly when the manifest's keys are already sorted |

## Left out

- `PageStrategy` is not part of this model: `getPages()`, the `promise` and `change` events, the file watcher, and the coalescing of concurrent loads. They are asynchronous and not among the modelled files. The page table is an input value.
- React hooks (`useMemo`, `useBinding`, `useDerived`), the `wana` reactive proxy and selectors are left out. So are the `import.meta.hot.accept` callbacks, the theme and site data fields, `useTheme` and `useSiteData`. They are UI and hot-reload plumbing. `setPages` is a pure function from (state, new table) to state.
- `usePageModule`, dynamic `import()` of data paths and `page.data()` are left out: they are runtime module loading.
- `JSON.stringify` is the parameter `stringify`, because the serialiser is a library call. Its output depends on the order of an object's keys, and JSON objects here are maps without key order, so `stringify` cannot reflect that order either.
- `dequal` is equality of JSON values. JSON objects are finite maps, so key order is ignored, as `dequal` ignores it.
- Numbers in JSON values are integers, because floating point is not modelled.
- `resolveTheme` is left out: its result is the parameter `themePath`.
- The `noMatter` transform of `.mdx` files, the Vite configuration hooks, the aliases and `closeWatcher` are left out. They are build-tool wiring.
- `rehypePages.ts`, `PageLoader.tsx` and the MDX plugin are not part of this model.
- Strings.Slash: only replaces `\` with `/`. The `slash` package's exceptions (extended-length `\\?\` paths and paths with non-ASCII characters, which it returns unchanged) are not modelled.
- Order.Sort: compares strings character by character. JavaScript compares UTF-16 code units, and the two orders differ only outside the Basic Multilingual Plane.
- Tables.Put: a key that looks like an array index (`"0"`, `"42"`) is placed last like any other new key. JavaScript lists such keys first, in numeric order. Page ids start with `/`, so they are never such keys.
- Tables.Get: does not model lookups that fall through to the prototype chain (`pages["constructor"]`).
- PageAddress.EscapeRoundTrip: requires the page id to differ from `/__index`. That id and `/` share the uri `__index`, so the data bundle of a page literally named `/__index` is served as the root page's. PageAddress.UriCollision states this exactly.
- Bundles.ReadRenderedSsrBundle: requires page ids free of line breaks. Bundles.ReadRenderedDataBundle requires the same of data keys and paths, and PageModules.ReadRenderedPageList of page ids and serialised static data. A line break would be copied into the template unescaped, so the text would no longer split into the intended lines.
