# Route resolution of a file-system router for Deno

This project models, in Dafny, the core of a small web framework whose pages
are files in a routes directory. At startup, `createRouterUtils` walks that
directory once and indexes every file in an insertion-ordered `Map`. The key
is the file's `/`-joined path, for example `/blog/:slug/route.tsx`.

For each request the server in `createApp` does the following:

- A pathname containing a dot goes to the static file server, rooted at
  `<cwd>/<publicDir>}`. The stray `}` is in the code (`mod.ts:34`), so the
  root is a sibling of the public directory, never the directory itself.
  The model serves from that root (see "## Findings").
- Any other pathname goes to `getRouterFiles`, which picks the first route
  file in index order whose directory matches the request segment by segment.
  A `:name` directory matches any segment.
- The route's handler for the HTTP method is called. When the route lacks
  that method, the not-found page's handler is used instead.
- A `Response` the handler returns is sent unchanged.
- Any other result is wrapped by the page's layouts, from the last to the
  first, and rendered as HTML. The template `/index.tsx` comes first and is
  outermost; the layouts follow in index order.
- Every exception, whether from the router, `inject`, a handler, a layout,
  `render` or the static file server, reaches one `catch`: a missing
  not-found page answers 404 and anything else answers 500, both as plain
  text.

`getParams` extracts the values of the `:name` segments.

## Files and modules

| file | module | models |
|---|---|---|
| `wrappers.dfy` | `Wrappers` | `Option` and `Result` |
| `paths.dfy` | `Paths` | `split('/')`, `filter(Boolean)`, `startsWith(':')`, the keys the indexer builds |
| `js_map.dfy` | `JsMap` | a JavaScript `Map` as a sequence of `(key, value)` pairs: `get`, `set`, insertion order |
| `types.dfy` | `Types` | handlers, modules (method name to handler), the options |
| `route_files.dfy` | `RouteFiles` | the routes directory as a tree, and what the walk registers |
| `router.dfy` | `Router` | `createRouterUtils`, `addFiles`, `getRouterFiles`, `getLayouts`, `getNotFoundHandler`, `MissingPageError` |
| `params.dfy` | `Params` | `getParams` |
| `app.dfy` | `App` | option defaults, the request handler of `createApp`, the static root |

Each lookup the router performs is specified by a function of the index's
entries: `Resolve`, `Layouts` and `GetNotFoundHandler`. The two lookups that
loop over the index, `getRouterFiles` and `getLayouts`, are methods of the
`RouterUtils` class (`GetRouterFiles`, `GetLayouts`); each runs the source's
loop and is proved equal to its function. `getNotFoundHandler` is a single
`Map.get` and is modelled by the function `GetNotFoundHandler` alone. The
lemmas then state what the functions guarantee:

- first match in insertion order;
- layout membership, in index order;
- the index is exactly the files of the tree, and no directory is a key.

`App.Server.Handle` is proved equal to `App.Respond` in the same way.

Some behaviour of the code worth knowing, each modelled as written:

- `getRouterFiles` returns the first route file in index order whose
  directory matches (`router.ts:67-94`). There is no preference for literal
  segments, so a parameterised route indexed before a literal sibling
  shadows it (`Router.ParamRouteShadowsLiteral`).
- `getLayouts` collects the matching layouts in index order
  (`router.ts:129-141`), after the template; there is no sort.
- The doc comment at `router.ts:7` says `_`-prefixed names are ignored, but
  neither the walk nor the lookups filter them.
- Only the `.tsx` extension is recognised (`router.ts:70`, `router.ts:106`,
  `router.ts:132`).
- When neither the route nor the not-found page exports the method,
  `handler` is `undefined` and the call at `mod.ts:44` throws a `TypeError`;
  the `catch` answers it with 500 (`mod.ts:67`), like any other error.

## Model

| member | source | states |
|---|---|---|
| `Paths.Split` | router.ts:126 | `split` always yields at least one piece, and no piece contains the separator |
| `Paths.NonEmpty` | utils.ts:10 | `filter(Boolean)` keeps exactly the non-empty pieces, and never more than there were |
| `Paths.Segments` | router.ts:64 | every normalised segment is non-empty and contains no `/` |
| `Paths.RequestSegments` | router.ts:64-65 | a normalised request path always has at least one segment |
| `Paths.SegmentsEmptyIff` | router.ts:64-65 | a path has no segments exactly when it consists only of `/` characters |
| `Paths.RequestSegmentsRoot` | router.ts:64-65 | a request path normalises to `['/']` exactly when it consists only of `/` characters, so `''`, `/` and `//` all name the root |
| `Paths.SplitKey` | router.ts:38 | splitting a key the indexer builds gives an empty piece, then the names on the path |
| `Paths.SegmentsOfKey` | router.ts:38 | the segments of a key built from file names are those names, in order |
| `Paths.DoubledSlashIgnored` | router.ts:64 | a doubled `/` gives the same segments as a single one |
| `JsMap.IndexOf` | router.ts:106 | gives nothing exactly when the key is absent; otherwise the first position holding the key |
| `JsMap.Get` | router.ts:106 | `get` gives nothing exactly when the key is absent; otherwise a value stored beside the key |
| `JsMap.Set` | router.ts:38 | `set` on a present key keeps every key in place; on a new key it appends the pair |
| `JsMap.GetAt` | router.ts:106 | in a map with unique keys, `get` finds the value stored at the key's position |
| `JsMap.GetSet` | router.ts:38 | after `set(k, v)`, `get(k)` gives `v`, and every other key reads as before |
| `JsMap.SetUnique` | router.ts:31 | `set` keeps the keys unique |
| `JsMap.SetAllUnique` | router.ts:31-43 | any sequence of `set` calls keeps the keys unique |
| `JsMap.SetAllAppend` | router.ts:32-42 | setting the pairs `a` and then the pairs `b` is setting `a + b` |
| `JsMap.SetAllFresh` | router.ts:38 | pairs with new, distinct keys are appended in order |
| `RouteFiles.ListingIsKeyed` | router.ts:36-41 | the walk registers one entry per file, keyed by the `/`-joined names from the root to the file, with that file's module |
| `RouteFiles.PathsStart` | router.ts:40 | every file path and directory path starts with the name of an entry of the directory walked |
| `RouteFiles.PathsValid` | router.ts:38 | every name on a registered path is non-empty and free of `/` |
| `RouteFiles.LastNameIsNew` | router.ts:33-35 | in a directory listing, the last entry's name is not shared by any earlier sibling |
| `RouteFiles.FilePathsDistinct` | router.ts:38 | no two files have the same path |
| `RouteFiles.FileNeverDir` | router.ts:36-41 | no file has the path of a directory |
| `RouteFiles.KeyOfInjective` | router.ts:38 | different paths give different keys |
| `RouteFiles.IndexIsListing` | router.ts:31-45 | the index built from an empty map is exactly the walk's listing, and its keys are unique |
| `RouteFiles.FileRegistered` | router.ts:36-38 | every file can be looked up under its key and yields its module |
| `RouteFiles.OnlyFilesRegistered` | router.ts:36-41 | every key in the index is the key of some file |
| `RouteFiles.DirNotRegistered` | router.ts:39-41 | a directory is recursed into and never registered under its own path |
| `Router.TwoTestsAreMatch` | router.ts:76-94 | the literal test, followed by the parameter test, accepts exactly the patterns of the request's length whose segments are each a parameter or equal to the request's segment |
| `Router.FirstRoute` | router.ts:67-95 | a position it finds lies in range and holds a route key that matches the request |
| `Router.FirstRouteIsLeast` | router.ts:67-95 | it finds position `i` if and only if `i` matches and no earlier position does |
| `Router.FirstRouteNone` | router.ts:67-98 | it finds nothing if and only if no entry matches |
| `Router.ResolveFirstMatch` | router.ts:67-94 | the earliest matching entry in insertion order is the route, and its layouts are that key's layouts |
| `Router.ResolveNoMatch` | router.ts:98 | with no match, the route has no methods and the layouts are those of `/${routeFile}.tsx` |
| `Router.RouteKeyDir` | router.ts:68-73 | a route file's key yields its directory's names, or `['/']` at the routes root |
| `Router.BlogHelloSegments` | router.ts:64 | `/blog/hello` normalises to `['blog', 'hello']` |
| `Router.BlogSlugRouteDir` | router.ts:68-73 | the route key `/blog/:slug/route.tsx` has the directory `['blog', ':slug']` |
| `Router.ParamRouteShadowsLiteral` | router.ts:67-94 | with `/blog/:slug/route.tsx` indexed before `/blog/hello/route.tsx`, `/blog/hello` resolves to the parameterised route |
| `Router.LayoutIndices` | router.ts:129-141 | every chosen position is an entry of the index |
| `Router.LayoutIndicesAre` | router.ts:129-141 | an entry is chosen if and only if it is a layout file whose directory fits the page's directory |
| `Router.LayoutIndicesIncrease` | router.ts:129-141 | the chosen layouts come in index order |
| `Router.LayoutsUpToStep` | router.ts:129-141 | each further entry adds its module to the layouts exactly when it is a layout that applies |
| `Router.Pick` | router.ts:140 | one module for each chosen position |
| `Router.PickAt` | router.ts:140 | the module at each chosen position is that entry's module |
| `Router.TemplateFirst` | router.ts:123-124 | when `/index.tsx` is indexed, it is the first of the layouts |
| `Router.LayoutAppliesIff` | router.ts:126-139 | for keys the indexer builds, a layout applies if and only if each of its directory's segments is a parameter or equals the page directory's segment at that depth; a literal segment deeper than the page never applies, and an extra parameter segment does |
| `Router.GetNotFoundHandler` | router.ts:104-108 | fails with `MissingPageError` exactly when `/${notFoundFile}.tsx` is not indexed; otherwise gives the module indexed under that key |
| `Router.RouterUtils.constructor` | router.ts:31 | the index starts empty |
| `Router.RouterUtils.AddFiles` | router.ts:32-43 | the index afterwards is the old index with `set` applied to every file below the directory, in walk order; keys stay unique |
| `Router.RouterUtils.GetLayouts` | router.ts:119-143 | computes `Layouts`: the template if indexed, then the applicable layouts in index order |
| `Router.RouterUtils.GetRouterFiles` | router.ts:63-99 | computes `Resolve`: the first matching route with its layouts, else the empty route with the root layouts |
| `Router.CreateRouterUtils` | router.ts:24-49 | fails exactly when the routes directory cannot be read; otherwise the index holds the walk of that directory, with unique keys |
| `Params.GetParams` | utils.ts:8-17 | the loop computes the bindings of the key's segments, left to right |
| `Params.BindKeys` | utils.ts:13-14 | a name is bound if and only if some key segment is `:` followed by that name; literal segments bind nothing |
| `Params.BindValue` | utils.ts:10-14 | a name is bound to the request segment at the last position that names it; a later duplicate overwrites an earlier one |
| `Params.NoParamsNoBindings` | utils.ts:14 | a key without parameter segments yields no parameters |
| `Params.BlogIdExample` | utils.ts:6 | `/blog/foo` against `/blog/:id` yields `{ id: 'foo' }` |
| `Params.MissingSegmentExample` | utils.ts:14 | `/blog` against `/blog/:id` binds `id` to nothing |
| `Params.DoubledSlashSameParams` | utils.ts:10-11 | a doubled `/`, in the request or in the key, changes no binding |
| `App.WithDefaults` | mod.ts:7-16 | every option given replaces its default |
| `App.NoOptionsGiveDefaults` | mod.ts:7-12 | without options: `public`, `routes`, `404`, `layout`, `route` |
| `App.OmittedOptionKeepsDefault` | mod.ts:7-16 | each option left out keeps its default, whatever the others are |
| `App.StaticRootAsWrittenMissesPublicDir` | mod.ts:34 | for any public directory, the root as written has the same path components as the intended root except the last, which carries an extra `}` and so differs; for a name without `/` the last component is `publicDir}` |
| `App.StaticRootIsPublicDir` | mod.ts:34 | the corrected root's path components are the working directory's followed by the public directory's; a name without `/` is one component |
| `App.ErrorResponse` | mod.ts:59-67 | status 404 with body `404 Not Found` exactly for a missing page; otherwise 500 with `500 Server Error`; both `text/plain;charset=UTF-8`, the type a string body gets by default |
| `App.Html` | mod.ts:57-58 | status 200, `text/html`, and a body that is `<!DOCTYPE html>` followed by exactly the rendered markup |
| `App.SelectHandler` | mod.ts:39-40 | the route's handler when it has one for the method; otherwise the not-found page's; fails with a missing page exactly when the route lacks the method and no not-found page is indexed |
| `App.Server.WrapInLayouts` | mod.ts:50-56 | the descending loop computes `ApplyLayouts`: the last layout innermost, and the first failure ends it |
| `App.Server.Handle` | mod.ts:24-68 | the answer to each request is `Respond` of the router's index |
| `App.CreateApp` | mod.ts:6-24 | fills in the defaults; fails exactly when the routes directory cannot be read; otherwise the server's router holds the walk of that directory |
| `App.DottedPathIsStatic` | mod.ts:31-36 | a pathname with a dot gets the same answer whatever the index holds: the static file server's response from the root as written, `<cwd>/<publicDir>}`, or, when the server throws, the error answer |
| `App.NotFoundFallback` | mod.ts:39-40 | when the route lacks the method, the handler is the not-found page's handler for the same method, or nothing |
| `App.ApplyLayoutsAppend` | mod.ts:50-56 | wrapping in `outer + inner` wraps in `inner` first, then in `outer`; a failure inside stops the rest |
| `App.WithHandler` | mod.ts:52-53 | keeps exactly the layouts that export the method |
| `App.LayoutsWithoutHandlerSkipped` | mod.ts:52-53 | layouts without a handler for the method leave the page unchanged |
| `App.NoLayoutHandlerKeepsNode` | mod.ts:52-53 | when no layout handles the method, the route's node is rendered as it is |
| `App.FirstLayoutOutermost` | mod.ts:50-56 | the first layout, the template when there is one, wraps the result of all the others |
| `App.DirectResponseUnchanged` | mod.ts:47 | a `Response` the handler returns is sent unchanged, and no layout runs |
| `App.MissingNotFoundPageIs404` | mod.ts:39-40 | a route without the method, in an index without a not-found page, is answered 404 |
| `App.NoHandlerIs500` | mod.ts:39-44 | when neither the route nor the not-found page handles the method, the answer is 500 |
| `App.DispatchResponseKinds` | mod.ts:44-67 | every answer to a routed request is the selected handler's own `Response`, an HTML page with status 200, a plain-text 404 or a plain-text 500 |

## Left out

- Reading the directory and the dynamic `import` of each file are not modelled. The tree is an input (`readDir`), and a module is a map from method names to opaque handlers. A failed import, or a subdirectory that cannot be read partway through the walk, is not modelled.
- `devError`, `Deno.exit` and `console` logging are not modelled. Startup failure is an `Err` result: `StartupError.NoRoutesDirectory`.
- `Deno.serve` and `serveOptions`, `async`/`await`, and concurrent requests are not modelled. Each request is handled on its own against the index built at startup.
- `serveDir`, `inject`, the route and layout handlers, and preact's `render` are supplied as functions (`App.Runtime`). An exception any of them throws is the `Err` or `Raise` it returns, and reaches the same error answer as in the source. A handler result other than a node or a `Response` is not modelled.
- `new URL(...)` is not modelled. The request carries its pathname, and `getParams` takes the pathname directly.
- `now()` and the logging in the error path depend on the clock and the console, so they are not modelled.
- Only absence is modelled for an option. An option passed explicitly as `undefined` replaces its default in the source; the model does not capture that.
- The `inject` default, `serveOptions` and `showIndex: false` are not modelled, because they only configure foreign code.
- Properties JavaScript objects inherit are not modelled. Examples are `route['constructor']` on the empty route, or a parameter named `__proto__`. A module is a plain map.
- Only the presence of a handler is modelled, not JavaScript truthiness.
- `Params.GetParams`: the result is a map, so the key order of the JavaScript object is not modelled.
- Of the headers, only `Content-Type` is modelled: `text/html` where the code sets it, and `text/plain;charset=UTF-8` where a `Response` is built from a string without one. The other headers the runtime adds are not modelled, nor any header of a response `serveDir` or a handler builds.
- Lemmas about the walk assume names as a file system gives them: non-empty, without `/`, and distinct among siblings (`RouteFiles.ValidTree`). `Router.RouterUtils.AddFiles` itself is proved for any tree.
- `types.ts` contributes only the shape of a module: a record of handlers keyed by method.

## Findings

| source | as written | input that shows it | evidently intended | confidence | as-written member | corrected member |
|---|---|---|---|---|---|---|
| mod.ts:34 | the static root is the working directory, `/`, the public directory and then a stray `}` | working directory `/srv`, public directory `public`: files are served from `/srv/public}` | `/srv/public` | not executed | `App.StaticRootAsWritten`, `App.StaticRootAsWrittenMissesPublicDir` | `App.StaticRoot`, `App.StaticRootIsPublicDir` |

Request handling (`App.Respond`, `App.Server.Handle`) serves static files from the root as written, as the program does; `App.StaticRoot` states the intended root beside it.
