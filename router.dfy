/**
  * The route index and the lookups made on it for every request:
  * `createRouterUtils`, `getRouterFiles`, `getLayouts` and
  * `getNotFoundHandler`.
  *
  * Each lookup is specified by a function of the index's entries (`Resolve`,
  * `Layouts`, `GetNotFoundHandler`), and the methods of `RouterUtils` that
  * scan the index are proved to compute them.
  */
module Router {
  import opened Wrappers
  import opened Paths
  import opened JsMap
  import opened Types
  import opened RouteFiles

  /** Raised when the not-found page is needed and not indexed. */
  datatype MissingPageError = MissingPageError(message: string)

  /** Indexing fails when the routes directory cannot be read. */
  datatype StartupError = NoRoutesDirectory(routesDir: string)

  /** `${name}.tsx`: the one file extension the router recognises. */
  function Tsx(name: string): string {
    name + ".tsx"
  }

  /** The fixed key of the template that wraps every page. */
  const TemplateKey: string := "/index.tsx"

  function NotFoundKey(notFoundFile: string): string {
    "/" + Tsx(notFoundFile)
  }

  // ---------------------------------------------------------------------
  // Route matching (getRouterFiles)
  // ---------------------------------------------------------------------

  /**
    * When `key` names a route file, the segments of its directory, with
    * `['/']` for the routes root; otherwise `None`.
    */
  function RouteDir(key: string, routeFile: string): Option<seq<string>> {
    var parts := Segments(key);
    if |parts| > 0 && parts[|parts| - 1] == Tsx(routeFile) then
      var dir := parts[..|parts| - 1];
      Some(if |dir| == 0 then ["/"] else dir)
    else None
  }

  /** The literal test: same length, every segment equal. */
  predicate LiteralMatch(pattern: seq<string>, path: seq<string>) {
    |pattern| == |path| && forall i :: 0 <= i < |path| ==> path[i] == pattern[i]
  }

  /** The parameter test: same length, some parameter segment, every other segment equal. */
  predicate ParamMatch(pattern: seq<string>, path: seq<string>) {
    |pattern| == |path| &&
    (exists i :: 0 <= i < |pattern| && IsParam(pattern[i])) &&
    forall i :: 0 <= i < |pattern| ==> IsParam(pattern[i]) || pattern[i] == path[i]
  }

  /**
    * A pattern matches a request path when both have as many segments and
    * each pattern segment is a parameter or equals the path's segment.
    */
  predicate Matches(pattern: seq<string>, path: seq<string>) {
    |pattern| == |path| && forall i :: 0 <= i < |pattern| ==> IsParam(pattern[i]) || pattern[i] == path[i]
  }

  /** The two tests the scan makes, one after the other, accept exactly the matching patterns. */
  lemma TwoTestsAreMatch(pattern: seq<string>, path: seq<string>)
    ensures LiteralMatch(pattern, path) || ParamMatch(pattern, path) <==> Matches(pattern, path)
  {
    if Matches(pattern, path) && !LiteralMatch(pattern, path) {
      var i :| 0 <= i < |path| && path[i] != pattern[i];
      assert IsParam(pattern[i]);
    }
  }

  predicate RouteMatchesAt(es: Entries<Module>, routeFile: string, path: seq<string>, i: nat)
    requires i < |es|
  {
    var dir := RouteDir(es[i].0, routeFile);
    dir.Some? && Matches(dir.value, path)
  }

  /** Which entries hold a route key that matches `path`, in insertion order. */
  function MatchFlags(es: Entries<Module>, routeFile: string, path: seq<string>): (r: seq<bool>)
    ensures |r| == |es|
    ensures forall j :: 0 <= j < |es| ==> r[j] == RouteMatchesAt(es, routeFile, path, j)
  {
    seq(|es|, j requires 0 <= j < |es| => RouteMatchesAt(es, routeFile, path, j))
  }

  /** The first position at or after `from` whose flag is set. */
  function FirstTrue(flags: seq<bool>, from: nat): (r: Option<nat>)
    requires from <= |flags|
    ensures r.Some? ==> from <= r.value < |flags| && flags[r.value]
    decreases |flags| - from
  {
    if from == |flags| then None
    else if flags[from] then Some(from)
    else FirstTrue(flags, from + 1)
  }

  /** The first entry at or after `from`, in insertion order, whose route key matches `path`. */
  function FirstRoute(es: Entries<Module>, routeFile: string, path: seq<string>, from: nat): (r: Option<nat>)
    requires from <= |es|
    ensures r.Some? ==> from <= r.value < |es| && RouteMatchesAt(es, routeFile, path, r.value)
  {
    FirstTrue(MatchFlags(es, routeFile, path), from)
  }

  /** `getRouterFiles(pathname)`: the route and its layouts. */
  function Resolve(es: Entries<Module>, routeFile: string, layoutFile: string, pathname: string): (Module, seq<Module>) {
    match FirstRoute(es, routeFile, RequestSegments(pathname), 0)
    case Some(i) => (es[i].1, Layouts(es, layoutFile, es[i].0))
    case None => (map[], Layouts(es, layoutFile, "/" + Tsx(routeFile)))
  }

  // ---------------------------------------------------------------------
  // Layout resolution (getLayouts)
  // ---------------------------------------------------------------------

  /** `key.split('/')` without its last piece; the empty pieces are kept. */
  function KeyDir(key: string): seq<string> {
    var parts := Split(key, '/');
    parts[..|parts| - 1]
  }

  /**
    * A layout directory fits a page directory when each of its segments is a
    * parameter or equals the page's segment at the same index; there is no
    * length check, so a literal segment past the page's depth never fits.
    */
  predicate DirFits(dir: seq<string>, pageDir: seq<string>) {
    forall i :: 0 <= i < |dir| ==> IsParam(dir[i]) || (i < |pageDir| && dir[i] == pageDir[i])
  }

  predicate LayoutApplies(key: string, layoutFile: string, pageDir: seq<string>) {
    var parts := Split(key, '/');
    parts[|parts| - 1] == Tsx(layoutFile) && DirFits(parts[..|parts| - 1], pageDir)
  }

  /** The positions, among the first `n` entries, of the layouts that apply to `pageDir`. */
  function LayoutIndices(es: Entries<Module>, layoutFile: string, pageDir: seq<string>, n: nat): (r: seq<nat>)
    requires n <= |es|
    ensures forall j :: 0 <= j < |r| ==> r[j] < n
  {
    if n == 0 then []
    else
      LayoutIndices(es, layoutFile, pageDir, n - 1) +
      (if LayoutApplies(es[n - 1].0, layoutFile, pageDir) then [n - 1] else [])
  }

  /** The modules at positions `idx`, in that order. */
  function Pick(es: Entries<Module>, idx: seq<nat>): (r: seq<Module>)
    requires forall j :: 0 <= j < |idx| ==> idx[j] < |es|
    ensures |r| == |idx|
  {
    if idx == [] then [] else Pick(es, idx[..|idx| - 1]) + [es[idx[|idx| - 1]].1]
  }

  lemma PickSnoc(prefix: seq<Module>, es: Entries<Module>, idx: seq<nat>, k: nat)
    requires forall j :: 0 <= j < |idx| ==> idx[j] < |es|
    requires k < |es|
    ensures prefix + Pick(es, idx + [k]) == (prefix + Pick(es, idx)) + [es[k].1]
  {
    assert (idx + [k])[..|idx|] == idx;
  }

  function Template(es: Entries<Module>): seq<Module> {
    match Get(es, TemplateKey)
    case Some(t) => [t]
    case None => []
  }

  /** The template, then the layouts among the first `n` entries that apply to `pageDir`. */
  function LayoutsUpTo(es: Entries<Module>, layoutFile: string, pageDir: seq<string>, n: nat): seq<Module>
    requires n <= |es|
  {
    Template(es) + Pick(es, LayoutIndices(es, layoutFile, pageDir, n))
  }

  /** `getLayouts(pageKey)`: the template, then the applicable layouts in index order. */
  function Layouts(es: Entries<Module>, layoutFile: string, pageKey: string): seq<Module> {
    LayoutsUpTo(es, layoutFile, KeyDir(pageKey), |es|)
  }

  /** One more entry adds its module exactly when it is a layout that applies. */
  lemma LayoutsUpToStep(es: Entries<Module>, layoutFile: string, pageDir: seq<string>, n: nat)
    requires n < |es|
    ensures LayoutsUpTo(es, layoutFile, pageDir, n + 1)
         == LayoutsUpTo(es, layoutFile, pageDir, n) + (if LayoutApplies(es[n].0, layoutFile, pageDir) then [es[n].1] else [])
  {
    var idx := LayoutIndices(es, layoutFile, pageDir, n);
    if LayoutApplies(es[n].0, layoutFile, pageDir) {
      PickSnoc(Template(es), es, idx, n);
    } else {
      assert idx + [] == idx;
    }
  }

  // ---------------------------------------------------------------------
  // The not-found page (getNotFoundHandler)
  // ---------------------------------------------------------------------

  /** `getNotFoundHandler()`: the module at `/${notFoundFile}.tsx`, or `MissingPageError`. */
  function GetNotFoundHandler(es: Entries<Module>, notFoundFile: string): (r: Result<Module, MissingPageError>)
    ensures r.Err? <==> !HasKey(es, NotFoundKey(notFoundFile))
    ensures r.Ok? ==> exists i :: 0 <= i < |es| && es[i] == (NotFoundKey(notFoundFile), r.value)
  {
    match Get(es, NotFoundKey(notFoundFile))
    case Some(m) => Ok(m)
    case None => Err(MissingPageError("Unable to find 404 page"))
  }

  // ---------------------------------------------------------------------
  // Properties of the lookups
  // ---------------------------------------------------------------------

  /** `FirstTrue` finds `i` exactly when flag `i` is the first one set at or after `from`. */
  lemma {:induction false} FirstTrueIsLeast(flags: seq<bool>, from: nat, i: nat)
    requires from <= |flags|
    ensures FirstTrue(flags, from) == Some(i) <==> from <= i < |flags| && flags[i] && forall j :: from <= j < i ==> !flags[j]
    decreases |flags| - from
  {
    if from < |flags| && !flags[from] {
      FirstTrueIsLeast(flags, from + 1, i);
    }
  }

  /** `FirstTrue` finds nothing exactly when no flag at or after `from` is set. */
  lemma {:induction false} FirstTrueNone(flags: seq<bool>, from: nat)
    requires from <= |flags|
    ensures FirstTrue(flags, from).None? <==> forall j :: from <= j < |flags| ==> !flags[j]
    decreases |flags| - from
  {
    if from < |flags| && !flags[from] {
      FirstTrueNone(flags, from + 1);
    }
  }

  /** `FirstRoute` finds the least matching position at or after `from`. */
  lemma FirstRouteIsLeast(es: Entries<Module>, routeFile: string, path: seq<string>, from: nat, i: nat)
    requires from <= |es|
    ensures FirstRoute(es, routeFile, path, from) == Some(i) <==>
      from <= i < |es| && RouteMatchesAt(es, routeFile, path, i) &&
      forall j :: from <= j < i ==> !RouteMatchesAt(es, routeFile, path, j)
  {
    FirstTrueIsLeast(MatchFlags(es, routeFile, path), from, i);
  }

  /** `FirstRoute` finds nothing exactly when no position at or after `from` matches. */
  lemma FirstRouteNone(es: Entries<Module>, routeFile: string, path: seq<string>, from: nat)
    requires from <= |es|
    ensures FirstRoute(es, routeFile, path, from).None? <==>
      forall j :: from <= j < |es| ==> !RouteMatchesAt(es, routeFile, path, j)
  {
    FirstTrueNone(MatchFlags(es, routeFile, path), from);
  }

  /**
    * First match wins: the route is the earliest entry in insertion order
    * whose route key matches the request, with that key's layouts.
    */
  lemma ResolveFirstMatch(es: Entries<Module>, routeFile: string, layoutFile: string, pathname: string, i: nat)
    requires i < |es| && RouteMatchesAt(es, routeFile, RequestSegments(pathname), i)
    requires forall j :: 0 <= j < i ==> !RouteMatchesAt(es, routeFile, RequestSegments(pathname), j)
    ensures Resolve(es, routeFile, layoutFile, pathname) == (es[i].1, Layouts(es, layoutFile, es[i].0))
  {
    FirstRouteIsLeast(es, routeFile, RequestSegments(pathname), 0, i);
  }

  /** With no matching route the result has no handlers and the layouts of `/${routeFile}.tsx`. */
  lemma ResolveNoMatch(es: Entries<Module>, routeFile: string, layoutFile: string, pathname: string)
    requires forall j :: 0 <= j < |es| ==> !RouteMatchesAt(es, routeFile, RequestSegments(pathname), j)
    ensures Resolve(es, routeFile, layoutFile, pathname) == (map[], Layouts(es, layoutFile, "/" + Tsx(routeFile)))
  {
    FirstRouteNone(es, routeFile, RequestSegments(pathname), 0);
  }

  /**
    * The key the indexer gives a route file names the route's directory:
    * its directory names, or `['/']` for a route at the routes root.
    */
  lemma RouteKeyDir(dirs: seq<string>, routeFile: string)
    requires ValidNames(dirs) && ValidName(Tsx(routeFile))
    ensures RouteDir(KeyOf(dirs + [Tsx(routeFile)]), routeFile) == Some(if dirs == [] then ["/"] else dirs)
  {
    SegmentsOfKey(dirs + [Tsx(routeFile)]);
    assert (dirs + [Tsx(routeFile)])[..|dirs|] == dirs;
  }

  lemma BlogHelloSegments()
    ensures RequestSegments("/blog/hello") == ["blog", "hello"]
  {
    assert ValidNames(["blog", "hello"]);
    assert "/blog/hello" == KeyOf(["blog", "hello"]);
    SegmentsOfKey(["blog", "hello"]);
  }

  lemma BlogSlugRouteDir()
    ensures RouteDir(KeyOf(["blog", ":slug", "route.tsx"]), "route") == Some(["blog", ":slug"])
  {
    assert Tsx("route") == "route.tsx";
    assert ["blog", ":slug"] + [Tsx("route")] == ["blog", ":slug", "route.tsx"];
    RouteKeyDir(["blog", ":slug"], "route");
  }

  /**
    * A parameterised route indexed before a literal sibling shadows it: with
    * `/blog/:slug/route.tsx` ahead of `/blog/hello/route.tsx`, the request
    * `/blog/hello` gets the parameterised route.
    */
  lemma ParamRouteShadowsLiteral(param: Module, literal: Module, layoutFile: string)
    ensures Resolve([(KeyOf(["blog", ":slug", "route.tsx"]), param), (KeyOf(["blog", "hello", "route.tsx"]), literal)],
                    "route", layoutFile, "/blog/hello").0 == param
  {
    var es := [(KeyOf(["blog", ":slug", "route.tsx"]), param), (KeyOf(["blog", "hello", "route.tsx"]), literal)];
    BlogHelloSegments();
    BlogSlugRouteDir();
    assert IsParam(":slug");
    assert RouteMatchesAt(es, "route", ["blog", "hello"], 0);
    ResolveFirstMatch(es, "route", layoutFile, "/blog/hello", 0);
  }

  /** The layout positions are exactly the applicable layouts among the first `n` entries. */
  lemma {:induction false} LayoutIndicesAre(es: Entries<Module>, layoutFile: string, pageDir: seq<string>, n: nat, k: nat)
    requires n <= |es|
    ensures k in LayoutIndices(es, layoutFile, pageDir, n) <==> k < n && LayoutApplies(es[k].0, layoutFile, pageDir)
  {
    if n > 0 {
      LayoutIndicesAre(es, layoutFile, pageDir, n - 1, k);
    }
  }

  /** The layout positions are strictly increasing: layouts come in index order. */
  lemma {:induction false} LayoutIndicesIncrease(es: Entries<Module>, layoutFile: string, pageDir: seq<string>, n: nat)
    requires n <= |es|
    ensures forall a, b :: 0 <= a < b < |LayoutIndices(es, layoutFile, pageDir, n)| ==>
      LayoutIndices(es, layoutFile, pageDir, n)[a] < LayoutIndices(es, layoutFile, pageDir, n)[b]
  {
    if n > 0 {
      LayoutIndicesIncrease(es, layoutFile, pageDir, n - 1);
    }
  }

  /** `Pick` yields the module at each chosen position. */
  lemma {:induction false} PickAt(es: Entries<Module>, idx: seq<nat>, j: nat)
    requires forall j :: 0 <= j < |idx| ==> idx[j] < |es|
    requires j < |idx|
    ensures Pick(es, idx)[j] == es[idx[j]].1
  {
    if j < |idx| - 1 {
      PickAt(es, idx[..|idx| - 1], j);
    }
  }

  /** The template `/index.tsx`, when indexed, comes first. */
  lemma TemplateFirst(es: Entries<Module>, layoutFile: string, pageKey: string)
    requires HasKey(es, TemplateKey)
    ensures |Layouts(es, layoutFile, pageKey)| >= 1
    ensures exists i :: 0 <= i < |es| && es[i] == (TemplateKey, Layouts(es, layoutFile, pageKey)[0])
  {
  }

  /**
    * For keys the indexer builds, a layout applies to a page exactly when
    * each segment of the layout's directory is a parameter or equals the
    * page directory's segment at the same depth.
    */
  lemma LayoutAppliesIff(layoutDir: seq<string>, layoutFile: string, pageDir: seq<string>, pageFile: string)
    requires ValidNames(layoutDir + [Tsx(layoutFile)]) && ValidNames(pageDir + [pageFile])
    ensures LayoutApplies(KeyOf(layoutDir + [Tsx(layoutFile)]), layoutFile, KeyDir(KeyOf(pageDir + [pageFile])))
      <==> DirFits(layoutDir, pageDir)
  {
    var lparts, pparts := layoutDir + [Tsx(layoutFile)], pageDir + [pageFile];
    SplitKey(lparts);
    SplitKey(pparts);
    var ld, pd := ([""] + lparts)[..|lparts|], ([""] + pparts)[..|pparts|];
    assert ld == [""] + layoutDir;
    assert pd == [""] + pageDir;
    assert KeyDir(KeyOf(pparts)) == pd;
    assert DirFits(ld, pd) <==> DirFits(layoutDir, pageDir) by {
      assert forall i :: 0 <= i < |layoutDir| ==> ld[i + 1] == layoutDir[i];
      assert forall i :: 0 <= i < |pageDir| ==> pd[i + 1] == pageDir[i];
      if DirFits(layoutDir, pageDir) {
        forall i | 0 <= i < |ld| ensures IsParam(ld[i]) || (i < |pd| && ld[i] == pd[i]) {
          if i > 0 {
            assert ld[i] == layoutDir[i - 1];
          }
        }
      }
      if DirFits(ld, pd) {
        forall i | 0 <= i < |layoutDir| ensures IsParam(layoutDir[i]) || (i < |pageDir| && layoutDir[i] == pageDir[i]) {
          assert ld[i + 1] == layoutDir[i];
        }
      }
    }
  }

  // ---------------------------------------------------------------------
  // The index and its scans
  // ---------------------------------------------------------------------

  /** The index `createRouterUtils` builds once, and the lookups it returns. */
  class RouterUtils {
    const routeFile: string
    const layoutFile: string
    const notFoundFile: string
    var fileMap: Entries<Module>

    ghost predicate Valid()
      reads this
    {
      UniqueKeys(fileMap)
    }

    constructor (cfg: Config)
      ensures Valid() && fileMap == []
      ensures routeFile == cfg.routeFile && layoutFile == cfg.layoutFile && notFoundFile == cfg.notFoundFile
    {
      routeFile, layoutFile, notFoundFile := cfg.routeFile, cfg.layoutFile, cfg.notFoundFile;
      fileMap := [];
    }

    /** `addFiles(prefix, path)`: registers every file below `dir`, recursing into directories. */
    method AddFiles(path: string, dir: seq<Entry>)
      requires Valid()
      modifies this
      ensures Valid()
      ensures fileMap == SetAll(old(fileMap), Listing(path, dir))
      decreases dir
    {
      var i := 0;
      while i < |dir|
        invariant 0 <= i <= |dir|
        invariant Valid()
        invariant fileMap == SetAll(old(fileMap), Listing(path, dir[..i]))
      {
        assert dir[..i + 1][..i] == dir[..i];
        SetAllAppend(old(fileMap), Listing(path, dir[..i]), EntryListing(path, dir[i]));
        match dir[i] {
          case File(name, m) =>
            SetUnique(fileMap, path + "/" + name, m);
            fileMap := Set(fileMap, path + "/" + name, m);
          case Dir(name, children) =>
            AddFiles(path + "/" + name, children);
        }
        i := i + 1;
      }
      assert dir[..i] == dir;
    }

    /** `getLayouts(pageKey)`. */
    method GetLayouts(pageKey: string) returns (layouts: seq<Module>)
      ensures layouts == Layouts(fileMap, layoutFile, pageKey)
    {
      layouts := [];
      var template := Get(fileMap, TemplateKey);
      if template.Some? {
        layouts := layouts + [template.value];
      }
      var pageKeyParts := KeyDir(pageKey);
      assert layouts == LayoutsUpTo(fileMap, layoutFile, pageKeyParts, 0);
      var i := 0;
      while i < |fileMap|
        invariant 0 <= i <= |fileMap|
        invariant layouts == LayoutsUpTo(fileMap, layoutFile, pageKeyParts, i)
      {
        var (key, handler) := fileMap[i];
        LayoutsUpToStep(fileMap, layoutFile, pageKeyParts, i);
        if LayoutApplies(key, layoutFile, pageKeyParts) {
          layouts := layouts + [handler];
        }
        i := i + 1;
      }
    }

    /** `getRouterFiles(pathname)`: the first route in index order that matches, with its layouts. */
    method GetRouterFiles(pathname: string) returns (route: Module, layouts: seq<Module>)
      ensures (route, layouts) == Resolve(fileMap, routeFile, layoutFile, pathname)
    {
      var pathParts := Segments(pathname);
      if |pathParts| == 0 {
        pathParts := ["/"];
      }
      var i := 0;
      while i < |fileMap|
        invariant 0 <= i <= |fileMap|
        invariant FirstRoute(fileMap, routeFile, pathParts, 0) == FirstRoute(fileMap, routeFile, pathParts, i)
      {
        var (key, handler) := fileMap[i];
        var keyParts := RouteDir(key, routeFile);
        if keyParts.Some? {
          TwoTestsAreMatch(keyParts.value, pathParts);
          if LiteralMatch(keyParts.value, pathParts) {
            layouts := GetLayouts(key);
            return handler, layouts;
          }
          if ParamMatch(keyParts.value, pathParts) {
            layouts := GetLayouts(key);
            return handler, layouts;
          }
        }
        i := i + 1;
      }
      layouts := GetLayouts("/" + Tsx(routeFile));
      route := map[];
    }
  }

  /**
    * `createRouterUtils(options)`: walks the routes directory once. `readDir`
    * gives the entries below a directory path, `None` when it cannot be read.
    */
  method CreateRouterUtils(cfg: Config, cwd: string, readDir: string -> Option<seq<Entry>>)
    returns (r: Result<RouterUtils, StartupError>)
    ensures r.Err? <==> readDir(cwd + "/" + cfg.routesDir).None?
    ensures r.Err? ==> r.error == NoRoutesDirectory(cfg.routesDir)
    ensures r.Ok? ==> fresh(r.value) && r.value.Valid()
    ensures r.Ok? ==> r.value.routeFile == cfg.routeFile && r.value.layoutFile == cfg.layoutFile
    ensures r.Ok? ==> r.value.notFoundFile == cfg.notFoundFile
    ensures r.Ok? ==> r.value.fileMap == SetAll([], Listing("", readDir(cwd + "/" + cfg.routesDir).value))
  {
    var tree := readDir(cwd + "/" + cfg.routesDir);
    if tree.None? {
      return Err(NoRoutesDirectory(cfg.routesDir));
    }
    var utils := new RouterUtils(cfg);
    utils.AddFiles("", tree.value);
    return Ok(utils);
  }
}
