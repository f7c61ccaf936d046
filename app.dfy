/**
  * The server `createApp` starts: the options it fills in, and what it
  * answers to each request. A request whose path contains a dot is handed to
  * the static file server; any other is routed, its handler called, the
  * result wrapped by the page's layouts from the innermost outwards and
  * rendered as HTML. A missing not-found page answers 404, any other failure
  * 500.
  *
  * Handlers, layouts, `inject`, the renderer and the static file server are
  * code this model cannot see: a `Runtime` supplies each as a function, and
  * a failure is the `Err` it returns.
  */
module App {
  import opened Wrappers
  import opened Paths
  import opened JsMap
  import opened Types
  import opened RouteFiles
  import opened Router

  // ---------------------------------------------------------------------
  // Options
  // ---------------------------------------------------------------------

  /** The configuration used when no option is given. */
  const DefaultConfig: Config := Config("public", "routes", "404", "layout", "route")

  /** `{ ...defaults, ...opts }`: every option given replaces its default. */
  function WithDefaults(opts: Options): (c: Config)
    ensures opts.publicDir.Some? ==> c.publicDir == opts.publicDir.value
    ensures opts.routesDir.Some? ==> c.routesDir == opts.routesDir.value
    ensures opts.notFoundFile.Some? ==> c.notFoundFile == opts.notFoundFile.value
    ensures opts.layoutFile.Some? ==> c.layoutFile == opts.layoutFile.value
    ensures opts.routeFile.Some? ==> c.routeFile == opts.routeFile.value
  {
    Config(
      opts.publicDir.GetOr(DefaultConfig.publicDir),
      opts.routesDir.GetOr(DefaultConfig.routesDir),
      opts.notFoundFile.GetOr(DefaultConfig.notFoundFile),
      opts.layoutFile.GetOr(DefaultConfig.layoutFile),
      opts.routeFile.GetOr(DefaultConfig.routeFile))
  }

  /** Without options the server looks in `public` and `routes` for `404`, `layout` and `route` files. */
  lemma NoOptionsGiveDefaults()
    ensures WithDefaults(Options(None, None, None, None, None)) == Config("public", "routes", "404", "layout", "route")
  {
  }

  /** An option left out keeps its default, whatever the other options say. */
  lemma OmittedOptionKeepsDefault(opts: Options)
    ensures opts.publicDir.None? ==> WithDefaults(opts).publicDir == "public"
    ensures opts.routesDir.None? ==> WithDefaults(opts).routesDir == "routes"
    ensures opts.notFoundFile.None? ==> WithDefaults(opts).notFoundFile == "404"
    ensures opts.layoutFile.None? ==> WithDefaults(opts).layoutFile == "layout"
    ensures opts.routeFile.None? ==> WithDefaults(opts).routeFile == "route"
  {
  }

  // ---------------------------------------------------------------------
  // The static file root
  // ---------------------------------------------------------------------

  /** The static root as the server writes it: the public directory followed by a stray `}`. */
  function StaticRootAsWritten(cwd: string, publicDir: string): string {
    cwd + "/" + publicDir + "}"
  }

  /** The static root evidently intended: the public directory below the working directory. */
  function StaticRoot(cwd: string, publicDir: string): string {
    cwd + "/" + publicDir
  }

  /**
    * Whatever the public directory, the root as written names the same path
    * as the intended one except that its last component carries a `}`, so it
    * never names the intended directory; for a plain directory name that
    * last component is `publicDir}`.
    */
  lemma StaticRootAsWrittenMissesPublicDir(cwd: string, publicDir: string)
    ensures StaticRootAsWritten(cwd, publicDir) == StaticRoot(cwd, publicDir) + "}"
    ensures var w := Split(StaticRootAsWritten(cwd, publicDir), '/');
            var c := Split(StaticRoot(cwd, publicDir), '/');
            |w| == |c| && w[..|w| - 1] == c[..|c| - 1] && w[|w| - 1] == c[|c| - 1] + "}"
            && w[|w| - 1] != c[|c| - 1]
    ensures '/' !in publicDir ==> Split(StaticRootAsWritten(cwd, publicDir), '/') == Split(cwd, '/') + [publicDir + "}"]
  {
    var c := Split(StaticRoot(cwd, publicDir), '/');
    SplitSnoc(StaticRoot(cwd, publicDir), '}', '/');
    assert |c[|c| - 1] + "}"| != |c[|c| - 1]|;
    StaticRootIsPublicDir(cwd, publicDir);
  }

  /** The intended root is the working directory's path followed by the public directory's. */
  lemma StaticRootIsPublicDir(cwd: string, publicDir: string)
    ensures Split(StaticRoot(cwd, publicDir), '/') == Split(cwd, '/') + Split(publicDir, '/')
    ensures '/' !in publicDir ==> Split(StaticRoot(cwd, publicDir), '/') == Split(cwd, '/') + [publicDir]
  {
    assert StaticRoot(cwd, publicDir) == cwd + ['/'] + publicDir;
    SplitAround(cwd, publicDir, '/');
    if '/' !in publicDir {
      SplitWhole(publicDir, '/');
    }
  }

  // ---------------------------------------------------------------------
  // Requests, responses and the code behind the routes
  // ---------------------------------------------------------------------

  /** What the server reads from a request: its method and its URL's pathname. */
  datatype Request = Request(httpMethod: string, pathname: string)

  datatype Response = Response(status: nat, contentType: Option<string>, body: string)

  /** A virtual DOM node, as produced by a route or a layout. */
  datatype VNode = VNode(id: nat)

  /**
    * What a request can throw: the router's missing not-found page, a call
    * of a handler that does not exist, or an exception of code not modelled.
    */
  datatype Error = MissingPage(message: string) | NotAFunction | Thrown(id: nat)

  /** What a route handler returns: a ready `Response`, a node to render, or an exception. */
  datatype RouteOutcome = Direct(response: Response) | Render(node: VNode) | Raise(error: Error)

  /** The code the server calls but this model does not contain. */
  datatype Runtime<!I> = Runtime(
    serveDir: (Request, string) -> Result<Response, Error>,
    inject: Request -> Result<I, Error>,
    callRoute: (Handler, Request, I) -> RouteOutcome,
    callLayout: (Handler, VNode, Request, I) -> Result<VNode, Error>,
    render: VNode -> Result<string, Error>)

  /** The content type a `Response` built from a string body gets when none is set. */
  const PlainText: string := "text/plain;charset=UTF-8"

  /** The answer to an exception: 404 for a missing page, 500 for anything else, both as plain text. */
  function ErrorResponse(e: Error): (r: Response)
    ensures r.status == 404 <==> e.MissingPage?
    ensures r.status == 404 || r.status == 500
    ensures r.contentType == Some(PlainText)
    ensures r.body == if e.MissingPage? then "404 Not Found" else "500 Server Error"
  {
    if e.MissingPage? then Response(404, Some(PlainText), "404 Not Found")
    else Response(500, Some(PlainText), "500 Server Error")
  }

  /** A rendered page: status 200, HTML, the doctype followed by the markup. */
  function Html(markup: string): (r: Response)
    ensures r.status == 200 && r.contentType == Some("text/html")
    ensures |r.body| == 15 + |markup| && r.body[..15] == "<!DOCTYPE html>" && r.body[15..] == markup
  {
    Response(200, Some("text/html"), "<!DOCTYPE html>" + markup)
  }

  /** The answer made from what foreign code returned: its response, or the answer to its exception. */
  function Answer(r: Result<Response, Error>): Response {
    match r
    case Ok(resp) => resp
    case Err(e) => ErrorResponse(e)
  }

  // ---------------------------------------------------------------------
  // Handling a request
  // ---------------------------------------------------------------------

  /**
    * The handler for `httpMethod`: the route's own, or else the not-found
    * page's; `None` when neither module exports one.
    */
  function SelectHandler(es: Entries<Module>, notFoundFile: string, route: Module, httpMethod: string)
    : (r: Result<Option<Handler>, Error>)
    ensures httpMethod in route ==> r == Ok(Some(route[httpMethod]))
    ensures r.Err? <==> httpMethod !in route && !HasKey(es, NotFoundKey(notFoundFile))
    ensures r.Err? ==> r.error.MissingPage?
  {
    if httpMethod in route then Ok(Some(route[httpMethod]))
    else match GetNotFoundHandler(es, notFoundFile)
      case Err(e) => Err(MissingPage(e.message))
      case Ok(notFound) => Ok(if httpMethod in notFound then Some(notFound[httpMethod]) else None)
  }

  /**
    * The layouts wrapped around `node`, the last one innermost and the first
    * outermost; a layout without a handler for the method is passed over, and
    * the first failure ends the chain.
    */
  function ApplyLayouts<I>(rt: Runtime<I>, layouts: seq<Module>, req: Request, injected: I, node: VNode)
    : Result<VNode, Error>
  {
    if layouts == [] then Ok(node)
    else match ApplyLayouts(rt, layouts[1..], req, injected, node)
      case Err(e) => Err(e)
      case Ok(inner) =>
        if req.httpMethod in layouts[0] then rt.callLayout(layouts[0][req.httpMethod], inner, req, injected)
        else Ok(inner)
  }

  /**
    * The answer to a routed request once the router has given its route
    * module and its layouts.
    */
  function Dispatch<I>(rt: Runtime<I>, es: Entries<Module>, notFoundFile: string, route: Module,
                       layouts: seq<Module>, req: Request): Response
  {
    match SelectHandler(es, notFoundFile, route, req.httpMethod)
    case Err(e) => ErrorResponse(e)
    case Ok(handler) =>
      match rt.inject(req)
      case Err(e) => ErrorResponse(e)
      case Ok(injected) =>
        if handler.None? then ErrorResponse(NotAFunction)
        else match rt.callRoute(handler.value, req, injected)
          case Direct(resp) => resp
          case Raise(e) => ErrorResponse(e)
          case Render(node) =>
            match ApplyLayouts(rt, layouts, req, injected, node)
            case Err(e) => ErrorResponse(e)
            case Ok(page) =>
              match rt.render(page)
              case Err(e) => ErrorResponse(e)
              case Ok(markup) => Html(markup)
  }

  /** The response the server gives to `req` when its route index holds `es`. */
  function Respond<I>(rt: Runtime<I>, cwd: string, cfg: Config, es: Entries<Module>, req: Request): Response {
    if '.' in req.pathname then Answer(rt.serveDir(req, StaticRootAsWritten(cwd, cfg.publicDir)))
    else
      var (route, layouts) := Resolve(es, cfg.routeFile, cfg.layoutFile, req.pathname);
      Dispatch(rt, es, cfg.notFoundFile, route, layouts, req)
  }

  /** The server `createApp` starts, with the router it indexed at startup. */
  class Server<I> {
    const config: Config
    const cwd: string
    const runtime: Runtime<I>
    const router: RouterUtils

    /** The router was built from this server's configuration. */
    ghost predicate Valid()
      reads router
    {
      router.Valid() && router.routeFile == config.routeFile && router.layoutFile == config.layoutFile
      && router.notFoundFile == config.notFoundFile
    }

    constructor (config: Config, cwd: string, runtime: Runtime<I>, router: RouterUtils)
      ensures this.config == config && this.cwd == cwd && this.runtime == runtime && this.router == router
    {
      this.config, this.cwd, this.runtime, this.router := config, cwd, runtime, router;
    }

    /** The loop over the layouts, from the last to the first. */
    method WrapInLayouts(layouts: seq<Module>, req: Request, injected: I, start: VNode) returns (r: Result<VNode, Error>)
      ensures r == ApplyLayouts(runtime, layouts, req, injected, start)
    {
      var node := start;
      var i := |layouts|;
      while i > 0
        invariant 0 <= i <= |layouts|
        invariant ApplyLayouts(runtime, layouts[i..], req, injected, start) == Ok(node)
      {
        i := i - 1;
        assert layouts[i..][1..] == layouts[i + 1..];
        var layout := layouts[i];
        if req.httpMethod in layout {
          var wrapped := runtime.callLayout(layout[req.httpMethod], node, req, injected);
          if wrapped.Err? {
            ApplyLayoutsAppend(runtime, layouts[..i], layouts[i..], req, injected, start);
            assert layouts[..i] + layouts[i..] == layouts;
            return Err(wrapped.error);
          }
          node := wrapped.value;
        }
      }
      assert layouts[0..] == layouts;
      return Ok(node);
    }

    /** The request handler passed to `Deno.serve`. */
    method Handle(req: Request) returns (resp: Response)
      requires Valid()
      ensures resp == Respond(runtime, cwd, config, router.fileMap, req)
    {
      if '.' in req.pathname {
        var served := runtime.serveDir(req, StaticRootAsWritten(cwd, config.publicDir));
        if served.Err? {
          return ErrorResponse(served.error);
        }
        return served.value;
      }
      var route, layouts := router.GetRouterFiles(req.pathname);
      assert Respond(runtime, cwd, config, router.fileMap, req)
          == Dispatch(runtime, router.fileMap, config.notFoundFile, route, layouts, req);
      var handler: Option<Handler> := None;
      if req.httpMethod in route {
        handler := Some(route[req.httpMethod]);
      } else {
        var notFound := GetNotFoundHandler(router.fileMap, router.notFoundFile);
        if notFound.Err? {
          return ErrorResponse(MissingPage(notFound.error.message));
        }
        if req.httpMethod in notFound.value {
          handler := Some(notFound.value[req.httpMethod]);
        }
      }
      var toInject := runtime.inject(req);
      if toInject.Err? {
        return ErrorResponse(toInject.error);
      }
      if handler.None? {
        return ErrorResponse(NotAFunction);
      }
      var res := runtime.callRoute(handler.value, req, toInject.value);
      match res {
        case Direct(r) =>
          return r;
        case Raise(e) =>
          return ErrorResponse(e);
        case Render(_) =>
      }
      var page := WrapInLayouts(layouts, req, toInject.value, res.node);
      if page.Err? {
        return ErrorResponse(page.error);
      }
      var markup := runtime.render(page.value);
      if markup.Err? {
        return ErrorResponse(markup.error);
      }
      resp := Html(markup.value);
    }
  }

  /**
    * `createApp(opts)`: fills in the defaults and indexes the routes
    * directory below `cwd`; startup fails when that directory cannot be read.
    */
  method CreateApp<I>(opts: Options, cwd: string, readDir: string -> Option<seq<Entry>>, runtime: Runtime<I>)
    returns (r: Result<Server<I>, StartupError>)
    ensures r.Err? <==> readDir(cwd + "/" + WithDefaults(opts).routesDir).None?
    ensures r.Ok? ==> fresh(r.value) && r.value.Valid()
    ensures r.Ok? ==> r.value.config == WithDefaults(opts) && r.value.cwd == cwd && r.value.runtime == runtime
    ensures r.Ok? ==> r.value.router.fileMap == SetAll([], Listing("", readDir(cwd + "/" + WithDefaults(opts).routesDir).value))
  {
    var config := WithDefaults(opts);
    var router := CreateRouterUtils(config, cwd, readDir);
    if router.Err? {
      return Err(router.error);
    }
    var server := new Server(config, cwd, runtime, router.value);
    return Ok(server);
  }

  // ---------------------------------------------------------------------
  // Properties of request handling
  // ---------------------------------------------------------------------

  /** A path with a dot is served from the root as written (`publicDir}`), whatever the routes are; a failure of the file server is answered like any exception. */
  lemma DottedPathIsStatic<I>(rt: Runtime<I>, cwd: string, cfg: Config, es: Entries<Module>, es': Entries<Module>, req: Request)
    requires '.' in req.pathname
    ensures Respond(rt, cwd, cfg, es, req) == Respond(rt, cwd, cfg, es', req)
    ensures rt.serveDir(req, StaticRootAsWritten(cwd, cfg.publicDir)).Ok? ==>
              Respond(rt, cwd, cfg, es, req) == rt.serveDir(req, StaticRootAsWritten(cwd, cfg.publicDir)).value
    ensures rt.serveDir(req, StaticRootAsWritten(cwd, cfg.publicDir)).Err? ==>
              Respond(rt, cwd, cfg, es, req) == ErrorResponse(rt.serveDir(req, StaticRootAsWritten(cwd, cfg.publicDir)).error)
  {
  }

  /**
    * When the route has no handler for the method, the not-found page's
    * handler for it is used, as indexed under `/${notFoundFile}.tsx`.
    */
  lemma NotFoundFallback(es: Entries<Module>, notFoundFile: string, route: Module, httpMethod: string, i: nat)
    requires UniqueKeys(es) && i < |es| && es[i].0 == NotFoundKey(notFoundFile)
    requires httpMethod !in route
    ensures SelectHandler(es, notFoundFile, route, httpMethod)
         == Ok(if httpMethod in es[i].1 then Some(es[i].1[httpMethod]) else None)
  {
    GetAt(es, i);
  }

  /** Wrapping in `outer + inner` is wrapping in `inner`, then in `outer`; a failure inside stops it. */
  lemma {:induction false} ApplyLayoutsAppend<I>(rt: Runtime<I>, outer: seq<Module>, inner: seq<Module>,
                                                  req: Request, injected: I, node: VNode)
    ensures ApplyLayouts(rt, outer + inner, req, injected, node)
         == match ApplyLayouts(rt, inner, req, injected, node)
            case Err(e) => Err(e)
            case Ok(v) => ApplyLayouts(rt, outer, req, injected, v)
  {
    if outer == [] {
      assert outer + inner == inner;
    } else {
      assert (outer + inner)[0] == outer[0];
      assert (outer + inner)[1..] == outer[1..] + inner;
      ApplyLayoutsAppend(rt, outer[1..], inner, req, injected, node);
    }
  }

  /** The layouts that export a handler for `httpMethod`, in order. */
  function WithHandler(layouts: seq<Module>, httpMethod: string): (r: seq<Module>)
    ensures forall j :: 0 <= j < |r| ==> httpMethod in r[j]
    ensures forall m :: m in r <==> m in layouts && httpMethod in m
  {
    if layouts == [] then []
    else if httpMethod in layouts[0] then [layouts[0]] + WithHandler(layouts[1..], httpMethod)
    else WithHandler(layouts[1..], httpMethod)
  }

  /** Layouts without a handler for the method change nothing: only the others wrap the page. */
  lemma {:induction false} LayoutsWithoutHandlerSkipped<I>(rt: Runtime<I>, layouts: seq<Module>, req: Request,
                                                           injected: I, node: VNode)
    ensures ApplyLayouts(rt, layouts, req, injected, node)
         == ApplyLayouts(rt, WithHandler(layouts, req.httpMethod), req, injected, node)
  {
    if layouts != [] {
      LayoutsWithoutHandlerSkipped(rt, layouts[1..], req, injected, node);
      var w := WithHandler(layouts, req.httpMethod);
      if req.httpMethod in layouts[0] {
        assert w[0] == layouts[0] && w[1..] == WithHandler(layouts[1..], req.httpMethod);
      }
    }
  }

  /** A page none of whose layouts handles the method is rendered as the route produced it. */
  lemma NoLayoutHandlerKeepsNode<I>(rt: Runtime<I>, layouts: seq<Module>, req: Request, injected: I, node: VNode)
    requires forall j :: 0 <= j < |layouts| ==> req.httpMethod !in layouts[j]
    ensures ApplyLayouts(rt, layouts, req, injected, node) == Ok(node)
  {
    LayoutsWithoutHandlerSkipped(rt, layouts, req, injected, node);
  }

  /** The first layout, the template when there is one, wraps all the others. */
  lemma FirstLayoutOutermost<I>(rt: Runtime<I>, layouts: seq<Module>, req: Request, injected: I, node: VNode)
    requires |layouts| >= 1 && req.httpMethod in layouts[0]
    ensures ApplyLayouts(rt, layouts, req, injected, node)
         == match ApplyLayouts(rt, layouts[1..], req, injected, node)
            case Err(e) => Err(e)
            case Ok(v) => rt.callLayout(layouts[0][req.httpMethod], v, req, injected)
  {
  }

  /** A response a handler returns itself is sent unchanged: no layout and no renderer sees it. */
  lemma DirectResponseUnchanged<I>(rt: Runtime<I>, cwd: string, cfg: Config, es: Entries<Module>, req: Request,
                                   h: Handler, injected: I)
    requires '.' !in req.pathname
    requires SelectHandler(es, cfg.notFoundFile, Resolve(es, cfg.routeFile, cfg.layoutFile, req.pathname).0,
                           req.httpMethod) == Ok(Some(h))
    requires rt.inject(req) == Ok(injected)
    requires rt.callRoute(h, req, injected).Direct?
    ensures Respond(rt, cwd, cfg, es, req) == rt.callRoute(h, req, injected).response
  {
  }

  /**
    * A request whose route lacks a handler for its method, in an index
    * without a not-found page, is answered 404.
    */
  lemma MissingNotFoundPageIs404<I>(rt: Runtime<I>, cwd: string, cfg: Config, es: Entries<Module>, req: Request)
    requires '.' !in req.pathname
    requires req.httpMethod !in Resolve(es, cfg.routeFile, cfg.layoutFile, req.pathname).0
    requires !HasKey(es, NotFoundKey(cfg.notFoundFile))
    ensures Respond(rt, cwd, cfg, es, req) == Response(404, Some(PlainText), "404 Not Found")
  {
  }

  /**
    * When neither the route nor the not-found page handles the method, the
    * call of the missing handler fails and the answer is 500.
    */
  lemma NoHandlerIs500<I>(rt: Runtime<I>, cwd: string, cfg: Config, es: Entries<Module>, req: Request, i: nat)
    requires UniqueKeys(es) && i < |es| && es[i].0 == NotFoundKey(cfg.notFoundFile)
    requires '.' !in req.pathname
    requires req.httpMethod !in Resolve(es, cfg.routeFile, cfg.layoutFile, req.pathname).0
    requires req.httpMethod !in es[i].1
    requires rt.inject(req).Ok?
    ensures Respond(rt, cwd, cfg, es, req) == Response(500, Some(PlainText), "500 Server Error")
  {
    NotFoundFallback(es, cfg.notFoundFile, Resolve(es, cfg.routeFile, cfg.layoutFile, req.pathname).0,
                     req.httpMethod, i);
  }

  /**
    * Every answer to a routed request is the response the selected handler
    * returned itself, an HTML page with status 200, a 404 for a missing page
    * or a 500.
    */
  lemma DispatchResponseKinds<I>(rt: Runtime<I>, es: Entries<Module>, notFoundFile: string, route: Module,
                                 layouts: seq<Module>, req: Request)
    ensures var r := Dispatch(rt, es, notFoundFile, route, layouts, req);
            var sel := SelectHandler(es, notFoundFile, route, req.httpMethod);
            (sel.Ok? && sel.value.Some? && rt.inject(req).Ok?
             && rt.callRoute(sel.value.value, req, rt.inject(req).value) == Direct(r))
            || (r.status == 200 && r.contentType == Some("text/html"))
            || r == Response(404, Some(PlainText), "404 Not Found")
            || r == Response(500, Some(PlainText), "500 Server Error")
  {
  }
}
