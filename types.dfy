/** The shapes the router and the server share. */
module Types {
  import opened Wrappers

  /**
    * A function exported by a route or layout module. Handlers are opaque
    * here; what one does when called is supplied to the server separately.
    */
  datatype Handler = Handler(id: nat)

  /** A loaded route or layout module: its exports keyed by HTTP method name. */
  type Module = map<string, Handler>

  /** The file-naming options of `createApp`; `None` is an option left out. */
  datatype Options = Options(
    publicDir: Option<string>,
    routesDir: Option<string>,
    notFoundFile: Option<string>,
    layoutFile: Option<string>,
    routeFile: Option<string>)

  /** The same options once every one of them has a value. */
  datatype Config = Config(
    publicDir: string,
    routesDir: string,
    notFoundFile: string,
    layoutFile: string,
    routeFile: string)
}
