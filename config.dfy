/** The `ServerConfig` object of the dressed framework, as a value. A field that
    JavaScript leaves `undefined` is `None`. */
module Config {
  import opened Wrappers

  /** A handler chain passed to `handleEvent`; its contents belong to the framework. */
  datatype Middleware = Middleware(id: nat)

  datatype BuildOptions = BuildOptions(root: Option<string>, extensions: Option<seq<string>>)

  datatype ServerConfig = ServerConfig(
    endpoint: Option<string>,
    port: Option<int>,
    middleware: Option<Middleware>,
    build: Option<BuildOptions>)

  /** `{}`, the default argument of `build`. */
  const EmptyConfig := ServerConfig(None, None, None, None)

  /** `Object.assign(target, source)` on the record: every field the source defines
      replaces the target's; the others are kept. */
  function Assign(target: ServerConfig, source: ServerConfig): (r: ServerConfig)
    ensures r.endpoint == (if source.endpoint.Some? then source.endpoint else target.endpoint)
    ensures r.port == (if source.port.Some? then source.port else target.port)
    ensures r.middleware == (if source.middleware.Some? then source.middleware else target.middleware)
    ensures r.build == (if source.build.Some? then source.build else target.build)
  {
    ServerConfig(
      Or(source.endpoint, target.endpoint),
      Or(source.port, target.port),
      Or(source.middleware, target.middleware),
      Or(source.build, target.build))
  }

  /** The laws `build` relies on when it merges the bundled config into `serverConfig`:
      merging `{}` changes nothing in either position, merging the same source twice
      is merging it once, successive merges act as one merge of the later source over
      the earlier, and a field the source defines always wins. */
  lemma AssignLaws(t: ServerConfig, s: ServerConfig, u: ServerConfig)
    ensures Assign(t, EmptyConfig) == t
    ensures Assign(EmptyConfig, s) == s
    ensures Assign(Assign(t, s), s) == Assign(t, s)
    ensures Assign(Assign(t, s), u) == Assign(t, Assign(s, u))
    ensures s.endpoint.Some? ==> Assign(t, s).endpoint == s.endpoint
    ensures s.port.Some? ==> Assign(t, s).port == s.port
    ensures s.middleware.Some? ==> Assign(t, s).middleware == s.middleware
    ensures s.build.Some? ==> Assign(t, s).build == s.build
  {
  }

  function Or<T>(first: Option<T>, second: Option<T>): Option<T> {
    if first.Some? then first else second
  }
}
