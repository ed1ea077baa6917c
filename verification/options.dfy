/** The configuration the `New` constructor folds options over, and every
    option constructor of the package. Go's `Option` is a closure over a
    mutable `*serverOptions`; here it is a closed set of tagged variants
    whose effect is given by `Apply`, plus `Custom` for options written by
    callers, which may change anything and may fail. */
module Options {
  import opened Wrappers
  import opened Transports

  /** Opaque handle standing for a `*healthz.Component`. */
  datatype Component = Component(name: string)

  /** `serverOptions`: the internal server's address, the registered
      transports in registration order, and what is forwarded to the health
      aggregator. */
  datatype Config = Config(
    addr: string,
    transports: seq<Transport>,
    components: seq<Component>,
    meta: map<string, string>)

  const DefaultAddr: string := ":8001"

  /** The configuration `New` starts from. */
  function Defaults(): (c: Config)
    ensures c.addr == DefaultAddr
    ensures c.transports == [] && c.components == [] && c.meta == map[]
  {
    Config(DefaultAddr, [], [], map[])
  }

  /** A configuration option. */
  datatype ConfigOption =
    | SetInternalAddr(addr: string)
    | AddComponent(component: Component)
    | AddMetadata(key: string, value: string)
    | AddTransport(transport: Transport)
    | Custom(apply: Config -> Step)

  /** The configuration an option leaves behind and the error it returns. */
  datatype Step = Step(config: Config, err: Error)

  /** Options of this package, as opposed to ones written by callers. */
  predicate BuiltIn(o: ConfigOption)
  {
    !o.Custom?
  }

  /** Running an option on a configuration. A built-in option never fails
      and changes only its own field; a caller's option does whatever its
      function does. */
  function Apply(o: ConfigOption, c: Config): (s: Step)
    ensures BuiltIn(o) ==> s.err == Nil
    ensures o.SetInternalAddr? ==> s.config.addr == o.addr
    ensures BuiltIn(o) && !o.SetInternalAddr? ==> s.config.addr == c.addr
    ensures o.AddTransport? ==> s.config.transports == c.transports + [o.transport]
    ensures BuiltIn(o) && !o.AddTransport? ==> s.config.transports == c.transports
    ensures o.AddComponent? ==> s.config.components == c.components + [o.component]
    ensures BuiltIn(o) && !o.AddComponent? ==> s.config.components == c.components
    ensures o.AddMetadata? ==> o.key in s.config.meta && s.config.meta[o.key] == o.value
    ensures o.AddMetadata? ==> s.config.meta.Keys == c.meta.Keys + {o.key}
    ensures o.AddMetadata? ==>
      forall k :: k in c.meta && k != o.key ==> s.config.meta[k] == c.meta[k]
    ensures BuiltIn(o) && !o.AddMetadata? ==> s.config.meta == c.meta
  {
    match o
    case SetInternalAddr(a) => Step(c.(addr := a), Nil)
    case AddComponent(comp) => Step(c.(components := c.components + [comp]), Nil)
    case AddMetadata(k, v) => Step(c.(meta := c.meta[k := v]), Nil)
    case AddTransport(t) => Step(c.(transports := c.transports + [t]), Nil)
    case Custom(f) => f(c)
  }

  /** The value a metadata map holds for `k`, if any. */
  function Lookup(m: map<string, string>, k: string): Option<string>
  {
    if k in m then Some(m[k]) else None
  }

  /** `WithInternalServerAddr`: sets the address of the internal server. */
  function WithInternalServerAddr(addr: string): (o: ConfigOption)
    ensures BuiltIn(o)
    ensures forall c :: Apply(o, c) == Step(c.(addr := addr), Nil)
  {
    SetInternalAddr(addr)
  }

  /** `WithHealthzComponent`: adds a component to the health aggregator. */
  function WithHealthzComponent(c: Component): (o: ConfigOption)
    ensures BuiltIn(o)
    ensures forall cfg :: Apply(o, cfg) == Step(cfg.(components := cfg.components + [c]), Nil)
  {
    AddComponent(c)
  }

  /** `AddHealthzMetadata`: records a metadata pair for the health aggregator. */
  function AddHealthzMetadata(k: string, v: string): (o: ConfigOption)
    ensures BuiltIn(o)
    ensures forall c :: Apply(o, c) == Step(c.(meta := c.meta[k := v]), Nil)
  {
    AddMetadata(k, v)
  }

  const GrpcNilPanic: string := "must provide both a net listener and GRPC server to WithGRPCServer"
  const HttpNilPanic: string := "must provide both a net listener and HTTP server to WithHTTPServer"

  /** `WithGRPCServer`: a nil server panics while the option is built, so
      no configuration is ever reached; otherwise the option registers a
      gRPC transport. */
  function WithGRPCServer(addr: string, server: Option<GrpcServer>): (r: Panicking<ConfigOption>)
    ensures r.Panicked? <==> server.None?
    ensures r.Panicked? ==> r.message == GrpcNilPanic
    ensures r.Returned? ==> BuiltIn(r.value) && r.value.AddTransport?
    ensures r.Returned? ==> r.value.transport == Grpc(addr, server.value)
  {
    match server
    case None => Panicked(GrpcNilPanic)
    case Some(s) => Returned(AddTransport(Grpc(addr, s)))
  }

  /** `WithHTTPServer`: as `WithGRPCServer`, for an HTTP server. */
  function WithHTTPServer(addr: string, server: Option<HttpServer>): (r: Panicking<ConfigOption>)
    ensures r.Panicked? <==> server.None?
    ensures r.Panicked? ==> r.message == HttpNilPanic
    ensures r.Returned? ==> BuiltIn(r.value) && r.value.AddTransport?
    ensures r.Returned? ==> r.value.transport == Http(addr, server.value)
  {
    match server
    case None => Panicked(HttpNilPanic)
    case Some(s) => Returned(AddTransport(Http(addr, s)))
  }

  /** A built gRPC option appends exactly one transport, at the end, keeps
      the earlier ones in order, touches no other field and never fails. */
  lemma GrpcOptionAppendsOne(addr: string, server: GrpcServer, c: Config)
    ensures WithGRPCServer(addr, Some(server)).Returned?
    ensures var s := Apply(WithGRPCServer(addr, Some(server)).value, c);
      && s.err == Nil
      && |s.config.transports| == |c.transports| + 1
      && s.config.transports[..|c.transports|] == c.transports
      && s.config.transports[|c.transports|] == Grpc(addr, server)
      && s.config.(transports := c.transports) == c
  {
  }

  /** A built HTTP option appends exactly one transport, at the end, keeps
      the earlier ones in order, touches no other field and never fails. */
  lemma HttpOptionAppendsOne(addr: string, server: HttpServer, c: Config)
    ensures WithHTTPServer(addr, Some(server)).Returned?
    ensures var s := Apply(WithHTTPServer(addr, Some(server)).value, c);
      && s.err == Nil
      && |s.config.transports| == |c.transports| + 1
      && s.config.transports[..|c.transports|] == c.transports
      && s.config.transports[|c.transports|] == Http(addr, server)
      && s.config.(transports := c.transports) == c
  {
  }

  /** The address option sets the address to its argument, whatever it was
      before, never fails and leaves every other field as it was. */
  lemma InternalAddrOptionSetsOnlyAddr(addr: string, c: Config)
    ensures var s := Apply(WithInternalServerAddr(addr), c);
      && s.err == Nil
      && s.config.addr == addr
      && s.config.(addr := c.addr) == c
  {
  }

  /** The component option appends the component after the earlier ones,
      never fails and leaves every other field as it was. */
  lemma HealthzComponentOptionAppends(comp: Component, c: Config)
    ensures var s := Apply(WithHealthzComponent(comp), c);
      && s.err == Nil
      && |s.config.components| == |c.components| + 1
      && s.config.components[..|c.components|] == c.components
      && s.config.components[|c.components|] == comp
      && s.config.(components := c.components) == c
  {
  }

  /** The metadata option maps its key to its value, overwriting an earlier
      value, keeps every other key's value, never fails and leaves every
      other field as it was. */
  lemma HealthzMetadataOptionUpdates(k: string, v: string, c: Config)
    ensures var s := Apply(AddHealthzMetadata(k, v), c);
      && s.err == Nil
      && Lookup(s.config.meta, k) == Some(v)
      && (forall k' :: k' != k ==> Lookup(s.config.meta, k') == Lookup(c.meta, k'))
      && s.config.(meta := c.meta) == c
  {
  }
}
