/** The administrative HTTP endpoint: its fixed router, the fixed server
    settings it is served with, and the completion signal of the goroutine
    that runs it. The health aggregator and the metrics exporter behind the
    two routes are external and appear only as handler tags. */
module Internal {
  import opened Wrappers

  const HealthzPath: string := "/healthz"
  const MetricsPath: string := "/metrics"
  const StatusNotFound: nat := 404

  /** The parts of an `*http.Request` the router looks at. */
  datatype Request = Request(path: string, requestURI: string, verb: string)

  /** The two external handlers a request can be delegated to. */
  datatype Handler = HealthzHandler | MetricsHandler

  /** What the router does with the response writer: hand it to a handler,
      or write a status line with the given body itself. */
  datatype Action = Delegate(handler: Handler) | Respond(status: nat, body: string)

  /** The structured log entry emitted when request logging is switched on. */
  datatype LogLine = LogLine(requestURI: string, requestMethod: string, message: string)

  /** The effect of one call of the router. */
  datatype Served = Served(log: Option<LogLine>, action: Action)

  const LogMessage: string := "internal endpoint hit"

  /** `internalRouter.ServeHTTP`: optionally logs the request, then switches
      on the exact URL path. */
  function ServeHTTP(logInternalRequest: bool, r: Request): (s: Served)
    ensures s.action == Delegate(HealthzHandler) <==> r.path == HealthzPath
    ensures s.action == Delegate(MetricsHandler) <==> r.path == MetricsPath
    ensures s.action.Respond? <==> r.path != HealthzPath && r.path != MetricsPath
    ensures s.action.Respond? ==> s.action.status == StatusNotFound && s.action.body == ""
    ensures s.log.Some? <==> logInternalRequest
    ensures s.log.Some? ==>
      s.log.value.requestURI == r.requestURI && s.log.value.requestMethod == r.verb
  {
    var log := if logInternalRequest then Some(LogLine(r.requestURI, r.verb, LogMessage)) else None;
    var action :=
      if r.path == HealthzPath then Delegate(HealthzHandler)
      else if r.path == MetricsPath then Delegate(MetricsHandler)
      else Respond(StatusNotFound, "");
    Served(log, action)
  }

  /** Routing depends on the URL path alone: neither the logging flag nor
      the request URI or method can change where a request goes. */
  lemma RouteDependsOnlyOnPath(flag1: bool, r1: Request, flag2: bool, r2: Request)
    requires r1.path == r2.path
    ensures ServeHTTP(flag1, r1).action == ServeHTTP(flag2, r2).action
  {
  }

  /** `time.Duration` counts nanoseconds. */
  const Second: nat := 1_000_000_000

  /** The `*http.Server` the administrative endpoint is served with. */
  datatype AdminServer = AdminServer(
    addr: string,
    readTimeout: nat,
    readHeaderTimeout: nat,
    writeTimeout: nat,
    idleTimeout: nat)

  /** The settings `runInternalHTTP` builds: the configured address and the
      fixed resource-protection timeouts. */
  function AdminServerFor(addr: string): (h: AdminServer)
    ensures h.addr == addr
    ensures h.readTimeout == 30 * Second && h.writeTimeout == 30 * Second
    ensures h.readHeaderTimeout == 5 * Second
    ensures h.idleTimeout == 300 * Second
  {
    AdminServer(addr, 30 * Second, 5 * Second, 30 * Second, 300 * Second)
  }

  /** The values the administrative goroutine sends on its completion
      channel, given what `ListenAndServe` returns: a non-nil error is sent,
      a nil return sends nothing, so the channel never yields nil. */
  function AdminSignal(listenAndServe: Error): (sent: seq<Error>)
    ensures |sent| <= 1
    ensures |sent| == 1 <==> listenAndServe != Nil
    ensures forall v :: v in sent ==> v == listenAndServe && v != Nil
  {
    if listenAndServe != Nil then [listenAndServe] else []
  }
}
