/** The two registered transport kinds, a gRPC server and an HTTP server,
    each bound to its own address, and the one-value outcome contract of
    their `Start` and `Stop` operations. */
module Transports {
  import opened Wrappers

  /** Opaque handle standing for an externally constructed `*grpc.Server`. */
  datatype GrpcServer = GrpcServer(id: nat)

  /** Opaque handle standing for an externally constructed `*http.Server`. */
  datatype HttpServer = HttpServer(id: nat)

  /** A registered transport: the gRPC or HTTP transport manager with the
      address it listens on and the server it serves. */
  datatype Transport =
    | Grpc(addr: string, grpcServer: GrpcServer)
    | Http(addr: string, httpServer: HttpServer)

  /** What the environment does when a transport is started: the error
      `net.Listen("tcp", addr)` returns (`Nil` when listening succeeds) and
      the error `Serve` returns once it stops serving. */
  datatype StartEnv = StartEnv(listen: Error, serve: Error)

  /** What the goroutine launched by `Start` does: whether it handed the
      listener to `Serve`, and the values it sent on its completion channel,
      in order. */
  datatype StartTrace = StartTrace(served: bool, sent: seq<Error>)

  /** `Start` of either transport manager. Both kinds behave the same:
      listen, and on failure send the listen error and return; otherwise
      send whatever `Serve` returns. */
  function Start(t: Transport, env: StartEnv): (r: StartTrace)
    ensures |r.sent| == 1
    ensures r.served <==> env.listen == Nil
    ensures !r.served ==> r.sent[0] == env.listen
    ensures r.served ==> r.sent[0] == env.serve
  {
    if env.listen != Nil then StartTrace(false, [env.listen]) else StartTrace(true, [env.serve])
  }

  /** The single value a started transport ever delivers. */
  function Delivered(t: Transport, env: StartEnv): Error
  {
    Start(t, env).sent[0]
  }

  /** `Stop` of a transport manager, given the error `Shutdown` would return
      for an HTTP server. A gRPC server is stopped with `GracefulStop`, which
      reports nothing, so its `Stop` always returns nil; an HTTP server's
      `Stop` returns exactly what `Shutdown` returns. */
  function Stop(t: Transport, shutdown: Error): (r: Error)
    ensures t.Grpc? ==> r == Nil
    ensures t.Http? ==> r == shutdown
    ensures r != Nil ==> t.Http? && r == shutdown
  {
    match t
    case Grpc(_, _) => Nil
    case Http(_, _) => shutdown
  }

  /** A failing listen decides the delivered value whatever `Serve` would
      have returned; a successful one leaves the decision to `Serve`. */
  lemma DeliveredIsListenErrorOrServeResult(t: Transport, env: StartEnv)
    ensures env.listen != Nil ==> Delivered(t, env) == env.listen
    ensures env.listen == Nil ==> Delivered(t, env) == env.serve
    ensures forall serve: Error :: env.listen != Nil ==>
      Delivered(t, StartEnv(env.listen, serve)) == Delivered(t, env)
  {
  }
}
