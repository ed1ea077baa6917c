# servers: a Dafny model of the transport supervisor

The Go package `servers` supervises a group of network servers. It runs
registered gRPC and HTTP transports and one fixed administrative HTTP
server, which serves `/healthz` and `/metrics`. It waits for the first of
them to finish, stops the other registered transports (never the
administrative server), and delivers that first outcome as the result of
`Run`.

This project models the package's decision logic as pure functions and
short methods over immutable data:

- `Wrappers` (wrappers.dfy): `Option`, `Result`, `Panicking` (a value or
  a Go panic), and Go's `error` value as `Error = Nil | Err(text)`.
- `Transports` (transports.dfy): the gRPC and HTTP transport managers, the
  single value `Start` sends on its completion channel, and what `Stop`
  returns.
- `Internal` (internal.dfy): the administrative router, the fixed settings
  of the administrative server, and its completion signal, which never
  carries nil.
- `Options` (options.dfy): the `serverOptions` configuration and every
  option constructor, including the panics of `WithGRPCServer` and
  `WithHTTPServer` on a nil server. Go's option closures become a closed
  set of variants, plus `Custom` for an option written by a caller, which
  may change anything and may fail.
- `Servers` (server.dfy): `New`, an ordered fold of the options that stops
  at the first error, with reference definitions of what built-in options
  leave in each field.
- `Supervisor` (supervisor.dfy): the body of `Run`. It covers the layout
  of the signal vector (transports at `0..N-1`, the administrative server
  at `N`), the poll pass, the shutdown loop, and the delivered result.

Channels are read through snapshots. A `Snapshot` gives, for each index of
the signal vector, the value waiting on that channel when the pass examined
it, or `None`. `Supervisor.Run` loops over a finite sequence of snapshots.
If no pass finds a value, it reports `died == -1`, stops nothing and
delivers nothing. The Go loop would keep polling instead. The predicate
`Agrees` ties every snapshot to the environment: a transport's channel can
only hold the one value its `Start` sends, and the administrative channel
can only hold a non-nil `ListenAndServe` error.

The shutdown loop covers only the registered transports
(server.go:94-100), so the administrative server is never stopped.
`Supervisor.StopSurvivors` and `Supervisor.Run` state this: every stopped
index is below the administrative index.

## Model

| member | source | states |
|---|---|---|
| `Transports.Start` | transports.go:16-30 | A started transport (gRPC here, HTTP at lines 57-71) sends exactly one value. If listening fails, that value is the listen error and `Serve` is never called. Otherwise it is the result of `Serve`. |
| `Transports.DeliveredIsListenErrorOrServeResult` | transports.go:57-71 | The delivered value is the listen error whenever listening fails, whatever `Serve` would return. Otherwise it is the serve result. |
| `Transports.Stop` | transports.go:32-35 | A gRPC transport's `Stop` always returns nil. An HTTP transport's `Stop` (lines 73-75) returns exactly what `Shutdown` returns. Only an HTTP stop can fail. |
| `Internal.ServeHTTP` | internal.go:21-37 | `/healthz` goes to the health handler and only that path does. `/metrics` goes to the metrics handler and only that path does. Every other path gets status 404 with an empty body. A log line with the request URI and method is emitted if and only if logging is on. |
| `Internal.RouteDependsOnlyOnPath` | internal.go:22-29 | Two requests with the same URL path get the same route, whatever the logging flag, request URI or method. |
| `Internal.AdminServerFor` | internal.go:41-51 | The administrative server binds the configured address. Its timeouts are read 30s, read-header 5s, write 30s and idle 300s. |
| `Internal.AdminSignal` | internal.go:53-58 | The administrative goroutine sends at most one value. It sends one exactly when `ListenAndServe` returns a non-nil error, and then it sends that error. It never sends nil. |
| `Options.Apply` | options.go:9-31 | A built-in option never fails and changes only its own field. The address is overwritten. A transport or component is appended at the end. A metadata key is set to its value and every other key keeps its value. |
| `Options.WithGRPCServer` | transports.go:37-50 | It panics with the fixed message exactly when the server is nil, before any configuration exists. Otherwise it yields a built-in option that registers `Grpc(addr, server)`. |
| `Options.WithHTTPServer` | transports.go:77-90 | It panics with the fixed message exactly when the server is nil. Otherwise it yields a built-in option that registers `Http(addr, server)`. |
| `Options.Defaults` | server.go:35-40 | `New` starts from address `":8001"` with no transports, no components and empty metadata (see also `Servers.NewWithoutOptions`). |
| `Options.WithInternalServerAddr` | options.go:9-14 | The option never fails and only overwrites the address with its argument; `InternalAddrOptionSetsOnlyAddr` and `Servers.LastAddressWins` state the consequences. |
| `Options.WithHealthzComponent` | options.go:18-23 | The option never fails and only appends the component after the earlier ones; `HealthzComponentOptionAppends` restates this field by field. |
| `Options.AddHealthzMetadata` | options.go:27-32 | The option never fails and only maps the key to the value, overwriting any earlier value; `HealthzMetadataOptionUpdates` states the per-key consequences. |
| `Options.GrpcOptionAppendsOne` | transports.go:43-49 | Applying the gRPC option appends exactly one transport at the end. Earlier transports keep their order, no other field changes, and the error is nil. |
| `Options.HttpOptionAppendsOne` | transports.go:83-89 | The same as for gRPC, for the HTTP option. |
| `Options.InternalAddrOptionSetsOnlyAddr` | options.go:9-14 | The address option sets the address to its argument, never fails and leaves every other field unchanged. |
| `Options.HealthzComponentOptionAppends` | options.go:18-23 | The component option appends the component after the earlier ones in order, never fails and leaves every other field unchanged. |
| `Options.HealthzMetadataOptionUpdates` | options.go:27-32 | The metadata option maps the key to the value, overwriting any earlier value. Every other key keeps its value, no other field changes, and the option never fails. |
| `Servers.ApplyAll` | server.go:42-46 | The option fold fails only with a non-nil error. |
| `Servers.New` | server.go:34-53 | `New` fails exactly when the fold fails, and returns the fold's error. Otherwise the server carries the folded address and transports, and a health aggregator built from the folded metadata and components. |
| `Servers.NewCall` | transports.go:38-41 | A `New(...)` call panics exactly when one of its option arguments panics. The message is that of the leftmost panicking argument, since Go evaluates arguments left to right, and `New` never runs. When no argument panics, the call returns `New` of the built options. |
| `Servers.NewWithoutOptions` | server.go:35-40 | With no options, `New` yields address `":8001"`, no transports, and no components or metadata. |
| `Servers.ApplyAllAppend` | server.go:42-46 | Folding `a + b` equals folding `a` and then, unless that failed, folding `b` from where `a` left off. |
| `Servers.FirstErrorStopsFold` | server.go:42-46 | Suppose the options before index `i` succeed and option `i` fails. Then the fold returns option `i`'s error, and replacing everything after `i` changes nothing. |
| `Servers.NewReturnsFirstError` | server.go:42-46 | `New` returns the error of the first failing option, and no server. |
| `Servers.FoldFailsAtFirstFailing` | server.go:42-46 | The converse: a failing fold failed at some option, every option before which succeeded, and its error is that option's error. So a fold in which every option succeeds succeeds. |
| `Servers.BuiltInFold` | options.go:9-31 | Built-in options never make the fold fail. The result has the last address set, the transports and components appended in option order, and each metadata key's last value. |
| `Servers.NewWithBuiltInOptions` | server.go:34-53 | `New` over built-in options always succeeds. The server gets the last address (default `":8001"`), the transports in registration order, and the supplied components and metadata. |
| `Servers.LastAddressWins` | options.go:9-13 | After several address options, the last one wins, whatever non-address options follow it. |
| `Supervisor.SignalSources` | server.go:62-71 | The signal vector has length N+1. Entry `i < N` is registered transport `i`. Entry N, and only entry N, is the administrative server. |
| `Supervisor.PollPass` | server.go:79-88 | A pass returns the lowest index that holds a value. It returns nothing exactly when no index holds one. |
| `Supervisor.LowerIndexWins` | server.go:80-85 | When two channels are ready in the same pass, the one with the higher index is never chosen. |
| `Supervisor.AdminExaminedLast` | server.go:79-88 | The administrative index N is chosen exactly when no registered transport is ready and the administrative channel is. |
| `Supervisor.ChosenValueIsOutcome` | server.go:82-85 | The chosen value is the dying source's outcome. For a transport, that is its listen error, or else its serve result. For the administrative server, it is its non-nil error. |
| `Supervisor.StopSurvivors` | server.go:93-100 | `Stop` is called once on each registered transport except `died`, in ascending order. No other index is stopped, which excludes the administrative server. Each call's return value is recorded and nothing else is done with it. |
| `Supervisor.Run` | server.go:60-106 | If no pass succeeds, nothing is stopped and nothing is delivered. Otherwise `died` is chosen by the first successful pass, and the result is the value from `died`'s channel. The result is independent of what `Stop` returns and is never nil when the administrative server died. Every other registered transport is stopped exactly once, in ascending order, and the administrative server never is. |

## Left out

- Goroutines, channels and `time.Sleep(1 * time.Second)` (server.go:75-103) are replaced by snapshot sequences. The one-second poll interval and the forever-running loop are not modelled.
- Supervisor.Run: takes a finite sequence of poll passes. When none succeeds, it reports `died == -1` instead of polling forever.
- `net.Listen`, `Serve`, `GracefulStop`, `Shutdown` and `ListenAndServe` are foreign I/O. Their results are the `StartEnv`, `Environment` and `shutdown` inputs.
- Transports.Stop: states only the returned error. The side effect of `GracefulStop` or `Shutdown` on the server is not modelled.
- The health aggregator (`healthz.New`, `Started` at server.go:73, its `ServeHTTP`), `promhttp.Handler` and logrus are external collaborators. They appear only as the `Healthz` record, handler tags and a `LogLine` value.
- The process-wide `LogInternalRequest` variable (internal.go:12) is a parameter of `ServeHTTP`.
- The placeholder channels allocated at server.go:65-67 are overwritten at line 71 before use, so they are not modelled.
- Neither the order in which `Start` is called (the administrative server first, server.go:68) nor the moment the goroutines bind is modelled. Only the index layout matters to the supervisor.
- A nil `Option` argument makes `New` panic when it calls `o(config)` at server.go:43. `ConfigOption` has no nil value, so this panic is not modelled.
- Supervisor.StopSurvivors: assumes every `Stop` returns. `GracefulStop` and `Shutdown(context.Background())` have no deadline, and a `Stop` that blocks forever would halt the loop at server.go:99. Later survivors would then never be stopped, and no result would be delivered at line 102.
- Supervisor.Run: its promise that every survivor is stopped and the result is delivered holds only when every `Stop` returns, for the same reason.
- The `Handler` field of the administrative server (internal.go:43-46), an `internalRouter` over the health aggregator and `promhttp.Handler()`, is not recorded in `AdminServer`. `Internal.ServeHTTP` models what that router does.
