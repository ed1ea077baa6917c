/** The body of `Run`: the layout of the completion-signal vector, the poll
    pass that picks the first transport to finish, the loop that stops the
    survivors, and the delivery of the terminal result.

    Channels are read through snapshots: a snapshot holds, for every index
    of the signal vector, the value waiting on that channel when the pass
    examined it (`None` when nothing was waiting). A poll loop over
    finitely many snapshots that finds nothing stops nothing and delivers
    nothing; the source would go on polling once a second. */
module Supervisor {
  import opened Wrappers
  import opened Transports
  import opened Internal
  import opened Servers

  /** Where an entry of the signal vector comes from. */
  datatype Source = FromTransport(transport: Transport) | FromAdmin(admin: AdminServer)

  /** The index of the administrative server's channel: one past the last
      registered transport. */
  function AdminIndex(s: Server): nat
  {
    |s.transports|
  }

  /** The signal vector `Run` builds: the registered transports' channels
      at their registration indices and the administrative server's channel
      last. */
  function SignalSources(s: Server): (v: seq<Source>)
    ensures |v| == |s.transports| + 1
    ensures forall i :: 0 <= i < |s.transports| ==> v[i] == FromTransport(s.transports[i])
    ensures v[AdminIndex(s)] == FromAdmin(AdminServerFor(s.addr))
    ensures forall i :: 0 <= i < |v| ==> (v[i].FromAdmin? <==> i == AdminIndex(s))
  {
    seq(|s.transports|, i requires 0 <= i < |s.transports| => FromTransport(s.transports[i]))
      + [FromAdmin(AdminServerFor(s.addr))]
  }

  /** What every channel of the signal vector is examined to hold. */
  type Snapshot = seq<Option<Error>>

  /** One pass of the poll loop: the channels are tried in index order with
      a non-blocking receive, and the first one holding a value is taken. */
  function PollPass(snap: Snapshot): (r: Option<nat>)
    ensures r.Some? ==> r.value < |snap| && snap[r.value].Some?
    ensures r.Some? ==> forall j :: 0 <= j < r.value ==> snap[j].None?
    ensures r.None? <==> forall j :: 0 <= j < |snap| ==> snap[j].None?
    decreases |snap|
  {
    if snap == [] then None
    else if snap[0].Some? then Some(0)
    else match PollPass(snap[1..])
      case None => None
      case Some(k) => Some(k + 1)
  }

  /** Tie-break: of two channels ready in the same pass, the higher index
      is never chosen. */
  lemma LowerIndexWins(snap: Snapshot, i: nat, j: nat)
    requires i < j < |snap|
    requires snap[i].Some? && snap[j].Some?
    ensures PollPass(snap).Some?
    ensures PollPass(snap).value <= i < j
  {
  }

  /** The administrative channel, last in the vector, is chosen exactly
      when no registered transport's channel holds a value and it does. */
  lemma AdminExaminedLast(s: Server, snap: Snapshot)
    requires |snap| == AdminIndex(s) + 1
    ensures PollPass(snap) == Some(AdminIndex(s)) <==>
      (forall j :: 0 <= j < AdminIndex(s) ==> snap[j].None?) && snap[AdminIndex(s)].Some?
  {
  }

  /** What the environment does to each source once it is started. */
  datatype Environment = Environment(transports: seq<StartEnv>, admin: Error)

  /** A snapshot agrees with the environment when every value it shows is
      the one the corresponding goroutine sends: a transport's single
      delivered value, or the administrative server's non-nil error. */
  predicate Agrees(s: Server, env: Environment, snap: Snapshot)
  {
    && |env.transports| == |s.transports|
    && |snap| == AdminIndex(s) + 1
    && (forall i :: 0 <= i < |s.transports| && snap[i].Some? ==>
          snap[i].value == Delivered(s.transports[i], env.transports[i]))
    && (snap[AdminIndex(s)].Some? ==> snap[AdminIndex(s)].value in AdminSignal(env.admin))
  }

  /** The value taken from the chosen channel is that source's outcome: a
      transport's listen error if it failed to listen, else its serve
      result; for the administrative server, its non-nil error. */
  lemma ChosenValueIsOutcome(s: Server, env: Environment, snap: Snapshot)
    requires Agrees(s, env, snap)
    requires PollPass(snap).Some?
    ensures var d := PollPass(snap).value;
      && (d < AdminIndex(s) && env.transports[d].listen != Nil ==>
            snap[d].value == env.transports[d].listen)
      && (d < AdminIndex(s) && env.transports[d].listen == Nil ==>
            snap[d].value == env.transports[d].serve)
      && (d == AdminIndex(s) ==> snap[d].value == env.admin && env.admin != Nil)
  {
  }

  /** A call of `Stop` made by the shutdown loop: the index of the
      transport and the error it returned, which the loop discards. */
  datatype StopCall = StopCall(index: nat, returned: Error)

  /** Some call in `calls` stopped transport `i`. */
  predicate Stopped(calls: seq<StopCall>, i: nat)
  {
    exists j :: 0 <= j < |calls| && calls[j].index == i
  }

  lemma StoppedKept(calls: seq<StopCall>, c: StopCall, i: nat)
    requires Stopped(calls, i)
    ensures Stopped(calls + [c], i)
  {
    var j :| 0 <= j < |calls| && calls[j].index == i;
    assert (calls + [c])[j] == calls[j];
  }

  /** The shutdown loop: every registered transport other than the one
      that died is stopped, one after another in registration order. The
      administrative server is not among the registered transports, so it
      is never stopped. `shutdown[i]` is what `Shutdown` would return for
      transport `i` if it is an HTTP transport. */
  method StopSurvivors(transports: seq<Transport>, died: int, shutdown: seq<Error>)
    returns (calls: seq<StopCall>)
    requires |shutdown| == |transports|
    ensures forall j :: 0 <= j < |calls| ==> calls[j].index < |transports| && calls[j].index != died
    ensures forall j, k :: 0 <= j < k < |calls| ==> calls[j].index < calls[k].index
    ensures forall i: nat :: i < |transports| && i != died ==> Stopped(calls, i)
    ensures |calls| == if 0 <= died < |transports| then |transports| - 1 else |transports|
    ensures forall j :: 0 <= j < |calls| ==>
      calls[j].returned == Stop(transports[calls[j].index], shutdown[calls[j].index])
  {
    calls := [];
    var offset := 0;
    while offset < |transports|
      invariant 0 <= offset <= |transports|
      invariant forall j :: 0 <= j < |calls| ==> calls[j].index < offset && calls[j].index != died
      invariant forall j, k :: 0 <= j < k < |calls| ==> calls[j].index < calls[k].index
      invariant forall i: nat :: i < offset && i != died ==> Stopped(calls, i)
      invariant |calls| == if 0 <= died < offset then offset - 1 else offset
      invariant forall j :: 0 <= j < |calls| ==>
        calls[j].returned == Stop(transports[calls[j].index], shutdown[calls[j].index])
    {
      if offset != died {
        var c := StopCall(offset, Stop(transports[offset], shutdown[offset]));
        forall i: nat | i < offset && i != died
          ensures Stopped(calls + [c], i)
        {
          StoppedKept(calls, c, i);
        }
        calls := calls + [c];
        assert calls[|calls| - 1].index == offset;
      }
      offset := offset + 1;
    }
  }

  /** `Run` after the transports are started: poll pass after poll pass
      until one finds a ready channel, then stop the survivors and deliver
      the value taken from the channel of the one that died. `round` is the
      pass that found it. The errors `Stop` returns play no part in the
      result. */
  method Run(s: Server, env: Environment, snapshots: seq<Snapshot>, shutdown: seq<Error>)
    returns (died: int, round: nat, result: Option<Error>, stops: seq<StopCall>)
    requires |shutdown| == |s.transports|
    requires |env.transports| == |s.transports|
    requires forall k :: 0 <= k < |snapshots| ==> Agrees(s, env, snapshots[k])
    ensures -1 <= died <= AdminIndex(s)
    ensures died == -1 <==> result.None?
    ensures died == -1 ==> stops == []
    ensures died == -1 ==> forall k :: 0 <= k < |snapshots| ==> PollPass(snapshots[k]).None?
    ensures died != -1 ==>
      && round < |snapshots|
      && PollPass(snapshots[round]) == Some(died)
      && (forall k :: 0 <= k < round ==> PollPass(snapshots[k]).None?)
      && result == Some(snapshots[round][died].value)
    ensures 0 <= died < AdminIndex(s) ==>
      result == Some(Delivered(s.transports[died], env.transports[died]))
    ensures died == AdminIndex(s) ==> result == Some(env.admin) && env.admin != Nil
    ensures died != -1 ==>
      && (forall j :: 0 <= j < |stops| ==> stops[j].index < AdminIndex(s) && stops[j].index != died)
      && (forall j, k :: 0 <= j < k < |stops| ==> stops[j].index < stops[k].index)
      && (forall i: nat :: i < AdminIndex(s) && i != died ==> Stopped(stops, i))
    ensures died == AdminIndex(s) ==> |stops| == AdminIndex(s)
    ensures 0 <= died < AdminIndex(s) ==> |stops| == AdminIndex(s) - 1
    ensures forall j :: 0 <= j < |stops| ==>
      stops[j].index < |s.transports| &&
      stops[j].returned == Stop(s.transports[stops[j].index], shutdown[stops[j].index])
  {
    died := -1;
    round := 0;
    result := None;
    stops := [];
    var transportErr := Nil;
    var k := 0;
    while died == -1 && k < |snapshots|
      invariant 0 <= k <= |snapshots|
      invariant -1 <= died <= AdminIndex(s)
      invariant died == -1 ==> forall j :: 0 <= j < k ==> PollPass(snapshots[j]).None?
      invariant died != -1 ==>
        && round < k
        && PollPass(snapshots[round]) == Some(died)
        && (forall j :: 0 <= j < round ==> PollPass(snapshots[j]).None?)
        && transportErr == snapshots[round][died].value
    {
      var pass := PollPass(snapshots[k]);
      if pass.Some? {
        died := pass.value;
        round := k;
        transportErr := snapshots[k][died].value;
      }
      k := k + 1;
    }
    if died != -1 {
      ChosenValueIsOutcome(s, env, snapshots[round]);
      stops := StopSurvivors(s.transports, died, shutdown);
      result := Some(transportErr);
    }
  }
}
