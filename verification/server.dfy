/** Construction of a supervisor: `New` starts from the defaults, applies
    the options in order, stops at the first one that returns an error, and
    otherwise builds the server from the final configuration. */
module Servers {
  import opened Wrappers
  import opened Transports
  import opened Options

  /** Opaque stand-in for the `*healthz.Healthz` aggregator, recording what
      it was constructed from. */
  datatype Healthz = Healthz(meta: map<string, string>, components: seq<Component>)

  /** A supervisor: the internal server's address, the registered
      transports in registration order, and the health aggregator. */
  datatype Server = Server(addr: string, transports: seq<Transport>, healthz: Healthz)

  /** The option loop of `New`: each option runs on the configuration the
      previous ones left, and the first non-nil error ends the loop. */
  function ApplyAll(c: Config, opts: seq<ConfigOption>): (r: Result<Config, Error>)
    ensures r.Failure? ==> r.error != Nil
    decreases |opts|
  {
    if opts == [] then Success(c)
    else
      var s := Apply(opts[0], c);
      if s.err != Nil then Failure(s.err) else ApplyAll(s.config, opts[1..])
  }

  /** `New`: the server built from the folded configuration, or the error
      of the first option that failed. */
  function New(opts: seq<ConfigOption>): (r: Result<Server, Error>)
    ensures r.Failure? <==> ApplyAll(Defaults(), opts).Failure?
    ensures r.Failure? ==> r.error == ApplyAll(Defaults(), opts).error && r.error != Nil
    ensures r.Success? ==>
      var c := ApplyAll(Defaults(), opts).value;
      && r.value.addr == c.addr
      && r.value.transports == c.transports
      && r.value.healthz == Healthz(c.meta, c.components)
  {
    match ApplyAll(Defaults(), opts)
    case Failure(e) => Failure(e)
    case Success(c) => Success(Server(c.addr, c.transports, Healthz(c.meta, c.components)))
  }

  /** A call `New(o1, ..., on)` whose arguments are option-constructor
      calls: Go evaluates the arguments left to right before `New` runs, so
      the first constructor that panics aborts the call and `New` never
      sees any option. */
  function NewCall(args: seq<Panicking<ConfigOption>>): (r: Panicking<Result<Server, Error>>)
    ensures r.Panicked? <==> exists i :: 0 <= i < |args| && args[i].Panicked?
    ensures r.Panicked? ==>
      exists i ::
        && 0 <= i < |args|
        && args[i] == Panicked(r.message)
        && forall j :: 0 <= j < i ==> args[j].Returned?
    ensures r.Returned? ==> r.value == New(OptionValues(args))
    decreases |args|
  {
    if args == [] then Returned(New([]))
    else match args[0]
      case Panicked(m) => Panicked(m)
      case Returned(o) =>
        match NewCall(args[1..])
        case Panicked(m) => Panicked(m)
        case Returned(_) => Returned(New(OptionValues(args)))
  }

  /** The options of a call none of whose arguments panicked. */
  function OptionValues(args: seq<Panicking<ConfigOption>>): (opts: seq<ConfigOption>)
    requires forall i :: 0 <= i < |args| ==> args[i].Returned?
    ensures |opts| == |args|
    ensures forall i :: 0 <= i < |args| ==> opts[i] == args[i].value
  {
    seq(|args|, i requires 0 <= i < |args| => args[i].value)
  }

  /** Without options, `New` yields the default address, no transports and
      an aggregator with no components and no metadata. */
  lemma NewWithoutOptions()
    ensures New([]) == Success(Server(DefaultAddr, [], Healthz(map[], [])))
  {
  }

  /** Folding over a concatenation is folding over the first part, then,
      unless it failed, over the second from where the first left off. */
  lemma {:induction false} ApplyAllAppend(c: Config, a: seq<ConfigOption>, b: seq<ConfigOption>)
    ensures ApplyAll(c, a + b) ==
      match ApplyAll(c, a)
      case Failure(e) => Failure(e)
      case Success(c') => ApplyAll(c', b)
    decreases |a|
  {
    if a == [] {
      assert a + b == b;
    } else {
      assert (a + b)[0] == a[0];
      assert (a + b)[1..] == a[1..] + b;
      var s := Apply(a[0], c);
      if s.err == Nil {
        ApplyAllAppend(s.config, a[1..], b);
      }
    }
  }

  /** Short-circuit: when the options before position `i` succeed and the
      option at `i` fails, the fold returns that option's error, and no
      option after `i`, whatever it is, is ever applied. */
  lemma FirstErrorStopsFold(c: Config, opts: seq<ConfigOption>, i: nat, rest: seq<ConfigOption>)
    requires i < |opts|
    requires ApplyAll(c, opts[..i]).Success?
    requires Apply(opts[i], ApplyAll(c, opts[..i]).value).err != Nil
    ensures ApplyAll(c, opts) == Failure(Apply(opts[i], ApplyAll(c, opts[..i]).value).err)
    ensures ApplyAll(c, opts[..i + 1] + rest) == ApplyAll(c, opts)
  {
    var e := Apply(opts[i], ApplyAll(c, opts[..i]).value).err;
    ApplyAllAppend(c, opts[..i], [opts[i]]);
    assert opts[..i] + [opts[i]] == opts[..i + 1];
    assert ApplyAll(c, opts[..i + 1]) == Failure(e);
    ApplyAllAppend(c, opts[..i + 1], opts[i + 1..]);
    assert opts[..i + 1] + opts[i + 1..] == opts;
    ApplyAllAppend(c, opts[..i + 1], rest);
  }

  /** The converse of the short-circuit: a fold that fails failed at some
      option, every option before which succeeded, and returns exactly that
      option's error. So a fold in which every option succeeds succeeds. */
  lemma {:induction false} FoldFailsAtFirstFailing(c: Config, opts: seq<ConfigOption>)
    requires ApplyAll(c, opts).Failure?
    ensures exists i ::
      && 0 <= i < |opts|
      && ApplyAll(c, opts[..i]).Success?
      && Apply(opts[i], ApplyAll(c, opts[..i]).value).err == ApplyAll(c, opts).error
    decreases |opts|
  {
    var s := Apply(opts[0], c);
    if s.err != Nil {
      assert opts[..0] == [];
      assert ApplyAll(c, opts[..0]) == Success(c);
    } else {
      var rest := opts[1..];
      FoldFailsAtFirstFailing(s.config, rest);
      var i :| 0 <= i < |rest| && ApplyAll(s.config, rest[..i]).Success? &&
        Apply(rest[i], ApplyAll(s.config, rest[..i]).value).err == ApplyAll(s.config, rest).error;
      assert opts[..i + 1][0] == opts[0];
      assert opts[..i + 1][1..] == rest[..i];
      assert ApplyAll(c, opts[..i + 1]) == ApplyAll(s.config, rest[..i]);
      assert opts[i + 1] == rest[i];
    }
  }

  /** The `New` of a configuration whose `i`-th option is the first to fail
      returns that option's error and no server. */
  lemma NewReturnsFirstError(opts: seq<ConfigOption>, i: nat)
    requires i < |opts|
    requires ApplyAll(Defaults(), opts[..i]).Success?
    requires Apply(opts[i], ApplyAll(Defaults(), opts[..i]).value).err != Nil
    ensures New(opts) == Failure(Apply(opts[i], ApplyAll(Defaults(), opts[..i]).value).err)
  {
    FirstErrorStopsFold(Defaults(), opts, i, []);
  }

  // Reference definitions of what a sequence of built-in options leaves in
  // each field, read off the sequence from its end.

  /** The address of the last address option, or `fallback` if there is none. */
  function LastAddr(opts: seq<ConfigOption>, fallback: string): string
    decreases |opts|
  {
    if opts == [] then fallback
    else if opts[|opts| - 1].SetInternalAddr? then opts[|opts| - 1].addr
    else LastAddr(opts[..|opts| - 1], fallback)
  }

  /** The transports the options register, in option order. */
  function TransportsOf(opts: seq<ConfigOption>): seq<Transport>
    decreases |opts|
  {
    if opts == [] then []
    else
      var o := opts[|opts| - 1];
      TransportsOf(opts[..|opts| - 1]) + (if o.AddTransport? then [o.transport] else [])
  }

  /** The health components the options add, in option order. */
  function ComponentsOf(opts: seq<ConfigOption>): seq<Component>
    decreases |opts|
  {
    if opts == [] then []
    else
      var o := opts[|opts| - 1];
      ComponentsOf(opts[..|opts| - 1]) + (if o.AddComponent? then [o.component] else [])
  }

  /** The value of the last metadata option for key `k`, or `fallback` if
      no option sets `k`. */
  function MetaValue(opts: seq<ConfigOption>, k: string, fallback: Option<string>): Option<string>
    decreases |opts|
  {
    if opts == [] then fallback
    else
      var o := opts[|opts| - 1];
      if o.AddMetadata? && o.key == k then Some(o.value)
      else MetaValue(opts[..|opts| - 1], k, fallback)
  }

  /** The fields a fold of built-in options produces, in terms of the
      reference definitions above. */
  ghost predicate FoldedFrom(c: Config, opts: seq<ConfigOption>, r: Config)
  {
    && r.addr == LastAddr(opts, c.addr)
    && r.transports == c.transports + TransportsOf(opts)
    && r.components == c.components + ComponentsOf(opts)
    && forall k :: Lookup(r.meta, k) == MetaValue(opts, k, Lookup(c.meta, k))
  }

  /** Built-in options never make the fold fail, and the result is: the
      last address wins, transports and components are appended in option
      order, and each metadata key holds the value of its last setting. */
  lemma {:induction false} BuiltInFold(c: Config, opts: seq<ConfigOption>)
    requires forall i :: 0 <= i < |opts| ==> BuiltIn(opts[i])
    ensures ApplyAll(c, opts).Success?
    ensures FoldedFrom(c, opts, ApplyAll(c, opts).value)
    decreases |opts|
  {
    if opts == [] {
      assert c.transports + [] == c.transports;
      assert c.components + [] == c.components;
    } else {
      var init := opts[..|opts| - 1];
      var o := opts[|opts| - 1];
      assert init + [o] == opts;
      BuiltInFold(c, init);
      var mid := ApplyAll(c, init).value;
      ApplyAllAppend(c, init, [o]);
      assert [o][1..] == [];
      var s := Apply(o, mid);
      assert ApplyAll(c, opts) == Success(s.config);
      var r := s.config;
      assert r.transports == c.transports + TransportsOf(opts) by {
        assert c.transports + TransportsOf(init) + (if o.AddTransport? then [o.transport] else [])
          == c.transports + (TransportsOf(init) + (if o.AddTransport? then [o.transport] else []));
      }
      assert r.components == c.components + ComponentsOf(opts) by {
        assert c.components + ComponentsOf(init) + (if o.AddComponent? then [o.component] else [])
          == c.components + (ComponentsOf(init) + (if o.AddComponent? then [o.component] else []));
      }
      forall k
        ensures Lookup(r.meta, k) == MetaValue(opts, k, Lookup(c.meta, k))
      {
        assert Lookup(mid.meta, k) == MetaValue(init, k, Lookup(c.meta, k));
      }
    }
  }

  /** `New` over built-in options only always succeeds, and the server it
      builds has the last configured address (`":8001"` if none), the
      registered transports in order, and the components and metadata the
      options supplied. */
  lemma NewWithBuiltInOptions(opts: seq<ConfigOption>)
    requires forall i :: 0 <= i < |opts| ==> BuiltIn(opts[i])
    ensures New(opts).Success?
    ensures New(opts).value.addr == LastAddr(opts, DefaultAddr)
    ensures New(opts).value.transports == TransportsOf(opts)
    ensures New(opts).value.healthz.components == ComponentsOf(opts)
    ensures forall k :: Lookup(New(opts).value.healthz.meta, k) == MetaValue(opts, k, None)
  {
    BuiltInFold(Defaults(), opts);
    assert [] + TransportsOf(opts) == TransportsOf(opts);
    assert [] + ComponentsOf(opts) == ComponentsOf(opts);
  }

  /** Of several address options the last one wins, whatever else lies
      between them. */
  lemma LastAddressWins(c: Config, opts: seq<ConfigOption>, a: string, rest: seq<ConfigOption>)
    requires forall i :: 0 <= i < |opts| ==> BuiltIn(opts[i])
    requires forall i :: 0 <= i < |rest| ==> BuiltIn(rest[i]) && !rest[i].SetInternalAddr?
    ensures ApplyAll(c, opts + [WithInternalServerAddr(a)] + rest).Success?
    ensures ApplyAll(c, opts + [WithInternalServerAddr(a)] + rest).value.addr == a
  {
    var all := opts + [WithInternalServerAddr(a)] + rest;
    assert forall i :: 0 <= i < |all| ==> BuiltIn(all[i]) by {
      forall i | 0 <= i < |all|
        ensures BuiltIn(all[i])
      {
        if i < |opts| { assert all[i] == opts[i]; }
        else if i > |opts| { assert all[i] == rest[i - |opts| - 1]; }
      }
    }
    BuiltInFold(c, all);
    LastAddrSkipsOthers(opts + [WithInternalServerAddr(a)], rest, c.addr);
  }

  lemma {:induction false} LastAddrSkipsOthers(front: seq<ConfigOption>, rest: seq<ConfigOption>, fallback: string)
    requires forall i :: 0 <= i < |rest| ==> !rest[i].SetInternalAddr?
    ensures LastAddr(front + rest, fallback) == LastAddr(front, fallback)
    decreases |rest|
  {
    if rest == [] {
      assert front + rest == front;
    } else {
      var all := front + rest;
      assert all[..|all| - 1] == front + rest[..|rest| - 1];
      assert all[|all| - 1] == rest[|rest| - 1];
      LastAddrSkipsOthers(front, rest[..|rest| - 1], fallback);
    }
  }
}
