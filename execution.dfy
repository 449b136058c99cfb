/**
 * What a compiled run action does. The context is a log of events; a well-behaved unit logs
 * its entry, runs its continuation and logs its exit, and a core logs that it ran. Under
 * these behaviours the run of a compiled definition is the onion of its units around the core.
 */
module Execution {
  import opened Wrappers
  import opened Definitions
  import opened BuilderHelper

  /** One entry of the log a run produces. */
  datatype Event = Enter(unit: Descriptor) | Exit(unit: Descriptor) | CoreRan(id: CoreId)

  type Log = seq<Event>

  /** Every closure, instance and core of `rt` behaves like the logging units of the tests:
      a unit appends its entry, runs its continuation, then appends its exit. */
  ghost predicate WellBehaved(rt: Runtime<Log>) {
    && (forall id, log, k :: rt.closureBody(id)(log, k) == k(log + [Enter(Closure(id))]) + [Exit(Closure(id))])
    && (forall inst, log, k :: rt.instanceBody(inst, log, k) == k(log + [Enter(TypeRef(inst.tag))]) + [Exit(TypeRef(inst.tag))])
    && (forall id, log :: rt.coreBody(id)(log) == log + [CoreRan(id)])
  }

  /** The onion of `units` around `middle`: the first unit enters first and exits last. */
  function Onion(units: seq<Descriptor>, middle: seq<Event>): seq<Event>
    decreases |units|
  {
    if units == [] then middle else [Enter(units[0])] + Onion(units[1..], middle) + [Exit(units[0])]
  }

  /** What the innermost continuation logs. */
  function CoreEvents(core: Option<CoreId>): seq<Event> {
    match core
    case Some(id) => [CoreRan(id)]
    case None => []
  }

  /** The entries of all units, in order. */
  function Enters(units: seq<Descriptor>): (r: seq<Event>)
    ensures |r| == |units| && forall i :: 0 <= i < |units| ==> r[i] == Enter(units[i])
  {
    seq(|units|, i requires 0 <= i < |units| => Enter(units[i]))
  }

  /** The exits of all units, last unit first. */
  function ExitsReversed(units: seq<Descriptor>): (r: seq<Event>)
    ensures |r| == |units| && forall i :: 0 <= i < |units| ==> r[i] == Exit(units[|units| - 1 - i])
  {
    seq(|units|, i requires 0 <= i < |units| => Exit(units[|units| - 1 - i]))
  }

  /** The onion, flattened: every entry in insertion order, the middle, every exit in reverse. */
  lemma {:induction false} OnionIsFlat(units: seq<Descriptor>, middle: seq<Event>)
    ensures Onion(units, middle) == Enters(units) + middle + ExitsReversed(units)
    decreases |units|
  {
    if units != [] {
      var rest := units[1..];
      OnionIsFlat(rest, middle);
      assert Enters(units) == [Enter(units[0])] + Enters(rest);
      assert ExitsReversed(units) == ExitsReversed(rest) + [Exit(units[0])];
    }
  }

  /** Under well-behaved units, a descriptor that binds becomes one layer of the onion: it logs
      its entry, runs the continuation, then logs its exit. */
  lemma BoundStageWraps(rt: Runtime<Log>, d: Descriptor, ps: Params, next: Log -> Log, ignoreInvalid: bool)
    requires WellBehaved(rt) && Binds(rt, d, ps)
    ensures var bound := BuildInvokeAction(rt, d, ps, next, ignoreInvalid);
      && bound.Success? && bound.value.Some?
      && forall log :: bound.value.value(log) == next(log + [Enter(d)]) + [Exit(d)]
  {
    var bound := BuildInvokeAction(rt, d, ps, next, ignoreInvalid);
    if d.TypeRef? {
      var inst :| InstanceFor(rt, inst, d.tag, ps) && forall c :: bound.value.value(c) == rt.instanceBody(inst, c, next);
    }
  }

  /** Under well-behaved units, the chain of `ds` around a terminal that logs `middle` logs
      the onion of the descriptors that bind around `middle`. */
  lemma {:induction false} ChainIsOnion(rt: Runtime<Log>, ds: seq<Descriptor>, ps: seq<Params>, terminal: Log -> Log, middle: seq<Event>, ignoreInvalid: bool)
    requires WellBehaved(rt) && |ds| == |ps|
    requires forall log :: terminal(log) == log + middle
    requires Chain(rt, ds, ps, terminal, ignoreInvalid).Success?
    ensures forall log :: Chain(rt, ds, ps, terminal, ignoreInvalid).value(log) == log + Onion(Bound(rt, ds, ps).0, middle)
    decreases |ds|
  {
    if ds != [] {
      var inner := Chain(rt, ds[1..], ps[1..], terminal, ignoreInvalid);
      ChainIsOnion(rt, ds[1..], ps[1..], terminal, middle, ignoreInvalid);
      var rest := Bound(rt, ds[1..], ps[1..]).0;
      var bound := BuildInvokeAction(rt, ds[0], ps[0], inner.value, ignoreInvalid);
      var run := Chain(rt, ds, ps, terminal, ignoreInvalid).value;
      if Binds(rt, ds[0], ps[0]) {
        var units := [ds[0]] + rest;
        assert Bound(rt, ds, ps).0 == units;
        assert units[0] == ds[0] && units[1..] == rest;
        assert Onion(units, middle) == [Enter(ds[0])] + Onion(rest, middle) + [Exit(ds[0])];
        BoundStageWraps(rt, ds[0], ps[0], inner.value, ignoreInvalid);
        forall log ensures run(log) == log + Onion(units, middle) {
          assert run(log) == inner.value(log + [Enter(ds[0])]) + [Exit(ds[0])];
        }
      } else {
        assert Bound(rt, ds, ps).0 == rest;
        assert bound == Success(None);
      }
    }
  }

  /** The onion order of a compiled definition: with well-behaved units, running the compiled
      action appends, to whatever the log held, the entries of the binding units in insertion
      order, then the core's event (nothing without a core), then the exits in reverse. */
  lemma CompiledRunIsOnion(rt: Runtime<Log>, core: Option<CoreId>, ds: seq<Descriptor>, ps: seq<Params>, options: BuildOptions)
    requires WellBehaved(rt) && |ds| == |ps|
    requires Compile(rt, core, ds, ps, options).Success?
    ensures forall log ::
              Compile(rt, core, ds, ps, options).value(log) ==
              log + Enters(Bound(rt, ds, ps).0) + CoreEvents(core) + ExitsReversed(Bound(rt, ds, ps).0)
  {
    ChainIsOnion(rt, ds, ps, Terminal(rt, core), CoreEvents(core), options.ignoreInvalidMiddlewares);
    OnionIsFlat(Bound(rt, ds, ps).0, CoreEvents(core));
  }

  /** When every descriptor binds, every descriptor is a unit of the run. */
  lemma {:induction false} AllBound<C>(rt: Runtime<C>, ds: seq<Descriptor>, ps: seq<Params>)
    requires |ds| == |ps|
    requires forall i :: 0 <= i < |ds| ==> Binds(rt, ds[i], ps[i])
    ensures Bound(rt, ds, ps) == (ds, ps)
    decreases |ds|
  {
    if ds != [] {
      forall i | 0 <= i < |ds| - 1 ensures Binds(rt, ds[1..][i], ps[1..][i]) {
        assert ds[1..][i] == ds[i + 1] && ps[1..][i] == ps[i + 1];
      }
      AllBound(rt, ds[1..], ps[1..]);
      assert Binds(rt, ds[0], ps[0]);
      assert ds == [ds[0]] + ds[1..] && ps == [ps[0]] + ps[1..];
    }
  }

  /** With invalid middlewares not ignored, a successful compile binds every descriptor. */
  lemma StrictCompileBindsAll<C(!new)>(rt: Runtime<C>, core: Option<CoreId>, ds: seq<Descriptor>, ps: seq<Params>, options: BuildOptions)
    requires |ds| == |ps| && !options.ignoreInvalidMiddlewares
    requires Compile(rt, core, ds, ps, options).Success?
    ensures Bound(rt, ds, ps) == (ds, ps)
  {
    ChainSucceedsIff(rt, ds, ps, Terminal(rt, core), false);
    AllBound(rt, ds, ps);
  }

  // ---------------------------------------------------------------------------------------
  // The logging runtime of the tests
  // ---------------------------------------------------------------------------------------

  /** Every type has `InvokeAsync` returning `Task` and one constructor taking the
      continuation; types match only themselves; every unit and core logs. */
  function LogRuntime(): Runtime<Log> {
    Runtime(
      (t: TypeTag) => TypeInfo(Some(true), None, [[ContinuationType]]),
      (a: TypeTag, b: TypeTag) => a == b,
      (id: nat) => (log: Log, k: Log -> Log) => k(log + [Enter(Closure(id))]) + [Exit(Closure(id))],
      (inst: Instance, log: Log, k: Log -> Log) => k(log + [Enter(TypeRef(inst.tag))]) + [Exit(TypeRef(inst.tag))],
      (id: CoreId) => (log: Log) => log + [CoreRan(id)])
  }

  lemma LogRuntimeWellBehaved()
    ensures WellBehaved(LogRuntime())
  {
  }

  /** Every type of the logging runtime resolves without parameters. */
  lemma LogTypeResolves(tag: TypeTag)
    ensures Resolves(LogRuntime(), tag, None)
  {
    assert Matches(LogRuntime().assignable, LogRuntime().typeInfo(tag).constructors[0], [ContinuationType]);
  }

  /** `n` entries without a parameter array. */
  function NoParams(n: nat): (r: seq<Params>)
    ensures |r| == n && forall i :: 0 <= i < n ==> r[i] == None
  {
    seq(n, _ => None)
  }

  /** The logging runtime compiles any definition of closures and types without parameters,
      and the run logs every unit's entry, the core, then every exit in reverse. */
  lemma LogRunIsOnion(core: Option<CoreId>, ds: seq<Descriptor>, options: BuildOptions)
    requires forall i :: 0 <= i < |ds| ==> !ds[i].Unsupported?
    ensures Compile(LogRuntime(), core, ds, NoParams(|ds|), options).Success?
    ensures forall log ::
              Compile(LogRuntime(), core, ds, NoParams(|ds|), options).value(log) ==
              log + Enters(ds) + CoreEvents(core) + ExitsReversed(ds)
  {
    var rt := LogRuntime();
    var ps := NoParams(|ds|);
    forall i | 0 <= i < |ds| ensures Binds(rt, ds[i], ps[i]) {
      if ds[i].TypeRef? {
        LogTypeResolves(ds[i].tag);
      }
    }
    ChainSucceedsIff(rt, ds, ps, Terminal(rt, core), options.ignoreInvalidMiddlewares);
    AllBound(rt, ds, ps);
    LogRuntimeWellBehaved();
    CompiledRunIsOnion(rt, core, ds, ps, options);
  }

  /** The first test: two logging types around an inline closure and a core. */
  lemma BuildAndRunTrace()
    ensures var a, anon, b := TypeRef(UserType(1)), Closure(0), TypeRef(UserType(2));
      var run := Compile(LogRuntime(), Some(0), [a, anon, b], [None, None, None], BuildOptions(false));
      run.Success? &&
      run.value([]) == [Enter(a), Enter(anon), Enter(b), CoreRan(0), Exit(b), Exit(anon), Exit(a)]
  {
    var a, anon, b := TypeRef(UserType(1)), Closure(0), TypeRef(UserType(2));
    var ds := [a, anon, b];
    assert NoParams(|ds|) == [None, None, None];
    LogRunIsOnion(Some(0), ds, BuildOptions(false));
    assert Enters(ds) == [Enter(a), Enter(anon), Enter(b)];
    assert ExitsReversed(ds) == [Exit(b), Exit(anon), Exit(a)];
  }

  /** A logging runtime in which type 9 has no invoke method. */
  function RuntimeWithInvalid(): Runtime<Log> {
    LogRuntime().(typeInfo := (t: TypeTag) =>
      if t == UserType(9) then TypeInfo(None, None, [[ContinuationType]])
      else TypeInfo(Some(true), None, [[ContinuationType]]))
  }

  /** In that runtime types 1 and 2 bind without parameters and type 9 does not, for want of
      an invoke method. */
  lemma InvalidRuntimeBinds()
    ensures Binds(RuntimeWithInvalid(), TypeRef(UserType(1)), None)
    ensures Binds(RuntimeWithInvalid(), TypeRef(UserType(2)), None)
    ensures !InvokeMethodOk(RuntimeWithInvalid().typeInfo(UserType(9)))
    ensures !Binds(RuntimeWithInvalid(), TypeRef(UserType(9)), None)
  {
    var rt := RuntimeWithInvalid();
    assert Matches(rt.assignable, rt.typeInfo(UserType(1)).constructors[0], [ContinuationType]);
    assert Matches(rt.assignable, rt.typeInfo(UserType(2)).constructors[0], [ContinuationType]);
  }

  /** With `IgnoreInvalidMiddlewares`, a type without an invoke method is skipped and the
      remaining units and the core still run in order; without it, compiling fails. */
  lemma IgnoreInvalidSkipsUnit()
    ensures var a, bad, b := TypeRef(UserType(1)), TypeRef(UserType(9)), TypeRef(UserType(2));
      var ds, ps := [a, bad, b], [None, None, None];
      && Compile(RuntimeWithInvalid(), Some(0), ds, ps, BuildOptions(false)) == Failure(InvalidMiddleware(InvokeNotReturningTask))
      && Compile(RuntimeWithInvalid(), Some(0), ds, ps, BuildOptions(true)).Success?
      && Compile(RuntimeWithInvalid(), Some(0), ds, ps, BuildOptions(true)).value([]) ==
         [Enter(a), Enter(b), CoreRan(0), Exit(b), Exit(a)]
  {
    var rt := RuntimeWithInvalid();
    var a, bad, b := TypeRef(UserType(1)), TypeRef(UserType(9)), TypeRef(UserType(2));
    var ds: seq<Descriptor>, ps: seq<Params> := [a, bad, b], [None, None, None];
    InvalidRuntimeBinds();
    assert ds[1..] == [bad, b] && ps[1..] == [None, None];
    assert ds[2..] == [b] && ps[2..] == [None];
    assert Bound(rt, ds, ps).0 == [a, b] by {
      assert ds[3..] == [] && ps[3..] == [];
      assert Bound(rt, ds[2..], ps[2..]).0 == [b];
      assert Bound(rt, ds[1..], ps[1..]).0 == [b];
    }
    var e := InvalidMiddleware(InvokeNotReturningTask);
    assert Compile(rt, Some(0), ds, ps, BuildOptions(false)) == Failure(e) by {
      ChainSucceedsIff(rt, ds[2..], ps[2..], Terminal(rt, Some(0)), false);
      assert Chain(rt, ds[1..], ps[1..], Terminal(rt, Some(0)), false) == Failure(e);
      ChainFailsFrom(rt, ds, ps, Terminal(rt, Some(0)), false, 1, e);
    }
    assert Compile(rt, Some(0), ds, ps, BuildOptions(true)).Success? by {
      ChainSucceedsIff(rt, ds, ps, Terminal(rt, Some(0)), true);
    }
    assert WellBehaved(rt) by {
      assert rt.closureBody == LogRuntime().closureBody && rt.instanceBody == LogRuntime().instanceBody;
    }
    CompiledRunIsOnion(rt, Some(0), ds, ps, BuildOptions(true));
    assert Enters([a, b]) == [Enter(a), Enter(b)] && ExitsReversed([a, b]) == [Exit(b), Exit(a)];
  }
}
