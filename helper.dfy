/**
 * The compiler of a pipeline definition: method lookup on a middleware type, constructor
 * matching, binding one descriptor to its continuation, and the fold from the last
 * descriptor to the first around the core action.
 */
module BuilderHelper {
  import opened Wrappers
  import opened Definitions

  // ---------------------------------------------------------------------------------------
  // Method lookup
  // ---------------------------------------------------------------------------------------

  /** The located method and the error text, as the lookup returns them through its result
      and its out parameter. */
  datatype InvokeLookup = InvokeLookup(located: Option<MethodInfo>, error: Option<InvalidReason>)

  /** A type is usable as a middleware when the preferred method exists and returns `Task`:
      `InvokeAsync(TParam)` if the type has one, otherwise `Invoke(TParam)`. */
  predicate InvokeMethodOk(info: TypeInfo) {
    if info.invokeAsync.Some? then info.invokeAsync.value else info.invoke == Some(true)
  }

  /**
   * Looks up `InvokeAsync(TParam)`, falling back to `Invoke(TParam)`. A missing method first
   * records the "no method" text, which the return-type check then overwrites, because a
   * missing method does not return `Task` either.
   */
  function GetInvokeMethod(tag: TypeTag, info: TypeInfo): (r: InvokeLookup)
    ensures r.error.None? <==> InvokeMethodOk(info)
    ensures r.error.None? ==> r.located.Some? && r.located.value.returnsTask
    ensures info.invokeAsync.Some? ==> r.located == Some(MethodInfo(InvokeAsync, info.invokeAsync.value))
    ensures info.invokeAsync.None? && info.invoke.Some? ==> r.located == Some(MethodInfo(Invoke, info.invoke.value))
    ensures info.invokeAsync.None? && info.invoke.None? ==> r.located.None?
    ensures r.error.Some? ==> r.error == Some(InvokeNotReturningTask)
  {
    var invoke :=
      if info.invokeAsync.Some? then Some(MethodInfo(InvokeAsync, info.invokeAsync.value))
      else if info.invoke.Some? then Some(MethodInfo(Invoke, info.invoke.value))
      else None;
    var noMethod := if invoke.None? then Some(NoInvokeMethod(tag)) else None;
    var error := if !(invoke.Some? && invoke.value.returnsTask) then Some(InvokeNotReturningTask) else noMethod;
    InvokeLookup(invoke, error)
  }

  // ---------------------------------------------------------------------------------------
  // Constructor matching
  // ---------------------------------------------------------------------------------------

  /** A constructor accepts arguments of the given runtime types, position by position. */
  predicate Matches(assignable: (TypeTag, TypeTag) -> bool, ctor: seq<TypeTag>, argTypes: seq<TypeTag>) {
    |ctor| == |argTypes| && forall i :: 0 <= i < |ctor| ==> assignable(argTypes[i], ctor[i])
  }

  /** Constructor lookup by argument types: the first constructor, in the order the runtime
      considers them, that accepts the arguments. */
  function FindConstructor(assignable: (TypeTag, TypeTag) -> bool, ctors: seq<seq<TypeTag>>, argTypes: seq<TypeTag>): (r: Option<nat>)
    ensures r.Some? ==> r.value < |ctors| && Matches(assignable, ctors[r.value], argTypes)
    ensures r.Some? ==> forall j :: 0 <= j < r.value ==> !Matches(assignable, ctors[j], argTypes)
    ensures r.None? <==> forall j :: 0 <= j < |ctors| ==> !Matches(assignable, ctors[j], argTypes)
    decreases |ctors|
  {
    if ctors == [] then None
    else if Matches(assignable, ctors[0], argTypes) then Some(0)
    else
      match FindConstructor(assignable, ctors[1..], argTypes)
      case Some(i) => Some(i + 1)
      case None => None
  }

  /** The runtime types of explicit parameters, none of them null. */
  function TypesOf(values: seq<Param>): (r: seq<TypeTag>)
    requires Null !in values
    ensures |r| == |values| && forall i :: 0 <= i < |values| ==> r[i] == values[i].typ
  {
    seq(|values|, i requires 0 <= i < |values| => values[i].typ)
  }

  /** Explicit parameters as constructor arguments. */
  function ArgsOf(values: seq<Param>): (r: seq<Arg>)
    ensures |r| == |values| && forall i :: 0 <= i < |values| ==> r[i] == ParamArg(values[i])
  {
    seq(|values|, i requires 0 <= i < |values| => ParamArg(values[i]))
  }

  /** The runtime type of a constructor argument. A null parameter has no runtime type;
      `BuildInstance` rejects parameter arrays holding one before any constructor is matched,
      so the value given for it here is never consulted. */
  function ArgType(a: Arg): TypeTag {
    match a
    case NextArg => ContinuationType
    case ParamArg(p) => if p.Obj? then p.typ else ContinuationType
  }

  function ArgTypes(args: seq<Arg>): (r: seq<TypeTag>)
    ensures |r| == |args| && forall i :: 0 <= i < |args| ==> r[i] == ArgType(args[i])
  {
    seq(|args|, i requires 0 <= i < |args| => ArgType(args[i]))
  }

  /** A chosen constructor and the arguments it is invoked with. */
  datatype Construction = Construction(ctor: seq<TypeTag>, args: seq<Arg>)

  /** Some constructor accepts the argument types. */
  ghost predicate SomeMatch(assignable: (TypeTag, TypeTag) -> bool, ctors: seq<seq<TypeTag>>, argTypes: seq<TypeTag>) {
    exists j :: 0 <= j < |ctors| && Matches(assignable, ctors[j], argTypes)
  }

  /** Reference definition of when a type can be instantiated for one descriptor entry:
      without a parameter array, some constructor takes just the continuation; with one, no
      parameter is null and some constructor takes the continuation first or last. */
  ghost predicate Constructible(assignable: (TypeTag, TypeTag) -> bool, ctors: seq<seq<TypeTag>>, ps: Params) {
    match ps
    case None => SomeMatch(assignable, ctors, [ContinuationType])
    case Some(values) =>
      Null !in values &&
      (SomeMatch(assignable, ctors, [ContinuationType] + TypesOf(values)) ||
       SomeMatch(assignable, ctors, TypesOf(values) + [ContinuationType]))
  }

  /**
   * Builds the instance of a middleware type for one entry: with no parameter array only the
   * `(next)` constructor is tried; a null parameter fails; otherwise `[next] + params` is tried
   * before `params + [next]` and the first that a constructor accepts wins.
   */
  function BuildInstance(tag: TypeTag, info: TypeInfo, assignable: (TypeTag, TypeTag) -> bool, ps: Params): (r: Result<Construction, InvalidReason>)
    ensures r.Success? <==> Constructible(assignable, info.constructors, ps)
    ensures r.Failure? ==> r.error == NoSuitableConstructor(tag)
    ensures r.Success? ==> r.value.ctor in info.constructors && Matches(assignable, r.value.ctor, ArgTypes(r.value.args))
    ensures r.Success? && ps.None? ==> r.value.args == [NextArg]
    ensures r.Success? && ps.Some? ==>
      if SomeMatch(assignable, info.constructors, [ContinuationType] + TypesOf(ps.value))
      then r.value.args == [NextArg] + ArgsOf(ps.value)
      else r.value.args == ArgsOf(ps.value) + [NextArg]
  {
    var ctors := info.constructors;
    match ps
    case None =>
      var args := [NextArg];
      assert ArgTypes(args) == [ContinuationType];
      (match FindConstructor(assignable, ctors, [ContinuationType])
       case Some(i) => Success(Construction(ctors[i], args))
       case None => Failure(NoSuitableConstructor(tag)))
    case Some(values) =>
      if Null in values then Failure(NoSuitableConstructor(tag))
      else
        var nextFirst := [NextArg] + ArgsOf(values);
        var nextLast := ArgsOf(values) + [NextArg];
        assert ArgTypes(nextFirst) == [ContinuationType] + TypesOf(values);
        assert ArgTypes(nextLast) == TypesOf(values) + [ContinuationType];
        match FindConstructor(assignable, ctors, [ContinuationType] + TypesOf(values))
        case Some(i) => Success(Construction(ctors[i], nextFirst))
        case None =>
          match FindConstructor(assignable, ctors, TypesOf(values) + [ContinuationType])
          case Some(i) => Success(Construction(ctors[i], nextLast))
          case None => Failure(NoSuitableConstructor(tag))
  }

  // ---------------------------------------------------------------------------------------
  // Binding one descriptor
  // ---------------------------------------------------------------------------------------

  /** A type descriptor resolves: its invoke method is usable and it can be constructed. */
  ghost predicate Resolves<C>(rt: Runtime<C>, tag: TypeTag, ps: Params) {
    InvokeMethodOk(rt.typeInfo(tag)) && Constructible(rt.assignable, rt.typeInfo(tag).constructors, ps)
  }

  /** A descriptor contributes a stage to the chain: a closure, or a type that resolves. */
  ghost predicate Binds<C>(rt: Runtime<C>, d: Descriptor, ps: Params) {
    d.Closure? || (d.TypeRef? && Resolves(rt, d.tag, ps))
  }

  /** Compiling a descriptor does not throw: it binds, or it is a type that is skipped. */
  ghost predicate Bindable<C>(rt: Runtime<C>, d: Descriptor, ps: Params, ignoreInvalid: bool) {
    Binds(rt, d, ps) || (d.TypeRef? && ignoreInvalid)
  }

  /** The instance a resolving type descriptor gets for its own entry: its own type, its
      preferred invoke method, a constructor accepting its arguments, and its own parameters
      with the continuation first if a constructor takes that order, else last. */
  ghost predicate InstanceFor<C>(rt: Runtime<C>, inst: Instance, tag: TypeTag, ps: Params) {
    var info := rt.typeInfo(tag);
    && inst.tag == tag
    && Some(inst.invokeMethod) == GetInvokeMethod(tag, info).located
    && inst.ctor in info.constructors
    && Matches(rt.assignable, inst.ctor, ArgTypes(inst.args))
    && (ps.None? ==> inst.args == [NextArg])
    && (ps.Some? && Null !in ps.value ==>
          if SomeMatch(rt.assignable, info.constructors, [ContinuationType] + TypesOf(ps.value))
          then inst.args == [NextArg] + ArgsOf(ps.value)
          else inst.args == ArgsOf(ps.value) + [NextArg])
  }

  /**
   * Binds one descriptor to the continuation built so far. A closure is called with the
   * context and that continuation. A type gets its own instance, constructed with the
   * continuation, whose invoke method is called with the context. A type that fails to
   * resolve yields no stage (`None`) when invalid middlewares are ignored and an
   * `InvalidMiddleware` error otherwise; any other descriptor is always `NotSupported`.
   */
  function BuildInvokeAction<C(!new)>(rt: Runtime<C>, d: Descriptor, ps: Params, next: C -> C, ignoreInvalid: bool): (r: Result<Option<C -> C>, BuildError>)
    ensures d.Unsupported? ==> r == Failure(NotSupported(d))
    ensures d.Closure? ==>
      r.Success? && r.value.Some? && forall c :: r.value.value(c) == rt.closureBody(d.id)(c, next)
    ensures d.TypeRef? ==> (r.Success? && r.value.Some? <==> Resolves(rt, d.tag, ps))
    ensures d.TypeRef? && Resolves(rt, d.tag, ps) ==>
      exists inst :: InstanceFor(rt, inst, d.tag, ps) && forall c :: r.value.value(c) == rt.instanceBody(inst, c, next)
    ensures d.TypeRef? && !Resolves(rt, d.tag, ps) && ignoreInvalid ==> r == Success(None)
    ensures d.TypeRef? && !InvokeMethodOk(rt.typeInfo(d.tag)) && !ignoreInvalid ==>
      r == Failure(InvalidMiddleware(InvokeNotReturningTask))
    ensures d.TypeRef? && InvokeMethodOk(rt.typeInfo(d.tag)) && !Resolves(rt, d.tag, ps) && !ignoreInvalid ==>
      r == Failure(InvalidMiddleware(NoSuitableConstructor(d.tag)))
  {
    match d
    case Closure(id) =>
      Success(Some((c: C) => rt.closureBody(id)(c, next)))
    case TypeRef(tag) =>
      var info := rt.typeInfo(tag);
      var lookup := GetInvokeMethod(tag, info);
      if lookup.located.None? || lookup.error.Some? then
        if ignoreInvalid then Success(None) else Failure(InvalidMiddleware(lookup.error.value))
      else
        (match BuildInstance(tag, info, rt.assignable, ps)
         case Failure(e) =>
           if ignoreInvalid then Success(None) else Failure(InvalidMiddleware(e))
         case Success(made) =>
           var inst := Instance(tag, lookup.located.value, made.ctor, made.args);
           assert InstanceFor(rt, inst, tag, ps);
           Success(Some((c: C) => rt.instanceBody(inst, c, next))))
    case Unsupported(_) =>
      Failure(NotSupported(d))
  }

  // ---------------------------------------------------------------------------------------
  // The fold
  // ---------------------------------------------------------------------------------------

  /** The innermost continuation when no core action is set: completes without touching the context. */
  function NoOp<C(!new)>(): (f: C -> C)
    ensures forall c :: f(c) == c
  {
    (c: C) => c
  }

  /** The innermost continuation: the core action, or the no-op. */
  function Terminal<C(!new)>(rt: Runtime<C>, core: Option<CoreId>): (f: C -> C)
    ensures core.Some? ==> forall c :: f(c) == rt.coreBody(core.value)(c)
    ensures core.None? ==> forall c :: f(c) == c
  {
    match core
    case Some(id) => rt.coreBody(id)
    case None => NoOp()
  }

  /** Specification of the fold: the chain of `ds` around `terminal` binds the first
      descriptor around the chain of the rest, so the rest is compiled first. */
  function Chain<C(!new)>(rt: Runtime<C>, ds: seq<Descriptor>, ps: seq<Params>, terminal: C -> C, ignoreInvalid: bool): Result<C -> C, BuildError>
    requires |ds| == |ps|
    decreases |ds|
  {
    if ds == [] then Success(terminal)
    else
      match Chain(rt, ds[1..], ps[1..], terminal, ignoreInvalid)
      case Failure(e) => Failure(e)
      case Success(inner) =>
        match BuildInvokeAction(rt, ds[0], ps[0], inner, ignoreInvalid)
        case Failure(e) => Failure(e)
        case Success(bound) => Success(bound.GetOr(inner))
  }

  /** The run action a definition compiles to. */
  function Compile<C(!new)>(rt: Runtime<C>, core: Option<CoreId>, ds: seq<Descriptor>, ps: seq<Params>, options: BuildOptions): Result<C -> C, BuildError>
    requires |ds| == |ps|
  {
    Chain(rt, ds, ps, Terminal(rt, core), options.ignoreInvalidMiddlewares)
  }

  /** The compiler: starts from the core (or the no-op) and binds the descriptors from the
      last to the first, keeping the continuation unchanged for a skipped one. */
  method BuildRunAction<C(!new)>(rt: Runtime<C>, core: Option<CoreId>, ds: seq<Descriptor>, ps: seq<Params>, options: BuildOptions)
    returns (r: Result<C -> C, BuildError>)
    requires |ds| == |ps|
    ensures r == Compile(rt, core, ds, ps, options)
  {
    var invokeAction := Terminal(rt, core);
    var i := |ds|;
    while i > 0
      invariant 0 <= i <= |ds|
      invariant Chain(rt, ds[i..], ps[i..], Terminal(rt, core), options.ignoreInvalidMiddlewares) == Success(invokeAction)
    {
      i := i - 1;
      assert ds[i..][1..] == ds[i + 1..] && ps[i..][1..] == ps[i + 1..];
      var bound := BuildInvokeAction(rt, ds[i], ps[i], invokeAction, options.ignoreInvalidMiddlewares);
      if bound.Failure? {
        ChainFailsFrom(rt, ds, ps, Terminal(rt, core), options.ignoreInvalidMiddlewares, i, bound.error);
        return Failure(bound.error);
      }
      invokeAction := bound.value.GetOr(invokeAction);
    }
    assert ds[0..] == ds && ps[0..] == ps;
    r := Success(invokeAction);
  }

  /** An error in the chain of a suffix is the error of the whole chain. */
  lemma {:induction false} ChainFailsFrom<C(!new)>(rt: Runtime<C>, ds: seq<Descriptor>, ps: seq<Params>, terminal: C -> C, ignoreInvalid: bool, i: nat, e: BuildError)
    requires |ds| == |ps| && i <= |ds|
    requires Chain(rt, ds[i..], ps[i..], terminal, ignoreInvalid) == Failure(e)
    ensures Chain(rt, ds, ps, terminal, ignoreInvalid) == Failure(e)
    decreases i
  {
    if i > 0 {
      assert ds[i - 1..][1..] == ds[i..] && ps[i - 1..][1..] == ps[i..];
      ChainFailsFrom(rt, ds, ps, terminal, ignoreInvalid, i - 1, e);
    } else {
      assert ds[i..] == ds && ps[i..] == ps;
    }
  }

  // ---------------------------------------------------------------------------------------
  // Properties of the compiler
  // ---------------------------------------------------------------------------------------

  /** Compiling succeeds exactly when every descriptor binds or is a type that may be skipped. */
  lemma {:induction false} ChainSucceedsIff<C(!new)>(rt: Runtime<C>, ds: seq<Descriptor>, ps: seq<Params>, terminal: C -> C, ignoreInvalid: bool)
    requires |ds| == |ps|
    ensures Chain(rt, ds, ps, terminal, ignoreInvalid).Success? <==>
      forall i :: 0 <= i < |ds| ==> Bindable(rt, ds[i], ps[i], ignoreInvalid)
    decreases |ds|
  {
    if ds != [] {
      ChainSucceedsIff(rt, ds[1..], ps[1..], terminal, ignoreInvalid);
      if forall i :: 0 <= i < |ds| ==> Bindable(rt, ds[i], ps[i], ignoreInvalid) {
        assert forall i :: 0 <= i < |ds| - 1 ==> Bindable(rt, ds[1..][i], ps[1..][i], ignoreInvalid) by {
          forall i | 0 <= i < |ds| - 1 ensures Bindable(rt, ds[1..][i], ps[1..][i], ignoreInvalid) {
            assert Bindable(rt, ds[i + 1], ps[i + 1], ignoreInvalid);
          }
        }
      }
      if Chain(rt, ds, ps, terminal, ignoreInvalid).Success? {
        forall i | 0 <= i < |ds| ensures Bindable(rt, ds[i], ps[i], ignoreInvalid) {
          if i > 0 {
            assert ds[1..][i - 1] == ds[i] && ps[1..][i - 1] == ps[i];
          }
        }
      }
    }
  }

  /** The ignore option never hides an unsupported descriptor. */
  lemma UnsupportedAlwaysFails<C(!new)>(rt: Runtime<C>, ds: seq<Descriptor>, ps: seq<Params>, terminal: C -> C, ignoreInvalid: bool, k: nat)
    requires |ds| == |ps| && k < |ds| && ds[k].Unsupported?
    ensures Chain(rt, ds, ps, terminal, ignoreInvalid).Failure?
  {
    ChainSucceedsIff(rt, ds, ps, terminal, ignoreInvalid);
    assert !Bindable(rt, ds[k], ps[k], ignoreInvalid);
  }

  /** The descriptors that bind, with their parameter arrays: the chain with invalid types
      ignored is the chain of these alone. */
  ghost function Bound<C>(rt: Runtime<C>, ds: seq<Descriptor>, ps: seq<Params>): (r: (seq<Descriptor>, seq<Params>))
    requires |ds| == |ps|
    ensures |r.0| == |r.1| <= |ds|
    decreases |ds|
  {
    if ds == [] then ([], [])
    else
      var rest := Bound(rt, ds[1..], ps[1..]);
      if Binds(rt, ds[0], ps[0]) then ([ds[0]] + rest.0, [ps[0]] + rest.1) else rest
  }

  /** With `IgnoreInvalidMiddlewares`, a type that fails to resolve behaves as if it were absent:
      when no descriptor is unsupported, the chain equals the chain of the binding descriptors
      compiled with the option off. */
  lemma {:induction false} IgnoredTypesAreAbsent<C(!new)>(rt: Runtime<C>, ds: seq<Descriptor>, ps: seq<Params>, terminal: C -> C)
    requires |ds| == |ps|
    requires forall i :: 0 <= i < |ds| ==> !ds[i].Unsupported?
    ensures Chain(rt, ds, ps, terminal, true) == Chain(rt, Bound(rt, ds, ps).0, Bound(rt, ds, ps).1, terminal, false)
    decreases |ds|
  {
    if ds != [] {
      assert forall i :: 0 <= i < |ds| - 1 ==> ds[1..][i] == ds[i + 1];
      IgnoredTypesAreAbsent(rt, ds[1..], ps[1..], terminal);
      var rest := Bound(rt, ds[1..], ps[1..]);
      var inner := Chain(rt, ds[1..], ps[1..], terminal, true);
      ChainSucceedsIff(rt, ds[1..], ps[1..], terminal, true);
      assert inner.Success?;
      if Binds(rt, ds[0], ps[0]) {
        var bd := [ds[0]] + rest.0;
        var bp := [ps[0]] + rest.1;
        assert bd[1..] == rest.0 && bp[1..] == rest.1;
        assert BuildInvokeAction(rt, ds[0], ps[0], inner.value, true) == BuildInvokeAction(rt, ds[0], ps[0], inner.value, false);
      }
    }
  }
}
