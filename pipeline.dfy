/**
 * The pipeline builder, which edits a definition in place and announces every change, and
 * the two executable pipelines: a snapshot compiled once, and a linked pipeline that
 * recompiles lazily after the builder announces a change.
 */
module Pipelines {
  import opened Wrappers
  import opened Definitions
  import opened BuilderHelper
  import opened BuilderLists

  /**
   * A pipeline definition: the middleware descriptors and their parameter arrays as two
   * parallel lists, and an optional core action. Every change is announced: it is appended
   * to the ghost log `notifications` and every subscribed linked pipeline is invalidated.
   * One class stands for both builder flavours, which share this state and differ only in
   * the forwarding methods they expose.
   */
  class PipelineBuilder<C(!new)> {
    /** The reflection and user code the compiler works against. */
    const runtime: Runtime<C>
    var coreAction: Option<CoreId>
    var middlewares: seq<Descriptor>
    var middlewareParameters: seq<Params>
    ghost var notifications: seq<Notification>
    /** The handlers attached to the change event: the linked pipelines built from this builder. */
    var subscribers: set<LinkedPipeline<C>>

    /** The two lists are parallel. */
    ghost predicate WellFormed()
      reads this
    {
      |middlewares| == |middlewareParameters|
    }

    /** Every subscriber belongs to this builder, and a subscriber that holds a prepared run
        action holds the compiled form of the current definition. */
    ghost predicate Valid()
      reads this, subscribers
    {
      && WellFormed()
      && forall p :: p in subscribers ==> p.builder == this && p.Fresh()
    }

    /** Every subscriber has been told that the definition changed. */
    ghost predicate AllInvalidated()
      reads this, subscribers
    {
      forall p :: p in subscribers ==> !p.isRunActionPrepared
    }

    /** What compiling the current definition gives. */
    function Compiled(options: BuildOptions): Result<C -> C, BuildError>
      reads this
      requires WellFormed()
    {
      Compile(runtime, coreAction, middlewares, middlewareParameters, options)
    }

    constructor(runtime: Runtime<C>)
      ensures this.runtime == runtime && coreAction == None
      ensures middlewares == [] && middlewareParameters == []
      ensures notifications == [] && subscribers == {}
      ensures Valid()
    {
      this.runtime := runtime;
      coreAction := None;
      middlewares := [];
      middlewareParameters := [];
      notifications := [];
      subscribers := {};
    }

    /** Raises the change event: logs the notification and runs every subscriber's handler. */
    method Notify(n: Notification)
      modifies this`notifications, subscribers`isRunActionPrepared
      ensures notifications == old(notifications) + [n]
      ensures AllInvalidated()
    {
      notifications := notifications + [n];
      var pending := subscribers;
      while pending != {}
        invariant pending <= subscribers
        invariant notifications == old(notifications) + [n]
        invariant forall p :: p in subscribers - pending ==> !p.isRunActionPrepared
        decreases |pending|
      {
        var p :| p in pending;
        p.InvalidateRunActionOnBuilderChange();
        pending := pending - {p};
      }
    }

    /** Attaches a linked pipeline's handler to the change event. */
    method Subscribe(p: LinkedPipeline<C>)
      requires Valid() && p.builder == this && p.Fresh()
      modifies this`subscribers
      ensures subscribers == old(subscribers) + {p}
      ensures Valid()
    {
      subscribers := subscribers + {p};
    }

    /** Compiles the current definition. */
    method BuildRunAction(options: BuildOptions) returns (r: Result<C -> C, BuildError>)
      requires WellFormed()
      ensures r == Compiled(options)
    {
      r := BuilderHelper.BuildRunAction(runtime, coreAction, middlewares, middlewareParameters, options);
    }

    // -------------------------------------------------------------------------------------
    // The mutations
    // -------------------------------------------------------------------------------------

    /** Replaces the core action. Setting the action already set changes nothing and
        announces nothing; any other action replaces it and announces the replacement. */
    method InternalSetCoreAction(action: Option<CoreId>)
      requires Valid()
      modifies this, subscribers`isRunActionPrepared
      ensures Valid()
      ensures coreAction == action
      ensures middlewares == old(middlewares) && middlewareParameters == old(middlewareParameters)
      ensures subscribers == old(subscribers)
      ensures action == old(coreAction) ==> notifications == old(notifications) && unchanged(subscribers)
      ensures action != old(coreAction) ==>
                notifications == old(notifications) + [Replaced(action, old(coreAction))] && AllInvalidated()
    {
      if action == coreAction {
        return;
      }
      var oldItem := coreAction;
      coreAction := action;
      Notify(Replaced(action, oldItem));
    }

    /** One step of the backward scan of `InternalRemove`: deletes entry `i` from both lists
        and announces its removal when its descriptor is `d`. */
    method RemoveIfMatch(d: Descriptor, i: nat, ghost ms: seq<Descriptor>, ghost mps: seq<Params>, ghost before: seq<Notification>)
      requires Valid() && |ms| == |mps| && i < |ms|
      requires middlewares == ms[..i + 1] + Keep(ms[i + 1..], ms[i + 1..], d)
      requires middlewareParameters == mps[..i + 1] + Keep(mps[i + 1..], ms[i + 1..], d)
      requires notifications == before + Repeat(Removed(d), Count(ms[i + 1..], d))
      modifies this, subscribers`isRunActionPrepared
      ensures Valid()
      ensures middlewares == ms[..i] + Keep(ms[i..], ms[i..], d)
      ensures middlewareParameters == mps[..i] + Keep(mps[i..], ms[i..], d)
      ensures notifications == before + Repeat(Removed(d), Count(ms[i..], d))
      ensures coreAction == old(coreAction) && subscribers == old(subscribers)
      ensures ms[i] == d ==> AllInvalidated()
      ensures ms[i] != d ==> unchanged(this) && unchanged(subscribers)
    {
      ghost var cur, curp, n := middlewares, middlewareParameters, Count(ms[i + 1..], d);
      assert middlewares[i] == ms[i];
      if middlewares[i] == d {
        RemoveEntry(i);
        assert middlewares == ms[..i] + Keep(ms[i..], ms[i..], d) by {
          RemoveStep(cur, ms, ms, d, i);
        }
        assert middlewareParameters == mps[..i] + Keep(mps[i..], ms[i..], d) by {
          RemoveStep(curp, mps, ms, d, i);
        }
        assert notifications == before + Repeat(Removed(d), Count(ms[i..], d)) by {
          KeepFrom(ms, ms, d, i);
          assert Repeat(Removed(d), n + 1) == Repeat(Removed(d), n) + [Removed(d)];
        }
      } else {
        RemoveStep(cur, ms, ms, d, i);
        RemoveStep(curp, mps, ms, d, i);
        KeepFrom(ms, ms, d, i);
      }
    }

    /** Deletes entry `i` from both lists and announces its removal. */
    method RemoveEntry(i: nat)
      requires Valid() && i < |middlewares|
      modifies this, subscribers`isRunActionPrepared
      ensures Valid() && AllInvalidated()
      ensures middlewares == old(middlewares[..i] + middlewares[i + 1..])
      ensures middlewareParameters == old(middlewareParameters[..i] + middlewareParameters[i + 1..])
      ensures notifications == old(notifications) + [Removed(old(middlewares[i]))]
      ensures coreAction == old(coreAction) && subscribers == old(subscribers)
    {
      var d := middlewares[i];
      middlewares := middlewares[..i] + middlewares[i + 1..];
      middlewareParameters := middlewareParameters[..i] + middlewareParameters[i + 1..];
      Notify(Removed(d));
    }

    /** Removes every entry whose descriptor is `d`, scanning from the last entry to the
        first, and announces each removal. */
    method InternalRemove(d: Descriptor)
      requires Valid()
      modifies this, subscribers`isRunActionPrepared
      ensures Valid()
      ensures middlewares == Keep(old(middlewares), old(middlewares), d)
      ensures middlewareParameters == Keep(old(middlewareParameters), old(middlewares), d)
      ensures notifications == old(notifications) + Repeat(Removed(d), Count(old(middlewares), d))
      ensures coreAction == old(coreAction) && subscribers == old(subscribers)
      ensures Count(old(middlewares), d) > 0 ==> AllInvalidated()
      ensures Count(old(middlewares), d) == 0 ==> unchanged(subscribers)
    {
      ghost var ms, mps := middlewares, middlewareParameters;
      var i := |middlewares| - 1;
      while i >= 0
        invariant -1 <= i < |ms|
        invariant middlewares == ms[..i + 1] + Keep(ms[i + 1..], ms[i + 1..], d)
        invariant middlewareParameters == mps[..i + 1] + Keep(mps[i + 1..], ms[i + 1..], d)
        invariant notifications == old(notifications) + Repeat(Removed(d), Count(ms[i + 1..], d))
        invariant coreAction == old(coreAction) && subscribers == old(subscribers)
        invariant Count(ms[i + 1..], d) > 0 ==> AllInvalidated()
        invariant Count(ms[i + 1..], d) == 0 ==> unchanged(subscribers)
        invariant Valid()
      {
        KeepFrom(ms, ms, d, i);
        RemoveIfMatch(d, i, ms, mps, old(notifications));
        i := i - 1;
      }
      assert ms[..0] == [] && ms[0..] == ms && mps[..0] == [] && mps[0..] == mps;
    }

    /** Adds `d` with its parameter array at the end of the lists and announces it. */
    method InternalAppend(d: Descriptor, ps: Params)
      requires Valid()
      modifies this, subscribers`isRunActionPrepared
      ensures Valid()
      ensures middlewares == old(middlewares) + [d] && middlewareParameters == old(middlewareParameters) + [ps]
      ensures coreAction == old(coreAction) && subscribers == old(subscribers)
      ensures notifications == old(notifications) + [Added(d)] && AllInvalidated()
    {
      middlewares := middlewares + [d];
      middlewareParameters := middlewareParameters + [ps];
      Notify(Added(d));
    }

    /** Inserts `d` with its parameter array at the front of the lists and announces it. */
    method InternalPrepend(d: Descriptor, ps: Params)
      requires Valid()
      modifies this, subscribers`isRunActionPrepared
      ensures Valid()
      ensures middlewares == [d] + old(middlewares) && middlewareParameters == [ps] + old(middlewareParameters)
      ensures coreAction == old(coreAction) && subscribers == old(subscribers)
      ensures notifications == old(notifications) + [Added(d)] && AllInvalidated()
    {
      InsertAtFrontIsPrepend(middlewares, d);
      InsertAtFrontIsPrepend(middlewareParameters, ps);
      middlewares := InsertAt(middlewares, 0, d);
      middlewareParameters := InsertAt(middlewareParameters, 0, ps);
      Notify(Added(d));
    }

    /** Inserts `d` with its parameter array at index `k` of both lists and announces it. */
    method InsertEntry(k: nat, d: Descriptor, ps: Params)
      requires Valid() && k <= |middlewares|
      modifies this, subscribers`isRunActionPrepared
      ensures Valid()
      ensures middlewares == InsertAt(old(middlewares), k, d)
      ensures middlewareParameters == InsertAt(old(middlewareParameters), k, ps)
      ensures coreAction == old(coreAction) && subscribers == old(subscribers)
      ensures notifications == old(notifications) + [Added(d)] && AllInvalidated()
    {
      middlewares := InsertAt(middlewares, k, d);
      middlewareParameters := InsertAt(middlewareParameters, k, ps);
      Notify(Added(d));
    }

    /** Inserts `d` right behind the last entry whose descriptor is `ref`, scanning from the
        last entry; fails, changing nothing, when `ref` is not in the list. */
    method InternalAfter(d: Descriptor, ref: Descriptor, ps: Params) returns (o: Outcome<BuilderError>)
      requires Valid()
      modifies this, subscribers`isRunActionPrepared
      ensures Valid()
      ensures o.Pass? <==> ref in old(middlewares)
      ensures o.Pass? ==>
                var k := LastIndexOf(old(middlewares), ref) + 1;
                && middlewares == InsertAt(old(middlewares), k, d)
                && middlewareParameters == InsertAt(old(middlewareParameters), k, ps)
                && notifications == old(notifications) + [Added(d)] && AllInvalidated()
      ensures o.Fail? ==> o.error == ReferenceNotFound(ref) && unchanged(this) && unchanged(subscribers)
      ensures coreAction == old(coreAction) && subscribers == old(subscribers)
    {
      var i := |middlewares| - 1;
      while i >= 0
        invariant -1 <= i < |middlewares|
        invariant forall j :: i < j < |middlewares| ==> middlewares[j] != ref
        invariant unchanged(this) && unchanged(subscribers)
      {
        if middlewares[i] == ref {
          assert i == LastIndexOf(middlewares, ref);
          if i + 1 >= |middlewares| {
            InsertAtEndIsAppend(middlewares, d);
            InsertAtEndIsAppend(middlewareParameters, ps);
            InternalAppend(d, ps);
          } else {
            InsertEntry(i + 1, d, ps);
          }
          return Pass;
        }
        i := i - 1;
      }
      return Fail(ReferenceNotFound(ref));
    }

    /** Inserts `d` right in front of the first entry whose descriptor is `ref`; fails,
        changing nothing, when `ref` is not in the list. */
    method InternalBefore(d: Descriptor, ref: Descriptor, ps: Params) returns (o: Outcome<BuilderError>)
      requires Valid()
      modifies this, subscribers`isRunActionPrepared
      ensures Valid()
      ensures o.Pass? <==> ref in old(middlewares)
      ensures o.Pass? ==>
                var k := IndexOf(old(middlewares), ref);
                && middlewares == InsertAt(old(middlewares), k, d)
                && middlewareParameters == InsertAt(old(middlewareParameters), k, ps)
                && notifications == old(notifications) + [Added(d)] && AllInvalidated()
      ensures o.Fail? ==> o.error == ReferenceNotFound(ref) && unchanged(this) && unchanged(subscribers)
      ensures coreAction == old(coreAction) && subscribers == old(subscribers)
    {
      var i := 0;
      while i < |middlewareParameters|
        invariant 0 <= i <= |middlewares|
        invariant forall j :: 0 <= j < i ==> middlewares[j] != ref
        invariant unchanged(this) && unchanged(subscribers)
      {
        if middlewares[i] == ref {
          assert i == IndexOf(middlewares, ref);
          InsertEntry(i, d, ps);
          return Pass;
        }
        i := i + 1;
      }
      return Fail(ReferenceNotFound(ref));
    }

    // -------------------------------------------------------------------------------------
    // The public forwarding methods; each returns the builder itself
    // -------------------------------------------------------------------------------------

    /** Sets the core action (`None` for a null delegate). */
    method UseAsCore(action: Option<CoreId>) returns (self: PipelineBuilder<C>)
      requires Valid()
      modifies this, subscribers`isRunActionPrepared
      ensures self == this && Valid()
      ensures coreAction == action
      ensures middlewares == old(middlewares) && middlewareParameters == old(middlewareParameters)
      ensures subscribers == old(subscribers)
      ensures action == old(coreAction) ==> notifications == old(notifications) && unchanged(subscribers)
      ensures action != old(coreAction) ==>
                notifications == old(notifications) + [Replaced(action, old(coreAction))] && AllInvalidated()
    {
      InternalSetCoreAction(action);
      self := this;
    }

    /** Appends a closure or a type without a parameter array (`Use`, `Append`). */
    method Use(d: Descriptor) returns (self: PipelineBuilder<C>)
      requires Valid()
      modifies this, subscribers`isRunActionPrepared
      ensures self == this && Valid()
      ensures middlewares == old(middlewares) + [d] && middlewareParameters == old(middlewareParameters) + [None]
      ensures coreAction == old(coreAction) && subscribers == old(subscribers)
      ensures notifications == old(notifications) + [Added(d)] && AllInvalidated()
    {
      InternalAppend(d, None);
      self := this;
    }

    /** Appends a type with the given parameter array (the `params` overloads of `Use`, `Append`). */
    method UseWithParameters(d: Descriptor, parameters: seq<Param>) returns (self: PipelineBuilder<C>)
      requires Valid()
      modifies this, subscribers`isRunActionPrepared
      ensures self == this && Valid()
      ensures middlewares == old(middlewares) + [d] && middlewareParameters == old(middlewareParameters) + [Some(parameters)]
      ensures coreAction == old(coreAction) && subscribers == old(subscribers)
      ensures notifications == old(notifications) + [Added(d)] && AllInvalidated()
    {
      InternalAppend(d, Some(parameters));
      self := this;
    }

    /** Prepends a closure or a type without a parameter array. */
    method Prepend(d: Descriptor) returns (self: PipelineBuilder<C>)
      requires Valid()
      modifies this, subscribers`isRunActionPrepared
      ensures self == this && Valid()
      ensures middlewares == [d] + old(middlewares) && middlewareParameters == [None] + old(middlewareParameters)
      ensures coreAction == old(coreAction) && subscribers == old(subscribers)
      ensures notifications == old(notifications) + [Added(d)] && AllInvalidated()
    {
      InternalPrepend(d, None);
      self := this;
    }

    /** Prepends a type with the given parameter array. */
    method PrependWithParameters(d: Descriptor, parameters: seq<Param>) returns (self: PipelineBuilder<C>)
      requires Valid()
      modifies this, subscribers`isRunActionPrepared
      ensures self == this && Valid()
      ensures middlewares == [d] + old(middlewares) && middlewareParameters == [Some(parameters)] + old(middlewareParameters)
      ensures coreAction == old(coreAction) && subscribers == old(subscribers)
      ensures notifications == old(notifications) + [Added(d)] && AllInvalidated()
    {
      InternalPrepend(d, Some(parameters));
      self := this;
    }

    /** Removes every occurrence of a closure or a type. */
    method Remove(d: Descriptor) returns (self: PipelineBuilder<C>)
      requires Valid()
      modifies this, subscribers`isRunActionPrepared
      ensures self == this && Valid()
      ensures middlewares == Keep(old(middlewares), old(middlewares), d)
      ensures middlewareParameters == Keep(old(middlewareParameters), old(middlewares), d)
      ensures notifications == old(notifications) + Repeat(Removed(d), Count(old(middlewares), d))
      ensures coreAction == old(coreAction) && subscribers == old(subscribers)
      ensures Count(old(middlewares), d) > 0 ==> AllInvalidated()
      ensures Count(old(middlewares), d) == 0 ==> unchanged(subscribers)
    {
      InternalRemove(d);
      self := this;
    }

    /** Inserts after the last occurrence of `ref`, with the given parameter array or none;
        a missing reference is the `ArgumentException` the overloads throw. */
    method After(d: Descriptor, ref: Descriptor, parameters: Params) returns (r: Result<PipelineBuilder<C>, BuilderError>)
      requires Valid()
      modifies this, subscribers`isRunActionPrepared
      ensures Valid()
      ensures r.Success? <==> ref in old(middlewares)
      ensures r.Success? ==>
                var k := LastIndexOf(old(middlewares), ref) + 1;
                && r.value == this
                && middlewares == InsertAt(old(middlewares), k, d)
                && middlewareParameters == InsertAt(old(middlewareParameters), k, parameters)
                && notifications == old(notifications) + [Added(d)] && AllInvalidated()
      ensures r.Failure? ==> r.error == ReferenceNotFound(ref) && unchanged(this) && unchanged(subscribers)
      ensures coreAction == old(coreAction) && subscribers == old(subscribers)
    {
      var o := InternalAfter(d, ref, parameters);
      r := if o.Pass? then Success(this) else Failure(o.error);
    }

    /** Inserts before the first occurrence of `ref`, with the given parameter array or none;
        a missing reference is the `ArgumentException` the overloads throw. */
    method Before(d: Descriptor, ref: Descriptor, parameters: Params) returns (r: Result<PipelineBuilder<C>, BuilderError>)
      requires Valid()
      modifies this, subscribers`isRunActionPrepared
      ensures Valid()
      ensures r.Success? <==> ref in old(middlewares)
      ensures r.Success? ==>
                var k := IndexOf(old(middlewares), ref);
                && r.value == this
                && middlewares == InsertAt(old(middlewares), k, d)
                && middlewareParameters == InsertAt(old(middlewareParameters), k, parameters)
                && notifications == old(notifications) + [Added(d)] && AllInvalidated()
      ensures r.Failure? ==> r.error == ReferenceNotFound(ref) && unchanged(this) && unchanged(subscribers)
      ensures coreAction == old(coreAction) && subscribers == old(subscribers)
    {
      var o := InternalBefore(d, ref, parameters);
      r := if o.Pass? then Success(this) else Failure(o.error);
    }

    // -------------------------------------------------------------------------------------
    // Building pipelines
    // -------------------------------------------------------------------------------------

    /** A snapshot pipeline, or the error its constructor throws when compiling fails. */
    method Build(options: BuildOptions) returns (r: Result<Pipeline<C>, BuildError>)
      requires WellFormed()
      ensures r.Success? <==> Compiled(options).Success?
      ensures r.Failure? ==> r.error == Compiled(options).error
      ensures r.Success? ==> fresh(r.value) && r.value.runAction == Compiled(options).value
    {
      if Compiled(options).Failure? {
        return Failure(Compiled(options).error);
      }
      var p := new Pipeline(this, options);
      return Success(p);
    }

    /** A linked pipeline, compiled and subscribed, or the error its constructor throws when
        compiling fails (then nothing is subscribed). */
    method BuildLinked(options: BuildOptions) returns (r: Result<LinkedPipeline<C>, BuildError>)
      requires Valid()
      modifies this
      ensures Valid()
      ensures r.Success? <==> Compiled(options).Success?
      ensures r.Failure? ==> r.error == Compiled(options).error && subscribers == old(subscribers)
      ensures r.Success? ==>
                && fresh(r.value) && r.value.builder == this && r.value.buildOptions == options
                && r.value.isRunActionPrepared && r.value.runAction == Compiled(options).value
                && subscribers == old(subscribers) + {r.value}
      ensures coreAction == old(coreAction) && notifications == old(notifications)
      ensures middlewares == old(middlewares) && middlewareParameters == old(middlewareParameters)
    {
      if Compiled(options).Failure? {
        return Failure(Compiled(options).error);
      }
      var p := new LinkedPipeline(this, options);
      return Success(p);
    }
  }

  /** The snapshot pipeline: compiles the definition once, when it is constructed. */
  class Pipeline<C(!new)> {
    const runAction: C -> C

    constructor(builder: PipelineBuilder<C>, options: BuildOptions)
      requires builder.WellFormed() && builder.Compiled(options).Success?
      ensures runAction == builder.Compiled(options).value
    {
      var r := builder.BuildRunAction(options);
      runAction := r.value;
    }

    /** Runs the action compiled at construction, whatever the builder holds now. */
    method RunAsync(c: C) returns (r: C)
      ensures r == runAction(c)
    {
      r := runAction(c);
    }
  }

  /** The linked pipeline: keeps a compiled run action and whether it is prepared; every
      announced change clears the flag, and the next run recompiles. */
  class LinkedPipeline<C(!new)> {
    const builder: PipelineBuilder<C>
    const buildOptions: BuildOptions
    var isRunActionPrepared: bool
    var runAction: C -> C
    /** How many times this pipeline has compiled the definition. */
    ghost var compilations: nat

    /** A prepared run action is the compiled form of the builder's current definition. */
    ghost predicate Fresh()
      reads this, builder
    {
      isRunActionPrepared ==> builder.WellFormed() && builder.Compiled(buildOptions) == Success(runAction)
    }

    /** Subscribed to a valid builder. */
    ghost predicate Linked()
      reads this, builder, builder.subscribers
    {
      builder.Valid() && this in builder.subscribers
    }

    /** Compiles eagerly, then subscribes to the builder's change event. */
    constructor(builder: PipelineBuilder<C>, options: BuildOptions)
      requires builder.Valid() && builder.Compiled(options).Success?
      modifies builder
      ensures this.builder == builder && buildOptions == options
      ensures builder.coreAction == old(builder.coreAction) && builder.notifications == old(builder.notifications)
      ensures builder.middlewares == old(builder.middlewares)
      ensures builder.middlewareParameters == old(builder.middlewareParameters)
      ensures builder.subscribers == old(builder.subscribers) + {this}
      ensures isRunActionPrepared && runAction == builder.Compiled(options).value && compilations == 1
      ensures Linked()
    {
      this.builder := builder;
      buildOptions := options;
      isRunActionPrepared := false;
      runAction := NoOp();
      compilations := 0;
      new;
      var _ := PrepareRunAction();
      builder.Subscribe(this);
    }

    /** Compiles the current definition unless the prepared action is still valid. The flag
        is set only once compiling has succeeded, so a failed compile leaves it clear. */
    method PrepareRunAction() returns (o: Outcome<BuildError>)
      requires builder.WellFormed()
      modifies this`isRunActionPrepared, this`runAction, this`compilations
      ensures old(isRunActionPrepared) ==>
                o.Pass? && isRunActionPrepared && runAction == old(runAction) && compilations == old(compilations)
      ensures !old(isRunActionPrepared) ==>
                && compilations == old(compilations) + 1
                && match builder.Compiled(buildOptions)
                   case Success(f) => o.Pass? && isRunActionPrepared && runAction == f
                   case Failure(e) => o == Fail(e) && !isRunActionPrepared && runAction == old(runAction)
    {
      if isRunActionPrepared {
        return Pass;
      }
      var r := builder.BuildRunAction(buildOptions);
      compilations := compilations + 1;
      if r.Failure? {
        return Fail(r.error);
      }
      runAction := r.value;
      isRunActionPrepared := true;
      return Pass;
    }

    /** Runs the builder's current definition: recompiles first when a change was announced
        since the last compile, and otherwise reuses the cached action. */
    method RunAsync(c: C) returns (r: Result<C, BuildError>)
      requires Linked()
      modifies this
      ensures Linked()
      ensures r == match builder.Compiled(buildOptions)
                   case Success(f) => Success(f(c))
                   case Failure(e) => Failure(e)
      ensures r.Success? <==> isRunActionPrepared
      ensures r.Failure? ==> runAction == old(runAction)
      ensures old(isRunActionPrepared) ==> runAction == old(runAction) && compilations == old(compilations)
      ensures !old(isRunActionPrepared) ==> compilations == old(compilations) + 1
    {
      var o := PrepareRunAction();
      if o.Fail? {
        return Failure(o.error);
      }
      r := Success(runAction(c));
    }

    /** The change handler: the prepared action is no longer the current definition. */
    method InvalidateRunActionOnBuilderChange()
      modifies this`isRunActionPrepared
      ensures !isRunActionPrepared
    {
      isRunActionPrepared := false;
    }
  }
}
