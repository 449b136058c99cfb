# GenericMiddlewarePipeline in Dafny

A model of the core of GenericMiddlewarePipeline, a C# library that composes "middleware"
units around one terminal core action over a caller-supplied context. The model covers three
parts of the library:

- **The builder** (`InternalMiddlewarePipelineBuilderCore` and its two subclasses). It is the
  class `Pipelines.PipelineBuilder`. It holds two parallel lists, the middleware descriptors
  and their optional parameter arrays, plus an optional core action. The lists are edited in
  place by index loops.
  - Every change is announced: it is appended to a ghost log of `NotifyCollectionChangedEventArgs`
    values, and every subscribed linked pipeline's change handler runs.
- **The compiler** (`InternalMiddlewarePipelineBuilderHelper`), in module `BuilderHelper`.
  - `GetInvokeMethod` looks up the invoke method of a middleware type.
  - `BuildInstance` matches a constructor, trying the continuation first and then last.
  - `BuildInvokeAction` binds one descriptor and applies the ignore-or-throw policy.
  - `BuildRunAction` folds the descriptors from the last to the first around the core. It is
    a method with the source's reverse loop, proved equal to the recursive specification
    `Compile`.
- **The two executable pipelines**, in `Pipelines`.
  - The snapshot `Pipeline` compiles once, in its constructor.
  - `LinkedPipeline` compiles eagerly, subscribes to the builder's changes, and recompiles
    lazily at the next run after any change.

Reflection and user code are abstract. A `Runtime` value supplies:

- for each type tag, whether `InvokeAsync(TParam)` / `Invoke(TParam)` exist and whether each
  returns `Task`;
- the type's constructor signatures, in the order the binder considers them;
- a type-compatibility relation;
- the behaviour of closures, middleware instances and cores, as functions on the context.

Execution is synchronous state passing: a unit receives the context and its continuation and
returns the final context. The module `Execution` instantiates the context with a log of
`Enter` / `Exit` / `CoreRan` events and proves onion order. The modules `Scenarios` and
`PipelineScenarios` restate the repository's own test scenarios over example runtimes.

Modules:

- `wrappers.dfy`: `Option`, `Result`, `Outcome`.
- `definitions.dfy`: descriptors, parameters, notifications, build options, runtime.
- `helper.dfy`: the compiler.
- `builder_lists.dfy`: the list operations the builder's loops perform, and their lemmas.
- `execution.dfy`: traces and onion order.
- `scenarios.dfy`: example runtimes for repeated types and constructor ordering.
- `pipeline.dfy`: the builder and the pipelines.
- `pipeline_scenarios.dfy`: the snapshot and linked scenario.

Four behaviours of the code that are easy to miss, which the model follows:

- **Missing invoke method.** A type without an invoke method fails with the "does not return
  `Task`" reason, not a "missing method" reason. `GetInvokeMethod` writes the first text and
  then overwrites it with the second (MiddlewarePipelineBuilderHelper.cs:71-75).
- **Type identity.** Entries of the same type compare equal, because .NET type objects are
  canonical. So `Remove`, `Before` and `After` match every use of a type, not one use only.
- **Linked pipeline errors.** A linked pipeline compiles in its constructor, so a definition
  that does not compile already fails at `BuildLinked`, not only at the first run.
- **Retry after failure.** A failed lazy compile leaves the pipeline stale, so the next run
  compiles again.

## Model

| member | source | states |
|---|---|---|
| `BuilderHelper.GetInvokeMethod` | GenericMiddlewarePipeline/Builder/MiddlewarePipelineBuilderHelper.cs:57-78 | There is no error exactly when the preferred method (`InvokeAsync` if present, else `Invoke`) exists and returns `Task`. `InvokeAsync` is located when present. Otherwise `Invoke` is located when present, and nothing when neither exists. On success a method is located and returns `Task`. Any error, a missing method included, is the return-type error. |
| `BuilderHelper.FindConstructor` | GenericMiddlewarePipeline/Builder/MiddlewarePipelineBuilderHelper.cs:96-113 | Constructor lookup by argument types. It returns the first constructor that accepts the argument types, and none exactly when no constructor accepts them. |
| `BuilderHelper.BuildInstance` | GenericMiddlewarePipeline/Builder/MiddlewarePipelineBuilderHelper.cs:80-124 | Succeeds exactly when the type is `Constructible`: with no parameter array, a `(next)` constructor exists; otherwise no parameter is null and `[next]+params` or `params+[next]` matches. The chosen constructor is one of the type's and accepts the arguments. With no parameter array the argument is `[next]`. `[next]+params` wins whenever some constructor takes it. A failure is `NoSuitableConstructor` for that type. |
| `BuilderHelper.BuildInvokeAction` | GenericMiddlewarePipeline/Builder/MiddlewarePipelineBuilderHelper.cs:23-55 | A closure becomes the stage that calls it with the context and the continuation. A type yields a stage exactly when it `Resolves`, and the stage runs an instance built for that entry's own parameters. A type that does not resolve yields no stage under `IgnoreInvalidMiddlewares`. Without the option it fails: an invoke-method failure fails with `InvokeNotReturningTask`, and a construction failure with `NoSuitableConstructor`. Any other descriptor fails with `NotSupported` whatever the option. |
| `BuilderHelper.Terminal` | GenericMiddlewarePipeline/Builder/MiddlewarePipelineBuilderHelper.cs:13 | The innermost continuation is the core action when one is set, and otherwise leaves the context unchanged. |
| `BuilderHelper.NoOp` | GenericMiddlewarePipeline/Builder/MiddlewarePipelineBuilderHelper.cs:13 | The continuation used when no core is set leaves the context unchanged. |
| `BuilderHelper.BuildRunAction` | GenericMiddlewarePipeline/Builder/MiddlewarePipelineBuilderHelper.cs:11-21 | The reverse loop computes exactly `Compile`: it binds the last descriptor first and keeps the continuation for a skipped one. The first error met aborts the loop. |
| `BuilderHelper.ChainFailsFrom` | GenericMiddlewarePipeline/Builder/MiddlewarePipelineBuilderHelper.cs:15-18 | An error while compiling a suffix of the definition is the error of the whole compile. |
| `BuilderHelper.ChainSucceedsIff` | GenericMiddlewarePipeline/Builder/MiddlewarePipelineBuilderHelper.cs:15-47 | Compiling succeeds exactly when every descriptor is a closure, a type that resolves, or a type that may be skipped because invalid middlewares are ignored. |
| `BuilderHelper.UnsupportedAlwaysFails` | GenericMiddlewarePipeline/Builder/MiddlewarePipelineBuilderHelper.cs:51-54 | A definition holding an unsupported descriptor never compiles, whatever the ignore option. |
| `BuilderHelper.IgnoredTypesAreAbsent` | GenericMiddlewarePipeline/Builder/MiddlewarePipelineBuilderHelper.cs:17-47 | When no descriptor is unsupported: with the ignore option, compiling equals compiling only the binding descriptors with the option off. A skipped type behaves as if absent. |
| `BuilderLists.InsertAt` | GenericMiddlewarePipeline/Builder/MiddlewarePipelineBuilder.cs:104-105 | `IList.Insert(i, x)`: the result has `x` at `i`, the entries before `i` unchanged, and the entries from `i` on shifted by one. |
| `BuilderLists.IndexOf` | GenericMiddlewarePipeline/Builder/MiddlewarePipelineBuilder.cs:122-124 | The first index holding the reference. |
| `BuilderLists.LastIndexOf` | GenericMiddlewarePipeline/Builder/MiddlewarePipelineBuilder.cs:93-95 | The last index holding the reference. |
| `BuilderLists.KeepMembers` | GenericMiddlewarePipeline/Builder/MiddlewarePipelineBuilder.cs:49-65 | After removing `d`, the list holds exactly the descriptors that were there and are not `d`. |
| `BuilderLists.KeepIsSubsequence` | GenericMiddlewarePipeline/Builder/MiddlewarePipelineBuilder.cs:49-65 | Removal keeps the remaining entries, of either list, in their relative order. |
| `BuilderLists.KeepAbsent` | GenericMiddlewarePipeline/Builder/MiddlewarePipelineBuilder.cs:49-65 | Removing a descriptor that does not occur leaves the list unchanged. |
| `BuilderLists.CountPositive` | GenericMiddlewarePipeline/Builder/MiddlewarePipelineBuilder.cs:53-62 | Removal announces something exactly when the descriptor occurs. |
| `BuilderLists.KeepFrom` | GenericMiddlewarePipeline/Builder/MiddlewarePipelineBuilder.cs:51-63 | Scanning a suffix from its first entry: that entry is kept exactly when it is not `d`, and it adds one to the count of removals exactly when it is `d`. |
| `BuilderLists.RemoveStep` | GenericMiddlewarePipeline/Builder/MiddlewarePipelineBuilder.cs:51-64 | One iteration of the backward scan drops entry `i` exactly when it is the descriptor, and touches nothing before it. |
| `BuilderLists.InsertAtEndIsAppend` | GenericMiddlewarePipeline/Builder/MiddlewarePipelineBuilder.cs:97-106 | Inserting after the last entry is appending, so the two branches of `InternalAfter` agree. |
| `BuilderLists.InsertAtFrontIsPrepend` | GenericMiddlewarePipeline/Builder/MiddlewarePipelineBuilder.cs:79-82 | Inserting at index 0 puts the entry in front of all others. |
| `BuilderLists.AdjacentToReference` | GenericMiddlewarePipeline/Builder/MiddlewarePipelineBuilder.cs:91-139 | `After` puts the new entry immediately behind the last occurrence of the reference. `Before` puts it immediately in front of the first occurrence. |
| `Execution.OnionIsFlat` | GenericMiddlewarePipeline/Builder/MiddlewarePipelineBuilderHelper.cs:15-18 | The nested onion of units around a middle equals all entries in insertion order, then the middle, then all exits in reverse. |
| `Execution.BoundStageWraps` | GenericMiddlewarePipeline/Builder/MiddlewarePipelineBuilderHelper.cs:25-49 | A descriptor that binds always yields a stage. With well-behaved units that stage logs its entry, runs the continuation, then logs its exit. |
| `Execution.ChainIsOnion` | GenericMiddlewarePipeline/Builder/MiddlewarePipelineBuilderHelper.cs:15-18 | With well-behaved units, the folded chain runs as the onion of the descriptors that bind, around whatever the terminal does. |
| `Execution.CompiledRunIsOnion` | GenericMiddlewarePipeline/Builder/MiddlewarePipelineBuilderHelper.cs:11-21 | With well-behaved units, a compiled run appends the entries of the binding units in insertion order, then the core's event (nothing without a core), then the exits in reverse. |
| `Execution.StrictCompileBindsAll` | GenericMiddlewarePipeline/Builder/MiddlewarePipelineBuilderHelper.cs:32-47 | Without the ignore option, a successful compile uses every descriptor. |
| `Execution.LogRuntimeWellBehaved` | GenericMiddlewarePipeline.Tests/Middlewares/LogMiddleware.cs:16-21 | The logging units of the tests log their entry, run their continuation, then log their exit. |
| `Execution.LogRunIsOnion` | GenericMiddlewarePipeline/Builder/MiddlewarePipelineBuilderHelper.cs:11-21 | With logging units, any definition of closures and types without parameters compiles, and its run logs the full onion. |
| `Execution.BuildAndRunTrace` | GenericMiddlewarePipeline.Tests/MiddlewarePipelineTest.cs:11-45 | Type A, then a closure, then type B, around a core: the run logs A+, closure+, B+, Core, B-, closure-, A-. |
| `Execution.InvalidRuntimeBinds` | GenericMiddlewarePipeline/Builder/MiddlewarePipelineBuilderHelper.cs:29-40 | In the example runtime, types with a `Task`-returning invoke method and a `(next)` constructor bind. The type with no invoke method fails the invoke check, so it does not bind. |
| `Execution.IgnoreInvalidSkipsUnit` | GenericMiddlewarePipeline/Builder/MiddlewarePipelineBuilderHelper.cs:31-38 | A type without an invoke method makes a strict compile fail with `InvokeNotReturningTask`. With the ignore option it is skipped, and the other units and the core still run in onion order. |
| `Scenarios.PowStageResolves` | GenericMiddlewarePipeline/Builder/MiddlewarePipelineBuilderHelper.cs:40 | An instance is built from its entry's own parameter array: a power stage carries exactly its own exponent. |
| `Scenarios.PowChainAppliesInOrder` | GenericMiddlewarePipeline/Builder/MiddlewarePipelineBuilderHelper.cs:15-49 | Repeated uses of one type are independent stages. The compiled chain applies their exponents in insertion order, matching the reference `ApplyPowers`. |
| `Scenarios.FourPowers` | GenericMiddlewarePipeline.Tests/MiddlewarePipelineTest.cs:76-120 | Applying the exponents `e`, `e+1`, `e`, `1` in turn gives the base to the power `e*(e+1)*e`, the value the test expects. |
| `Scenarios.SameTypeFourTimes` | GenericMiddlewarePipeline.Tests/MiddlewarePipelineTest.cs:76-120 | A closure, then the power type with exponents `e`, `e+1`, `e`, `1`, around a core: the run leaves `b` to the power `e*(e+1)*e`. |
| `Scenarios.SameTypeFourTimesRow` | GenericMiddlewarePipeline.Tests/MiddlewarePipelineTest.cs:77 | With base 2 and exponent 2, the run leaves 4096. |
| `Scenarios.ContinuationFirstOrLast` | GenericMiddlewarePipeline.Tests/MiddlewarePipelineTest.cs:47-74 | A five-parameter constructor taking the continuation first, with lists matching their interfaces, gets `[next]+params`. A three-integer constructor taking it last gets `params+[next]`. A null parameter fails with `NoSuitableConstructor`. |
| `Pipelines.PipelineBuilder.constructor` | GenericMiddlewarePipeline/Builder/MiddlewarePipelineBuilder.cs:8-15 | A new builder has no core, empty lists, no notifications and no subscribers. |
| `Pipelines.PipelineBuilder.Notify` | GenericMiddlewarePipeline/Builder/MiddlewarePipelineBuilder.cs:41-46 | Raising the change event logs exactly one notification and runs every subscriber's handler, so every subscriber is invalidated. |
| `Pipelines.PipelineBuilder.Subscribe` | GenericMiddlewarePipeline/MiddlewarePipeline.cs:51 | Attaching a handler adds exactly that pipeline to the subscribers and keeps the builder valid. |
| `Pipelines.PipelineBuilder.BuildRunAction` | GenericMiddlewarePipeline/Builder/MiddlewarePipelineBuilder.cs:27-30 | Compiles the builder's current core and lists. |
| `Pipelines.PipelineBuilder.InternalSetCoreAction` | GenericMiddlewarePipeline/Builder/MiddlewarePipelineBuilder.cs:32-47 | The core becomes the new action; the lists do not change. Setting the same action logs nothing and leaves every subscriber as it was. A different action logs one `Replaced(new, old)` and invalidates every subscriber. |
| `Pipelines.PipelineBuilder.RemoveEntry` | GenericMiddlewarePipeline/Builder/MiddlewarePipelineBuilder.cs:55-62 | Entry `i` leaves both lists, everything else keeps its order, one `Removed` naming the deleted descriptor is logged, every subscriber is invalidated, and the core and subscribers stay. |
| `Pipelines.PipelineBuilder.RemoveIfMatch` | GenericMiddlewarePipeline/Builder/MiddlewarePipelineBuilder.cs:53-63 | One iteration of the backward scan: given the lists with every match after `i` removed, it removes entry `i` too exactly when it is `d`, extending the log by one `Removed(d)` in that case only. A non-matching entry changes nothing. |
| `Pipelines.PipelineBuilder.InternalRemove` | GenericMiddlewarePipeline/Builder/MiddlewarePipelineBuilder.cs:49-65 | Both lists lose exactly the entries whose descriptor is `d`, and keep the other entries in order. One `Removed(d)` is logged per deleted entry. With no match nothing is logged and no subscriber is touched. The core does not change and the lists stay parallel. |
| `Pipelines.PipelineBuilder.InternalAppend` | GenericMiddlewarePipeline/Builder/MiddlewarePipelineBuilder.cs:67-77 | The descriptor and its parameter array are added at the end of the two lists. Exactly one `Added` is logged and every subscriber is invalidated. |
| `Pipelines.PipelineBuilder.InternalPrepend` | GenericMiddlewarePipeline/Builder/MiddlewarePipelineBuilder.cs:79-89 | The descriptor and its parameter array go in front of every existing entry. Exactly one `Added` is logged. |
| `Pipelines.PipelineBuilder.InsertEntry` | GenericMiddlewarePipeline/Builder/MiddlewarePipelineBuilder.cs:126-133 | The paired `Insert(k, …)` on both lists with one `Added` notification: both lists gain the entry at `k` and nothing else moves but the shifted tail. Every subscriber is invalidated, and the core and the subscribers stay. |
| `Pipelines.PipelineBuilder.InternalAfter` | GenericMiddlewarePipeline/Builder/MiddlewarePipelineBuilder.cs:91-118 | Succeeds exactly when the reference occurs. It then inserts at `LastIndexOf(ref)+1` in both lists and logs one `Added`. Otherwise it fails with `ReferenceNotFound(ref)` and changes and logs nothing. |
| `Pipelines.PipelineBuilder.InternalBefore` | GenericMiddlewarePipeline/Builder/MiddlewarePipelineBuilder.cs:120-139 | Succeeds exactly when the reference occurs. It then inserts at `IndexOf(ref)` in both lists and logs one `Added`. Otherwise it fails with `ReferenceNotFound(ref)` and changes and logs nothing. |
| `Pipelines.PipelineBuilder.UseAsCore` | GenericMiddlewarePipeline/Builder/MiddlewarePipelineBuilder.cs:153-157 | As `InternalSetCoreAction`, and returns the builder itself. This also covers the extended builder's overload at lines 199-203. |
| `Pipelines.PipelineBuilder.Use` | GenericMiddlewarePipeline/Builder/MiddlewarePipelineBuilder.cs:159-174 | Appends the descriptor with a null parameter array, logs one `Added`, and returns the builder itself. This also covers `Append` at lines 222-237. |
| `Pipelines.PipelineBuilder.UseWithParameters` | GenericMiddlewarePipeline/Builder/MiddlewarePipelineBuilder.cs:176-185 | Appends the descriptor with the given parameter array and returns the builder itself. This also covers the `params` overloads of `Append` at lines 239-248. |
| `Pipelines.PipelineBuilder.Prepend` | GenericMiddlewarePipeline/Builder/MiddlewarePipelineBuilder.cs:250-265 | Prepends the descriptor with a null parameter array and returns the builder itself. |
| `Pipelines.PipelineBuilder.PrependWithParameters` | GenericMiddlewarePipeline/Builder/MiddlewarePipelineBuilder.cs:267-276 | Prepends the descriptor with the given parameter array and returns the builder itself. |
| `Pipelines.PipelineBuilder.Remove` | GenericMiddlewarePipeline/Builder/MiddlewarePipelineBuilder.cs:205-220 | As `InternalRemove`, and returns the builder itself. |
| `Pipelines.PipelineBuilder.After` | GenericMiddlewarePipeline/Builder/MiddlewarePipelineBuilder.cs:278-332 | As `InternalAfter`, with a null or a given parameter array. Returns the builder itself, or `ReferenceNotFound` in place of the `ArgumentException`. |
| `Pipelines.PipelineBuilder.Before` | GenericMiddlewarePipeline/Builder/MiddlewarePipelineBuilder.cs:334-388 | As `InternalBefore`, with a null or a given parameter array. Returns the builder itself, or `ReferenceNotFound` in place of the `ArgumentException`. |
| `Pipelines.PipelineBuilder.Build` | GenericMiddlewarePipeline/Builder/MiddlewarePipelineBuilder.cs:17-20 | Gives a new snapshot pipeline whose action is the compiled current definition. When compiling fails, it gives the compile error instead. |
| `Pipelines.PipelineBuilder.BuildLinked` | GenericMiddlewarePipeline/Builder/MiddlewarePipelineBuilder.cs:22-25 | Gives a new linked pipeline, prepared with the compiled current definition and added to the subscribers; the definition is untouched. When compiling fails, it gives the compile error and subscribes nothing. |
| `Pipelines.Pipeline.constructor` | GenericMiddlewarePipeline/MiddlewarePipeline.cs:25-28 | The snapshot's action is the definition compiled at construction. |
| `Pipelines.Pipeline.RunAsync` | GenericMiddlewarePipeline/MiddlewarePipeline.cs:30-33 | Runs the action fixed at construction, whatever the builder holds now. |
| `Pipelines.LinkedPipeline.constructor` | GenericMiddlewarePipeline/MiddlewarePipeline.cs:44-52 | Compiles once, then subscribes, and starts prepared with the current definition. The builder's definition and log are untouched. |
| `Pipelines.LinkedPipeline.PrepareRunAction` | GenericMiddlewarePipeline/MiddlewarePipeline.cs:66-71 | When prepared, it changes nothing and compiles nothing. Otherwise it compiles exactly once. On success it caches the action and sets the flag. On failure it returns the error and leaves both the flag and the old action in place. |
| `Pipelines.LinkedPipeline.RunAsync` | GenericMiddlewarePipeline/MiddlewarePipeline.cs:59-64 | Runs the builder's current definition, or returns its compile error. It recompiles only when stale, and two runs with no change in between reuse the cached action. The pipeline is prepared afterwards exactly when the run succeeded. |
| `Pipelines.LinkedPipeline.InvalidateRunActionOnBuilderChange` | GenericMiddlewarePipeline/MiddlewarePipeline.cs:73-76 | The change handler clears the prepared flag. |
| `PipelineScenarios.TwoTypesAroundCore` | GenericMiddlewarePipeline.Tests/MiddlewarePipelineTest.cs:139-146 | Types A and B around a core compile, and the run logs A+, B+, core, B-, A-. |
| `PipelineScenarios.ScenarioBuilder` | GenericMiddlewarePipeline.Tests/MiddlewarePipelineTest.cs:127-134 | `Use<A>`, `Use<B>`, `UseAsCore` build the definition `[A, B]` with null parameter arrays around core 0. |
| `PipelineScenarios.SnapshotKeepsDefinition` | GenericMiddlewarePipeline.Tests/MiddlewarePipelineTest.cs:122-176 | The snapshot row: after the core is replaced, the snapshot still runs core A. |
| `PipelineScenarios.LinkedFollowsDefinition` | GenericMiddlewarePipeline.Tests/MiddlewarePipelineTest.cs:122-176 | The linked row: after the core is replaced, the linked pipeline runs core B. Setting the same core again through `UseAsCore(Func)` with the same delegate announces nothing and leaves it prepared. |

## Left out

- .NET reflection: `Type.GetMethod`, `Type.GetConstructor`, `ConstructorInfo.Invoke` and `MethodInfo.Invoke`.
  - They are abstract: each type has invoke-method facts, constructor signatures in a fixed order, and a compatibility relation.
  - The binder's overload resolution is not modelled, nor is its ambiguous-match exception; the first compatible constructor wins.
  - Exceptions thrown by user constructors or invoke methods are not modelled.
- `async`/`await`, `Task` and `Task.Yield`. Units are synchronous functions on the context.
- The `UseAsCore(Action)` overloads (MiddlewarePipelineBuilder.cs:144-151, 190-197) are not modelled. Each call wraps the action in a new delegate, which never equals the stored core. So every such call replaces the core, logs a `Replaced` and invalidates every linked pipeline, even when the same `Action` is passed again. A null `Action` installs a non-null no-op core instead of clearing it. The model has only the `Func` overload, `UseAsCore`, whose same-delegate call is silent.
- Error texts. Exceptions are `Failure` values carrying a reason, not message strings.
- The finalizer that unsubscribes a linked pipeline (MiddlewarePipeline.cs:54-57). Subscribers stay in the set for the builder's lifetime.
- Concurrency between builder changes and a lazy recompile.
- The static `MiddlewarePipeline.New` / `NewExtended` factories (MiddlewarePipeline.cs:10-18). They only call a builder constructor, and one class models both builder flavours. The basic builder's narrower interface, with no `Remove`, `Prepend`, `Before` or `After`, is not enforced.
- Generic overloads such as `Use<T>()`. They forward to the `Type` overloads, so they are the same descriptor `TypeRef(T)`.
- `Pipelines.LinkedPipeline.RunAsync`: the `_runAction == default` early return (MiddlewarePipeline.cs:62) is not modelled. A successful prepare always leaves an action. Before the first compile the field holds a no-op placeholder that no run can observe, not null.
- `Pipelines.PipelineBuilder.Notify`: every change is logged, whether or not a handler is attached. In C#, `CollectionChanged?.Invoke` with no handler has no observable effect.
- Null build options. `MiddlewarePipelineBuildOptions?` set to null is modelled as `BuildOptions(false)`, which behaves the same.
- `Unsupported` descriptors are modelled without their source. They stand for any stored object that is neither a delegate of the right shape nor a `Type`. This includes a null `Type` or delegate, which `Use`, `Prepend`, `After` and `Before` store with no null check (MiddlewarePipelineBuilder.cs:69, 81, 99, 104, 126). Compiling one takes the `NotSupportedException` branch (MiddlewarePipelineBuilderHelper.cs:51-54) whatever the ignore option. The model does not say how such an object came to be stored.
- `Pipelines.LinkedPipeline.RunAsync`: parameter arrays are captured as values at the call that stores them. In C# the builder keeps a reference to the caller's array (MiddlewarePipelineBuilder.cs:70, 82, 100, 105, 127) and reads it only at compile time (MiddlewarePipelineBuilderHelper.cs:90-93). An in-place edit of that array after the call raises no notification, so a prepared linked pipeline keeps running the old arguments while a new `Build` compiles the new ones. The model does not capture such edits, so its guarantee that a linked run uses the builder's current definition holds only for callers that never edit an array they have passed. This is a gap in the source's invalidation protocol.
- Per-instance middleware state is not modelled. C# constructs new middleware instances at every compile and keeps them between runs. Here an instance's behaviour is a pure function of its construction value (`Runtime.instanceBody`), so state a middleware keeps from one run to the next is not captured.
- The context type must support quantification (`C(!new)`), so contexts holding references to fresh objects are not covered.
- `Scenarios.SameTypeFourTimes`: exact integer powers stand in for `Math.Pow` on doubles and the `long` casts of `PowMiddleware`. The test's second row (base 2, exponent 4) reaches 2^80, which overflows `long`. The model does not capture that 64-bit truncation, so only the first row is restated.
