/**
 * The values the pipeline library works with: unit descriptors, their construction
 * parameters, the change notifications of a pipeline definition, build options and errors,
 * and the abstract runtime that stands in for .NET reflection and for the caller's code.
 */
module Definitions {
  import opened Wrappers

  /** A runtime type. `ContinuationType` is the runtime type of every continuation delegate
      (`Func<TParam, Task>`); every other type is named by an opaque id. */
  datatype TypeTag = ContinuationType | UserType(id: nat)

  /** A unit descriptor as stored in the definition. Descriptors are compared by identity:
      a closure by the identity of its delegate object, a type by its (canonical) type object.
      `Unsupported` is any other stored object, in particular a null `Type` or delegate, which
      the builder's overloads store without a null check; compiling it always fails. */
  datatype Descriptor = Closure(id: nat) | TypeRef(tag: TypeTag) | Unsupported(id: nat)

  /** One explicit construction parameter: a null reference, or an object of a runtime type. */
  datatype Param = Null | Obj(typ: TypeTag, value: int)

  /** The optional parameter array stored beside each descriptor (`object[]?`), captured as a
      value when it is stored; later in-place edits of the caller's array are not modelled. */
  type Params = Option<seq<Param>>

  /** Identity of a core action delegate (`Func<TParam, Task>`); equal ids are equal delegates. */
  type CoreId = nat

  /** `NotifyCollectionChangedEventArgs`: the action and the item it concerns. */
  datatype Notification =
    | Added(item: Descriptor)
    | Removed(item: Descriptor)
    | Replaced(newItem: Option<CoreId>, oldItem: Option<CoreId>)

  /** `MiddlewarePipelineBuildOptions`; a missing options object behaves as `IgnoreInvalidMiddlewares = false`. */
  datatype BuildOptions = BuildOptions(ignoreInvalidMiddlewares: bool)

  /** The two method names the lookup tries, in order. */
  datatype MethodName = InvokeAsync | Invoke

  /** A located invoke method: its name and whether its return type is `Task`. */
  datatype MethodInfo = MethodInfo(name: MethodName, returnsTask: bool)

  /** What reflection reports about a type: for each of `InvokeAsync(TParam)` and `Invoke(TParam)`,
      absent or present with "returns Task"; and its public constructors' parameter type lists,
      in the order the runtime's lookup considers them. */
  datatype TypeInfo = TypeInfo(
    invokeAsync: Option<bool>,
    invoke: Option<bool>,
    constructors: seq<seq<TypeTag>>)

  /** One constructor argument: the continuation, or an explicit parameter. */
  datatype Arg = NextArg | ParamArg(param: Param)

  /** An instance built for one type descriptor: its type, the method located on it, the
      constructor chosen and the arguments it was given. */
  datatype Instance = Instance(tag: TypeTag, invokeMethod: MethodInfo, ctor: seq<TypeTag>, args: seq<Arg>)

  /** Why a type descriptor failed to resolve (the text of `InvalidMiddlewareException`). */
  datatype InvalidReason =
    | NoInvokeMethod(tag: TypeTag)
    | InvokeNotReturningTask
    | NoSuitableConstructor(tag: TypeTag)

  /** The exceptions building a run action can raise. */
  datatype BuildError =
    | InvalidMiddleware(reason: InvalidReason)
    | NotSupported(descriptor: Descriptor)

  /** The exception `Before`/`After` raise for an absent reference. */
  datatype BuilderError = ReferenceNotFound(reference: Descriptor)

  /**
   * Everything outside the library that the compiler consults: reflection over types, the
   * type-compatibility rule of constructor lookup, and what the caller's code does when run.
   * A closure body receives the context and its continuation; an instance body receives the
   * context and the continuation it was constructed with; a core maps the context.
   */
  datatype Runtime<!C> = Runtime(
    typeInfo: TypeTag -> TypeInfo,
    assignable: (TypeTag, TypeTag) -> bool,
    closureBody: nat -> ((C, C -> C) -> C),
    instanceBody: (Instance, C, C -> C) -> C,
    coreBody: CoreId -> (C -> C))
}
