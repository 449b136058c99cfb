/**
 * Two example runtimes after the library's own scenarios: a type used several times with
 * its own parameter each, and types whose constructors take the continuation first or last.
 */
module Scenarios {
  import opened Wrappers
  import opened Definitions
  import opened BuilderHelper

  // ---------------------------------------------------------------------------------------
  // The same middleware type used several times
  // ---------------------------------------------------------------------------------------

  const IntType := UserType(100)
  const PowType := UserType(7)

  /** `b` to the power `e`, exactly. */
  function Power(b: int, e: nat): int {
    if e == 0 then 1 else b * Power(b, e - 1)
  }

  /** The exponent a power stage was constructed with: its one integer parameter. */
  function ExponentOf(args: seq<Arg>): nat {
    if |args| == 2 && args[1].ParamArg? && args[1].param.Obj? && args[1].param.value >= 0
    then args[1].param.value else 0
  }

  /** The context is the value; each power stage raises it to its own exponent and passes it
      on; the closure and the core pass the value through unchanged. */
  function PowRuntime(): Runtime<int> {
    Runtime(
      (t: TypeTag) => TypeInfo(Some(true), None, [[ContinuationType, IntType]]),
      (a: TypeTag, b: TypeTag) => a == b,
      (id: nat) => (v: int, k: int -> int) => k(v),
      (inst: Instance, v: int, k: int -> int) => k(Power(v, ExponentOf(inst.args))),
      (id: CoreId) => (v: int) => v)
  }

  /** `n` uses of the power type. */
  function PowDescriptors(n: nat): (r: seq<Descriptor>)
    ensures |r| == n && forall i :: 0 <= i < n ==> r[i] == TypeRef(PowType)
  {
    seq(n, _ => TypeRef(PowType))
  }

  /** One integer parameter array per use. */
  function PowParams(es: seq<nat>): (r: seq<Params>)
    ensures |r| == |es| && forall i :: 0 <= i < |es| ==> r[i] == Some([Obj(IntType, es[i])])
  {
    seq(|es|, i requires 0 <= i < |es| => Some([Obj(IntType, es[i])]))
  }

  /** Independent reference: raise the value to each exponent in turn, first to last. */
  function ApplyPowers(v: int, es: seq<nat>): int
    decreases |es|
  {
    if es == [] then v else ApplyPowers(Power(v, es[0]), es[1..])
  }

  /** A power stage with exponent `e` resolves, and its instance carries exactly `e`. */
  lemma PowStageResolves(e: nat)
    ensures Resolves(PowRuntime(), PowType, Some([Obj(IntType, e)]))
    ensures forall inst :: InstanceFor(PowRuntime(), inst, PowType, Some([Obj(IntType, e)])) ==> ExponentOf(inst.args) == e
  {
    var rt := PowRuntime();
    var values := [Obj(IntType, e)];
    assert TypesOf(values) == [IntType];
    assert Matches(rt.assignable, rt.typeInfo(PowType).constructors[0], [ContinuationType] + TypesOf(values));
    forall inst | InstanceFor(rt, inst, PowType, Some(values)) ensures ExponentOf(inst.args) == e {
      assert SomeMatch(rt.assignable, rt.typeInfo(PowType).constructors, [ContinuationType] + TypesOf(values));
      assert inst.args == [NextArg, ParamArg(Obj(IntType, e))];
    }
  }

  /** Every use of the type is a stage of its own, built from its own parameter: the compiled
      chain applies the exponents in insertion order. */
  lemma {:induction false} PowChainAppliesInOrder(es: seq<nat>, terminal: int -> int, ignoreInvalid: bool)
    requires forall v :: terminal(v) == v
    ensures Chain(PowRuntime(), PowDescriptors(|es|), PowParams(es), terminal, ignoreInvalid).Success?
    ensures forall v :: Chain(PowRuntime(), PowDescriptors(|es|), PowParams(es), terminal, ignoreInvalid).value(v) == ApplyPowers(v, es)
    decreases |es|
  {
    var rt := PowRuntime();
    var ds, ps := PowDescriptors(|es|), PowParams(es);
    if es != [] {
      assert ds[1..] == PowDescriptors(|es[1..]|) && ps[1..] == PowParams(es[1..]);
      PowChainAppliesInOrder(es[1..], terminal, ignoreInvalid);
      var inner := Chain(rt, ds[1..], ps[1..], terminal, ignoreInvalid).value;
      PowStageResolves(es[0]);
      var bound := BuildInvokeAction(rt, ds[0], ps[0], inner, ignoreInvalid);
      var inst :| InstanceFor(rt, inst, PowType, ps[0]) && forall c :: bound.value.value(c) == rt.instanceBody(inst, c, inner);
      forall v ensures Chain(rt, ds, ps, terminal, ignoreInvalid).value(v) == ApplyPowers(v, es) {
        assert bound.value.value(v) == inner(Power(v, es[0]));
      }
    }
  }

  /** Raising a power to a power multiplies the exponents. */
  lemma {:induction false} PowerOfPower(b: int, x: nat, y: nat)
    ensures Power(Power(b, x), y) == Power(b, x * y)
    decreases y
  {
    if y > 0 {
      PowerOfPower(b, x, y - 1);
      PowerAdd(b, x, x * (y - 1));
    }
  }

  /** Powers of the same base multiply by adding exponents. */
  lemma {:induction false} PowerAdd(b: int, x: nat, y: nat)
    ensures Power(b, x) * Power(b, y) == Power(b, x + y)
    decreases x
  {
    if x > 0 {
      PowerAdd(b, x - 1, y);
    }
  }

  /** The four exponents of the scenario multiply: `e`, `e + 1`, `e`, `1` in turn give
      `e * (e + 1) * e`. */
  lemma FourPowers(b: int, e: nat)
    ensures ApplyPowers(b, [e, e + 1, e, 1]) == Power(b, e * (e + 1) * e)
  {
    var es: seq<nat> := [e, e + 1, e, 1];
    assert es[1..] == [e + 1, e, 1] && es[1..][1..] == [e, 1] && es[1..][1..][1..] == [1];
    assert [1][1..] == [];
    calc {
      ApplyPowers(b, es);
      ApplyPowers(Power(b, e), [e + 1, e, 1]);
      ApplyPowers(Power(Power(b, e), e + 1), [e, 1]);
      ApplyPowers(Power(Power(Power(b, e), e + 1), e), [1]);
      Power(Power(Power(Power(b, e), e + 1), e), 1);
      { PowerOfPower(b, e, e + 1); PowerOfPower(b, e * (e + 1), e); PowerOfPower(b, e * (e + 1) * e, 1); }
      Power(b, e * (e + 1) * e);
    }
  }

  /** The scenario: a pass-through closure, then the power type with exponents `e`, `e + 1`,
      `e` and `1`, around a core; the run leaves `b` to the power `e * (e + 1) * e`. */
  lemma SameTypeFourTimes(b: int, e: nat)
    ensures var ds := [Closure(0)] + PowDescriptors(4);
      var ps := [None] + PowParams([e, e + 1, e, 1]);
      var run := Compile(PowRuntime(), Some(0), ds, ps, BuildOptions(false));
      run.Success? && run.value(b) == Power(b, e * (e + 1) * e)
  {
    var rt := PowRuntime();
    var es: seq<nat> := [e, e + 1, e, 1];
    var ds := [Closure(0)] + PowDescriptors(4);
    var ps := [None] + PowParams(es);
    assert ds[1..] == PowDescriptors(|es|) && ps[1..] == PowParams(es);
    PowChainAppliesInOrder(es, rt.coreBody(0), false);
    FourPowers(b, e);
  }

  /** The first data row of the scenario: base 2, exponent 2. */
  lemma SameTypeFourTimesRow()
    ensures var ps := [None] + PowParams([2, 3, 2, 1]);
      var run := Compile(PowRuntime(), Some(0), [Closure(0)] + PowDescriptors(4), ps, BuildOptions(false));
      run.Success? && run.value(2) == 4096
  {
    SameTypeFourTimes(2, 2);
    assert Power(2, 12) == 4096;
  }

  // ---------------------------------------------------------------------------------------
  // Continuation first or last
  // ---------------------------------------------------------------------------------------

  const StringType := UserType(101)
  const ListOfIntType := UserType(102)
  const IListOfIntType := UserType(103)
  const ListOfStringType := UserType(104)
  const ReadOnlyListOfStringType := UserType(105)
  const BoolArrayType := UserType(106)

  /** Exact types match, and a list matches the list interfaces it implements. */
  function ParamAssignable(a: TypeTag, b: TypeTag): bool {
    a == b || (a == ListOfIntType && b == IListOfIntType) || (a == ListOfStringType && b == ReadOnlyListOfStringType)
  }

  /** A type whose constructor takes the continuation first, then five parameters. */
  function NextFirstInfo(): TypeInfo {
    TypeInfo(Some(true), None, [[ContinuationType, IntType, StringType, IListOfIntType, ReadOnlyListOfStringType, BoolArrayType]])
  }

  /** A type whose constructor takes three integers, then the continuation. */
  function NextLastInfo(): TypeInfo {
    TypeInfo(Some(true), None, [[IntType, IntType, IntType, ContinuationType]])
  }

  /** Both orders resolve: the continuation goes first for the first type and last for the
      second; a null parameter makes the first type fail. */
  lemma ContinuationFirstOrLast(i: int, i2: int, i3: int)
    ensures var values := [Obj(IntType, i), Obj(StringType, 0), Obj(ListOfIntType, 0), Obj(ListOfStringType, 0), Obj(BoolArrayType, 0)];
      BuildInstance(UserType(1), NextFirstInfo(), ParamAssignable, Some(values)) ==
        Success(Construction(NextFirstInfo().constructors[0], [NextArg] + ArgsOf(values)))
    ensures var values := [Obj(IntType, i), Obj(IntType, i2), Obj(IntType, i3)];
      BuildInstance(UserType(2), NextLastInfo(), ParamAssignable, Some(values)) ==
        Success(Construction(NextLastInfo().constructors[0], ArgsOf(values) + [NextArg]))
    ensures var values := [Obj(IntType, i), Null, Obj(ListOfIntType, 0), Obj(ListOfStringType, 0), Obj(BoolArrayType, 0)];
      BuildInstance(UserType(1), NextFirstInfo(), ParamAssignable, Some(values)) == Failure(NoSuitableConstructor(UserType(1)))
  {
    var first := [Obj(IntType, i), Obj(StringType, 0), Obj(ListOfIntType, 0), Obj(ListOfStringType, 0), Obj(BoolArrayType, 0)];
    assert TypesOf(first) == [IntType, StringType, ListOfIntType, ListOfStringType, BoolArrayType];
    assert Matches(ParamAssignable, NextFirstInfo().constructors[0], [ContinuationType] + TypesOf(first));
    var last := [Obj(IntType, i), Obj(IntType, i2), Obj(IntType, i3)];
    assert TypesOf(last) == [IntType, IntType, IntType];
    assert ([ContinuationType] + TypesOf(last))[0] == ContinuationType;
    assert !Matches(ParamAssignable, NextLastInfo().constructors[0], [ContinuationType] + TypesOf(last));
    assert Matches(ParamAssignable, NextLastInfo().constructors[0], TypesOf(last) + [ContinuationType]);
  }
}
