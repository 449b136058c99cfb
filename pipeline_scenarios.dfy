/**
 * The snapshot and the linked pipeline side by side: both are built from one definition,
 * the core is then replaced, and only the linked pipeline runs the new core.
 */
module PipelineScenarios {
  import opened Wrappers
  import opened Definitions
  import opened BuilderHelper
  import opened Execution
  import opened Pipelines

  /** What the definition of the scenario compiles to, for either core. */
  lemma TwoTypesAroundCore(core: CoreId)
    ensures var a, b := TypeRef(UserType(1)), TypeRef(UserType(2));
      var run := Compile(LogRuntime(), Some(core), [a, b], [None, None], BuildOptions(false));
      run.Success? && run.value([]) == [Enter(a), Enter(b), CoreRan(core), Exit(b), Exit(a)]
  {
    var a, b := TypeRef(UserType(1)), TypeRef(UserType(2));
    assert NoParams(2) == [None, None];
    LogRunIsOnion(Some(core), [a, b], BuildOptions(false));
  }

  /** The definition of the scenario: two logging types around core 0. */
  method ScenarioBuilder() returns (builder: PipelineBuilder<Log>)
    ensures fresh(builder) && builder.Valid() && builder.runtime == LogRuntime()
    ensures builder.middlewares == [TypeRef(UserType(1)), TypeRef(UserType(2))]
    ensures builder.middlewareParameters == [None, None]
    ensures builder.coreAction == Some(0) && builder.subscribers == {}
  {
    builder := new PipelineBuilder(LogRuntime());
    var _ := builder.Use(TypeRef(UserType(1)));
    var _ := builder.Use(TypeRef(UserType(2)));
    var _ := builder.UseAsCore(Some(0));
  }

  /** The snapshot row: run, replace core 0 with core 1, run again; both runs execute core 0. */
  method SnapshotKeepsDefinition() returns (first: Log, second: Log)
    ensures var a, b := TypeRef(UserType(1)), TypeRef(UserType(2));
      && first == [Enter(a), Enter(b), CoreRan(0), Exit(b), Exit(a)]
      && second == first
  {
    var options := BuildOptions(false);
    var builder := ScenarioBuilder();
    TwoTypesAroundCore(0);
    var built := builder.Build(options);
    var snapshot := built.value;
    first := snapshot.RunAsync([]);
    var _ := builder.UseAsCore(Some(1));
    second := snapshot.RunAsync([]);
  }

  /** The linked row: run, replace core 0 with core 1, run again; the second run executes
      core 1. Setting core 1 a second time through `UseAsCore(Func)` with the same delegate
      announces nothing, so the compiled action stays prepared. */
  method LinkedFollowsDefinition() returns (first: Log, second: Log, stillPrepared: bool)
    ensures var a, b := TypeRef(UserType(1)), TypeRef(UserType(2));
      && first == [Enter(a), Enter(b), CoreRan(0), Exit(b), Exit(a)]
      && second == [Enter(a), Enter(b), CoreRan(1), Exit(b), Exit(a)]
    ensures stillPrepared
  {
    var options := BuildOptions(false);
    var builder := ScenarioBuilder();
    TwoTypesAroundCore(0);
    TwoTypesAroundCore(1);
    var built := builder.BuildLinked(options);
    var linked := built.value;
    var run := linked.RunAsync([]);
    first := run.value;
    var _ := builder.UseAsCore(Some(1));
    run := linked.RunAsync([]);
    second := run.value;
    var _ := builder.UseAsCore(Some(1));
    stillPrepared := linked.isRunActionPrepared;
  }
}
