/**
 * Pipelines and stages: a pipeline is an ordered list of stages, each stage
 * has a composite gate build named after it and an ordered list of builds,
 * and `Project.pipeline` registers, stage after stage, the gate and then the
 * stage's builds with the project.
 */
module Pipelines {
  import opened Host

  /** What a `build { ... }` closure does to a freshly constructed build. */
  type BuildInit = BuildType -> BuildType

  /** A `stage(name) { ... }` call: the stage's name and its `build` calls. */
  datatype StageDecl = StageDecl(name: string, builds: seq<BuildInit>)

  /** A stage as the project sees it: its gate and its builds. */
  datatype StageView = StageView(gate: BuildType, builds: seq<BuildType>)

  /** The gate build a stage constructs for itself. */
  function Gate(name: string): (g: BuildType)
    ensures g.name == "Stage: " + name && g.kind == Composite
    ensures g.id == "" && g.axes == map[] && g.settings == NewBuild().settings
  {
    NewBuild().(name := "Stage: " + name, kind := Composite)
  }

  /** The builds that a sequence of `build` closures appends, in call order. */
  function Configured(inits: seq<BuildInit>): seq<BuildType> {
    seq(|inits|, k requires 0 <= k < |inits| => inits[k](NewBuild()))
  }

  /** The stages a pipeline closure declares, as the project will see them. */
  function Declared(decls: seq<StageDecl>): seq<StageView> {
    seq(|decls|, k requires 0 <= k < |decls| => StageView(Gate(decls[k].name), Configured(decls[k].builds)))
  }

  /**
   * The order in which `Project.pipeline` registers build configurations:
   * for each stage in turn, its gate followed by its builds.
   */
  function Registration(stages: seq<StageView>): (r: seq<BuildType>)
    ensures |r| >= |stages|
    ensures stages != [] ==> stages[|stages| - 1].gate in r
  {
    if stages == [] then []
    else Registration(stages[..|stages| - 1]) + [stages[|stages| - 1].gate] + stages[|stages| - 1].builds
  }

  /** The number of builds over all stages, gates not included. */
  function BuildCount(stages: seq<StageView>): nat {
    if stages == [] then 0 else BuildCount(stages[..|stages| - 1]) + |stages[|stages| - 1].builds|
  }

  /** Registering two runs of stages registers the first run and then the second. */
  lemma {:induction false} RegistrationAppend(a: seq<StageView>, b: seq<StageView>)
    ensures Registration(a + b) == Registration(a) + Registration(b)
    decreases |b|
  {
    if b == [] {
      assert a + b == a;
    } else {
      var init := b[..|b| - 1];
      assert (a + b)[..|a + b| - 1] == a + init;
      assert (a + b)[|a + b| - 1] == b[|b| - 1];
      RegistrationAppend(a, init);
    }
  }

  /** One registration per stage gate plus one per build. */
  lemma {:induction false} RegistrationLength(stages: seq<StageView>)
    ensures |Registration(stages)| == |stages| + BuildCount(stages)
  {
    if stages != [] {
      RegistrationLength(stages[..|stages| - 1]);
    }
  }

  /**
   * Stage `i` occupies one contiguous run of the registration, its gate
   * first and then its builds in order, after everything registered for the
   * stages before it and before everything registered for the stages after.
   */
  lemma StageRegistered(stages: seq<StageView>, i: nat)
    requires i < |stages|
    ensures Registration(stages)
         == Registration(stages[..i]) + [stages[i].gate] + stages[i].builds + Registration(stages[i + 1..])
    ensures |Registration(stages[..i])| == i + BuildCount(stages[..i])
  {
    assert stages == stages[..i] + [stages[i]] + stages[i + 1..];
    RegistrationAppend(stages[..i] + [stages[i]], stages[i + 1..]);
    RegistrationAppend(stages[..i], [stages[i]]);
    assert Registration([stages[i]]) == [stages[i].gate] + stages[i].builds by {
      assert [stages[i]][..0] == [];
    }
    RegistrationLength(stages[..i]);
  }

  class Stage {
    const name: string
    /** The stage's gate: a composite build named after the stage. */
    const gate: BuildType
    var buildTypes: seq<BuildType>
    /** The prototype whose settings every matrix build starts from. */
    var defaults: BuildType

    constructor (name: string)
      ensures this.name == name
      ensures gate.name == "Stage: " + name && gate.kind == Composite
      ensures gate == Gate(name)
      ensures buildTypes == [] && defaults == NewBuild()
    {
      this.name := name;
      gate := Gate(name);
      buildTypes := [];
      defaults := NewBuild();
    }

    /** `build { ... }`: configures a fresh build and appends it. */
    method Build(init: BuildInit)
      modifies this
      ensures buildTypes == old(buildTypes) + [init(NewBuild())]
      ensures defaults == old(defaults)
    {
      var b := init(NewBuild());
      buildTypes := buildTypes + [b];
    }
  }

  function View(stage: Stage): StageView
    reads stage
  {
    StageView(stage.gate, stage.buildTypes)
  }

  function Views(stages: seq<Stage>): seq<StageView>
    reads stages
  {
    seq(|stages|, k reads stages requires 0 <= k < |stages| => View(stages[k]))
  }

  class Pipeline {
    var stages: seq<Stage>

    constructor ()
      ensures stages == []
    {
      stages := [];
    }

    /**
     * `stage(name) { ... }`: builds a new stage, runs its `build` calls in
     * order and appends it. No check is made that the name is new.
     */
    method AddStage(name: string, builds: seq<BuildInit>) returns (stage: Stage)
      modifies this
      ensures fresh(stage)
      ensures stage.name == name && stage.gate == Gate(name)
      ensures stage.buildTypes == Configured(builds)
      ensures stages == old(stages) + [stage]
      ensures Views(old(stages)) == old(Views(stages))
    {
      stage := new Stage(name);
      var k := 0;
      while k < |builds|
        invariant 0 <= k <= |builds|
        invariant stage.buildTypes == Configured(builds[..k])
        invariant stages == old(stages)
      {
        stage.Build(builds[k]);
        k := k + 1;
      }
      assert builds[..k] == builds;
      stages := stages + [stage];
    }
  }

  /**
   * `Project.pipeline { ... }`: a fresh, empty pipeline runs the declared
   * stages; then every stage's gate and builds are registered with the
   * project in stage order.
   */
  method ProjectPipeline(project: Project, decls: seq<StageDecl>) returns (pipeline: Pipeline)
    modifies project
    ensures fresh(pipeline)
    ensures |pipeline.stages| == |decls|
    ensures forall k :: 0 <= k < |decls| ==> pipeline.stages[k].name == decls[k].name
    ensures Views(pipeline.stages) == Declared(decls)
    ensures project.buildTypes == old(project.buildTypes) + Registration(Declared(decls))
  {
    pipeline := new Pipeline();
    var k := 0;
    while k < |decls|
      invariant 0 <= k <= |decls|
      invariant fresh(pipeline)
      invariant |pipeline.stages| == k
      invariant forall l :: 0 <= l < k ==> pipeline.stages[l].name == decls[l].name
      invariant Views(pipeline.stages) == Declared(decls[..k])
      invariant project.buildTypes == old(project.buildTypes)
    {
      ghost var before := pipeline.stages;
      var stage := pipeline.AddStage(decls[k].name, decls[k].builds);
      forall l | 0 <= l < k + 1
        ensures Views(pipeline.stages)[l] == Declared(decls[..k + 1])[l]
      {
        if l < k {
          assert pipeline.stages[l] == before[l];
          assert Views(before)[l] == View(before[l]);
        }
      }
      k := k + 1;
    }
    assert decls[..k] == decls;
    RegisterStages(project, Views(pipeline.stages));
  }

  lemma RegistrationStep(views: seq<StageView>, i: nat)
    requires i < |views|
    ensures Registration(views[..i + 1]) == Registration(views[..i]) + [views[i].gate] + views[i].builds
  {
    assert views[..i + 1][..i] == views[..i];
  }

  /** The nested loop of `Project.pipeline` that registers every gate and build. */
  method RegisterStages(project: Project, views: seq<StageView>)
    modifies project
    ensures project.buildTypes == old(project.buildTypes) + Registration(views)
  {
    var i := 0;
    while i < |views|
      invariant 0 <= i <= |views|
      invariant project.buildTypes == old(project.buildTypes) + Registration(views[..i])
    {
      project.Register(views[i].gate);
      var j := 0;
      while j < |views[i].builds|
        invariant 0 <= j <= |views[i].builds|
        invariant project.buildTypes
               == old(project.buildTypes) + Registration(views[..i]) + [views[i].gate] + views[i].builds[..j]
      {
        project.Register(views[i].builds[j]);
        j := j + 1;
      }
      assert views[i].builds[..j] == views[i].builds;
      RegistrationStep(views, i);
      i := i + 1;
    }
    assert views[..i] == views;
  }
}
