/**
 * Stand-ins for the pieces of the build server's Kotlin DSL that the extensions
 * use but do not define: a build configuration record, a project that
 * registers build configurations in order, and the small failure-compatible
 * datatypes the model uses for optional values and thrown exceptions.
 */
module Host {

  datatype Option<+T> = None | Some(value: T)

  /** An exception the extension code throws, with its message. */
  datatype Error =
    | IllegalArgument(message: string)
    | IllegalState(message: string)

  /** The outcome of a call that either returns normally or throws. */
  datatype Outcome = Pass | Fail(error: Error)

  /** The build configuration type: a regular build or a composite one. */
  datatype Kind = Regular | Composite

  /** A template, known to this model only by its name. */
  datatype Template = Template(name: string)

  /**
   * Everything about a build configuration that the extensions set but never
   * read back: templates, parameters, script step ids, the steps order and
   * the execution timeout in minutes (0 means none).
   */
  datatype Settings = Settings(
    templates: seq<Template>,
    params: map<string, string>,
    steps: seq<string>,
    stepsOrder: seq<string>,
    executionTimeoutMin: nat)

  /**
   * A build configuration. `axes` is the axis combination of a matrix build
   * and is empty for every other build.
   */
  datatype BuildType = BuildType(
    id: string,
    name: string,
    kind: Kind,
    axes: map<string, string>,
    settings: Settings)

  const NoSettings := Settings([], map[], [], [], 0)

  /** A freshly constructed build configuration: no id, no name, regular. */
  function NewBuild(): (b: BuildType)
    ensures b.kind == Regular && b.name == "" && b.axes == map[]
  {
    BuildType("", "", Regular, map[], NoSettings)
  }

  /** Copying a prototype's settings into a build (the host's `copyTo`). */
  function CopyTo(prototype: BuildType, b: BuildType): (r: BuildType)
    ensures r.settings == prototype.settings
    ensures r.id == b.id && r.name == b.name && r.kind == b.kind && r.axes == b.axes
  {
    b.(settings := prototype.settings)
  }

  /** A project: the build configurations registered with it, in order. */
  class Project {
    var buildTypes: seq<BuildType>

    constructor ()
      ensures buildTypes == []
    {
      buildTypes := [];
    }

    /** Registers one build configuration after those already registered. */
    method Register(b: BuildType)
      modifies this
      ensures buildTypes == old(buildTypes) + [b]
    {
      buildTypes := buildTypes + [b];
    }
  }
}
