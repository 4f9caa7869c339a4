/**
 * The Gradle test-configuration generator: a `configurations { ... }` block
 * collects configuration records and templates, and then one test build per
 * record is registered with the project, in record order, each with every
 * collected template.
 */
module Gradle {
  import opened Host

  /** A configuration record: a name and an optional Java home and Gradle version. */
  datatype BuildParameters = BuildParameters(name: string, javaHome: Option<string>, gradleVersion: Option<string>)

  const GradleTasks := "clean functionalTest"
  const TimeoutMinutes := 20
  /** The id of the script step a Gradle version adds, and the order it puts the steps in. */
  const WrapperStep := "RUNNER_2"
  const WrapperStepsOrder := ["RUNNER_2", "RUNNER_1"]

  // ---------------------------------------------------------------------------
  // The build id: the name without non-word characters, first letter upper-cased

  /** A regular-expression word character: `[A-Za-z0-9_]`. */
  predicate IsWordChar(c: char) {
    ('a' <= c <= 'z') || ('A' <= c <= 'Z') || ('0' <= c <= '9') || c == '_'
  }

  /** `replace("\\W".toRegex(), "")`: drops every character that is not a word character. */
  function StripNonWord(s: string): (r: string)
    ensures |r| <= |s|
    ensures forall i :: 0 <= i < |r| ==> IsWordChar(r[i])
  {
    if s == [] then []
    else (if IsWordChar(s[0]) then [s[0]] else []) + StripNonWord(s[1..])
  }

  /** Upper-cases an ASCII lower-case letter and leaves every other character alone. */
  function UpperCase(c: char): (u: char)
    ensures 'a' <= c <= 'z' ==> 'A' <= u <= 'Z' && u as int == c as int - 32
    ensures !('a' <= c <= 'z') ==> u == c
  {
    if 'a' <= c <= 'z' then (c as int - 32) as char else c
  }

  /** `capitalize()`: upper-cases the first character and keeps the rest. */
  function Capitalize(s: string): (r: string)
    ensures |r| == |s|
    ensures s != [] ==> r[0] == UpperCase(s[0]) && r[1..] == s[1..]
  {
    if s == [] then [] else [UpperCase(s[0])] + s[1..]
  }

  /** The id a test build derives from its name. */
  function BuildId(name: string): (id: string)
    ensures |id| <= |name|
    ensures forall i :: 0 <= i < |id| ==> IsWordChar(id[i])
    ensures id != [] ==> !('a' <= id[0] <= 'z')
  {
    Capitalize(StripNonWord(name))
  }

  /** Stripping works character by character: it distributes over concatenation. */
  lemma {:induction false} StripNonWordAppend(a: string, b: string)
    ensures StripNonWord(a + b) == StripNonWord(a) + StripNonWord(b)
  {
    if a == [] {
      assert a + b == b;
    } else {
      assert (a + b)[0] == a[0] && (a + b)[1..] == a[1..] + b;
      StripNonWordAppend(a[1..], b);
    }
  }

  /** A character survives stripping exactly when it occurs in the name and is a word character. */
  lemma {:induction false} StripNonWordMembership(s: string, c: char)
    ensures c in StripNonWord(s) <==> c in s && IsWordChar(c)
  {
    if s != [] {
      StripNonWordMembership(s[1..], c);
      assert s == [s[0]] + s[1..];
    }
  }

  /** Stripping changes a name exactly when the name holds a non-word character. */
  lemma {:induction false} StripNonWordFixpoint(s: string)
    ensures StripNonWord(s) == s <==> forall i :: 0 <= i < |s| ==> IsWordChar(s[i])
  {
    if s != [] {
      StripNonWordFixpoint(s[1..]);
      if !IsWordChar(s[0]) {
        assert |StripNonWord(s)| < |s| by {
          assert |StripNonWord(s[1..])| <= |s| - 1;
        }
      } else {
        forall i | 1 <= i < |s| ensures s[i] == s[1..][i - 1] { }
      }
    }
  }

  /** Stripping twice strips no more than stripping once. */
  lemma StripNonWordIdempotent(s: string)
    ensures StripNonWord(StripNonWord(s)) == StripNonWord(s)
  {
    StripNonWordFixpoint(StripNonWord(s));
  }

  /** Deriving an id from an id gives the same id back. */
  lemma BuildIdIdempotent(name: string)
    ensures BuildId(BuildId(name)) == BuildId(name)
  {
    var id := BuildId(name);
    StripNonWordFixpoint(id);
    StripNonWordIdempotent(name);
    var stripped := StripNonWord(name);
    if stripped != [] {
      assert Capitalize(id) == [UpperCase(id[0])] + id[1..];
    }
  }

  /** A name made only of word characters and starting with a capital is its own id. */
  lemma BuildIdOfWordName(name: string)
    requires forall i :: 0 <= i < |name| ==> IsWordChar(name[i])
    requires name != [] ==> !('a' <= name[0] <= 'z')
    ensures BuildId(name) == name
  {
    StripNonWordFixpoint(name);
    if name != [] {
      assert name == [name[0]] + name[1..];
    }
  }

  // ---------------------------------------------------------------------------
  // The test build of one configuration record

  /** The parameters a test build carries. */
  function TestParams(p: BuildParameters): (params: map<string, string>)
    ensures "gradle.tasks" in params && params["gradle.tasks"] == GradleTasks
    ensures "java.home" in params <==> p.javaHome.Some?
    ensures p.javaHome.Some? ==> params["java.home"] == p.javaHome.value
    ensures "gradle.version" in params <==> p.gradleVersion.Some?
    ensures p.gradleVersion.Some? ==> params["gradle.version"] == p.gradleVersion.value
    ensures params.Keys <= {"gradle.tasks", "java.home", "gradle.version"}
  {
    var base := map["gradle.tasks" := GradleTasks];
    var withJava := if p.javaHome.Some? then base["java.home" := p.javaHome.value] else base;
    if p.gradleVersion.Some? then withJava["gradle.version" := p.gradleVersion.value] else withJava
  }

  /**
   * `TestBuildType(parameters, templates)`: a regular build named after the
   * record, with the derived id, every template, the test parameters, the
   * wrapper step and its steps order when a Gradle version is given, and a
   * 20-minute execution timeout.
   */
  function TestBuildType(p: BuildParameters, templates: seq<Template>): (b: BuildType)
    ensures b.id == BuildId(p.name) && b.name == p.name
    ensures b.kind == Regular && b.axes == map[]
    ensures b.settings.templates == templates
    ensures b.settings.params == TestParams(p)
    ensures b.settings.steps == (if p.gradleVersion.Some? then [WrapperStep] else [])
    ensures b.settings.stepsOrder == (if p.gradleVersion.Some? then WrapperStepsOrder else [])
    ensures b.settings.executionTimeoutMin == TimeoutMinutes
  {
    var steps := if p.gradleVersion.Some? then [WrapperStep] else [];
    var order := if p.gradleVersion.Some? then WrapperStepsOrder else [];
    BuildType(BuildId(p.name), p.name, Regular, map[], Settings(templates, TestParams(p), steps, order, TimeoutMinutes))
  }

  /** Reads a record back from the build made for it: the name and the optional parameters. */
  function ParametersOf(b: BuildType): BuildParameters {
    var params := b.settings.params;
    BuildParameters(
      b.name,
      if "java.home" in params then Some(params["java.home"]) else None,
      if "gradle.version" in params then Some(params["gradle.version"]) else None)
  }

  /** A test build records everything about its configuration: the record can be read back. */
  lemma TestBuildTypeRoundTrip(p: BuildParameters, templates: seq<Template>)
    ensures ParametersOf(TestBuildType(p, templates)) == p
  {
  }

  /** Different records always give different test builds. */
  lemma TestBuildTypeInjective(p: BuildParameters, q: BuildParameters, templates: seq<Template>)
    requires TestBuildType(p, templates) == TestBuildType(q, templates)
    ensures p == q
  {
    TestBuildTypeRoundTrip(p, templates);
    TestBuildTypeRoundTrip(q, templates);
  }

  // ---------------------------------------------------------------------------
  // Collecting records and templates

  /** `Configurations`: the records and templates of a `configurations` block, in call order. */
  class Configurations {
    var configurations: seq<BuildParameters>
    var templates: seq<Template>

    constructor ()
      ensures configurations == [] && templates == []
    {
      configurations, templates := [], [];
    }

    /** `configuration(name, javaHome, gradleVersion)`: appends one record. */
    method Configuration(name: string, javaHome: Option<string>, gradleVersion: Option<string>)
      modifies this
      ensures configurations == old(configurations) + [BuildParameters(name, javaHome, gradleVersion)]
      ensures templates == old(templates)
    {
      configurations := configurations + [BuildParameters(name, javaHome, gradleVersion)];
    }

    /** `template(template)`: appends one template. */
    method AddTemplate(t: Template)
      modifies this
      ensures templates == old(templates) + [t]
      ensures configurations == old(configurations)
    {
      templates := templates + [t];
    }
  }

  /** One call made inside a `configurations` block. */
  datatype Call =
    | ConfigurationCall(name: string, javaHome: Option<string>, gradleVersion: Option<string>)
    | TemplateCall(template: Template)

  /** The records that `calls` collect, in call order. */
  function Records(calls: seq<Call>): seq<BuildParameters> {
    if calls == [] then []
    else
      var last := calls[|calls| - 1];
      Records(calls[..|calls| - 1])
      + if last.ConfigurationCall? then [BuildParameters(last.name, last.javaHome, last.gradleVersion)] else []
  }

  /** The templates that `calls` collect, in call order. */
  function Templates(calls: seq<Call>): seq<Template> {
    if calls == [] then []
    else
      var last := calls[|calls| - 1];
      Templates(calls[..|calls| - 1]) + if last.TemplateCall? then [last.template] else []
  }

  /** The collected records and templates of two runs of calls are those of the first run, then the second. */
  lemma {:induction false} CollectAppend(a: seq<Call>, b: seq<Call>)
    ensures Records(a + b) == Records(a) + Records(b)
    ensures Templates(a + b) == Templates(a) + Templates(b)
    decreases |b|
  {
    if b == [] {
      assert a + b == a;
    } else {
      assert (a + b)[..|a + b| - 1] == a + b[..|b| - 1];
      assert (a + b)[|a + b| - 1] == b[|b| - 1];
      CollectAppend(a, b[..|b| - 1]);
    }
  }

  /** Every call adds to exactly one of the two lists. */
  lemma {:induction false} CollectLength(calls: seq<Call>)
    ensures |Records(calls)| + |Templates(calls)| == |calls|
  {
    if calls != [] {
      CollectLength(calls[..|calls| - 1]);
    }
  }

  /** The builds registered for the records, each with every template. */
  function TestBuilds(records: seq<BuildParameters>, templates: seq<Template>): (r: seq<BuildType>)
    ensures |r| == |records|
    ensures forall k :: 0 <= k < |r| ==> r[k].name == records[k].name && r[k].settings.templates == templates
    ensures forall k :: 0 <= k < |r| ==> ParametersOf(r[k]) == records[k]
  {
    seq(|records|, k requires 0 <= k < |records| => TestBuildType(records[k], templates))
  }

  lemma TestBuildsAppend(records: seq<BuildParameters>, k: nat, templates: seq<Template>)
    requires k < |records|
    ensures TestBuilds(records[..k + 1], templates) == TestBuilds(records[..k], templates) + [TestBuildType(records[k], templates)]
  {
  }

  /**
   * A template applies to every configuration of the block, including the
   * ones declared before it.
   */
  lemma TemplateAppliesToEarlierConfigurations(before: seq<Call>, t: Template, after: seq<Call>, k: nat)
    requires k < |Records(before)|
    ensures k < |TestBuilds(Records(before + [TemplateCall(t)] + after), Templates(before + [TemplateCall(t)] + after))|
    ensures t in TestBuilds(Records(before + [TemplateCall(t)] + after),
                            Templates(before + [TemplateCall(t)] + after))[k].settings.templates
  {
    var calls := before + [TemplateCall(t)] + after;
    CollectAppend(before + [TemplateCall(t)], after);
    CollectAppend(before, [TemplateCall(t)]);
    assert [TemplateCall(t)][..0] == [];
    assert Templates([TemplateCall(t)]) == [t];
    assert Records([TemplateCall(t)]) == [];
    assert t in Templates(calls);
  }

  /**
   * `Project.configurations { ... }`: a fresh `Configurations` runs the
   * block's calls in order; then one test build per record, in record order
   * and each with all the templates, is registered with the project.
   */
  method ProjectConfigurations(project: Project, calls: seq<Call>) returns (configs: Configurations)
    modifies project
    ensures fresh(configs)
    ensures configs.configurations == Records(calls) && configs.templates == Templates(calls)
    ensures project.buildTypes == old(project.buildTypes) + TestBuilds(Records(calls), Templates(calls))
  {
    configs := new Configurations();
    var k := 0;
    while k < |calls|
      invariant 0 <= k <= |calls|
      invariant configs.configurations == Records(calls[..k]) && configs.templates == Templates(calls[..k])
      invariant project.buildTypes == old(project.buildTypes)
      modifies configs
    {
      assert calls[..k + 1][..k] == calls[..k];
      match calls[k] {
        case ConfigurationCall(name, javaHome, gradleVersion) =>
          configs.Configuration(name, javaHome, gradleVersion);
        case TemplateCall(t) =>
          configs.AddTemplate(t);
      }
      k := k + 1;
    }
    assert calls[..k] == calls;
    RegisterTestBuilds(project, configs.configurations, configs.templates);
  }

  /** The loop of `Project.configurations` that registers one test build per record. */
  method RegisterTestBuilds(project: Project, records: seq<BuildParameters>, templates: seq<Template>)
    modifies project
    ensures project.buildTypes == old(project.buildTypes) + TestBuilds(records, templates)
  {
    var k := 0;
    while k < |records|
      invariant 0 <= k <= |records|
      invariant project.buildTypes == old(project.buildTypes) + TestBuilds(records[..k], templates)
    {
      project.Register(TestBuildType(records[k], templates));
      TestBuildsAppend(records, k, templates);
      k := k + 1;
    }
    assert records[..k] == records;
  }
}
