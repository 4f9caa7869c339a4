# teamcity-dsl-extensions, modelled in Dafny

This project models the logic in three Kotlin files of the teamcity-dsl-extensions library. The library extends the TeamCity Kotlin DSL. The three parts are:

- **The matrix engine of a stage** (`DefaultMatrix`, `DefaultAxes`, `DefaultExcludes`):
  - Axes are declared once. They form an insertion-ordered map where the first declaration of a name wins.
  - Exclusions are partial assignments of axis values. Each one is validated against the declared axes when it is declared.
  - A single matrix `build` step appends one build per combination that survives the exclusions. Combinations are the cartesian product of the axes, with the first axis varying slowest.
- **Pipelines and stages** (`Pipeline`, `Stage`, `Project.pipeline`):
  - A pipeline is an ordered list of stages.
  - Each stage has a composite gate build named `Stage: <name>` and an ordered list of builds.
  - `Project.pipeline` registers, stage after stage, the gate and then the stage's builds.
- **The Gradle test-configuration generator** (`Configurations`, `TestBuildType`, `Project.configurations`):
  - It collects configuration records and templates.
  - It registers one test build per record. The build's id is derived from the record's name, its parameters and steps depend on which optional fields are present, and it has a 20-minute timeout.

Modules:

- `Host` (`host.dfy`): stand-ins for the DSL types the extensions use but do not define. These are the build configuration record, the project that registers builds in order, and the outcome of a call that may throw.
- `AxisCombinations` (`combinations.dfy`): `combinations()` as a pure fold, and the `include`/`containsMap` filter.
- `Matrices` (`matrices.dfy`): the classes `Axes`, `Excludes` and `Matrix`, whose methods update fields in place.
- `Pipelines` (`pipelines.dfy`): the classes `Stage` and `Pipeline`, and the registration loop of `Project.pipeline`.
- `Gradle` (`gradle.dfy`): the class `Configurations`, the pure `TestBuildType` and the registration loop of `Project.configurations`.

A Kotlin configuration closure is modelled as the sequence of calls it makes:

- A `stage { build {...} }` closure is the sequence of its `build` closures. Each of those is a function from a fresh build to the configured build.
- A `pipeline { stage(...) }` closure is a sequence of stage declarations.
- An `axes { "name"(values) }` closure is a sequence of axis declarations.
- An `excludes { exclude(...) }` closure is a sequence of pair lists.
- A `configurations { ... }` closure is a sequence of `configuration`/`template` calls.

A thrown exception is an `Outcome` of `Fail(error)` carrying the exception's class and message.

## Model

| member | source | states |
|---|---|---|
| AxisCombinations.Combinations | src/main/kotlin/com/github/rodm/teamcity/internal/DefaultPipelineExtension.kt:76-88 | with no axes the result is empty (not one empty map); otherwise it has exactly the product of the axis sizes entries |
| AxisCombinations.CombinationsMembership | src/main/kotlin/com/github/rodm/teamcity/internal/DefaultPipelineExtension.kt:80-86 | a map is a combination iff at least one axis is declared and the map has exactly the declared names as keys, each with one of that axis's values |
| AxisCombinations.CombinationAt | src/main/kotlin/com/github/rodm/teamcity/internal/DefaultPipelineExtension.kt:80-86 | combination i gives axis j the value at mixed-radix digit j of i: lexicographic order, first axis slowest, values in list order |
| AxisCombinations.ContainsMap | src/main/kotlin/com/github/rodm/teamcity/internal/DefaultPipelineExtension.kt:64-66 | the empty exclusion is contained in every combination, a combination contains itself, and a contained exclusion names only axes of the combination; ExclusionIsWildcard gives the converse |
| AxisCombinations.Include | src/main/kotlin/com/github/rodm/teamcity/internal/DefaultPipelineExtension.kt:60-62 | with no exclusions every combination is included; an empty exclusion, or the combination itself registered as an exclusion, excludes it |
| AxisCombinations.Surviving | src/main/kotlin/com/github/rodm/teamcity/internal/DefaultPipelineExtension.kt:49-51 | the filter never grows the list and keeps only included combinations; SurvivingMembership and SurvivingInOrder give the rest |
| AxisCombinations.SurvivingMembership | src/main/kotlin/com/github/rodm/teamcity/internal/DefaultPipelineExtension.kt:49-66 | a combination survives iff it is generated and no exclusion is a sub-map of it |
| AxisCombinations.SurvivingInOrder | src/main/kotlin/com/github/rodm/teamcity/internal/DefaultPipelineExtension.kt:48-51 | the survivors are the combinations at strictly increasing positions, and a position is kept iff its combination is included |
| AxisCombinations.SurvivingWithoutExcludes | src/main/kotlin/com/github/rodm/teamcity/internal/DefaultPipelineExtension.kt:60-62 | with no exclusions every combination survives, in order |
| AxisCombinations.EmptyExclusionRemovesAll | src/main/kotlin/com/github/rodm/teamcity/internal/DefaultPipelineExtension.kt:64-66 | an exclusion with no pairs is a sub-map of every combination, so nothing survives |
| AxisCombinations.ExclusionIsWildcard | src/main/kotlin/com/github/rodm/teamcity/internal/DefaultPipelineExtension.kt:64-66 | a combination that agrees with an exclusion on the axes the exclusion names is removed, whatever its other values |
| AxisCombinations.SurvivingOrderIndependent | src/main/kotlin/com/github/rodm/teamcity/internal/DefaultPipelineExtension.kt:60-62 | only the set of exclusions matters, not their order or repetition |
| Matrices.DeclareAllExtends | src/main/kotlin/com/github/rodm/teamcity/internal/DefaultPipelineExtension.kt:69-74 | declarations keep the earlier axes and their positions, the names become the union of both lists, and names stay distinct |
| Matrices.Put | src/main/kotlin/com/github/rodm/teamcity/internal/DefaultPipelineExtension.kt:73 | `putIfAbsent`: the existing axes keep their positions; a declared name leaves the axes unchanged, and a new one is added at the end |
| Matrices.DeclareAll | src/main/kotlin/com/github/rodm/teamcity/internal/DefaultPipelineExtension.kt:72-74 | running declarations in order never shrinks the axes or moves the earlier ones, and adds at most one axis per declaration |
| Matrices.RedeclarationIgnored | src/main/kotlin/com/github/rodm/teamcity/internal/DefaultPipelineExtension.kt:72-74 | declaring an existing name again changes nothing |
| Matrices.FirstDeclarationKept | src/main/kotlin/com/github/rodm/teamcity/internal/DefaultPipelineExtension.kt:72-74 | the first declaration of a new name is among the axes |
| Matrices.Axes.constructor | src/main/kotlin/com/github/rodm/teamcity/internal/DefaultPipelineExtension.kt:69-70 | no axes are declared at first |
| Matrices.Axes.Declare | src/main/kotlin/com/github/rodm/teamcity/internal/DefaultPipelineExtension.kt:72-74 | `putIfAbsent`: the axes become the old ones with the declaration put in, and an existing name leaves the state unchanged |
| Matrices.Validate | src/main/kotlin/com/github/rodm/teamcity/internal/DefaultPipelineExtension.kt:94-102 | validation passes iff every pair names a declared axis and one of that axis's values |
| Matrices.FirstInvalid | src/main/kotlin/com/github/rodm/teamcity/internal/DefaultPipelineExtension.kt:94-102 | a failed validation fails on the first invalid pair: all pairs before it are valid, and the error is "Invalid name: X" for an undeclared axis or "Invalid value: V" for a value not in the axis |
| Matrices.ToMapKeys | src/main/kotlin/com/github/rodm/teamcity/internal/DefaultPipelineExtension.kt:103 | the exclusion map's keys are exactly the names of its pairs |
| Matrices.ToMapLastWins | src/main/kotlin/com/github/rodm/teamcity/internal/DefaultPipelineExtension.kt:103 | the last pair for a name gives that name's value |
| Matrices.ToMap | src/main/kotlin/com/github/rodm/teamcity/internal/DefaultPipelineExtension.kt:103 | no pairs give the empty map, and the last pair's name maps to the last pair's value |
| Matrices.ValidExclusion | src/main/kotlin/com/github/rodm/teamcity/internal/DefaultPipelineExtension.kt:94-103 | a validated exclusion only names declared axes and their values |
| Matrices.Excludes.Exclude | src/main/kotlin/com/github/rodm/teamcity/internal/DefaultPipelineExtension.kt:94-104 | the outcome is the validation result; exactly one map is appended on success, and the list is unchanged on failure |
| Matrices.FirstRejected | src/main/kotlin/com/github/rodm/teamcity/internal/DefaultPipelineExtension.kt:40-42 | the position of the first exclusion that fails validation: all before it pass, and it fails |
| Matrices.FirstRejectedAt | src/main/kotlin/com/github/rodm/teamcity/internal/DefaultPipelineExtension.kt:40-42 | a run of accepted exclusions followed by a rejected one (or by the end) determines the first rejected position uniquely |
| Matrices.Matrix.constructor | src/main/kotlin/com/github/rodm/teamcity/internal/DefaultPipelineExtension.kt:27-31 | a new matrix has fresh empty axes shared with its exclusions, and neither flag set |
| Matrices.Matrix.DefineAxes | src/main/kotlin/com/github/rodm/teamcity/internal/DefaultPipelineExtension.kt:33-38 | the first call runs the declarations in order; a second throws "only one axes configuration can be defined" and changes no axes |
| Matrices.Matrix.DefineExcludes | src/main/kotlin/com/github/rodm/teamcity/internal/DefaultPipelineExtension.kt:40-42 | the exclusions before the first rejected one are appended, and the call fails with that one's error or passes when there is none |
| Matrices.MatrixBuild | src/main/kotlin/com/github/rodm/teamcity/internal/DefaultPipelineExtension.kt:52-55 | a matrix build carries its combination and has the id the host derives from its final name |
| Matrices.Matrix.Build | src/main/kotlin/com/github/rodm/teamcity/internal/DefaultPipelineExtension.kt:44-57 | the first call appends one build per surviving combination, in combination order, after the stage's existing builds; a second throws "only one matrix build configuration can be defined" and appends nothing |
| Matrices.MatrixBuildsSound | src/main/kotlin/com/github/rodm/teamcity/internal/DefaultPipelineExtension.kt:48-56 | every appended build's combination assigns each axis one of its values and matches no exclusion |
| Matrices.MatrixBuildsComplete | src/main/kotlin/com/github/rodm/teamcity/internal/DefaultPipelineExtension.kt:48-56 | every such combination gets a build, provided at least one axis is declared |
| Pipelines.Stage.constructor | src/main/kotlin/com/github/rodm/teamcity/PipelineExtension.kt:47-55 | the gate is named "Stage: " + name and is composite, and the stage has no builds |
| Pipelines.Gate | src/main/kotlin/com/github/rodm/teamcity/PipelineExtension.kt:51-55 | the gate is named "Stage: " + name, is composite, and otherwise is a fresh build (no id, no axes, default settings) |
| Pipelines.Stage.Build | src/main/kotlin/com/github/rodm/teamcity/PipelineExtension.kt:57-61 | exactly one configured build is appended and the earlier builds are kept |
| Pipelines.Pipeline.constructor | src/main/kotlin/com/github/rodm/teamcity/PipelineExtension.kt:37-38 | a new pipeline has no stages |
| Pipelines.Pipeline.AddStage | src/main/kotlin/com/github/rodm/teamcity/PipelineExtension.kt:40-44 | exactly one new stage with that name is appended for any name (no duplicate check); it holds its configured builds, and earlier stages are unchanged |
| Pipelines.ProjectPipeline | src/main/kotlin/com/github/rodm/teamcity/PipelineExtension.kt:25-35 | a fresh pipeline holds exactly the declared stages; the project gains each stage's gate then its builds, in stage order |
| Pipelines.RegisterStages | src/main/kotlin/com/github/rodm/teamcity/PipelineExtension.kt:29-34 | the nested loops append exactly the registration order |
| Pipelines.Registration | src/main/kotlin/com/github/rodm/teamcity/PipelineExtension.kt:29-34 | at least one build per stage is registered, and the last stage's gate is among them; RegistrationLength and StageRegistered give the exact order |
| Pipelines.RegistrationAppend | src/main/kotlin/com/github/rodm/teamcity/PipelineExtension.kt:29-34 | registering two runs of stages is registering the first run, then the second |
| Pipelines.RegistrationLength | src/main/kotlin/com/github/rodm/teamcity/PipelineExtension.kt:29-34 | the number registered is the number of stages plus the sum of their build counts |
| Pipelines.StageRegistered | src/main/kotlin/com/github/rodm/teamcity/PipelineExtension.kt:29-34 | stage i occupies one contiguous run, gate first, at offset i plus the builds of the stages before it |
| Gradle.StripNonWord | src/main/kotlin/com/github/rodm/teamcity/gradle/GradleBuildExtensions.kt:38 | the result is no longer than the name and holds only `[A-Za-z0-9_]` characters |
| Gradle.StripNonWordMembership | src/main/kotlin/com/github/rodm/teamcity/gradle/GradleBuildExtensions.kt:38 | a character is in the result iff it is in the name and is a word character |
| Gradle.StripNonWordAppend | src/main/kotlin/com/github/rodm/teamcity/gradle/GradleBuildExtensions.kt:38 | stripping distributes over concatenation |
| Gradle.StripNonWordFixpoint | src/main/kotlin/com/github/rodm/teamcity/gradle/GradleBuildExtensions.kt:38 | stripping leaves a name unchanged iff it has only word characters |
| Gradle.StripNonWordIdempotent | src/main/kotlin/com/github/rodm/teamcity/gradle/GradleBuildExtensions.kt:38 | stripping twice equals stripping once |
| Gradle.UpperCase | src/main/kotlin/com/github/rodm/teamcity/gradle/GradleBuildExtensions.kt:38 | lower-case ASCII letters map to their capitals, and every other character is kept |
| Gradle.Capitalize | src/main/kotlin/com/github/rodm/teamcity/gradle/GradleBuildExtensions.kt:38 | same length; the first character is upper-cased and the rest is unchanged |
| Gradle.BuildId | src/main/kotlin/com/github/rodm/teamcity/gradle/GradleBuildExtensions.kt:38 | the id has only word characters and does not start with a lower-case letter |
| Gradle.BuildIdIdempotent | src/main/kotlin/com/github/rodm/teamcity/gradle/GradleBuildExtensions.kt:38 | deriving an id from an id gives it back |
| Gradle.BuildIdOfWordName | src/main/kotlin/com/github/rodm/teamcity/gradle/GradleBuildExtensions.kt:38 | a word-character name not starting with a lower-case letter is its own id |
| Gradle.TestParams | src/main/kotlin/com/github/rodm/teamcity/gradle/GradleBuildExtensions.kt:42-52 | `gradle.tasks` is always "clean functionalTest"; `java.home` and `gradle.version` are present iff given, with the given values; there are no other parameters |
| Gradle.TestBuildType | src/main/kotlin/com/github/rodm/teamcity/gradle/GradleBuildExtensions.kt:36-69 | the build has the record's name and derived id, all templates and the test parameters; the RUNNER_2 step and the order RUNNER_2, RUNNER_1 are present iff a Gradle version is given; the timeout is 20 minutes |
| Gradle.TestBuildTypeRoundTrip | src/main/kotlin/com/github/rodm/teamcity/gradle/GradleBuildExtensions.kt:36-52 | the record can be read back from its build |
| Gradle.TestBuildTypeInjective | src/main/kotlin/com/github/rodm/teamcity/gradle/GradleBuildExtensions.kt:36-52 | different records give different builds |
| Gradle.Configurations.constructor | src/main/kotlin/com/github/rodm/teamcity/gradle/GradleBuildExtensions.kt:20-22 | both lists start empty |
| Gradle.Configurations.Configuration | src/main/kotlin/com/github/rodm/teamcity/gradle/GradleBuildExtensions.kt:24-27 | appends exactly one record holding the three values; templates unchanged |
| Gradle.Configurations.AddTemplate | src/main/kotlin/com/github/rodm/teamcity/gradle/GradleBuildExtensions.kt:29-31 | appends exactly the template; records unchanged |
| Gradle.CollectAppend | src/main/kotlin/com/github/rodm/teamcity/gradle/GradleBuildExtensions.kt:20-32 | the records and templates of two runs of calls are those of the first run, then the second |
| Gradle.CollectLength | src/main/kotlin/com/github/rodm/teamcity/gradle/GradleBuildExtensions.kt:20-32 | every call adds to exactly one of the two lists |
| Gradle.TemplateAppliesToEarlierConfigurations | src/main/kotlin/com/github/rodm/teamcity/gradle/GradleBuildExtensions.kt:14-17 | a template applies to every configuration, including the ones declared before it |
| Gradle.ProjectConfigurations | src/main/kotlin/com/github/rodm/teamcity/gradle/GradleBuildExtensions.kt:10-18 | the records and templates are collected in call order, and the project gains one test build per record, in record order, each with all templates |
| Gradle.RegisterTestBuilds | src/main/kotlin/com/github/rodm/teamcity/gradle/GradleBuildExtensions.kt:15-17 | the loop appends one test build per record, in order |
| Gradle.TestBuilds | src/main/kotlin/com/github/rodm/teamcity/gradle/GradleBuildExtensions.kt:15-17 | one build per record in record order, each named after its record, carrying every template, and from which its record can be read back |

## Left out

- The host DSL library is not part of this model. That covers:
  - The internals of `BuildType`, `Project` and `Template`.
  - Host registration (`buildType(...)`). It is modelled as appending to the project's list.
  - `copyTo`. It is modelled as copying the prototype's settings.
  - The script step's content. Only the step id is kept.
- `toId` is host code. It is a function parameter of `Matrices.Matrix.Build`, and nothing is assumed about it.
- `MatrixBuildType` is not part of this model. A matrix build's combination is read-only, so the build closure cannot change it.
- Closures run as sequences of recorded calls (see above). The DSL receiver mechanics are not modelled, and neither are closures that read back state while they run.
- Matrix `build`, `axes` and `excludes` are reachable only through the `Matrix` class. `Stage` in PipelineExtension.kt has no `matrix` call, so a stage closure in `Pipelines` contains only `build` calls.
- `Pipelines.Stage`: `Stage` in PipelineExtension.kt has no `defaults` property, but DefaultPipelineExtension.kt:53 reads `stage.defaults`. The model adds a `defaults` field that starts as a fresh build and is never reassigned.
- `Pipelines.ProjectPipeline`: the global `lateinit var pipeline` is replaced by the fresh pipeline the method returns.
- The following are asserted only by tests (src/test/kotlin/com/github/rodm/teamcity/PipelineExtensionTest.kt:135-257, src/test/kotlin/com/github/rodm/teamcity/PipelineArtifactsTest.kt, src/test/kotlin/com/github/rodm/teamcity/PipelineBuildTypesTest.kt) whose implementation is not in PipelineExtension.kt, so they are not modelled:
  - Stage dependency wiring and default chaining.
  - Artifacts, deploy builds and templates.
  - Stage ids.
- `Pipelines.Pipeline.AddStage`: `stage` makes no duplicate-name check, so a name that is already used is accepted and the stage list grows by one.
- `Pipelines.Stage.constructor` leaves the gate's id unset, as the `Stage` init block in PipelineExtension.kt:51-55 sets only the name and the type. The tests at src/test/kotlin/com/github/rodm/teamcity/PipelineExtensionTest.kt:180 and :193 expect the id "Stage_Stage1", which comes from code that is not in PipelineExtension.kt.
- `Gradle.BuildId` upper-cases as the root locale does. The project builds with Kotlin 1.4.21 (build.gradle.kts:7), whose `capitalize()` uses the JVM's default locale; under a tr/az default locale a leading 'i' becomes 'İ', which is not a word character, and this model does not capture that.
- `src/main/kotlin/com/github/rodm/teamcity/project/ProjectExtensions.kt` is not part of this model. It only sets fixed host parameters.
