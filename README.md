# Dev build tool: a Dafny model

The repository ships a small .NET build tool, `tools/Dev`. It defines build targets: `solution`, `clean`, `dotnet`, `build`, `test.integration`, `test.unit`, `test`, `coverage`, `lint`, `publish` and `default`. Each target names the targets it depends on. Most targets also have an action: an action runs `dotnet`, the container runtime, `reportgenerator` or `git` with an argument string built from fixed words, artifact paths and a few environment settings.

This project models that tool's own logic:

- **Settings.** `DevEnvironmentVariable` is a prefixed variable name with an optional default. Its value is looked up lazily on the first read and cached after that. It also has a case-insensitive "truthy" test. `EnvironmentVariables` holds the four settings.
- **Command lines.** The model builds every command line a target runs: `DotnetCli.Run`, the `dotnet`, `lint`, `coverage`, `test` and `publish` actions, the commit id from `git`, and the artifact paths.
- **Solution filter.** The `solution` target computes where the filter goes and which project paths it lists.
- **Dependency graph.** The model gives the declared graph and proves facts about it: it agrees with every target's registration, its exact edges, which targets have no action, that it is acyclic, and that from every target a chain of dependencies reaches `solution` or `lint`.
- **Registration.** Start-up registers targets with the service collection. As written, only the `default` target is registered.

How the model represents the outside world:

- **Environment.** The process environment is a `map<string, string>`. A name missing from the map is a variable that is not set.
- **External programs.** Every call to an external program is an `Invocation`: the program name and its single argument string. An exit-code function says how each invocation ends, and a non-zero code is the exit-code exception. The captured output of `git` is a parameter as well.
- **Directories.** The working tree, as far as the lint target moves directories, is a `Disk` object. It holds a set of directory paths.

Where the code and its documentation differ, the model follows the code:

- **Defaults.** A setting falls back to its default only when the variable is not set. A variable set to the empty string keeps the empty string.
- **Registration.** `AddTargets` registers `DefaultTarget` alone, so the collection the tool builds holds `default` and nothing it depends on. `Registration.OnlyDefaultRegistered` states this. `Registration.AllTypesResolve` states that registering every target type leaves no dependency unresolved.

Where the code leaves a gap, the model fills it:

- **Missing `Publish` key.** The `publish` target refers to a `Publish` target key that `tools/Dev/Targets/TargetKeys.cs` does not declare. The model names that target "publish".

## Model

| member | source | states |
|---|---|---|
| DevEnvironment.DeclareWithoutDefault | tools/Dev/DevEnvironmentVariable.cs:17-21 | succeeds exactly when the name is neither null nor empty; the name becomes the prefix followed by the given name and the default stays null; a null name fails with the null-argument error and an empty one with the empty-argument error, both for `name` |
| DevEnvironment.DeclareWithDefault | tools/Dev/DevEnvironmentVariable.cs:23-28 | succeeds exactly when name and default are both neither null nor empty; the name is checked first and its failure is passed on unchanged; only then is a null or empty default rejected, naming `defaultValue`; on success the name is prefixed and the default kept |
| DevEnvironment.ValueOf | tools/Dev/DevEnvironmentVariable.cs:40-44 | the value read is the looked-up value whenever the variable is set (the empty string included), the default when it is not set, and "" when there is neither |
| DevEnvironment.Lookup | tools/Dev/DevEnvironmentVariable.cs:40 | the lookup finds a value if and only if the variable is set, and then it is the variable's value |
| DevEnvironment.CheckNotNullOrEmpty | tools/Dev/DevEnvironmentVariable.cs:19 | no error if and only if the argument is non-null and non-empty; an error names the checked parameter and is the null-argument error exactly when the argument is null |
| DevEnvironment.TruthyIff | tools/Dev/DevEnvironmentVariable.cs:48-49 | a value is truthy if and only if its upper-case form is "1", "ON", "TRUE" or "YES" |
| DevEnvironment.Truthy | tools/Dev/DevEnvironmentVariable.cs:48-49 | a truthy value has between one and four characters |
| DevEnvironment.TruthyExamples | tools/Dev/DevEnvironmentVariable.cs:7-13 | "YES", "Yes", "on", "TRUE" and "1" are truthy; "y", " yes", "yes ", "" and "0" are not |
| DevEnvironment.DevEnvironmentVariable.FromDeclaration | tools/Dev/DevEnvironmentVariable.cs:17-28 | a new setting holds the checked name and default and has not read its value yet |
| DevEnvironment.DevEnvironmentVariable.New | tools/Dev/DevEnvironmentVariable.cs:17-21 | the one-argument constructor yields the argument error when the name is rejected, and otherwise a fresh, unread setting with the prefixed name and no default |
| DevEnvironment.DevEnvironmentVariable.NewWithDefault | tools/Dev/DevEnvironmentVariable.cs:23-28 | the two-argument constructor yields the first argument error, and otherwise a fresh, unread setting with the prefixed name and the default |
| DevEnvironment.DevEnvironmentVariable.Value | tools/Dev/DevEnvironmentVariable.cs:34-46 | the first read stores the lookup, or the default when the lookup is null, and marks the setting read; the environment is consulted exactly once; later reads return the cached value whatever the environment then holds |
| DevEnvironment.DevEnvironmentVariable.IsTruthy | tools/Dev/DevEnvironmentVariable.cs:48-49 | the result is the truthy test of the value the read returns, with the same caching as `Value` |
| EnvironmentVariables.StaticInitializationSucceeds | tools/Dev/EnvironmentVariables.cs:5-8 | none of the four initialisers fails; configuration defaults to "Release", the container runtime to "podman", and the two flags have no default |
| EnvironmentVariables.NamesDistinct | tools/Dev/EnvironmentVariables.cs:5-8 | the four full variable names are pairwise different |
| EnvironmentVariables.UnsetFlagsAreFalse | tools/Dev/EnvironmentVariables.cs:7-8 | when the local-build and local-lint variables are not set, the value read through the declared flags (no default) is "" for both, and neither is truthy |
| EnvironmentVariables.UnsetSettingsUseDefaults | tools/Dev/EnvironmentVariables.cs:5-6 | when not set, the value read through the declared configuration and container-runtime settings is "Release" and "podman" |
| EnvironmentVariables.UnreadSettingsInEmptyEnvironment | tools/Dev/EnvironmentVariables.cs:5-8 | for the settings object itself, none read yet and none of the four variables set: the configuration is "Release", the container runtime "podman", and both flags read "" and are not truthy |
| EnvironmentVariables.Variables.constructor | tools/Dev/EnvironmentVariables.cs:5-8 | four distinct fresh settings with the declared names and defaults, none read yet |
| Strings.SplitJoin | tools/Dev/DotnetCli.cs:15 | joining words that do not contain the separator and cutting the result at the separator gives the words back |
| Strings.JoinSplit | tools/Dev/DotnetCli.cs:15 | cutting any string at a separator and joining the pieces with it gives the string back |
| Strings.Join | tools/Dev/DotnetCli.cs:15 | the joined string starts with the first part |
| Strings.RemoveAll | tools/Dev/GitCli.cs:11 | the result is never longer than the input, and is the input itself when the pattern's first character does not occur |
| Strings.RemoveAllSingleCharacter | tools/Dev/GitCli.cs:11 | deleting every occurrence of a one-character string is filtering that character out |
| DotnetCli.RunInvocation | tools/Dev/DotnetCli.cs:24 | the program run is always "dotnet" |
| DotnetCli.FixedTokensJoined | tools/Dev/DotnetCli.cs:7-8 | the fixed part of the format is the command, "--configuration", the configuration, "--verbosity", "minimal", "--nologo", separated by single spaces |
| DotnetCli.ArgumentsAreSpaceJoined | tools/Dev/DotnetCli.cs:12-23 | the argument string is the fixed words followed by the extra arguments, in order and verbatim, separated by single spaces |
| DotnetCli.NoExtraArguments | tools/Dev/DotnetCli.cs:12-16 | without extra arguments the string is command, " --configuration ", configuration, " --verbosity minimal --nologo" and ends there |
| DotnetCli.ArgumentsRecoverable | tools/Dev/DotnetCli.cs:15 | nothing is quoted: cutting the string at spaces gives back the words that went in if and only if none of them contains a space |
| DotnetCli.Run | tools/Dev/DotnetCli.cs:10-26 | reads the configuration setting (caching it), makes exactly one `dotnet` invocation with the composed string, and ends as that invocation does |
| GitCli.GetCommitId | tools/Dev/GitCli.cs:7-12 | succeeds exactly when `git rev-parse HEAD` exits with 0; the commit id is that call's standard output with line feeds removed, standard error unused |
| GitCli.StripNewlinesSpec | tools/Dev/GitCli.cs:11 | the stripped id has no line feed, is a subsequence of the output keeping every other character (carriage returns included) in number and order, and is shorter by the number of line feeds |
| GitCli.StripNewlinesIdempotent | tools/Dev/GitCli.cs:11 | stripping twice is stripping once |
| GitCli.StripTrailingNewline | tools/Dev/GitCli.cs:11 | an id followed by one line feed gives the id |
| GitCli.StripNewlines | tools/Dev/GitCli.cs:11 | the stripped output has no line feed and is no longer than the output |
| ArtifactPaths.PathsBelowRoot | tools/Dev/ArtifactPaths.cs:12-24 | every path constant starts with "artifacts/" |
| ArtifactPaths.ExecutablePathRoundTrip | tools/Dev/ArtifactPaths.cs:15 | the executable path is "artifacts/executables//" + name + "/" + runtime, and name and runtime can be read back from it |
| ArtifactPaths.ExecutablePathInjective | tools/Dev/ArtifactPaths.cs:15 | two executable paths are equal only for the same name and runtime |
| ArtifactPaths.ExecutablePathInjectiveInRuntime | tools/Dev/ArtifactPaths.cs:15 | for one project name, two executable paths are equal only for the same runtime, whatever the name contains |
| ArtifactPaths.TestResultPathRoundTrip | tools/Dev/ArtifactPaths.cs:25 | the test result path is "artifacts/tests/results/" + name, and the name can be read back |
| ArtifactPaths.TestPathsExact | tools/Dev/ArtifactPaths.cs:21-24 | the results, coverage and coverage-glob paths written out |
| ArtifactPaths.TestDirectoriesDistinct | tools/Dev/ArtifactPaths.cs:19-24 | coverage and results are two different children of the tests directory; the glob is the results path plus "/*/*/coverage.cobertura.xml"; the solution filter is "artifacts/__PROJECT__.slnf" |
| Process.RunAllFailsFast | tools/Dev/Targets/Build/PublishTarget.cs:19-28 | awaiting calls in turn makes a prefix of them; all calls made but the last succeeded; the sequence passes if and only if every call succeeds, in which case all were made; otherwise it fails with the last call's non-zero exit |
| Process.RunAllSnoc | tools/Dev/Targets/Build/PublishTarget.cs:19-28 | one more call is made only if everything before it succeeded, and then decides the outcome |
| Process.RunAllAfterFailure | tools/Dev/Targets/Build/PublishTarget.cs:19-28 | after a failure, later calls are not made |
| Process.RunAll | tools/Dev/Targets/Build/PublishTarget.cs:19-28 | the calls made are a prefix of the calls; all of them when the sequence passes, at least one when it fails |
| Process.RunAllStep | tools/Dev/Targets/Build/PublishTarget.cs:19-28 | when the first calls have all succeeded, a further success extends the passing prefix and a failure decides the whole sequence |
| Targets.TargetCollection.constructor | tools/Dev/Program.cs:9 | a new target collection is empty |
| Targets.TargetCollection.Add | tools/Dev/Targets/Build/TestTarget.cs:25-30 | adding appends exactly one definition and keeps the others |
| DotnetTarget.Setup | tools/Dev/Targets/Build/DotnetTarget.cs:5-10 | registers "dotnet" with its description, after exactly `clean`, with an action |
| DotnetTarget.ExtraArgumentsSpec | tools/Dev/Targets/Build/DotnetTarget.cs:14-20 | at most one extra argument, always "/warnaserror", present if and only if the local-build flag is off; the command is "build artifacts/__PROJECT__.slnf" |
| DotnetTarget.BuildArguments | tools/Dev/Targets/Build/DotnetTarget.cs:14-21 | the call runs "dotnet" with the build command, the configuration, the fixed options and " /warnaserror" exactly when not building locally |
| DotnetTarget.Execute | tools/Dev/Targets/Build/DotnetTarget.cs:12-22 | reads the local-build flag and the configuration, and makes exactly that one call, ending as it does; both settings are then cached and read the same in every later environment |
| LintTarget.Setup | tools/Dev/Targets/LintTarget.cs:5-9 | registers "lint" with its description, without dependencies, with an action |
| LintTarget.LintInvocation | tools/Dev/Targets/LintTarget.cs:27 | the program run is the container runtime setting |
| LintTarget.ArgumentListShape | tools/Dev/Targets/LintTarget.cs:13-25 | "run", "--rm" and the volume of the working directory come first, the MegaLinter image last; "--env APPLY_FIXES=all" is present, just before the image, if and only if the local-lint flag is on; four or five arguments |
| LintTarget.PathFacts | tools/Dev/Targets/LintTarget.cs:30-35 | the lint results lie directly in "artifacts", and neither the reports directory nor "artifacts" lies in the results tree, nor the other way round |
| LintTarget.ClearedSpec | tools/Dev/Targets/LintTarget.cs:30-33 | deleting the old results when present removes exactly the results tree |
| LintTarget.MoveReportsSpec | tools/Dev/Targets/LintTarget.cs:35 | after the move the reports directory is gone; every directory of the reports tree arrives at the same place under the results; every other directory stays; everything in the results tree came from the reports |
| LintTarget.AfterRunSpec | tools/Dev/Targets/LintTarget.cs:30-35 | after a successful container run the action succeeds exactly when the reports and "artifacts" exist; then every reports directory arrives under the results, the results hold nothing else, the reports directory is gone, and every directory outside both trees is kept with none added; on failure the old results are deleted all the same and nothing else changes |
| LintTarget.AfterRun | tools/Dev/Targets/LintTarget.cs:30-35 | on success the results directory exists; a failure is an input/output error |
| LintTarget.Execute | tools/Dev/Targets/LintTarget.cs:11-36 | builds the argument list from the flag, runs the container runtime with it joined by spaces; if that fails, the disk is untouched; otherwise the disk and outcome are those of the delete-then-move; the runtime and flag settings are then cached and read the same in every later environment |
| FileSystem.Delete | tools/Dev/Targets/LintTarget.cs:32 | succeeds exactly when the directory exists, removing it and all below it (no directory inside it is left) and nothing else |
| FileSystem.Move | tools/Dev/Targets/LintTarget.cs:35 | succeeds exactly when the source exists, the destination does not and the destination's parent does; the destination then exists, and the source is gone unless the destination is a prefix of it; a missing source is reported as not found |
| FileSystem.Disk.Exists | tools/Dev/Targets/LintTarget.cs:30 | true exactly for an existing directory |
| FileSystem.Disk.DeleteRecursive | tools/Dev/Targets/LintTarget.cs:32 | the disk afterwards is the delete's result, unchanged on failure |
| FileSystem.Disk.MoveDirectory | tools/Dev/Targets/LintTarget.cs:35 | the disk afterwards is the move's result, unchanged on failure |
| CoverageTarget.Setup | tools/Dev/Targets/Build/CoverageTarget.cs:10-15 | registers "coverage" with its description, after exactly `test`, with an action |
| CoverageTarget.FilterPatternsExact | tools/Dev/Targets/Build/CoverageTarget.cs:19-26 | the five assembly patterns in order, as rendered from the pattern format |
| CoverageTarget.FiltersShape | tools/Dev/Targets/Build/CoverageTarget.cs:19-27 | one include pattern, first, then four excludes; the joined filter has no space, and cutting it at commas gives the five patterns back |
| CoverageTarget.ReportArgumentsExact | tools/Dev/Targets/Build/CoverageTarget.cs:32-41 | the seven words in order, with the report glob and target directory written out and the tag carrying the commit id |
| CoverageTarget.FixedWordsWithoutSpace | tools/Dev/Targets/Build/CoverageTarget.cs:32-41 | every word but the tag is free of spaces |
| CoverageTarget.ReportInvocation | tools/Dev/Targets/Build/CoverageTarget.cs:43 | the report generator is run under "dotnet" |
| CoverageTarget.ReportArgumentsRecoverable | tools/Dev/Targets/Build/CoverageTarget.cs:43 | cutting the argument string at spaces gives back the seven words if and only if the commit id has no space |
| CoverageTarget.ExecuteSpec | tools/Dev/Targets/Build/CoverageTarget.cs:17-45 | git runs first; if it fails, nothing else runs and the target fails with git's exit; otherwise the report runs once, tagged with the line-feed-free standard output, and decides the outcome |
| CoverageTarget.Execute | tools/Dev/Targets/Build/CoverageTarget.cs:17-45 | git's rev-parse runs first, and one or two calls are made in all |
| TestTarget.ProjectItems | tools/Dev/Targets/Build/TestTarget.cs:29 | a suite target fans out over its projects, one item each, in order |
| TestTarget.SuiteNames | tools/Dev/Targets/Build/TestTarget.cs:36-37 | the suite names in suite order |
| TestTarget.DefinitionsSpec | tools/Dev/Targets/Build/TestTarget.cs:21-38 | one target per suite in suite order, each after exactly `dotnet` and fanning out over that suite's projects, then `test` without action after exactly the suites; one more target than suites |
| TestTarget.RepositorySuites | tools/Dev/Targets/Build/TestTarget.cs:5-19 | three targets: "test.integration", "test.unit", then "test" depending on them in that order |
| TestTarget.Setup | tools/Dev/Targets/Build/TestTarget.cs:21-38 | the registration loop appends exactly those definitions |
| TestTarget.TestArgumentsSpec | tools/Dev/Targets/Build/TestTarget.cs:42-49 | "--no-build", the coverage collector, "--logger trx", then the results directory "artifacts/tests/results/" + name; different names never share a directory |
| TestTarget.TestInvocationSpec | tools/Dev/Targets/Build/TestTarget.cs:43-49 | runs "dotnet" with "test " + project path, the fixed options and those four arguments, space-joined |
| TestTarget.Execute | tools/Dev/Targets/Build/TestTarget.cs:40-51 | one `dotnet test` call for the project, ending as it does; the configuration is then cached and reads the same in every later environment |
| PublishTarget.ProjectItems | tools/Dev/Targets/Build/PublishTarget.cs:14 | the target fans out over the listed projects, one item each, in order |
| PublishTarget.Setup | tools/Dev/Targets/Build/PublishTarget.cs:9-15 | registers "publish" with its description, after exactly `dotnet`, fanning out over the projects |
| PublishTarget.NothingToPublish | tools/Dev/Targets/Build/PublishTarget.cs:5-15 | no project is listed, so the fan-out has no item; the target depends on exactly `dotnet` |
| PublishTarget.PublishInvocation | tools/Dev/Targets/Build/PublishTarget.cs:22-27 | each publish call runs "dotnet" |
| PublishTarget.PublishInvocations | tools/Dev/Targets/Build/PublishTarget.cs:19-28 | one call per runtime, in runtime order |
| PublishTarget.PublishArgumentsSpec | tools/Dev/Targets/Build/PublishTarget.cs:21-26 | "--runtime " + runtime, then "--output artifacts/executables//" + name + "/" + runtime; for any project name, two runtimes never share an output |
| PublishTarget.PublishFailsFast | tools/Dev/Targets/Build/PublishTarget.cs:19-28 | runtimes are published in order while they succeed; the first failure ends the action and later runtimes are not published |
| PublishTarget.Execute | tools/Dev/Targets/Build/PublishTarget.cs:17-29 | the loop makes exactly the fail-fast sequence of publish calls, with the configuration read once; with at least one runtime the configuration is then cached and reads the same in every later environment, and with none it is untouched |
| Paths.LastSeparator | tools/Dev/Targets/Build/SolutionTarget.cs:29 | the position of the last separator, with none after it, or none at all |
| Paths.GetFileName | tools/Dev/Targets/Build/SolutionTarget.cs:29 | the file name is a separator-free suffix of the path, and when it is shorter than the path the character before it is a separator (the name is everything after the last separator) |
| Paths.GetFileNameWithoutExtension | tools/Dev/Targets/Build/SolutionTarget.cs:29 | the name without extension is a prefix of the file name |
| Paths.Combine | tools/Dev/Targets/Build/SolutionTarget.cs:33 | the combined path ends with the second part, and starts with the first when the second is non-empty and not rooted |
| Paths.Combine3 | tools/Dev/Targets/Build/SolutionTarget.cs:19 | the combined path ends with the third part |
| Paths.CombinePlain | tools/Dev/Targets/Build/SolutionTarget.cs:19 | combining two plain parts puts exactly the platform's separator between them |
| Paths.LastSeparatorBefore | tools/Dev/Targets/Build/SolutionTarget.cs:29 | a separator followed by no other separator is the last one |
| Paths.FileNameOfCombined | tools/Dev/Targets/Build/SolutionTarget.cs:29 | the file name without extension of directory/stem.extension is the stem |
| SolutionTarget.Setup | tools/Dev/Targets/Build/SolutionTarget.cs:10-14 | registers "solution" with its description, without dependencies, with an action |
| SolutionTarget.KeptPaths | tools/Dev/Targets/Build/SolutionTarget.cs:28-29 | never more paths than were enumerated |
| SolutionTarget.RelativePaths | tools/Dev/Targets/Build/SolutionTarget.cs:30 | one output per path, each with every occurrence of root + "\" deleted |
| SolutionTarget.KeptPathsSpec | tools/Dev/Targets/Build/SolutionTarget.cs:28-31 | the kept paths are a subsequence of the enumerated ones in their order, and a path is kept if and only if it was enumerated and its file name without extension is not the assembly's name |
| SolutionTarget.OwnProjectNotKept | tools/Dev/Targets/Build/SolutionTarget.cs:21-29 | the tool's own project file is filtered out |
| SolutionTarget.OwnProjectExcluded | tools/Dev/Targets/Build/SolutionTarget.cs:21-29 | the tool's own project never appears in the list |
| SolutionTarget.RelativePathSpec | tools/Dev/Targets/Build/SolutionTarget.cs:30 | a path root + "\" + rest becomes rest; a path written without '\' keeps its root |
| SolutionTarget.PathsSpec | tools/Dev/Targets/Build/SolutionTarget.cs:19-33 | the solution is ".." + separator + "__PROJECT__.slnx"; the filter is written to root/artifacts/__PROJECT__.slnf |
| SolutionTarget.Execute | tools/Dev/Targets/Build/SolutionTarget.cs:16-34 | the filter never lists more projects than were enumerated |
| CleanTarget.Setup | tools/Dev/Targets/Build/CleanTarget.cs:5-10 | registers "clean" with its description, after exactly `solution`, with an action |
| CleanTarget.Execute | tools/Dev/Targets/Build/CleanTarget.cs:12-14 | one `dotnet` call: "clean artifacts/__PROJECT__.slnf" with the configuration and the fixed options, no extra arguments; the configuration is then cached and reads the same in every later environment |
| BuildTarget.Setup | tools/Dev/Targets/Build/BuildTarget.cs:5-14 | registers "build" with its description, after exactly `dotnet`, without action |
| DefaultTarget.Setup | tools/Dev/Targets/DefaultTarget.cs:5-8 | registers "default" after exactly `build`, without description or action |
| TargetKeys.KeysDistinct | tools/Dev/Targets/TargetKeys.cs:5-14 | ten keys, pairwise different |
| Graph.RankFallsAlongPath | tools/Dev/Targets/TargetKeys.cs:5-14 | along a dependency chain of a ranked graph the rank drops by at least one per step |
| Graph.RankedIsAcyclic | tools/Dev/Targets/TargetKeys.cs:5-14 | a ranked graph has no cycle, and no chain is longer than its start's rank plus one |
| Graph.ChainToLeaf | tools/Dev/Targets/TargetKeys.cs:5-14 | following first dependencies from any target is a chain ending at a target without dependencies |
| TargetGraph.NameInjective | tools/Dev/Targets/TargetKeys.cs:5-14 | different graph nodes carry different target names |
| TargetGraph.SolutionAgrees | tools/Dev/Targets/Build/SolutionTarget.cs:10-14 | the `solution` registration has the table's name, no dependency, and an action |
| TargetGraph.LintAgrees | tools/Dev/Targets/LintTarget.cs:5-9 | the `lint` registration has the table's name, no dependency, and an action |
| TargetGraph.CleanAgrees | tools/Dev/Targets/Build/CleanTarget.cs:5-10 | the `clean` registration has the table's name, depends on exactly `solution`, and has an action |
| TargetGraph.DotnetAgrees | tools/Dev/Targets/Build/DotnetTarget.cs:5-10 | the `dotnet` registration has the table's name, depends on exactly `clean`, and has an action |
| TargetGraph.BuildAgrees | tools/Dev/Targets/Build/BuildTarget.cs:5-14 | the `build` registration has the table's name, depends on exactly `dotnet`, and has no action |
| TargetGraph.CoverageAgrees | tools/Dev/Targets/Build/CoverageTarget.cs:10-15 | the `coverage` registration has the table's name, depends on exactly `test`, and has an action |
| TargetGraph.PublishAgrees | tools/Dev/Targets/Build/PublishTarget.cs:9-15 | the `publish` registration has the table's name, depends on exactly `dotnet`, and has an action |
| TargetGraph.DefaultAgrees | tools/Dev/Targets/DefaultTarget.cs:5-8 | the `default` registration has the table's name, depends on exactly `build`, and has no action |
| TargetGraph.TestTargetsAgree | tools/Dev/Targets/Build/TestTarget.cs:21-38 | the three test registrations have the table's name, dependencies and action flag |
| TargetGraph.DeclaredMatchesDefinitions | tools/Dev/Targets/TargetKeys.cs:5-14 | the table has one row per target and each definition agrees with its row |
| TargetGraph.DefaultChain | tools/Dev/Targets/DefaultTarget.cs:5-8 | default → build → dotnet → clean → solution are exact edges, and solution has none |
| TargetGraph.AggregationTargets | tools/Dev/Targets/Build/BuildTarget.cs:10-14 | a target lacks an action if and only if it is default, build or test |
| TargetGraph.DeclaredRanked | tools/Dev/Targets/TargetKeys.cs:5-14 | every dependency is a declared target ranked below its dependant |
| TargetGraph.DeclaredAcyclic | tools/Dev/Targets/TargetKeys.cs:5-14 | no dependency chain returns to its start, and none has more than six targets |
| TargetGraph.ChainsEndAtSolutionOrLint | tools/Dev/Targets/LintTarget.cs:5-9 | solution and lint are the only targets without dependencies, and a chain from any target reaches one |
| Registration.SetupAllSnoc | tools/Dev/Program.cs:10-13 | setting up one more target type appends its definitions |
| Registration.SetupOf | tools/Dev/Program.cs:12 | every target type sets up at least one definition |
| Registration.SetupAll | tools/Dev/Program.cs:10-13 | setting up the types yields at least one definition per type |
| Registration.Setup | tools/Dev/Program.cs:12 | one type's setup appends exactly that type's definitions |
| Registration.SetupTargets | tools/Dev/Program.cs:9-13 | a fresh collection filled by each registered type's setup, in order |
| Registration.OnlyDefaultRegistered | tools/Dev/Targets/TargetExtensions.cs:8-9 | the registered collection is the default target alone; its dependency "build" is defined nowhere |
| Registration.SetupAllTypes | tools/Dev/Program.cs:10-13 | registering every target type sets up every definition of the table, in its order |
| Registration.SetupAllSingles | tools/Dev/Program.cs:10-13 | types that each set up one definition set up exactly those definitions, in order |
| Registration.SingleTypesSetup | tools/Dev/Program.cs:10-13 | the eight target types other than the test target's set up the first eight definitions of the table |
| Registration.AllDefinitionsResolve | tools/Dev/Targets/TargetKeys.cs:5-14 | every dependency any definition names is defined |
| Registration.AllTypesResolve | tools/Dev/Program.cs:10-13 | with every target type registered, no dependency is unresolved |

## Left out

- Running the targets is the job of the Bullseye library, whose code is not part of this model. That covers dependency ordering, de-duplication, fan-out scheduling and failure reporting. The model keeps only the declared graph and the registered definitions.
- Process execution (SimpleExec) is reduced to an invocation record, an exit-code function and a captured-output function. Streaming, echoing and exit-code exceptions with their messages are not modelled.
- Dependency injection is reflection-based, so the model only records which target types end up registered.
- Environment access: the environment is a map parameter. The unsynchronised race on the first read of a setting is concurrency and is not modelled.
- Async/await and `ConfigureAwait`: the code is treated as sequential.
- SolutionTarget.Execute: the model leaves out the project-file enumeration, the running assembly's name, the JSON serialisation and the file write. The first two are parameters; the last two are not modelled, including that the file is opened without truncation.
- CoverageTarget.ReportArgumentsRecoverable: speaks of cutting the argument string at spaces. The quote-aware command-line parsing of the started process, which turns `-title:"__TITLE__"` into `-title:__TITLE__`, is not modelled.
- Paths: Windows drive letters and UNC roots are not modelled, and neither is normalisation.
- Strings.EqualsIgnoreCase: the case-insensitive comparison folds ASCII letters only. The true values are ASCII, but non-ASCII letters that fold to them are not covered.
- FileSystem: only directories are modelled, with the not-found and destination-exists errors. Access and sharing errors are left out.
- FileSystem.Move: states that the source is gone afterwards only when the destination is not a prefix of the source. Moving a directory into its own subtree, which .NET rejects, is not modelled as an error. LintTarget.MoveReportsSpec proves the full effect for the lint move.
- LintTarget.AfterRunSpec: requires that no directory below the results exists without the results directory itself, as on a real disk.
