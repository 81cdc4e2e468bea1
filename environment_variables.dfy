/** The four settings the build tool reads from the environment, created once at start-up. */
module EnvironmentVariables {
  import opened Wrappers
  import opened DevEnvironment

  const BuildConfigurationDeclaration: Result<Declaration, ArgumentError> :=
    DeclareWithDefault(Some("BUILD_CONFIGURATION"), Some("Release"))
  const ContainerRuntimeDeclaration: Result<Declaration, ArgumentError> :=
    DeclareWithDefault(Some("CONTAINER_RUNTIME"), Some("podman"))
  const LocalBuildDeclaration: Result<Declaration, ArgumentError> :=
    DeclareWithoutDefault(Some("LOCAL_BUILD"))
  const LocalLintDeclaration: Result<Declaration, ArgumentError> :=
    DeclareWithoutDefault(Some("LOCAL_LINT"))

  /** None of the four initialisers throws, and each has the name and default it is declared with. */
  lemma StaticInitializationSucceeds()
    ensures BuildConfigurationDeclaration == Success(Declaration(Prefix + "BUILD_CONFIGURATION", Some("Release")))
    ensures ContainerRuntimeDeclaration == Success(Declaration(Prefix + "CONTAINER_RUNTIME", Some("podman")))
    ensures LocalBuildDeclaration == Success(Declaration(Prefix + "LOCAL_BUILD", None))
    ensures LocalLintDeclaration == Success(Declaration(Prefix + "LOCAL_LINT", None))
  {
  }

  /** The four full variable names are pairwise different, so no two settings share a variable. */
  lemma NamesDistinct()
    ensures var names := [Prefix + "BUILD_CONFIGURATION", Prefix + "CONTAINER_RUNTIME",
                          Prefix + "LOCAL_BUILD", Prefix + "LOCAL_LINT"];
      forall i, j | 0 <= i < j < 4 :: names[i] != names[j]
  {
    var names := [Prefix + "BUILD_CONFIGURATION", Prefix + "CONTAINER_RUNTIME",
                  Prefix + "LOCAL_BUILD", Prefix + "LOCAL_LINT"];
    var p := |Prefix|;
    assert names[0][p] == 'B' && names[1][p] == 'C' && names[2][p] == 'L' && names[3][p] == 'L';
    assert names[2][p + 6] == 'B' && names[3][p + 6] == 'L';
  }

  /**
   * The two flags, declared without a default, read "" when their variables are not set, so
   * neither is truthy.
   */
  lemma UnsetFlagsAreFalse(env: map<string, string>)
    requires LocalBuildDeclaration.Success? && LocalLintDeclaration.Success?
    requires LocalBuildDeclaration.value.name !in env && LocalLintDeclaration.value.name !in env
    ensures ValueOf(Lookup(env, LocalBuildDeclaration.value.name), LocalBuildDeclaration.value.defaultValue) == ""
    ensures ValueOf(Lookup(env, LocalLintDeclaration.value.name), LocalLintDeclaration.value.defaultValue) == ""
    ensures !Truthy(ValueOf(Lookup(env, LocalBuildDeclaration.value.name), LocalBuildDeclaration.value.defaultValue))
    ensures !Truthy(ValueOf(Lookup(env, LocalLintDeclaration.value.name), LocalLintDeclaration.value.defaultValue))
  {
    StaticInitializationSucceeds();
    TruthyExamples();
  }

  /**
   * The two settings declared with a default read that default when their variables are not
   * set: the configuration "Release" and the container runtime "podman".
   */
  lemma UnsetSettingsUseDefaults(env: map<string, string>)
    requires BuildConfigurationDeclaration.Success? && ContainerRuntimeDeclaration.Success?
    requires BuildConfigurationDeclaration.value.name !in env && ContainerRuntimeDeclaration.value.name !in env
    ensures ValueOf(Lookup(env, BuildConfigurationDeclaration.value.name),
                    BuildConfigurationDeclaration.value.defaultValue) == "Release"
    ensures ValueOf(Lookup(env, ContainerRuntimeDeclaration.value.name),
                    ContainerRuntimeDeclaration.value.defaultValue) == "podman"
  {
    StaticInitializationSucceeds();
  }

  /**
   * Before their first read, the four settings of `Variables` read what the two lemmas above
   * say when their variables are not set.
   */
  lemma UnreadSettingsInEmptyEnvironment(vars: Variables, env: map<string, string>)
    requires vars.Valid()
    requires !vars.BuildConfiguration.hydratedValue && !vars.ContainerRuntime.hydratedValue
    requires !vars.LocalBuild.hydratedValue && !vars.LocalLint.hydratedValue
    requires vars.BuildConfiguration.Name !in env && vars.ContainerRuntime.Name !in env
    requires vars.LocalBuild.Name !in env && vars.LocalLint.Name !in env
    ensures vars.BuildConfiguration.Current(env) == "Release"
    ensures vars.ContainerRuntime.Current(env) == "podman"
    ensures vars.LocalBuild.Current(env) == "" && !Truthy(vars.LocalBuild.Current(env))
    ensures vars.LocalLint.Current(env) == "" && !Truthy(vars.LocalLint.Current(env))
  {
    StaticInitializationSucceeds();
    UnsetSettingsUseDefaults(env);
    UnsetFlagsAreFalse(env);
  }

  /** The static class holding the four settings. */
  class Variables {
    const BuildConfiguration: DevEnvironmentVariable
    const ContainerRuntime: DevEnvironmentVariable
    const LocalBuild: DevEnvironmentVariable
    const LocalLint: DevEnvironmentVariable

    ghost predicate Valid()
      reads this, BuildConfiguration, ContainerRuntime, LocalBuild, LocalLint
    {
      && BuildConfiguration.Valid() && ContainerRuntime.Valid() && LocalBuild.Valid() && LocalLint.Valid()
      && BuildConfiguration != ContainerRuntime && BuildConfiguration != LocalBuild
      && BuildConfiguration != LocalLint && ContainerRuntime != LocalBuild
      && ContainerRuntime != LocalLint && LocalBuild != LocalLint
      && BuildConfiguration.Declared() == BuildConfigurationDeclaration.value
      && ContainerRuntime.Declared() == ContainerRuntimeDeclaration.value
      && LocalBuild.Declared() == LocalBuildDeclaration.value
      && LocalLint.Declared() == LocalLintDeclaration.value
    }

    /** Static initialisation: four fresh settings, none of them read yet. */
    constructor ()
      ensures Valid()
      ensures fresh(BuildConfiguration) && fresh(ContainerRuntime) && fresh(LocalBuild) && fresh(LocalLint)
      ensures !BuildConfiguration.hydratedValue && !ContainerRuntime.hydratedValue
      ensures !LocalBuild.hydratedValue && !LocalLint.hydratedValue
    {
      StaticInitializationSucceeds();
      BuildConfiguration := new DevEnvironmentVariable.FromDeclaration(BuildConfigurationDeclaration.value);
      ContainerRuntime := new DevEnvironmentVariable.FromDeclaration(ContainerRuntimeDeclaration.value);
      LocalBuild := new DevEnvironmentVariable.FromDeclaration(LocalBuildDeclaration.value);
      LocalLint := new DevEnvironmentVariable.FromDeclaration(LocalLintDeclaration.value);
    }
  }
}
