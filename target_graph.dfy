/**
 * The dependency graph the targets declare: for each target key, the keys its `dependsOn:`
 * list names, in order, and whether it has an action; and the agreement of that table with the
 * definitions the targets' `Setup` methods register.
 */
module TargetGraph {
  import opened Wrappers
  import opened Graph
  import opened Targets
  import TargetKeys
  import SolutionTarget
  import LintTarget
  import CleanTarget
  import DotnetTarget
  import BuildTarget
  import TestTarget
  import CoverageTarget
  import PublishTarget
  import DefaultTarget

  /** The target keys, plus the key of the publish target. */
  datatype Key =
    | Solution | Lint | Clean | Dotnet | Build | Coverage | Publish | Default
    | TestIntegration | TestUnit | Test

  function Name(k: Key): string
  {
    match k
    case Solution => TargetKeys.Solution
    case Lint => TargetKeys.Lint
    case Clean => TargetKeys.Clean
    case Dotnet => TargetKeys.Dotnet
    case Build => TargetKeys.Build
    case Coverage => TargetKeys.Coverage
    case Publish => PublishTarget.Key
    case Default => TargetKeys.Default
    case TestIntegration => TargetKeys.TestIntegration
    case TestUnit => TargetKeys.TestUnit
    case Test => TargetKeys.Test
  }

  function Names(keys: seq<Key>): (names: seq<string>)
    ensures |names| == |keys|
    ensures forall i | 0 <= i < |keys| :: names[i] == Name(keys[i])
  {
    seq(|keys|, i requires 0 <= i < |keys| => Name(keys[i]))
  }

  /** Different keys are different names. */
  lemma NameInjective(a: Key, b: Key)
    requires Name(a) == Name(b)
    ensures a == b
  {
    TargetKeys.KeysDistinct();
    var all := TargetKeys.All;
    assert PublishTarget.Key[0] == 'p';
    assert forall k | k in all :: k[0] != 'p';
  }

  /** The declared edges. */
  const Declared: DependencyGraph<Key> := map[
    Solution := [],
    Lint := [],
    Clean := [Solution],
    Dotnet := [Clean],
    Build := [Dotnet],
    Coverage := [Test],
    Publish := [Dotnet],
    Default := [Build],
    TestIntegration := [Dotnet],
    TestUnit := [Dotnet],
    Test := [TestIntegration, TestUnit]
  ]

  /** The targets that run an action of their own. */
  const WithAction: set<Key> := {Solution, Lint, Clean, Dotnet, Coverage, Publish, TestIntegration, TestUnit}

  /** Every target the repository defines, whether registered or not, in the order of `Order`. */
  const AllDefinitions: seq<TargetDef> :=
    [SolutionTarget.Definition, LintTarget.Definition, CleanTarget.Definition, DotnetTarget.Definition,
     BuildTarget.Definition, CoverageTarget.Definition, PublishTarget.Definition, DefaultTarget.Definition]
    + TestTarget.Definitions(TestTarget.Suites)

  const Order: seq<Key> := [Solution, Lint, Clean, Dotnet, Build, Coverage, Publish, Default, TestIntegration, TestUnit, Test]

  /** A key is one of the eleven. */
  lemma EveryKey(k: Key)
    ensures k in {Solution, Lint, Clean, Dotnet, Build, Coverage, Publish, Default, TestIntegration, TestUnit, Test}
  {
    match k
    case Solution =>
    case Lint =>
    case Clean =>
    case Dotnet =>
    case Build =>
    case Coverage =>
    case Publish =>
    case Default =>
    case TestIntegration =>
    case TestUnit =>
    case Test =>
  }

  /** Definition `d` is the table's row for key `k`. */
  predicate Agrees(d: TargetDef, k: Key)
  {
    && k in Declared
    && d.name == Name(k)
    && d.dependsOn == Names(Declared[k])
    && (d.HasAction() <==> k in WithAction)
  }

  /** `solution` has no dependency and an action. */
  lemma SolutionAgrees()
    ensures Agrees(SolutionTarget.Definition, Solution)
  {
  }

  /** `lint` has no dependency and an action. */
  lemma LintAgrees()
    ensures Agrees(LintTarget.Definition, Lint)
  {
  }

  /** `clean` runs after `solution`, with an action. */
  lemma CleanAgrees()
    ensures Agrees(CleanTarget.Definition, Clean)
  {
    assert Names([Solution]) == [TargetKeys.Solution];
  }

  /** `dotnet` runs after `clean`, with an action. */
  lemma DotnetAgrees()
    ensures Agrees(DotnetTarget.Definition, Dotnet)
  {
    assert Names([Clean]) == [TargetKeys.Clean];
  }

  /** `build` runs after `dotnet`, without action. */
  lemma BuildAgrees()
    ensures Agrees(BuildTarget.Definition, Build)
  {
    assert Names([Dotnet]) == [TargetKeys.Dotnet];
  }

  /** `coverage` runs after `test`, with an action. */
  lemma CoverageAgrees()
    ensures Agrees(CoverageTarget.Definition, Coverage)
  {
    assert Names([Test]) == [TargetKeys.Test];
  }

  /** `publish` runs after `dotnet`, with an action. */
  lemma PublishAgrees()
    ensures Agrees(PublishTarget.Definition, Publish)
  {
    assert Names([Dotnet]) == [TargetKeys.Dotnet];
  }

  /** `default` runs after `build`, without action. */
  lemma DefaultAgrees()
    ensures Agrees(DefaultTarget.Definition, Default)
  {
    assert Names([Build]) == [TargetKeys.Build];
  }

  lemma TestTargetsAgree()
    ensures |TestTarget.Definitions(TestTarget.Suites)| == 3
    ensures Agrees(TestTarget.Definitions(TestTarget.Suites)[0], TestIntegration)
    ensures Agrees(TestTarget.Definitions(TestTarget.Suites)[1], TestUnit)
    ensures Agrees(TestTarget.Definitions(TestTarget.Suites)[2], Test)
  {
    TestTarget.RepositorySuites();
    TestTarget.DefinitionsSpec(TestTarget.Suites);
    assert Names([Dotnet]) == [TargetKeys.Dotnet];
    assert Names([TestIntegration, TestUnit]) == ["test.integration", "test.unit"];
  }

  /**
   * The table is the definitions: one definition per key, in the order of `Order`, each with
   * the key's name, the key's dependencies in order, and an action exactly when the table says.
   */
  lemma DeclaredMatchesDefinitions()
    ensures |AllDefinitions| == |Order| == |Declared|
    ensures forall k: Key :: k in Order
    ensures forall i | 0 <= i < |Order| :: Agrees(AllDefinitions[i], Order[i])
  {
    SolutionAgrees();
    LintAgrees();
    CleanAgrees();
    DotnetAgrees();
    BuildAgrees();
    CoverageAgrees();
    PublishAgrees();
    DefaultAgrees();
    TestTargetsAgree();
    var tests := TestTarget.Definitions(TestTarget.Suites);
    assert AllDefinitions[8..] == tests;
    assert Declared.Keys == {Solution, Lint, Clean, Dotnet, Build, Coverage, Publish, Default, TestIntegration, TestUnit, Test};
    forall k: Key ensures k in Order {
      EveryKey(k);
    }
  }

  /** The default chain: default, build, dotnet, clean, solution. */
  lemma DefaultChain()
    ensures Declared[Default] == [Build] && Declared[Build] == [Dotnet]
    ensures Declared[Dotnet] == [Clean] && Declared[Clean] == [Solution] && Declared[Solution] == []
    ensures IsPath(Declared, [Default, Build, Dotnet, Clean, Solution])
  {
    var p := [Default, Build, Dotnet, Clean, Solution];
    assert Edge(Declared, p[0], p[1]) && Edge(Declared, p[1], p[2]);
    assert Edge(Declared, p[2], p[3]) && Edge(Declared, p[3], p[4]);
  }

  /** `default`, `build` and `test` are the targets without an action. */
  lemma AggregationTargets()
    ensures forall k: Key :: k !in WithAction <==> k in {Default, Build, Test}
  {
    forall k: Key ensures k !in WithAction <==> k in {Default, Build, Test} {
      EveryKey(k);
    }
  }

  function Rank(k: Key): nat
  {
    match k
    case Solution => 0
    case Lint => 0
    case Clean => 1
    case Dotnet => 2
    case Build => 3
    case TestIntegration => 3
    case TestUnit => 3
    case Publish => 3
    case Test => 4
    case Default => 4
    case Coverage => 5
  }

  lemma DeclaredRanked()
    ensures Closed(Declared) && RankedBy(Declared, Rank)
  {
  }

  /**
   * The declared graph is acyclic: no dependency chain returns to where it started, and none
   * has more than six targets.
   */
  lemma DeclaredAcyclic(p: seq<Key>)
    requires IsPath(Declared, p)
    ensures |p| >= 2 ==> p[0] != p[|p| - 1]
    ensures |p| <= 6
  {
    DeclaredRanked();
    RankedIsAcyclic(Declared, Rank, p);
  }

  /** Only `solution` and `lint` have no dependencies, and a chain from any target reaches one. */
  lemma ChainsEndAtSolutionOrLint(start: Key)
    ensures Leaves(Declared) == {Solution, Lint}
    ensures var p := ChainToLeaf(Declared, Rank, start); p[|p| - 1] in {Solution, Lint}
  {
    DeclaredRanked();
    assert Leaves(Declared) == {Solution, Lint} by {
      assert Declared[Solution] == [] && Declared[Lint] == [];
    }
  }
}
