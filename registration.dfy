/**
 * Start-up: the target types the service collection is given, and the target collection their
 * `Setup` methods fill, one type after another.
 */
module Registration {
  import opened Wrappers
  import opened Targets
  import TargetGraph
  import SolutionTarget
  import LintTarget
  import CleanTarget
  import DotnetTarget
  import BuildTarget
  import TestTarget
  import CoverageTarget
  import PublishTarget
  import DefaultTarget

  /** The classes that implement a target. */
  datatype TargetType =
    | SolutionTargetType | LintTargetType | CleanTargetType | DotnetTargetType | BuildTargetType
    | CoverageTargetType | PublishTargetType | DefaultTargetType | TestTargetType

  /** `AddTargets`: the target types registered with the service collection. */
  const Registered: seq<TargetType> := [DefaultTargetType]

  /** Every target type the repository has. */
  const AllTypes: seq<TargetType> := [
    SolutionTargetType, LintTargetType, CleanTargetType, DotnetTargetType, BuildTargetType,
    CoverageTargetType, PublishTargetType, DefaultTargetType, TestTargetType]

  /** What the `Setup` of one target type adds to the collection. */
  function SetupOf(t: TargetType): (defs: seq<TargetDef>)
    ensures |defs| >= 1
  {
    match t
    case SolutionTargetType => [SolutionTarget.Definition]
    case LintTargetType => [LintTarget.Definition]
    case CleanTargetType => [CleanTarget.Definition]
    case DotnetTargetType => [DotnetTarget.Definition]
    case BuildTargetType => [BuildTarget.Definition]
    case CoverageTargetType => [CoverageTarget.Definition]
    case PublishTargetType => [PublishTarget.Definition]
    case DefaultTargetType => [DefaultTarget.Definition]
    case TestTargetType => TestTarget.Definitions(TestTarget.Suites)
  }

  /** What the `Setup`s of `types`, in order, add. */
  function SetupAll(types: seq<TargetType>): (defs: seq<TargetDef>)
    ensures |defs| >= |types|
    decreases |types|
  {
    if types == [] then [] else SetupOf(types[0]) + SetupAll(types[1..])
  }

  /** One more type adds its definitions at the end. */
  lemma {:induction false} SetupAllSnoc(types: seq<TargetType>, t: TargetType)
    ensures SetupAll(types + [t]) == SetupAll(types) + SetupOf(t)
    decreases |types|
  {
    if types == [] {
      assert [t][1..] == [];
    } else {
      assert (types + [t])[0] == types[0];
      assert (types + [t])[1..] == types[1..] + [t];
      SetupAllSnoc(types[1..], t);
    }
  }

  /** `target.Setup(targets)` for a target of type `t`. */
  method Setup(t: TargetType, targets: TargetCollection)
    modifies targets
    ensures targets.definitions == old(targets.definitions) + SetupOf(t)
  {
    match t
    case SolutionTargetType => SolutionTarget.Setup(targets);
    case LintTargetType => LintTarget.Setup(targets);
    case CleanTargetType => CleanTarget.Setup(targets);
    case DotnetTargetType => DotnetTarget.Setup(targets);
    case BuildTargetType => BuildTarget.Setup(targets);
    case CoverageTargetType => CoverageTarget.Setup(targets);
    case PublishTargetType => PublishTarget.Setup(targets);
    case DefaultTargetType => DefaultTarget.Setup(targets);
    case TestTargetType => TestTarget.Setup(targets);
  }

  /** The start-up loop: a new collection, then each registered target's `Setup` in turn. */
  method SetupTargets(types: seq<TargetType>) returns (targets: TargetCollection)
    ensures fresh(targets)
    ensures targets.definitions == SetupAll(types)
  {
    targets := new TargetCollection();
    var i := 0;
    while i < |types|
      invariant 0 <= i <= |types|
      invariant targets.definitions == SetupAll(types[..i])
    {
      Setup(types[i], targets);
      SetupAllSnoc(types[..i], types[i]);
      assert types[..i + 1] == types[..i] + [types[i]];
      i := i + 1;
    }
    assert types[..i] == types;
  }

  /**
   * As registered, the collection holds the `default` target alone, and its dependency `build`
   * is defined nowhere: asking for the default target cannot succeed.
   */
  lemma OnlyDefaultRegistered()
    ensures SetupAll(Registered) == [DefaultTarget.Definition]
    ensures Names(SetupAll(Registered)) == {"default"}
    ensures Unresolved(SetupAll(Registered)) == {"build"}
  {
    var defs := SetupAll(Registered);
    assert Registered[1..] == [];
    assert defs == [DefaultTarget.Definition];
    assert defs[0].name == "default" && defs[0].dependsOn == ["build"];
    assert defs[0].name in Names(defs);
    assert Names(defs) == {"default"};
    assert "build" != "default";
    assert defs[0].dependsOn[0] in Unresolved(defs);
    assert forall x | x in Unresolved(defs) :: x == "build";
  }

  /** Registering every type sets up every definition, in the order of the graph's table. */
  lemma SetupAllTypes()
    ensures SetupAll(AllTypes) == TargetGraph.AllDefinitions
  {
    SingleTypesSetup();
    assert AllTypes == AllTypes[..8] + [TestTargetType];
    SetupAllSnoc(AllTypes[..8], TestTargetType);
    assert TargetGraph.AllDefinitions == TargetGraph.AllDefinitions[..8] + TestTarget.Definitions(TestTarget.Suites);
  }

  /** The eight types other than the test target's set up the first eight definitions of the table. */
  lemma SingleTypesSetup()
    ensures SetupAll(AllTypes[..8]) == TargetGraph.AllDefinitions[..8]
  {
    var singles := AllTypes[..8];
    var defs := TargetGraph.AllDefinitions[..8];
    forall i | 0 <= i < |singles| ensures SetupOf(singles[i]) == [defs[i]] {
    }
    SetupAllSingles(singles, defs);
  }

  /** Types that each set up one definition set up exactly those definitions, in order. */
  lemma {:induction false} SetupAllSingles(types: seq<TargetType>, defs: seq<TargetDef>)
    requires |types| == |defs|
    requires forall i | 0 <= i < |types| :: SetupOf(types[i]) == [defs[i]]
    ensures SetupAll(types) == defs
    decreases |types|
  {
    if types != [] {
      SetupAllSingles(types[1..], defs[1..]);
      assert defs == [defs[0]] + defs[1..];
    }
  }

  /** Every dependency any definition names is the name of some definition. */
  lemma AllDefinitionsResolve()
    ensures Unresolved(TargetGraph.AllDefinitions) == {}
  {
    var defs := TargetGraph.AllDefinitions;
    TargetGraph.DeclaredMatchesDefinitions();
    forall i, j | 0 <= i < |defs| && 0 <= j < |defs[i].dependsOn| ensures defs[i].dependsOn[j] in Names(defs) {
      var k := TargetGraph.Declared[TargetGraph.Order[i]][j];
      assert defs[i].dependsOn[j] == TargetGraph.Name(k);
      assert k in TargetGraph.Order;
      var m :| 0 <= m < |TargetGraph.Order| && TargetGraph.Order[m] == k;
      assert defs[m].name == TargetGraph.Name(k);
    }
  }

  /** With every target type registered, every dependency names a defined target. */
  lemma AllTypesResolve()
    ensures Unresolved(SetupAll(AllTypes)) == {}
  {
    SetupAllTypes();
    AllDefinitionsResolve();
  }
}
