/**
 * The `lint` target: runs MegaLinter in a container over the working directory, then replaces
 * the lint results under `artifacts` with the reports the linter wrote.
 */
module LintTarget {
  import opened Wrappers
  import opened Strings
  import opened Process
  import opened DevEnvironment
  import opened EnvironmentVariables
  import opened FileSystem
  import ArtifactPaths
  import TargetKeys
  import opened Targets

  const Definition: TargetDef :=
    TargetDef(TargetKeys.Lint, Some("Flags stylistic and functional issues using static code analysis tools."), [], Action)

  /** `Setup`: registers the target, without dependencies, with an action. */
  method Setup(targets: TargetCollection)
    modifies targets
    ensures targets.definitions == old(targets.definitions) + [Definition]
  {
    targets.Add(Definition);
  }

  const ApplyFixes: string := "--env APPLY_FIXES=all"
  const Image: string := "oxsecurity/megalinter-dotnet:v8"
  /** Where MegaLinter writes its reports, relative to the working directory. */
  const ReportsDirectory: string := "megalinter-reports"

  /** The bind mount of the working directory `cwd` into the container. */
  function Volume(cwd: string): string
  {
    "--volume " + cwd + ":/tmp/lint:rw"
  }

  /** The container arguments, for the working directory `cwd` and the local-lint flag. */
  function ArgumentList(cwd: string, applyFixes: bool): seq<string>
  {
    ["run", "--rm", Volume(cwd)] + (if applyFixes then [ApplyFixes] else []) + [Image]
  }

  /** The container call: the runtime setting is the program, the arguments joined by spaces. */
  function LintInvocation(runtime: string, cwd: string, applyFixes: bool): (inv: Invocation)
    ensures inv.program == runtime
  {
    Invocation(runtime, Join(' ', ArgumentList(cwd, applyFixes)))
  }

  /**
   * Four or five arguments: "run", "--rm" and the volume first, the image last, and the
   * apply-fixes option, just before the image, if and only if the local-lint flag is on.
   */
  lemma ArgumentListShape(cwd: string, applyFixes: bool)
    ensures var a := ArgumentList(cwd, applyFixes);
      && |a| == (if applyFixes then 5 else 4)
      && a[..3] == ["run", "--rm", Volume(cwd)]
      && a[|a| - 1] == Image
      && (ApplyFixes in a <==> applyFixes)
      && (applyFixes ==> a[3] == ApplyFixes)
  {
    var a := ArgumentList(cwd, applyFixes);
    assert Volume(cwd)[2] == 'v' && ApplyFixes[2] == 'e';
    assert Image[0] == 'o' && "run"[0] == 'r';
    if !applyFixes {
      assert a == ["run", "--rm", Volume(cwd), Image];
    }
  }

  datatype LintError = ProcessFailed(error: ExitCodeError) | IoFailed(io: IoError)

  /** The directories after the action, and how it ended. */
  datatype Effect = Effect(directories: set<string>, outcome: Outcome<LintError>)

  /** The old lint results deleted, if present. */
  function Cleared(directories: set<string>): set<string>
  {
    if ArtifactPaths.LintResults in directories
    then Delete(directories, ArtifactPaths.LintResults).value
    else directories
  }

  /**
   * What follows a successful container run: the old lint results are deleted if present, then
   * the reports directory is moved into their place.
   */
  function AfterRun(directories: set<string>): (e: Effect)
    ensures e.outcome.Pass? ==> ArtifactPaths.LintResults in e.directories
    ensures e.outcome.Fail? ==> e.outcome.error.IoFailed?
  {
    match Move(Cleared(directories), ReportsDirectory, ArtifactPaths.LintResults)
    case Success(moved) => Effect(moved, Pass)
    case Failure(e) => Effect(Cleared(directories), Fail(IoFailed(e)))
  }

  /** "artifacts/linting" lives in "artifacts", and neither tree contains "megalinter-reports". */
  lemma PathFacts()
    ensures Parent(ArtifactPaths.LintResults) == Some(ArtifactPaths.Root)
    ensures !Within(ReportsDirectory, ArtifactPaths.LintResults)
    ensures !Within(ArtifactPaths.Root, ArtifactPaths.LintResults)
    ensures !Within(ArtifactPaths.LintResults, ReportsDirectory)
    ensures forall d | Within(d, ReportsDirectory) :: !Within(d, ArtifactPaths.LintResults)
  {
    LastIndexOfBefore("artifacts", '/', "linting");
    assert ArtifactPaths.LintResults == "artifacts" + ['/'] + "linting";
    assert ArtifactPaths.LintResults[..9] == "artifacts";
    assert ReportsDirectory[0] == 'm' && ArtifactPaths.LintResults[0] == 'a';
    forall d | Within(d, ReportsDirectory) ensures !Within(d, ArtifactPaths.LintResults) {
      assert d[0] == 'm';
    }
  }

  /** Clearing removes exactly the results tree (on a disk where that tree has a root). */
  lemma ClearedSpec(directories: set<string>)
    requires forall d | d in directories && Within(d, ArtifactPaths.LintResults) :: ArtifactPaths.LintResults in directories
    ensures Cleared(directories) == directories - Subtree(directories, ArtifactPaths.LintResults)
  {
    if ArtifactPaths.LintResults !in directories {
      assert Subtree(directories, ArtifactPaths.LintResults) == {};
    }
  }

  /**
   * Moving the reports into a place with nothing below it: the results tree is exactly the
   * reports tree under its new name, the reports directory is gone, and every directory outside
   * both trees stays as it was.
   */
  lemma MoveReportsSpec(cleared: set<string>)
    requires forall d | d in cleared :: !Within(d, ArtifactPaths.LintResults)
    ensures var r := Move(cleared, ReportsDirectory, ArtifactPaths.LintResults);
      r.Success? ==>
        && ReportsDirectory !in r.value
        && (forall d | d in r.value && Within(d, ArtifactPaths.LintResults)
              :: ReportsDirectory + d[|ArtifactPaths.LintResults|..] in cleared)
        && (forall d | d in cleared && Within(d, ReportsDirectory)
              :: ArtifactPaths.LintResults + d[|ReportsDirectory|..] in r.value)
        && (forall d | d in cleared && !Within(d, ReportsDirectory) :: d in r.value)
        && (forall d | d in r.value && !Within(d, ArtifactPaths.LintResults)
              :: d in cleared && !Within(d, ReportsDirectory))
  {
    PathFacts();
    var results := ArtifactPaths.LintResults;
    var r := Move(cleared, ReportsDirectory, results);
    if r.Success? {
      var moved := Subtree(cleared, ReportsDirectory);
      var arrived := set d | d in moved :: results + d[|ReportsDirectory|..];
      assert r.value == (cleared - moved) + arrived;
      forall d | d in r.value && Within(d, results)
        ensures ReportsDirectory + d[|results|..] in cleared
      {
        if d !in cleared - moved {
          var m :| m in moved && d == results + m[|ReportsDirectory|..];
          assert d[|results|..] == m[|ReportsDirectory|..];
          assert m == ReportsDirectory + m[|ReportsDirectory|..];
        }
      }
      forall d | d in cleared && Within(d, ReportsDirectory)
        ensures results + d[|ReportsDirectory|..] in r.value
      {
        assert d in moved;
      }
      forall m | m in moved
        ensures Within(results + m[|ReportsDirectory|..], results)
        ensures results + m[|ReportsDirectory|..] != ReportsDirectory
      {
        ArrivesInResults(m);
      }
      assert ReportsDirectory in moved;
      forall d | d in r.value && !Within(d, results)
        ensures d in cleared && !Within(d, ReportsDirectory)
      {
        assert d !in arrived;
      }
    }
  }

  /** A reports directory, renamed into the results, lies in the results tree and is not the reports directory. */
  lemma ArrivesInResults(m: string)
    requires Within(m, ReportsDirectory)
    ensures Within(ArtifactPaths.LintResults + m[|ReportsDirectory|..], ArtifactPaths.LintResults)
    ensures ArtifactPaths.LintResults + m[|ReportsDirectory|..] != ReportsDirectory
  {
    var results := ArtifactPaths.LintResults;
    assert results[0] == 'a' && ReportsDirectory[0] == 'm';
    assert (results + m[|ReportsDirectory|..])[0] != ReportsDirectory[0];
    if m != ReportsDirectory {
      assert m[|ReportsDirectory|] == '/';
      assert (results + m[|ReportsDirectory|..])[..|results| + 1] == results + "/";
    } else {
      assert m[|ReportsDirectory|..] == [];
      assert results + m[|ReportsDirectory|..] == results;
    }
  }

  /**
   * After a successful run: the action succeeds exactly when the reports exist and `artifacts`
   * exists. Then the results tree holds exactly the reports tree under its new name, the reports
   * directory is gone, and every directory outside both trees is kept and none is added. When it
   * fails, the old results have been deleted all the same and nothing else has changed. (On a
   * real disk a directory below the results exists only if the results directory does.)
   */
  lemma AfterRunSpec(directories: set<string>)
    requires forall d | d in directories && Within(d, ArtifactPaths.LintResults) :: ArtifactPaths.LintResults in directories
    ensures var e := AfterRun(directories);
      && (e.outcome.Pass? <==> ReportsDirectory in directories && ArtifactPaths.Root in directories)
      && (e.outcome.Pass? ==>
            && ArtifactPaths.LintResults in e.directories
            && ReportsDirectory !in e.directories
            && (forall d | d in e.directories && Within(d, ArtifactPaths.LintResults)
                  :: ReportsDirectory + d[|ArtifactPaths.LintResults|..] in directories)
            && (forall d | d in directories && Within(d, ReportsDirectory)
                  :: ArtifactPaths.LintResults + d[|ReportsDirectory|..] in e.directories)
            && (forall d | d in directories && !Within(d, ArtifactPaths.LintResults) && !Within(d, ReportsDirectory)
                  :: d in e.directories)
            && (forall d | d in e.directories && !Within(d, ArtifactPaths.LintResults)
                  :: d in directories && !Within(d, ReportsDirectory)))
      && (e.outcome.Fail? ==>
            && e.directories <= directories
            && ArtifactPaths.LintResults !in e.directories
            && forall d | d in directories && !Within(d, ArtifactPaths.LintResults) :: d in e.directories)
  {
    PathFacts();
    ClearedSpec(directories);
    var cleared := Cleared(directories);
    assert forall d | d in cleared :: !Within(d, ArtifactPaths.LintResults);
    assert forall d | d in directories && Within(d, ReportsDirectory) :: d in cleared;
    MoveReportsSpec(cleared);
  }

  /**
   * `Execute`: builds the argument list step by step (reading the local-lint flag), runs the
   * container runtime setting with the arguments joined by spaces, and only if that succeeds
   * touches the directories.
   */
  method Execute(vars: Variables, env: map<string, string>, cwd: string, exitCode: Invocation -> int, disk: Disk)
    returns (invocation: Invocation, outcome: Outcome<LintError>)
    requires vars.Valid()
    modifies vars.LocalLint, vars.ContainerRuntime, disk
    ensures vars.Valid()
    ensures vars.ContainerRuntime.hydratedValue && vars.LocalLint.hydratedValue
    ensures forall later :: vars.ContainerRuntime.Current(later) == old(vars.ContainerRuntime.Current(env))
    ensures forall later :: vars.LocalLint.Current(later) == old(vars.LocalLint.Current(env))
    ensures invocation == LintInvocation(old(vars.ContainerRuntime.Current(env)), cwd,
                                         Truthy(old(vars.LocalLint.Current(env))))
    ensures exitCode(invocation) != 0 ==>
      outcome == Fail(ProcessFailed(ExitCodeError(invocation, exitCode(invocation))))
      && disk.directories == old(disk.directories)
    ensures exitCode(invocation) == 0 ==> Effect(disk.directories, outcome) == AfterRun(old(disk.directories))
  {
    var arguments := ["run", "--rm", Volume(cwd)];
    var applyFixes := vars.LocalLint.IsTruthy(env);
    if applyFixes {
      arguments := arguments + [ApplyFixes];
    }
    arguments := arguments + [Image];
    assert arguments == ArgumentList(cwd, applyFixes);
    var runtime := vars.ContainerRuntime.Value(env);
    invocation := Invocation(runtime, Join(' ', arguments));
    var run := Process.Run(invocation, exitCode);
    if run.Fail? {
      outcome := Fail(ProcessFailed(run.error));
      return;
    }
    if disk.Exists(ArtifactPaths.LintResults) {
      var deleted := disk.DeleteRecursive(ArtifactPaths.LintResults);
    }
    var moved := disk.MoveDirectory(ReportsDirectory, ArtifactPaths.LintResults);
    outcome := if moved.Pass? then Pass else Fail(IoFailed(moved.error));
  }
}
