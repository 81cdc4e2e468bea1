/**
 * The `solution` target: writes the solution filter that names every project of the
 * repository except the build tool itself, so the other targets build only those.
 */
module SolutionTarget {
  import opened Wrappers
  import opened Strings
  import opened Paths
  import ArtifactPaths
  import TargetKeys
  import opened Targets

  const SolutionName: string := "__PROJECT__"

  const Definition: TargetDef :=
    TargetDef(TargetKeys.Solution, Some("Generates the solution filter used for the build process."), [], Action)

  /** `Setup`: registers the target, without dependencies, with an action. */
  method Setup(targets: TargetCollection)
    modifies targets
    ensures targets.definitions == old(targets.definitions) + [Definition]
  {
    targets.Add(Definition);
  }

  /** The content of the filter file: the solution it filters and the projects it keeps. */
  datatype SolutionReference = SolutionReference(path: string, projects: seq<string>)
  datatype SolutionFilter = SolutionFilter(solution: SolutionReference)

  /** Where the filter is written: `<root>/artifacts/__PROJECT__.slnf`. */
  function FilterPath(platform: Platform, root: string): string
  {
    Combine3(platform, root, ArtifactPaths.Root, SolutionName + ".slnf")
  }

  /** The solution, as seen from the filter's directory. */
  function SolutionRelativePath(platform: Platform): string
  {
    Combine(platform, "..", SolutionName + ".slnx")
  }

  /** The `Where` clause: a project file stays unless it is the running assembly's own. */
  predicate Keeps(platform: Platform, assemblyName: Option<string>, path: string)
  {
    Some(GetFileNameWithoutExtension(platform, path)) != assemblyName
  }

  /** The enumerated project files that pass the `Where` clause, in enumeration order. */
  function KeptPaths(platform: Platform, files: seq<string>, assemblyName: Option<string>): (kept: seq<string>)
    ensures |kept| <= |files|
    decreases |files|
  {
    if files == [] then []
    else (if Keeps(platform, assemblyName, files[0]) then [files[0]] else [])
         + KeptPaths(platform, files[1..], assemblyName)
  }

  /** The `Select` clause: every occurrence of `<root>\` deleted from each path. */
  function RelativePaths(root: string, paths: seq<string>): (relative: seq<string>)
    ensures |relative| == |paths|
    ensures forall i | 0 <= i < |paths| :: relative[i] == RemoveAll(paths[i], root + "\\")
  {
    seq(|paths|, i requires 0 <= i < |paths| => RemoveAll(paths[i], root + "\\"))
  }

  function ProjectPaths(platform: Platform, root: string, files: seq<string>, assemblyName: Option<string>): seq<string>
  {
    RelativePaths(root, KeptPaths(platform, files, assemblyName))
  }

  /**
   * `Execute` without the enumeration and the write: for the working directory `root`, the
   * project files found below it and the running assembly's name, where the filter goes and
   * what it says.
   */
  function Execute(platform: Platform, root: string, files: seq<string>, assemblyName: Option<string>)
    : (r: (string, SolutionFilter))
    ensures |r.1.solution.projects| <= |files|
  {
    (FilterPath(platform, root),
     SolutionFilter(SolutionReference(SolutionRelativePath(platform), ProjectPaths(platform, root, files, assemblyName))))
  }

  /**
   * The kept paths are the enumerated ones in their order, minus exactly those whose file name
   * without extension is the assembly's name.
   */
  lemma {:induction false} KeptPathsSpec(platform: Platform, files: seq<string>, assemblyName: Option<string>)
    ensures IsSubsequence(KeptPaths(platform, files, assemblyName), files)
    ensures forall p :: p in KeptPaths(platform, files, assemblyName) <==> p in files && Keeps(platform, assemblyName, p)
    decreases |files|
  {
    if files != [] {
      KeptPathsSpec(platform, files[1..], assemblyName);
      var rest := KeptPaths(platform, files[1..], assemblyName);
      assert files == [files[0]] + files[1..];
      if Keeps(platform, assemblyName, files[0]) {
        assert KeptPaths(platform, files, assemblyName) == [files[0]] + rest;
        assert ([files[0]] + rest)[1..] == rest;
      } else {
        assert KeptPaths(platform, files, assemblyName) == rest;
      }
    }
  }

  /** The build tool's own project file, `<dir>/<assembly>.csproj`, fails the `Where` clause. */
  lemma OwnProjectNotKept(platform: Platform, directory: string, assembly: string)
    requires forall k | 0 <= k < |assembly| :: !IsSeparator(platform, assembly[k])
    ensures !Keeps(platform, Some(assembly), directory + [DirectorySeparator(platform)] + assembly + ".csproj")
  {
    var extension := "csproj";
    assert ".csproj" == "." + extension;
    var path := directory + [DirectorySeparator(platform)] + assembly + ".csproj";
    assert path == directory + [DirectorySeparator(platform)] + assembly + "." + extension;
    assert forall k | 0 <= k < |extension| :: !IsSeparator(platform, extension[k]) && extension[k] != '.';
    FileNameOfCombined(platform, directory, assembly, extension);
    assert GetFileNameWithoutExtension(platform, path) == assembly;
  }

  /** The build tool's own project is never listed. */
  lemma OwnProjectExcluded(platform: Platform, directory: string, assembly: string, files: seq<string>)
    requires forall k | 0 <= k < |assembly| :: !IsSeparator(platform, assembly[k])
    ensures directory + [DirectorySeparator(platform)] + assembly + ".csproj" !in KeptPaths(platform, files, Some(assembly))
  {
    OwnProjectNotKept(platform, directory, assembly);
    KeptPathsSpec(platform, files, Some(assembly));
  }

  /**
   * A Windows path `<root>\<rest>` loses its root (when `<root>\` does not occur again in
   * `rest`), while a path written with '/' only is left as it is, root included.
   */
  lemma RelativePathSpec(root: string, rest: string, slashed: string)
    requires forall i | 0 <= i < |rest| :: !(root + "\\" <= rest[i..])
    requires '\\' !in slashed
    ensures RemoveAll(root + "\\" + rest, root + "\\") == rest
    ensures RemoveAll(slashed, root + "\\") == slashed
  {
    RemoveAllLeading(root + "\\", rest);
    RemoveAllWithoutMatch(rest, root + "\\");
    assert '\\' in root + "\\";
    RemoveAllUnmatched(slashed, root + "\\", '\\');
  }

  /**
   * The solution is "../__PROJECT__.slnx" (with '\' on Windows), and the filter is written to
   * `<root>/artifacts/__PROJECT__.slnf` for a root without a trailing separator.
   */
  lemma PathsSpec(platform: Platform, root: string)
    requires |root| > 0 && !IsSeparator(platform, root[|root| - 1])
    ensures SolutionRelativePath(platform) == ".." + [DirectorySeparator(platform)] + "__PROJECT__.slnx"
    ensures FilterPath(platform, root)
      == root + [DirectorySeparator(platform)] + "artifacts" + [DirectorySeparator(platform)] + "__PROJECT__.slnf"
  {
    var sep := DirectorySeparator(platform);
    CombinePlain(platform, "..", SolutionName + ".slnx");
    CombinePlain(platform, root, ArtifactPaths.Root);
    var dir := root + [sep] + ArtifactPaths.Root;
    assert dir[|dir| - 1] == 's';
    CombinePlain(platform, dir, SolutionName + ".slnf");
  }
}
