/**
 * The directory operations the lint target uses (`Directory.Exists`, `Directory.Delete` with
 * `recursive: true`, `Directory.Move`), over the set of directory paths relative to the working
 * directory. Files are not modelled.
 */
module FileSystem {
  import opened Wrappers
  import opened Strings

  /** The `IOException`s these operations throw. */
  datatype IoError = DirectoryNotFound(path: string) | DestinationExists(path: string)

  /** `path` itself and everything below it. */
  predicate Within(d: string, path: string)
  {
    d == path || path + "/" <= d
  }

  function Subtree(directories: set<string>, path: string): (r: set<string>)
    ensures r <= directories
    ensures forall d | d in r :: |path| <= |d| && d[..|path|] == path
  {
    set d | d in directories && Within(d, path)
  }

  /** The directory containing `path`; `None` when that is the working directory. */
  function Parent(path: string): Option<string>
  {
    match LastIndexOf(path, '/')
    case None => None
    case Some(i) => Some(path[..i])
  }

  /** `Directory.Delete(path, recursive: true)`: removes `path` and all below it. */
  function Delete(directories: set<string>, path: string): (r: Result<set<string>, IoError>)
    ensures r.Success? <==> path in directories
    ensures r.Success? ==> r.value <= directories && path !in r.value
    ensures r.Success? ==> forall d | d in r.value :: !Within(d, path)
    ensures r.Success? ==> forall d | d in directories && !Within(d, path) :: d in r.value
  {
    if path !in directories then Failure(DirectoryNotFound(path))
    else Success(directories - Subtree(directories, path))
  }

  /** `Directory.Move(source, destination)`: the tree at `source` now sits at `destination`. */
  function Move(directories: set<string>, source: string, destination: string): (r: Result<set<string>, IoError>)
    ensures r.Success? <==>
      && source in directories && destination !in directories
      && (Parent(destination).Some? ==> Parent(destination).value in directories)
    ensures r.Success? ==> destination in r.value
    ensures r.Failure? && source !in directories ==> r.error == DirectoryNotFound(source)
    ensures r.Success? && !(destination <= source) ==> source !in r.value
  {
    if source !in directories then Failure(DirectoryNotFound(source))
    else if destination in directories then Failure(DestinationExists(destination))
    else if Parent(destination).Some? && Parent(destination).value !in directories then
      Failure(DirectoryNotFound(Parent(destination).value))
    else
      var moved := Subtree(directories, source);
      var r := (directories - moved) + (set d | d in moved :: destination + d[|source|..]);
      assert source in moved;
      assert source[|source|..] == [] && destination + [] == destination;
      assert destination + source[|source|..] in r;
      assert !(destination <= source) ==> source !in r by {
        if !(destination <= source) {
          forall m | m in moved ensures destination + m[|source|..] != source {
            assert destination <= destination + m[|source|..];
          }
        }
      }
      Success(r)
  }

  /** The working tree, as far as the directory operations see it. */
  class Disk {
    var directories: set<string>

    constructor (directories: set<string>)
      ensures this.directories == directories
    {
      this.directories := directories;
    }

    function Exists(path: string): (b: bool)
      reads this
      ensures b <==> path in directories
    {
      path in directories
    }

    method DeleteRecursive(path: string) returns (outcome: Outcome<IoError>)
      modifies this
      ensures match Delete(old(directories), path)
        case Success(after) => outcome == Pass && directories == after
        case Failure(e) => outcome == Fail(e) && directories == old(directories)
    {
      var r := Delete(directories, path);
      if r.Success? {
        directories := r.value;
        outcome := Pass;
      } else {
        outcome := Fail(r.error);
      }
    }

    method MoveDirectory(source: string, destination: string) returns (outcome: Outcome<IoError>)
      modifies this
      ensures match Move(old(directories), source, destination)
        case Success(after) => outcome == Pass && directories == after
        case Failure(e) => outcome == Fail(e) && directories == old(directories)
    {
      var r := Move(directories, source, destination);
      if r.Success? {
        directories := r.value;
        outcome := Pass;
      } else {
        outcome := Fail(r.error);
      }
    }
  }
}
