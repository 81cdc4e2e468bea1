/** Reads the current commit id from git. */
module GitCli {
  import opened Wrappers
  import opened Strings
  import opened Process

  /** The one git call: `git rev-parse HEAD`, with its output captured. */
  const RevParseHead: Invocation := Invocation("git", "rev-parse HEAD")

  /** `commitId.Replace("\n", string.Empty, OrdinalIgnoreCase)`; a line feed has no other case. */
  function StripNewlines(output: string): (stripped: string)
    ensures '\n' !in stripped && |stripped| <= |output|
  {
    RemoveAllSingleCharacter(output, '\n');
    RemoveAll(output, "\n")
  }

  /**
   * `GetCommitId`: standard output of `git rev-parse HEAD` without line feeds; standard error is
   * ignored. A non-zero exit of git is the exit-code failure.
   */
  function GetCommitId(exitCode: Invocation -> int, output: Invocation -> Captured): (r: Result<string, ExitCodeError>)
    ensures r.Success? <==> exitCode(RevParseHead) == 0
    ensures r.Success? ==> r.value == StripNewlines(output(RevParseHead).standardOutput)
  {
    match Read(RevParseHead, exitCode, output)
    case Failure(e) => Failure(e)
    case Success(captured) => Success(StripNewlines(captured.standardOutput))
  }

  /**
   * The stripped id has no line feed, keeps every other character (carriage returns included)
   * in its original order and number, and is shorter by exactly the number of line feeds.
   */
  lemma StripNewlinesSpec(output: string)
    ensures StripNewlines(output) == FilterOut(output, '\n')
    ensures '\n' !in StripNewlines(output)
    ensures |StripNewlines(output)| == |output| - Count(output, '\n')
    ensures IsSubsequence(StripNewlines(output), output)
    ensures forall c | c != '\n' :: Count(StripNewlines(output), c) == Count(output, c)
  {
    RemoveAllSingleCharacter(output, '\n');
    FilterOutLength(output, '\n');
    FilterOutIsSubsequence(output, '\n');
    forall c | c != '\n' ensures Count(StripNewlines(output), c) == Count(output, c) {
      FilterOutKeepsOthers(output, '\n', c);
    }
  }

  /** Stripping twice is stripping once. */
  lemma StripNewlinesIdempotent(output: string)
    ensures StripNewlines(StripNewlines(output)) == StripNewlines(output)
  {
    StripNewlinesSpec(output);
    var once := StripNewlines(output);
    RemoveAllSingleCharacter(once, '\n');
    FilterOutAbsent(once, '\n');
  }

  /** The usual git output, forty hex digits and a line feed, loses only the line feed. */
  lemma StripTrailingNewline(id: string)
    requires '\n' !in id
    ensures StripNewlines(id + "\n") == id
  {
    StripNewlinesSpec(id + "\n");
    RemoveAllSingleCharacter(id + "\n", '\n');
    FilterOutAbsent(id, '\n');
    FilterOutAppend(id, "\n", '\n');
  }
}
