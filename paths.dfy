/**
 * The parts of .NET's `System.IO.Path` the solution target uses, for the two kinds of platform:
 * on Unix only '/' separates directories, on Windows both '\' and '/' do and '\' is the one
 * inserted. Drive-letter and UNC roots are not modelled.
 */
module Paths {
  import opened Wrappers
  import opened Strings

  datatype Platform = Unix | Windows

  function DirectorySeparator(platform: Platform): char
  {
    if platform.Unix? then '/' else '\\'
  }

  predicate IsSeparator(platform: Platform, c: char)
  {
    c == '/' || (platform.Windows? && c == '\\')
  }

  /** `Path.IsPathRooted`, for paths without a drive letter. */
  predicate IsRooted(platform: Platform, path: string)
  {
    |path| > 0 && IsSeparator(platform, path[0])
  }

  /** The position of the last directory separator in `path`, if any. */
  function LastSeparator(platform: Platform, path: string): (r: Option<nat>)
    ensures r.Some? ==> r.value < |path| && IsSeparator(platform, path[r.value])
    ensures r.Some? ==> forall k | r.value < k < |path| :: !IsSeparator(platform, path[k])
    ensures r.None? ==> forall k | 0 <= k < |path| :: !IsSeparator(platform, path[k])
    decreases |path|
  {
    if path == [] then None
    else if IsSeparator(platform, path[|path| - 1]) then Some(|path| - 1)
    else LastSeparator(platform, path[..|path| - 1])
  }

  /** `Path.GetFileName`: what follows the last separator. */
  function GetFileName(platform: Platform, path: string): (name: string)
    ensures forall k | 0 <= k < |name| :: !IsSeparator(platform, name[k])
    ensures |name| <= |path| && name == path[|path| - |name|..]
    ensures |name| < |path| ==> IsSeparator(platform, path[|path| - |name| - 1])
  {
    match LastSeparator(platform, path)
    case None => path
    case Some(i) => path[i + 1..]
  }

  /** `Path.GetFileNameWithoutExtension`: the file name up to its last '.'. */
  function GetFileNameWithoutExtension(platform: Platform, path: string): (stem: string)
    ensures stem <= GetFileName(platform, path)
  {
    var name := GetFileName(platform, path);
    match LastIndexOf(name, '.')
    case None => name
    case Some(i) => name[..i]
  }

  /**
   * `Path.Combine(first, second)`: an empty part gives the other, a rooted second part replaces
   * the first, and a separator is put between only when neither side has one at the seam.
   */
  function Combine(platform: Platform, first: string, second: string): (r: string)
    ensures |second| <= |r| && r[|r| - |second|..] == second
    ensures |second| > 0 && !IsRooted(platform, second) ==> first <= r
  {
    if |second| == 0 then first
    else if |first| == 0 || IsRooted(platform, second) then second
    else if IsSeparator(platform, first[|first| - 1]) || IsSeparator(platform, second[0]) then first + second
    else first + [DirectorySeparator(platform)] + second
  }

  /** `Path.Combine(first, second, third)`, which combines from the left. */
  function Combine3(platform: Platform, first: string, second: string, third: string): (r: string)
    ensures |third| <= |r| && r[|r| - |third|..] == third
  {
    Combine(platform, Combine(platform, first, second), third)
  }

  /** Two plain names are joined by exactly the platform's separator. */
  lemma CombinePlain(platform: Platform, first: string, second: string)
    requires |first| > 0 && |second| > 0
    requires !IsSeparator(platform, first[|first| - 1]) && !IsSeparator(platform, second[0])
    ensures Combine(platform, first, second) == first + [DirectorySeparator(platform)] + second
  {
  }

  /** The last separator of `head + [c] + tail` is `c` when `tail` has none. */
  lemma {:induction false} LastSeparatorBefore(platform: Platform, head: string, c: char, tail: string)
    requires IsSeparator(platform, c)
    requires forall k | 0 <= k < |tail| :: !IsSeparator(platform, tail[k])
    ensures LastSeparator(platform, head + [c] + tail) == Some(|head|)
    decreases |tail|
  {
    var path := head + [c] + tail;
    if tail != [] {
      assert path[|path| - 1] == tail[|tail| - 1];
      assert path[..|path| - 1] == head + [c] + tail[..|tail| - 1];
      LastSeparatorBefore(platform, head, c, tail[..|tail| - 1]);
    }
  }

  /** The name of a file in a directory, without its extension, is read back. */
  lemma FileNameOfCombined(platform: Platform, directory: string, stem: string, extension: string)
    requires forall k | 0 <= k < |stem| :: !IsSeparator(platform, stem[k])
    requires forall k | 0 <= k < |extension| :: !IsSeparator(platform, extension[k]) && extension[k] != '.'
    ensures GetFileNameWithoutExtension(platform, directory + [DirectorySeparator(platform)] + stem + "." + extension) == stem
  {
    var sep := DirectorySeparator(platform);
    var tail := stem + "." + extension;
    assert directory + [sep] + stem + "." + extension == directory + [sep] + tail;
    forall k | 0 <= k < |tail| ensures !IsSeparator(platform, tail[k]) {
      if k > |stem| {
        assert tail[k] == extension[k - |stem| - 1];
      }
    }
    LastSeparatorBefore(platform, directory, sep, tail);
    assert (directory + [sep] + tail)[|directory| + 1..] == tail;
    assert '.' !in extension;
    LastIndexOfBefore(stem, '.', extension);
    assert stem + "." + extension == stem + ['.'] + extension;
    assert tail[..|stem|] == stem;
  }
}
