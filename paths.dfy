/**
 * Relative and absolute project paths, written as normalised strings: components
 * separated by a single '/', no trailing '/', an absolute path starting with '/'.
 */
module Paths {

  type Path = string

  predicate IsAbsolute(p: Path) {
    |p| > 0 && p[0] == '/'
  }

  /**
   * `dir.resolve(other)` of java.nio.file.Path on normalised paths: an empty `other`
   * gives `dir`, an absolute `other` wins, and a relative one is appended below `dir`.
   */
  function Resolve(dir: Path, other: Path): (r: Path)
    ensures r == "" <==> dir == "" && other == ""
    ensures other == "" ==> r == dir
    ensures IsAbsolute(other) ==> r == other
  {
    if other == "" then dir
    else if IsAbsolute(other) || dir == "" then other
    else dir + "/" + other
  }

  /** `src` lies strictly below the directory `base`. */
  predicate IsUnder(base: Path, src: Path) {
    base != "" && |src| > |base| + 1 && src[..|base|] == base && src[|base|] == '/'
  }

  /**
   * The path of `src` relative to the directory `base`: the part after "<base>/".
   * A source that does not lie below `base` is kept as it is.
   */
  function LocalPath(base: Path, src: Path): (r: Path)
    ensures |r| <= |src|
  {
    if IsUnder(base, src) then src[|base| + 1..] else src
  }

  /** Relativising a source against its base and resolving it again gives the source back. */
  lemma ResolveLocalPath(base: Path, src: Path)
    requires IsUnder(base, src) && src[|base| + 1] != '/'
    ensures Resolve(base, LocalPath(base, src)) == src
  {
  }

  /** Resolving a relative path against a base and relativising it again gives the path back. */
  lemma LocalPathOfResolve(base: Path, rel: Path)
    requires base != "" && rel != "" && !IsAbsolute(rel)
    ensures IsUnder(base, Resolve(base, rel))
    ensures LocalPath(base, Resolve(base, rel)) == rel
  {
  }

  /** Two different non-empty relative names resolve to two different entries of one directory. */
  lemma ResolveInjective(dir: Path, a: Path, b: Path)
    requires a != "" && !IsAbsolute(a) && b != "" && !IsAbsolute(b)
    ensures Resolve(dir, a) == Resolve(dir, b) <==> a == b
  {
    if dir != "" && Resolve(dir, a) == Resolve(dir, b) {
      LocalPathOfResolve(dir, a);
      LocalPathOfResolve(dir, b);
    }
  }
}
