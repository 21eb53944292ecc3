/**
 * The two path operations of `path/filepath` the engine relies on, for slash-separated paths:
 * `Base` (the last element of a path) and `Join` of a directory with one listed entry name.
 */
module Paths {

  /** `path` with every trailing '/' removed. */
  function StripTrailingSlashes(path: string): (r: string)
    ensures |r| <= |path| && path[..|r|] == r
    ensures r == [] || r[|r| - 1] != '/'
    ensures forall i :: |r| <= i < |path| ==> path[i] == '/'
    decreases |path|
  {
    if |path| > 0 && path[|path| - 1] == '/' then StripTrailingSlashes(path[..|path| - 1]) else path
  }

  /** What follows the last '/' of `path` (all of it when there is none). */
  function LastElement(path: string): (r: string)
    ensures |r| <= |path| && path[|path| - |r|..] == r
    ensures '/' !in r
    ensures |r| < |path| ==> path[|path| - |r| - 1] == '/'
    decreases |path|
  {
    if |path| == 0 || path[|path| - 1] == '/' then []
    else LastElement(path[..|path| - 1]) + [path[|path| - 1]]
  }

  /** `filepath.Base`: the empty path gives ".", a path of slashes only gives "/", any other
      path gives its last element with trailing slashes removed. */
  function Base(path: string): (r: string)
    ensures r != []
    ensures r == "/" || '/' !in r
    ensures path == [] ==> r == "."
    ensures var s := StripTrailingSlashes(path); path != [] && s == [] ==> r == "/"
    ensures var s := StripTrailingSlashes(path);
      s != [] ==> |r| <= |s| && s[|s| - |r|..] == r && (|r| < |s| ==> s[|s| - |r| - 1] == '/')
  {
    if path == [] then "."
    else
      var stripped := StripTrailingSlashes(path);
      if stripped == [] then "/" else LastElement(stripped)
  }

  /** A name a directory listing can return: non-empty and free of separators. */
  predicate IsEntryName(name: string) {
    name != [] && '/' !in name
  }

  /** `filepath.Join(dir, name)` for a clean directory path and an entry name. */
  function Join(dir: string, name: string): string {
    if dir != [] && dir[|dir| - 1] == '/' then dir + name else dir + "/" + name
  }

  lemma {:induction false} LastElementOfSuffix(dir: string, name: string, k: nat)
    requires '/' !in name && k <= |name| && (dir == [] || dir[|dir| - 1] == '/')
    ensures LastElement(dir + name[..k]) == name[..k]
    decreases k
  {
    var p := dir + name[..k];
    if k == 0 {
      assert p == dir;
    } else {
      var q := dir + name[..k - 1];
      assert name[k - 1] != '/' by { assert name[k - 1] in name; }
      assert p == q + [name[k - 1]] by { assert name[..k] == name[..k - 1] + [name[k - 1]]; }
      LastElementOfSuffix(dir, name, k - 1);
      LastElementStep(q, name[k - 1]);
    }
  }

  /** Appending a character other than '/' extends the last element by it. */
  lemma LastElementStep(q: string, c: char)
    requires c != '/'
    ensures LastElement(q + [c]) == LastElement(q) + [c]
  {
    assert (q + [c])[..|q|] == q;
  }

  /** The paths the walk builds name their last element correctly: the base of a joined path
      is the entry name. */
  lemma BaseOfJoin(dir: string, name: string)
    requires IsEntryName(name)
    ensures Base(Join(dir, name)) == name
  {
    var j := Join(dir, name);
    var d := if dir != [] && dir[|dir| - 1] == '/' then dir else dir + "/";
    assert j == d + name;
    assert StripTrailingSlashes(j) == j by {
      assert j[|j| - 1] == name[|name| - 1];
      assert name[|name| - 1] != '/';
    }
    LastElementOfSuffix(d, name, |name|);
    assert name[..|name|] == name;
  }
}
