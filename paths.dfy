/**
 Slash-separated path names as the repository pool uses them: the final
 element of a path (`filepath.Base`, which names a repository added by
 path) and the joining of a directory with one of its entries
 (`filepath.Join`, which builds the path of each subdirectory scanned).
 */
module Paths {

  /** The path with every trailing slash removed. */
  function TrimTrailingSlashes(path: string): (r: string)
    ensures |r| <= |path| && r == path[..|r|]
    ensures r == [] || r[|r| - 1] != '/'
    ensures forall k :: |r| <= k < |path| ==> path[k] == '/'
    decreases |path|
  {
    if path != [] && path[|path| - 1] == '/' then TrimTrailingSlashes(path[..|path| - 1])
    else path
  }

  /** The part of the path that follows its last slash; the whole path when it has none. */
  function AfterLastSlash(path: string): (r: string)
    ensures '/' !in r
    ensures |r| <= |path| && r == path[|path| - |r|..]
    ensures |r| < |path| ==> path[|path| - |r| - 1] == '/'
    decreases |path|
  {
    if path == [] then []
    else if path[|path| - 1] == '/' then []
    else
      var init := path[..|path| - 1];
      var tail := AfterLastSlash(init);
      assert path == init + [path[|path| - 1]];
      tail + [path[|path| - 1]]
  }

  /**
   The last element of a path, as `filepath.Base` gives it on a
   slash-separated system: trailing slashes are dropped first, the empty
   path gives "." and a path of slashes only gives "/". The result is never
   empty and holds a slash only when it is "/".
   */
  function Base(path: string): (b: string)
    ensures b != ""
    ensures '/' in b ==> b == "/"
    ensures path != "" && '/' !in path ==> b == path
  {
    if path == "" then "."
    else
      var trimmed := TrimTrailingSlashes(path);
      if trimmed == "" then "/" else AfterLastSlash(trimmed)
  }

  /**
   A directory joined with one entry name, empty parts skipped. Unlike
   `filepath.Join` the result is not cleaned (no collapsing of repeated
   slashes, "." or ".." elements).
   */
  function Join(dir: string, name: string): string
  {
    if dir == "" then name
    else if name == "" then dir
    else dir + "/" + name
  }

  /** Whatever precedes a slash-free name, it is all that follows the last slash. */
  lemma {:induction false} AfterLastSlashOfName(prefix: string, name: string)
    requires '/' !in name
    requires prefix == [] || prefix[|prefix| - 1] == '/'
    ensures AfterLastSlash(prefix + name) == name
    decreases |name|
  {
    if name == [] {
      assert prefix + name == prefix;
    } else {
      var whole := prefix + name;
      var init := name[..|name| - 1];
      var last := name[|name| - 1];
      assert last in name;
      assert whole[|whole| - 1] == last;
      assert whole[..|whole| - 1] == prefix + init;
      assert AfterLastSlash(whole) == AfterLastSlash(prefix + init) + [last];
      AfterLastSlashOfName(prefix, init);
      assert init + [last] == name;
    }
  }

  /**
   The name of a directory entry is recovered as the base of the joined
   path: the identifier a subdirectory is registered under is its own name.
   */
  lemma BaseOfJoin(dir: string, name: string)
    requires name != "" && '/' !in name
    ensures Base(Join(dir, name)) == name
  {
    var joined := Join(dir, name);
    var prefix := if dir == "" then "" else dir + "/";
    assert joined == prefix + name;
    assert joined[|joined| - 1] == name[|name| - 1];
    assert TrimTrailingSlashes(joined) == joined;
    AfterLastSlashOfName(prefix, name);
  }
}
