/** How a relative reference is resolved against a base URI, as
    `HttpClient` does when a request names a relative path and the client
    has a `BaseAddress`: section 5.2 of RFC 3986, restricted to a reference
    that is a relative path (no scheme, no authority, no leading '/'). */
module Uris {

  /** The part of `path` up to and including its last '/', or the empty
      string when it has none. */
  function Directory(path: string): (dir: string)
    ensures |dir| <= |path| && dir == path[..|dir|]
    ensures dir == [] || dir[|dir| - 1] == '/'
    ensures forall i :: |dir| <= i < |path| ==> path[i] != '/'
    decreases |path|
  {
    if path == [] then []
    else if path[|path| - 1] == '/' then path
    else Directory(path[..|path| - 1])
  }

  /** "Merge Paths" (section 5.2.3 of RFC 3986) for a base with an
      authority: an empty base path becomes "/", otherwise the last segment
      of the base path is dropped and the reference put in its place. */
  function Merge(basePath: string, reference: string): (path: string)
    ensures |reference| <= |path| && path[|path| - |reference|..] == reference
    ensures var kept := path[..|path| - |reference|];
      && (basePath == [] ==> kept == "/")
      && (basePath != [] ==> |kept| <= |basePath| && kept == basePath[..|kept|] && (kept == [] || kept[|kept| - 1] == '/'))
      && (basePath != [] ==> forall i :: |kept| <= i < |basePath| ==> basePath[i] != '/')
  {
    if basePath == [] then "/" + reference else Directory(basePath) + reference
  }

  /** Appending text without a '/' to a path leaves its directory alone. */
  lemma {:induction false} DirectoryOfExtension(path: string, tail: string)
    requires '/' !in tail
    ensures Directory(path + tail) == Directory(path)
    decreases |tail|
  {
    if tail != [] {
      var longer := path + tail;
      assert longer[|longer| - 1] == tail[|tail| - 1];
      assert longer[..|longer| - 1] == path + tail[..|tail| - 1];
      DirectoryOfExtension(path, tail[..|tail| - 1]);
    } else {
      assert path + tail == path;
    }
  }
}
