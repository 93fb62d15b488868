/** `isActive` of the side bar (app/components/Sidebar.tsx). */
module Sidebar {

  import opened Strings

  /** Whether the navigation entry for `path` is highlighted at `pathname`. */
  function IsActive(pathname: string, path: string): (r: bool)
    ensures r ==> StartsWith(pathname, path)
  {
    if path == "/" then pathname == "/" else StartsWith(pathname, path)
  }

  /** The root entry is highlighted only at "/" itself. */
  lemma RootOnlyAtRoot(pathname: string)
    ensures IsActive(pathname, "/") <==> pathname == "/"
  {
  }

  /** An active entry's path is a prefix of the pathname, and every other entry is active at any extension of its path. */
  lemma ActiveIsPrefix(pathname: string, path: string, rest: string)
    ensures IsActive(pathname, path) ==> |path| <= |pathname| && pathname[..|path|] == path
    ensures path != "/" ==> IsActive(path + rest, path)
  {
    assert (path + rest)[..|path|] == path;
  }

  /** Matching is by raw prefix, not by segment. */
  lemma RawPrefixMatch()
    ensures IsActive("/tournamentsX", "/tournaments")
    ensures IsActive("/tournaments/12", "/tournaments")
  {
    assert "/tournamentsX"[..|"/tournaments"|] == "/tournaments";
    assert "/tournaments/12"[..|"/tournaments"|] == "/tournaments";
  }

  /** Although every longer pathname starting with "/" has "/" as a prefix, the root entry is not active there. */
  lemma RootNotActiveForLonger(pathname: string)
    requires |pathname| > 1 && pathname[0] == '/'
    ensures StartsWith(pathname, "/")
    ensures !IsActive(pathname, "/")
  {
    assert pathname[..1] == "/";
  }
}
