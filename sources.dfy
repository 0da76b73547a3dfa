/**
 * Source normalisation (format_rootfiles) and the file sequence iter_arrays
 * then walks.
 */
module Sources {

  /** What a caller passes as `rootfiles`: one string, or a list of paths. */
  datatype SourceRef = Path(path: string) | Paths(paths: seq<string>)

  predicate EndsWith(s: string, suffix: string) {
    |suffix| <= |s| && s[|s| - |suffix|..] == suffix
  }

  /**
   * format_rootfiles.  A string ending in ".root" becomes a list: the remote
   * listing of a wildcard when it has a protocol and a '*', else the one
   * path.  Any other string, and any list, comes back as it was.  The
   * protocol test and the wildcard lister are the caller's.
   */
  function FormatRootfiles(src: SourceRef, hasProtocol: string -> bool, lsWildcard: string -> seq<string>): SourceRef {
    match src
    case Paths(_) => src
    case Path(p) =>
      if EndsWith(p, ".root") then
        if hasProtocol(p) && '*' in p then Paths(lsWildcard(p)) else Paths([p])
      else src
  }

  /**
   * The paths `for rootfile in rootfiles` visits: the list's elements, or,
   * for a string that was left as a string, its characters one by one.
   */
  function FileList(src: SourceRef): seq<string> {
    match src
    case Paths(ps) => ps
    case Path(p) => seq(|p|, i requires 0 <= i < |p| => [p[i]])
  }

  /**
   * Normalising twice is normalising once.  A list, and a string not ending
   * in ".root", come back unchanged; a list is then walked element by
   * element and such a string character by character.  A ".root" string
   * always becomes a list: the wildcard listing, or the one path.
   */
  lemma FormatRootfilesNormalises(src: SourceRef, hasProtocol: string -> bool, lsWildcard: string -> seq<string>)
    ensures var r := FormatRootfiles(src, hasProtocol, lsWildcard);
      FormatRootfiles(r, hasProtocol, lsWildcard) == r
    ensures var r := FormatRootfiles(src, hasProtocol, lsWildcard);
      r.Path? <==> (src.Path? && !EndsWith(src.path, ".root"))
    ensures src.Paths? || !EndsWith(src.path, ".root") ==> FormatRootfiles(src, hasProtocol, lsWildcard) == src
    ensures src.Paths? ==> FileList(FormatRootfiles(src, hasProtocol, lsWildcard)) == src.paths
    ensures src.Path? && !EndsWith(src.path, ".root") ==>
      var files := FileList(FormatRootfiles(src, hasProtocol, lsWildcard));
      |files| == |src.path| && forall i | 0 <= i < |files| :: files[i] == [src.path[i]]
    ensures src.Path? && EndsWith(src.path, ".root") && !(hasProtocol(src.path) && '*' in src.path) ==>
      FileList(FormatRootfiles(src, hasProtocol, lsWildcard)) == [src.path]
    ensures src.Path? && EndsWith(src.path, ".root") && hasProtocol(src.path) && '*' in src.path ==>
      FileList(FormatRootfiles(src, hasProtocol, lsWildcard)) == lsWildcard(src.path)
  {
  }
}
