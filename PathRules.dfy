/**
 * What the operation forms (the sidebar, the edit modal and the new-API form)
 * share: the path check run on submit, and the callback a form event ends in.
 */
module PathRules {
  import opened Strings

  const PathMissing := "Inserisci un path per l'API"
  const PathWithoutSlash := "Il path deve iniziare con /"

  /** The outcome of the path check: accepted, or the alert text shown. */
  datatype Check = Accepted | Rejected(message: string)

  /**
   * The two checks in their order: a blank path, then a path that does not
   * start with '/'. Together they accept exactly the paths whose first
   * character is '/'; an accepted path is used as typed, untrimmed.
   */
  function CheckPath(path: string): (r: Check)
    ensures r.Accepted? <==> |path| > 0 && path[0] == '/'
    ensures IsBlank(path) ==> r == Rejected(PathMissing)
    ensures !IsBlank(path) && r.Rejected? ==> r == Rejected(PathWithoutSlash)
  {
    if IsBlank(path) then
      BlankIffAllWhitespace(path);
      Rejected(PathMissing)
    else if !StartsWith(path, "/") then Rejected(PathWithoutSlash)
    else Accepted
  }

  /** A path made of white space only is turned away with the first message. */
  lemma WhitespacePathRejected(path: string)
    requires AllWhitespace(path)
    ensures CheckPath(path) == Rejected(PathMissing)
  {
    BlankIffAllWhitespace(path);
  }

  /** A path with leading white space before its '/' is not accepted: the check does not trim. */
  lemma LeadingSpaceRejected(path: string)
    requires StartsWith(path, " /")
    ensures CheckPath(path) == Rejected(PathWithoutSlash)
  {
    assert path[1] == '/' && !IsWhitespace('/');
    BlankIffAllWhitespace(path);
  }

  /** The callback a form event ends in, if any; an alert calls none. */
  datatype Dispatch =
    | NoCall
    | Alert(message: string)
    | Save(path: string, verb: string)
    | Update(oldPath: string, oldVerb: string, newPath: string, newVerb: string)
    | Delete(path: string, verb: string)
}
