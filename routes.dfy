/**
 * The route table of the application: one stage per page, its path, and the
 * catch-all route that sends any other path back to the clinical-note page.
 */
module Routes {
  import opened Text

  /** The pages, in workflow order; the saved-case list stands outside the order. */
  datatype Stage =
    | NoteInput | Confirmation | IcdSelection | Treatments
    | Documentation | Medications | Registration | CaseList

  function Path(s: Stage): string {
    match s
    case NoteInput => "/"
    case Confirmation => "/condition-confirmation"
    case IcdSelection => "/icd-selection"
    case Treatments => "/treatment-protocol"
    case Documentation => "/treatment-documentation"
    case Medications => "/medication-selection"
    case Registration => "/patient-registration"
    case CaseList => "/view-cases"
  }

  /** `s` without the slashes it ends with. */
  function TrimTrailingSlashes(s: string): (r: string)
    ensures |r| <= |s| && r == s[..|r|]
    ensures r != [] ==> r[|r| - 1] != '/'
    ensures forall i :: |r| <= i < |s| ==> s[i] == '/'
    decreases |s|
  {
    if s != [] && s[|s| - 1] == '/' then TrimTrailingSlashes(s[..|s| - 1]) else s
  }

  /** `a` and `b` are equal once their ASCII letters are lower-cased. */
  predicate SameIgnoringCase(a: string, b: string) {
    |a| == |b| && forall i :: 0 <= i < |a| ==> LowerChar(a[i]) == LowerChar(b[i])
  }

  /**
   * `<Route path={route}>` matches `path`: the router ignores letter case and
   * any number of trailing slashes. The route paths are ASCII, and a
   * case-insensitive regular expression never matches a non-ASCII character
   * against an ASCII one, so ASCII lower-casing is exact here.
   */
  predicate Matches(path: string, route: string) {
    SameIgnoringCase(TrimTrailingSlashes(path), TrimTrailingSlashes(route))
  }

  /**
   * The first of the seven page routes, in the order they are listed, whose
   * match flag is set; none set is the catch-all.
   */
  function FirstMatching(confirmation: bool, icdSelection: bool, treatments: bool, documentation: bool,
                         medications: bool, registration: bool, caseList: bool): Stage
  {
    if confirmation then Confirmation
    else if icdSelection then IcdSelection
    else if treatments then Treatments
    else if documentation then Documentation
    else if medications then Medications
    else if registration then Registration
    else if caseList then CaseList
    else NoteInput
  }

  /** The page a path renders; `<Route path="*">` redirects every other path to `/`. */
  function RouteToStage(path: string): (s: Stage)
    ensures Matches(path, Path(s)) || s == NoteInput
  {
    FirstMatching(Matches(path, Path(Confirmation)), Matches(path, Path(IcdSelection)),
                  Matches(path, Path(Treatments)), Matches(path, Path(Documentation)),
                  Matches(path, Path(Medications)), Matches(path, Path(Registration)),
                  Matches(path, Path(CaseList)))
  }

  /** The module number of a stage (1 to 7); the case list comes after them. */
  function Order(s: Stage): (n: nat)
    ensures 1 <= n <= 8
  {
    match s
    case NoteInput => 1
    case Confirmation => 2
    case IcdSelection => 3
    case Treatments => 4
    case Documentation => 5
    case Medications => 6
    case Registration => 7
    case CaseList => 8
  }

  /** Ignoring the case is comparing the lower-cased texts. */
  lemma SameIgnoringCaseIff(a: string, b: string)
    ensures SameIgnoringCase(a, b) <==> ToLower(a) == ToLower(b)
  {
    if ToLower(a) == ToLower(b) {
      forall i | 0 <= i < |a| ensures LowerChar(a[i]) == LowerChar(b[i]) {
        assert ToLower(a)[i] == ToLower(b)[i];
      }
    }
  }

  /** Lower-casing leaves the slashes where they are. */
  lemma {:induction false} TrimLower(s: string)
    ensures TrimTrailingSlashes(ToLower(s)) == ToLower(TrimTrailingSlashes(s))
    decreases |s|
  {
    if s != [] && s[|s| - 1] == '/' {
      assert ToLower(s)[..|s| - 1] == ToLower(s[..|s| - 1]);
      TrimLower(s[..|s| - 1]);
    }
  }

  /** The trimmed paths of the pages: each path but `/` is its own, and `/` trims to nothing. */
  lemma PathsTrimmed()
    ensures TrimTrailingSlashes(Path(NoteInput)) == ""
    ensures forall s :: s != NoteInput ==> TrimTrailingSlashes(Path(s)) == Path(s)
  {
    assert TrimTrailingSlashes("/") == TrimTrailingSlashes("");
  }

  /** Every page is reached by its own path, so the paths of distinct pages differ. */
  lemma PathRoundTrip(s: Stage)
    ensures RouteToStage(Path(s)) == s
  {
    PathsTrimmed();
    var m, r := Path(Medications), Path(Registration);
    assert LowerChar(m[1]) != LowerChar(r[1]);
  }

  /** A path that belongs to no page lands on the clinical-note page. */
  lemma UnknownPathRedirects(path: string)
    requires forall s: Stage :: !Matches(path, Path(s))
    ensures RouteToStage(path) == NoteInput
  {
  }

  /** Two paths that match the same routes render the same page. */
  lemma SameRoutes(a: string, b: string)
    requires forall route :: Matches(a, route) <==> Matches(b, route)
    ensures RouteToStage(a) == RouteToStage(b)
  {
  }

  /** The page does not depend on the letter case of the path. */
  lemma RouteIgnoresCase(path: string)
    ensures RouteToStage(ToLower(path)) == RouteToStage(path)
  {
    var t := TrimTrailingSlashes(path);
    TrimLower(path);
    ToLowerIdempotent(t);
    forall route ensures Matches(ToLower(path), route) <==> Matches(path, route) {
      SameIgnoringCaseIff(ToLower(t), TrimTrailingSlashes(route));
      SameIgnoringCaseIff(t, TrimTrailingSlashes(route));
    }
    SameRoutes(ToLower(path), path);
  }

  /** Nor on a trailing slash. */
  lemma RouteIgnoresTrailingSlash(path: string)
    ensures RouteToStage(path + "/") == RouteToStage(path)
  {
    assert (path + "/")[..|path|] == path;
    assert TrimTrailingSlashes(path + "/") == TrimTrailingSlashes(path);
    SameRoutes(path + "/", path);
  }
}
