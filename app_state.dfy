/**
 * The application state held by the top-level component: the working case
 * record, the current module number and the list of saved cases, with the
 * four operations the pages are handed to change them.
 */
module AppState {
  import opened Wrappers
  import opened CaseData

  class App {
    var caseData: CaseRecord
    var currentModule: int
    var savedCases: seq<CaseRecord>

    /** The working record and every saved case have all their lists, and every saved case is stamped. */
    ghost predicate Valid()
      reads this
    {
      && Complete(caseData)
      && forall i :: 0 <= i < |savedCases| ==> Complete(savedCases[i]) && savedCases[i].id.Some?
    }

    constructor ()
      ensures Valid()
      ensures caseData == InitialRecord && currentModule == 1 && savedCases == []
    {
      caseData := InitialRecord;
      currentModule := 1;
      savedCases := [];
    }

    /** `updateCaseData`: shallow-merge the update into the working record. */
    method UpdateCaseData(u: CaseUpdate)
      requires Valid()
      modifies this`caseData
      ensures Valid()
      ensures caseData == Merge(old(caseData), u)
    {
      MergeKeepsComplete(caseData, u);
      caseData := Merge(caseData, u);
    }

    /**
     * `saveCase`: append the working record stamped with the clock value and
     * the ISO date, and return that element. The working record is not
     * touched (only `savedCases` may change).
     */
    method SaveCase(now: int, isoDate: string) returns (saved: CaseRecord)
      requires Valid()
      modifies this`savedCases
      ensures Valid()
      ensures saved == Stamp(caseData, now, isoDate)
      ensures savedCases == old(savedCases) + [saved]
    {
      saved := Stamp(caseData, now, isoDate);
      savedCases := savedCases + [saved];
    }

    /** `startNewCase`: reset the working record and go back to module 1; the saved cases stay. */
    method StartNewCase()
      requires Valid()
      modifies this`caseData, this`currentModule
      ensures Valid()
      ensures caseData == InitialRecord && currentModule == 1
    {
      caseData := ResetRecord;
      currentModule := 1;
    }

    /** `setCaseData`, as the saved-case list uses it: replace the working record wholesale. */
    method SetCaseData(r: CaseRecord)
      requires Valid()
      modifies this`caseData
      ensures caseData == r
      ensures Complete(r) ==> Valid()
    {
      caseData := r;
    }

    method SetCurrentModule(n: int)
      modifies this`currentModule
      ensures currentModule == n
    {
      currentModule := n;
    }
  }
}
