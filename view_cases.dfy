/**
 * The saved-cases page: it lists the saved cases with their counts,
 * highlights the one being viewed, loads a case back into the working record
 * at the registration stage, and exports a case's claim without touching the
 * saved cases.
 */
module ViewCases {
  import opened Wrappers
  import opened Seqs
  import opened Text
  import opened CaseData
  import opened Routes
  import opened AppState
  import opened ClaimPdf
  import opened TreatmentDocumentation

  const UntitledCase := "Untitled Case"
  const ExportCaseErrorAlert := "Error exporting case. Please try again."

  function ExportedCaseAlert(filename: string): string {
    "Case exported as " + filename
  }

  /** `list?.length || 0`: the length of a present list, and 0 for an absent one. */
  function LengthOr<T>(list: Option<seq<T>>): (n: nat)
    ensures list.None? ==> n == 0
    ensures list.Some? ==> n == |list.value|
  {
    if list.Some? then |list.value| else 0
  }

  function IcdCount(c: CaseRecord): nat {
    LengthOr(c.selectedICDCodes)
  }

  /** The tests shown: the diagnostic and the management items together. */
  function TestsCount(c: CaseRecord): nat {
    LengthOr(c.diagnosticBasket) + LengthOr(c.managementBasket)
  }

  function MedicationCount(c: CaseRecord): nat {
    LengthOr(c.selectedMedications)
  }

  /** The heading of a listed case: its condition, or "Untitled Case" when it has none. */
  function CaseTitle(c: CaseRecord): (t: string)
    ensures Truthy(c.confirmedCondition) ==> t == c.confirmedCondition.value
    ensures !Truthy(c.confirmedCondition) ==> t == UntitledCase
  {
    if Truthy(c.confirmedCondition) then c.confirmedCondition.value else UntitledCase
  }

  /** `selectedCase?.id === caseItem.id`: no selection has the id `undefined`. */
  predicate Highlighted(selectedCase: Option<CaseRecord>, caseItem: CaseRecord) {
    (if selectedCase.Some? then selectedCase.value.id else None) == caseItem.id
  }

  class CaseListPage {
    var selectedCase: Option<CaseRecord>

    constructor ()
      ensures selectedCase == None
    {
      selectedCase := None;
    }

    /** `handleViewCase`: the clicked case is shown, and every case with its id is highlighted. */
    method HandleViewCase(caseItem: CaseRecord)
      modifies this
      ensures selectedCase == Some(caseItem)
      ensures forall c :: Highlighted(selectedCase, c) <==> c.id == caseItem.id
    {
      selectedCase := Some(caseItem);
    }

    /**
     * `handleLoadCase`: the working record becomes the saved case as it is,
     * stamps included, and the registration stage follows. The saved cases
     * are not touched.
     */
    method HandleLoadCase(app: App, caseItem: CaseRecord) returns (next: Stage)
      requires app.Valid() && caseItem in app.savedCases
      modifies app`caseData, app`currentModule
      ensures app.Valid()
      ensures app.caseData == caseItem && app.currentModule == Order(Registration)
      ensures next == Registration
    {
      app.SetCaseData(caseItem);
      app.SetCurrentModule(7);
      next := Registration;
    }

    /**
     * `handleExportCase`: the claim of the saved case as it is; a failure of
     * the drawing library (`drawingFails`) only changes the message.
     */
    method HandleExportCase(caseItem: CaseRecord, m: Metrics, today: string, now: nat, drawingFails: bool)
      returns (claim: Option<seq<Block>>, alert: string)
      ensures drawingFails ==> claim == None && alert == ExportCaseErrorAlert
      ensures !drawingFails ==> claim == Some(Layout(caseItem, m, today)) && alert == ExportedCaseAlert(ClaimFilename(now))
    {
      if drawingFails {
        claim, alert := None, ExportCaseErrorAlert;
      } else {
        var layout, filename := GenerateClaimPdf(caseItem, m, today, now);
        claim, alert := Some(layout), ExportedCaseAlert(filename);
      }
    }
  }

  // ---------------------------------------------------------------- properties

  /** The tests count is the length of the combined list the documentation page shows. */
  lemma TestsCountIsCombined(c: CaseRecord)
    ensures TestsCount(c) == |Combined(c)|
  {
  }

  /** The counts of a saved case are those of the record it was saved from. */
  lemma StampKeepsCounts(r: CaseRecord, now: int, isoDate: string)
    ensures var s := Stamp(r, now, isoDate);
      IcdCount(s) == IcdCount(r) && TestsCount(s) == TestsCount(r) && MedicationCount(s) == MedicationCount(r)
  {
    var s := Stamp(r, now, isoDate);
    assert Field(s, SelectedICDCodesKey) == Field(r, SelectedICDCodesKey);
    assert Field(s, DiagnosticBasketKey) == Field(r, DiagnosticBasketKey);
    assert Field(s, ManagementBasketKey) == Field(r, ManagementBasketKey);
    assert Field(s, SelectedMedicationsKey) == Field(r, SelectedMedicationsKey);
  }

  /** The counts shown for a case are the numbers of rows of its claim's tables (0 where the table is left out). */
  lemma CountsAreClaimRows(c: CaseRecord, today: string)
    ensures IcdCount(c) == |ContentOf(c, IcdKind, today).rows|
    ensures TestsCount(c) == |ContentOf(c, DiagnosticKind, today).rows| + |ContentOf(c, ManagementKind, today).rows|
    ensures MedicationCount(c) == |ContentOf(c, MedicationKind, today).rows|
    ensures IcdCount(c) > 0 <==> Included(c, IcdKind)
    ensures MedicationCount(c) > 0 <==> Included(c, MedicationKind)
  {
  }

  /** Distinct saved cases with distinct ids: viewing one highlights it and no other. */
  lemma HighlightIsUnique(cases: seq<CaseRecord>, i: nat, j: nat)
    requires i < |cases| && j < |cases|
    requires forall a, b :: 0 <= a < b < |cases| ==> cases[a].id != cases[b].id
    ensures Highlighted(Some(cases[i]), cases[j]) <==> i == j
  {
    if i < j {
      assert cases[i].id != cases[j].id;
    } else if j < i {
      assert cases[j].id != cases[i].id;
    }
  }
}
