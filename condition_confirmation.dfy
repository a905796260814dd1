/**
 * The condition-confirmation page: it lists the detected conditions, keeps
 * the one the clinician clicked, and writes it as the confirmed condition.
 * The selection is seeded from the record's earlier confirmed condition, so
 * the value written is not necessarily one of the detected conditions.
 */
module ConditionConfirmation {
  import opened Wrappers
  import opened Text
  import opened CaseData
  import opened Routes
  import opened AppState

  const NoSelectionAlert := "Please select a condition"

  /** The entry guard: without detected conditions the page sends the user back to the note. */
  function Redirect(r: CaseRecord): (s: Option<Stage>)
    ensures s.Some? <==> r.detectedConditions.None? || r.detectedConditions.value == []
    ensures s.Some? ==> s.value == NoteInput
  {
    if r.detectedConditions.None? || |r.detectedConditions.value| == 0 then Some(NoteInput) else None
  }

  /** `caseData.confirmedCondition || null`. */
  function Seed(r: CaseRecord): (s: Option<string>)
    ensures s.Some? <==> Truthy(r.confirmedCondition)
    ensures s.Some? ==> s == r.confirmedCondition
  {
    if Truthy(r.confirmedCondition) then r.confirmedCondition else None
  }

  /** What the selection can hold on a page opened on `r`: nothing, the seed, or a detected condition. */
  predicate Offered(r: CaseRecord, selected: Option<string>) {
    selected.None? || selected == Seed(r) ||
    (r.detectedConditions.Some? && selected.value in r.detectedConditions.value)
  }

  class ConfirmationPage {
    var selectedCondition: Option<string>

    constructor (caseData: CaseRecord)
      ensures selectedCondition == Seed(caseData)
      ensures Offered(caseData, selectedCondition)
    {
      selectedCondition := Seed(caseData);
    }

    /** A click on the `i`-th listed condition. */
    method Select(caseData: CaseRecord, i: nat)
      requires caseData.detectedConditions.Some? && i < |caseData.detectedConditions.value|
      modifies this
      ensures selectedCondition == Some(caseData.detectedConditions.value[i])
      ensures Offered(caseData, selectedCondition)
    {
      selectedCondition := Some(caseData.detectedConditions.value[i]);
    }

    /**
     * `handleConfirm`: without a (truthy) selection it alerts and stays;
     * otherwise it writes the confirmed condition and moves on to the ICD
     * codes.
     */
    method HandleConfirm(app: App) returns (next: Stage, alert: Option<string>)
      requires app.Valid()
      modifies app`caseData
      ensures app.Valid()
      ensures !Truthy(selectedCondition) ==>
        app.caseData == old(app.caseData) && next == Confirmation && alert == Some(NoSelectionAlert)
      ensures Truthy(selectedCondition) ==>
        && app.caseData == Merge(old(app.caseData), NoUpdate.(confirmedCondition := selectedCondition))
        && next == IcdSelection && alert == None
    {
      if !Truthy(selectedCondition) {
        return Confirmation, Some(NoSelectionAlert);
      }
      app.UpdateCaseData(NoUpdate.(confirmedCondition := selectedCondition));
      next, alert := IcdSelection, None;
    }

    method HandleBack() returns (next: Stage)
      ensures next == NoteInput
    {
      next := NoteInput;
    }
  }

  /** A confirmed condition written by this page is the seed or one of the detected conditions. */
  lemma ConfirmedIsOffered(r: CaseRecord, selected: Option<string>)
    requires Offered(r, selected) && Truthy(selected)
    ensures var w := Merge(r, NoUpdate.(confirmedCondition := selected));
      w.confirmedCondition == selected &&
      (selected == r.confirmedCondition || (r.detectedConditions.Some? && selected.value in r.detectedConditions.value))
  {
  }

  /** The seed is not checked against the list: an earlier confirmation that is no longer detected is confirmed again. */
  lemma StaleSeedIsKept(r: CaseRecord)
    requires Truthy(r.confirmedCondition)
    requires r.detectedConditions.Some? && r.confirmedCondition.value !in r.detectedConditions.value
    ensures Offered(r, Seed(r)) && Truthy(Seed(r))
    ensures Seed(r).value !in r.detectedConditions.value
  {
  }
}
