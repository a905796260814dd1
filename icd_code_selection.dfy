/**
 * The ICD-10 selection page: it offers the codes of the confirmed condition,
 * keeps a toggle-by-code selection seeded from the record, and writes a
 * non-empty selection.
 */
module IcdCodeSelection {
  import opened Wrappers
  import opened Text
  import opened Seqs
  import opened Selection
  import opened CsvParser
  import opened CaseData
  import opened Routes
  import opened AppState

  const EmptySelectionAlert := "Please select at least one ICD-10 code"

  /** The entry guard: without a confirmed condition the page goes back to the confirmation. */
  function Redirect(r: CaseRecord): (s: Option<Stage>)
    ensures s.Some? <==> !Truthy(r.confirmedCondition)
    ensures s.Some? ==> s.value == Confirmation
  {
    if !Truthy(r.confirmedCondition) then Some(Confirmation) else None
  }

  /** The key the selection compares: `c.code`. */
  function CodeOf(e: IcdEntry): Option<string> {
    e.code
  }

  class IcdSelectionPage {
    var icdCodes: seq<IcdEntry>
    var selectedCodes: seq<IcdEntry>

    constructor (caseData: CaseRecord)
      ensures icdCodes == [] && selectedCodes == caseData.selectedICDCodes.GetOr([])
    {
      icdCodes := [];
      selectedCodes := caseData.selectedICDCodes.GetOr([]);
    }

    /** `loadICDCodes`, on the rows of the conditions table (no rows when the file could not be read). */
    method LoadIcdCodes(conditionsData: seq<Row>, condition: string)
      modifies this`icdCodes
      ensures icdCodes == IcdCodesForCondition(conditionsData, condition)
    {
      icdCodes := IcdCodesForCondition(conditionsData, condition);
    }

    /** `toggleCodeSelection`: drop every entry with the code if one is selected, else append the entry. */
    method ToggleCodeSelection(code: IcdEntry)
      modifies this`selectedCodes
      ensures selectedCodes == Toggle(old(selectedCodes), code, CodeOf)
      ensures HasKey(selectedCodes, code.code, CodeOf) <==> !HasKey(old(selectedCodes), code.code, CodeOf)
      ensures DistinctKeys(old(selectedCodes), CodeOf) ==> DistinctKeys(selectedCodes, CodeOf)
      ensures !HasKey(old(selectedCodes), code.code, CodeOf) ==> Toggle(selectedCodes, code, CodeOf) == old(selectedCodes)
    {
      if !HasKey(selectedCodes, code.code, CodeOf) {
        ToggleTwice(selectedCodes, code, CodeOf);
      }
      if DistinctKeys(selectedCodes, CodeOf) {
        ToggleKeepsKeysDistinct(selectedCodes, code, CodeOf);
      }
      if HasKey(selectedCodes, code.code, CodeOf) {
        selectedCodes := RemoveKey(selectedCodes, code.code, CodeOf);
      } else {
        selectedCodes := selectedCodes + [code];
      }
    }

    /** `handleConfirm`: an empty selection alerts and stays; otherwise it is written and the treatments follow. */
    method HandleConfirm(app: App) returns (next: Stage, alert: Option<string>)
      requires app.Valid()
      modifies app`caseData
      ensures app.Valid()
      ensures selectedCodes == [] ==>
        app.caseData == old(app.caseData) && next == IcdSelection && alert == Some(EmptySelectionAlert)
      ensures selectedCodes != [] ==>
        && app.caseData == Merge(old(app.caseData), NoUpdate.(selectedICDCodes := Some(selectedCodes)))
        && next == Treatments && alert == None
    {
      if |selectedCodes| == 0 {
        return IcdSelection, Some(EmptySelectionAlert);
      }
      app.UpdateCaseData(NoUpdate.(selectedICDCodes := Some(selectedCodes)));
      next, alert := Treatments, None;
    }

    method HandleBack() returns (next: Stage)
      ensures next == Confirmation
    {
      next := Confirmation;
    }
  }

  /** The offered codes are exactly the projections of the table rows for the condition. */
  lemma OfferedCodes(conditionsData: seq<Row>, condition: string, e: IcdEntry)
    ensures e in IcdCodesForCondition(conditionsData, condition) <==>
      exists row :: row in conditionsData && CellIs(row, ConditionsColumn, condition) && e == IcdOf(row)
  {
    var rows, codes := IcdRows(conditionsData, condition), IcdCodesForCondition(conditionsData, condition);
    if e in codes {
      var j :| 0 <= j < |codes| && codes[j] == e;
      IcdRowsMember(conditionsData, condition, rows[j]);
    }
    if exists row :: row in conditionsData && CellIs(row, ConditionsColumn, condition) && e == IcdOf(row) {
      var row :| row in conditionsData && CellIs(row, ConditionsColumn, condition) && e == IcdOf(row);
      IcdRowsMember(conditionsData, condition, row);
      var j :| 0 <= j < |rows| && rows[j] == row;
      assert codes[j] == e;
    }
  }
}
