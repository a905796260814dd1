/**
 * The treatment-protocol page: it splits the condition's treatment rows into
 * the diagnostic and the ongoing-management basket (each item starting at
 * quantity 1), keeps a toggle-by-code selection per basket with an editable
 * quantity, and writes both baskets unless both are empty.
 */
module TreatmentProtocol {
  import opened Wrappers
  import opened Seqs
  import opened Text
  import opened Selection
  import opened CsvParser
  import opened CaseData
  import opened Routes
  import opened AppState

  const EmptyBasketsAlert := "Please select at least one test or procedure"

  /** The tab whose basket a toggle or quantity edit applies to; any other tab means the management basket. */
  const DiagnosticTab := "diagnostic"

  /** The entry guard: without a confirmed condition the page goes back to the ICD codes. */
  function Redirect(r: CaseRecord): (s: Option<Stage>)
    ensures s.Some? <==> !Truthy(r.confirmedCondition)
    ensures s.Some? ==> s.value == IcdSelection
  {
    if !Truthy(r.confirmedCondition) then Some(IcdSelection) else None
  }

  /** A treatment row as the page offers it: the row's cells and quantity 1. */
  function OfferedItem(row: Row): BasketItem {
    BasketItem(Cell(row, ProcedureDescriptionColumn), Cell(row, ProcedureCodeColumn), Cell(row, CoveredColumn), 1)
  }

  /** A treatment of the lookup as a basket item with quantity 1. */
  function Fresh(t: Treatment): BasketItem {
    BasketItem(t.description, t.code, t.covered, 1)
  }

  /** The key both baskets toggle on: `t.code`. */
  function ItemCode(t: BasketItem): Option<string> {
    t.code
  }

  /** `parseInt(quantity) || 1`: the number typed, or 1 when it is not a number or is zero. */
  function QuantityFromInput(quantity: string): (n: int)
    ensures n != 0
    ensures ParseInt(quantity).Some? && ParseInt(quantity).value != 0 ==> n == ParseInt(quantity).value
    ensures ParseInt(quantity).None? || ParseInt(quantity) == Some(0) ==> n == 1
  {
    match ParseInt(quantity)
    case Some(v) => if v != 0 then v else 1
    case None => 1
  }

  /** The quantity edit of `updateQuantity` applied to a basket. */
  function SetQuantity(items: seq<BasketItem>, code: Option<string>, quantity: string): (r: seq<BasketItem>)
    ensures |r| == |items|
    ensures forall i :: 0 <= i < |items| ==>
      r[i] == if items[i].code == code then items[i].(quantity := QuantityFromInput(quantity)) else items[i]
  {
    Map(items, (t: BasketItem) => if t.code == code then t.(quantity := QuantityFromInput(quantity)) else t)
  }

  /** The loop of `loadTreatments`: each row of the condition is pushed, at quantity 1, into the basket its type names. */
  method SplitTreatments(treatmentsData: seq<Row>, condition: string) returns (diagnostic: seq<BasketItem>, management: seq<BasketItem>)
    ensures diagnostic == Map(DiagnosticRows(treatmentsData, condition), OfferedItem)
    ensures management == Map(ManagementRows(treatmentsData, condition), OfferedItem)
  {
    diagnostic, management := [], [];
    for i := 0 to |treatmentsData|
      invariant diagnostic == Map(DiagnosticRows(treatmentsData[..i], condition), OfferedItem)
      invariant management == Map(ManagementRows(treatmentsData[..i], condition), OfferedItem)
    {
      var row := treatmentsData[i];
      SplitStep(treatmentsData, condition, i);
      if CellIs(row, ConditionColumn, condition) {
        var treatment := OfferedItem(row);
        if CellIs(row, BasketTypeColumn, DiagnosticType) {
          diagnostic := diagnostic + [treatment];
        } else if CellIs(row, BasketTypeColumn, ManagementType) {
          management := management + [treatment];
        }
      }
    }
    assert treatmentsData[..|treatmentsData|] == treatmentsData;
  }

  /** One more row extends the basket it belongs to by its offered item. */
  lemma SplitStep(rows: seq<Row>, condition: string, i: nat)
    requires i < |rows|
    ensures Map(DiagnosticRows(rows[..i + 1], condition), OfferedItem) ==
      Map(DiagnosticRows(rows[..i], condition), OfferedItem) + (if IsDiagnosticFor(rows[i], condition) then [OfferedItem(rows[i])] else [])
    ensures Map(ManagementRows(rows[..i + 1], condition), OfferedItem) ==
      Map(ManagementRows(rows[..i], condition), OfferedItem) + (if IsManagementFor(rows[i], condition) then [OfferedItem(rows[i])] else [])
  {
    assert rows[..i + 1][..i] == rows[..i];
    if IsDiagnosticFor(rows[i], condition) {
      MapAppend(DiagnosticRows(rows[..i], condition), [rows[i]], OfferedItem);
    }
    if IsManagementFor(rows[i], condition) {
      MapAppend(ManagementRows(rows[..i], condition), [rows[i]], OfferedItem);
    }
  }

  class TreatmentPage {
    var diagnosticTests: seq<BasketItem>
    var managementTests: seq<BasketItem>
    var selectedDiagnostic: seq<BasketItem>
    var selectedManagement: seq<BasketItem>

    constructor (caseData: CaseRecord)
      ensures diagnosticTests == [] && managementTests == []
      ensures selectedDiagnostic == caseData.diagnosticBasket.GetOr([])
      ensures selectedManagement == caseData.managementBasket.GetOr([])
    {
      diagnosticTests, managementTests := [], [];
      selectedDiagnostic := caseData.diagnosticBasket.GetOr([]);
      selectedManagement := caseData.managementBasket.GetOr([]);
    }

    /** `loadTreatments`, on the rows of the treatment table (none when the file could not be read). */
    method LoadTreatments(treatmentsData: seq<Row>, condition: string)
      modifies this`diagnosticTests, this`managementTests
      ensures diagnosticTests == Map(DiagnosticRows(treatmentsData, condition), OfferedItem)
      ensures managementTests == Map(ManagementRows(treatmentsData, condition), OfferedItem)
    {
      diagnosticTests, managementTests := SplitTreatments(treatmentsData, condition);
    }

    /** `toggleTestSelection`: toggles by code in the tab's basket; the other basket is untouched. */
    method ToggleTestSelection(test: BasketItem, tab: string)
      modifies this`selectedDiagnostic, this`selectedManagement
      ensures tab == DiagnosticTab ==>
        selectedDiagnostic == Toggle(old(selectedDiagnostic), test, ItemCode) && selectedManagement == old(selectedManagement)
      ensures tab != DiagnosticTab ==>
        selectedManagement == Toggle(old(selectedManagement), test, ItemCode) && selectedDiagnostic == old(selectedDiagnostic)
    {
      if tab == DiagnosticTab {
        if HasKey(selectedDiagnostic, test.code, ItemCode) {
          selectedDiagnostic := RemoveKey(selectedDiagnostic, test.code, ItemCode);
        } else {
          selectedDiagnostic := selectedDiagnostic + [test];
        }
      } else {
        if HasKey(selectedManagement, test.code, ItemCode) {
          selectedManagement := RemoveKey(selectedManagement, test.code, ItemCode);
        } else {
          selectedManagement := selectedManagement + [test];
        }
      }
    }

    /** `updateQuantity`: every item of the tab's basket with the test's code gets the typed quantity. */
    method UpdateQuantity(test: BasketItem, quantity: string, tab: string)
      modifies this`selectedDiagnostic, this`selectedManagement
      ensures tab == DiagnosticTab ==>
        selectedDiagnostic == SetQuantity(old(selectedDiagnostic), test.code, quantity) && selectedManagement == old(selectedManagement)
      ensures tab != DiagnosticTab ==>
        selectedManagement == SetQuantity(old(selectedManagement), test.code, quantity) && selectedDiagnostic == old(selectedDiagnostic)
    {
      if tab == DiagnosticTab {
        selectedDiagnostic := SetQuantity(selectedDiagnostic, test.code, quantity);
      } else {
        selectedManagement := SetQuantity(selectedManagement, test.code, quantity);
      }
    }

    /** `handleConfirm`: refused when both baskets are empty; otherwise both are written and the documentation follows. */
    method HandleConfirm(app: App) returns (next: Stage, alert: Option<string>)
      requires app.Valid()
      modifies app`caseData
      ensures app.Valid()
      ensures selectedDiagnostic == [] && selectedManagement == [] ==>
        app.caseData == old(app.caseData) && next == Treatments && alert == Some(EmptyBasketsAlert)
      ensures selectedDiagnostic != [] || selectedManagement != [] ==>
        && app.caseData == Merge(old(app.caseData), NoUpdate.(diagnosticBasket := Some(selectedDiagnostic),
                                                               managementBasket := Some(selectedManagement)))
        && next == Documentation && alert == None
    {
      if |selectedDiagnostic| == 0 && |selectedManagement| == 0 {
        return Treatments, Some(EmptyBasketsAlert);
      }
      app.UpdateCaseData(NoUpdate.(diagnosticBasket := Some(selectedDiagnostic), managementBasket := Some(selectedManagement)));
      next, alert := Documentation, None;
    }

    method HandleBack() returns (next: Stage)
      ensures next == IcdSelection
    {
      next := IcdSelection;
    }
  }

  // ---------------------------------------------------------------- properties

  /** The page's split is the lookup's split, with every offered item at quantity 1. */
  lemma {:induction false} OfferedMatchesLookup(rows: seq<Row>)
    ensures Map(rows, OfferedItem) == Map(Map(rows, TreatmentOf), Fresh)
    ensures forall i :: 0 <= i < |rows| ==> Map(rows, OfferedItem)[i].quantity == 1
  {
    var a, b := Map(rows, OfferedItem), Map(Map(rows, TreatmentOf), Fresh);
    forall i | 0 <= i < |rows| ensures a[i] == b[i] {
      assert Map(rows, TreatmentOf)[i] == TreatmentOf(rows[i]);
    }
  }

  /** A quantity edit changes quantities only, so the codes (and with them the toggle state) stay as they were. */
  lemma {:induction false} SetQuantityKeepsCodes(items: seq<BasketItem>, code: Option<string>, quantity: string)
    ensures Map(SetQuantity(items, code, quantity), ItemCode) == Map(items, ItemCode)
    ensures forall k :: HasKey(SetQuantity(items, code, quantity), k, ItemCode) <==> HasKey(items, k, ItemCode)
  {
    var r := SetQuantity(items, code, quantity);
    assert Map(r, ItemCode) == Map(items, ItemCode) by {
      forall i | 0 <= i < |items| ensures Map(r, ItemCode)[i] == Map(items, ItemCode)[i] {
        assert r[i].code == items[i].code;
      }
    }
    forall k ensures HasKey(r, k, ItemCode) <==> HasKey(items, k, ItemCode) {
      if HasKey(r, k, ItemCode) {
        var i :| 0 <= i < |r| && ItemCode(r[i]) == k;
        assert ItemCode(items[i]) == k;
      }
      if HasKey(items, k, ItemCode) {
        var i :| 0 <= i < |items| && ItemCode(items[i]) == k;
        assert ItemCode(r[i]) == k;
      }
    }
  }

  /** No upper bound: any positive number typed is stored as it is, whatever the covered count. */
  lemma TypedQuantityKept(n: nat)
    requires n >= 1
    ensures QuantityFromInput(NatToString(n)) == n
  {
    ParseIntNatToString(n);
  }

  /** A negative number is stored as it is. */
  lemma NegativeQuantityKept()
    ensures QuantityFromInput("-3") == -3
  {
    assert TrimStart("-3") == "-3";
    assert ParseIntDigits("-3") == ("3", 10);
    assert DigitPrefix("3", 10) == "3";
  }

  /** Text that is not a number gives 1, even when it starts with hexadecimal letters. */
  lemma TextQuantityIsOne()
    ensures QuantityFromInput("abc") == 1
  {
    var s := "abc";
    assert s[0] == 'a' && s[1] == 'b' && s[2] == 'c';
    ParseIntNeedsDigit(s);
  }

  /** Zero gives 1. */
  lemma ZeroQuantityIsOne()
    ensures QuantityFromInput("0") == 1
  {
    assert TrimStart("0") == "0";
    assert ParseIntDigits("0") == ("0", 10);
    assert DigitPrefix("0", 10) == "0";
  }
}
