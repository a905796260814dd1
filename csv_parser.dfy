/**
 * The reference catalog: lookups over rows of the three reference tables
 * (conditions to ICD-10 codes, treatments, medicines), all keyed by the exact
 * condition name. Loading and parsing the files is not modelled: the rows
 * arrive already parsed, and a file that fails to load arrives as no rows.
 */
module CsvParser {
  import opened Wrappers
  import opened Seqs
  import opened Text

  /** A parsed row: column name to cell text; a column missing from the row reads as `undefined`. */
  type Row = map<string, string>

  function Cell(row: Row, column: string): Option<string> {
    if column in row then Some(row[column]) else None
  }

  /** `row[column] === value`: an absent cell equals no string. */
  predicate CellIs(row: Row, column: string, value: string) {
    Cell(row, column) == Some(value)
  }

  // Column names of the conditions table (the code column is spelled with a zero).
  const ConditionsColumn := "CHRONIC CONDITIONS"
  const IcdCodeColumn := "ICD-C0DE"
  const IcdDescriptionColumn := "ICD-CODE DESCRIPTION"
  // Column names of the treatments and medicines tables.
  const ConditionColumn := "CHRONIC DISEASE LIST CONDITION"
  const BasketTypeColumn := "BASKET TYPE"
  const ProcedureDescriptionColumn := "PROCEDURE/TEST DESCRIPTION"
  const ProcedureCodeColumn := "PROCEDURE/TEST CODE"
  const CoveredColumn := "NUMBER OF PROCEDURES OR TESTS COVERED"
  const CdaCoreColumn := "CDA FOR CORE, PRIORITY AND SAVER PLANS"
  const CdaExecutiveColumn := "CDA FOR EXECUTIVE AND COMPREHENSIVE PLANS"
  const MedicineClassColumn := "MEDICINE CLASS"
  const ActiveIngredientColumn := "ACTIVE INGREDIENT"
  const MedicineNameColumn := "MEDICINE NAME AND STRENGTH"

  const DiagnosticType := "Diagnostic"
  const ManagementType := "Ongoing Management"
  const ExclusionMarker := "Not available"
  const OtherClass := "Other"

  datatype IcdEntry = IcdEntry(code: Option<string>, description: Option<string>)

  datatype Treatment = Treatment(description: Option<string>, code: Option<string>, covered: Option<string>)

  datatype Medication = Medication(
    condition: Option<string>,
    cdaCore: Option<string>,
    cdaExecutive: Option<string>,
    medicineClass: Option<string>,
    activeIngredient: Option<string>,
    medicineName: Option<string>,
    excluded: bool)

  /** A JavaScript object built key by key: its keys in insertion order and its entries. */
  datatype Grouping = Grouping(order: seq<string>, groups: map<string, seq<Medication>>)

  // ---------------------------------------------------------------- ICD codes

  function IcdOf(row: Row): IcdEntry {
    IcdEntry(Cell(row, IcdCodeColumn), Cell(row, IcdDescriptionColumn))
  }

  /** The conditions-table rows for `name`, in table order. */
  function IcdRows(rows: seq<Row>, name: string): seq<Row> {
    Filter(rows, row => CellIs(row, ConditionsColumn, name))
  }

  /** `getICDCodesForCondition`: the matching rows projected to `{code, description}`. */
  function IcdCodesForCondition(rows: seq<Row>, name: string): (r: seq<IcdEntry>)
    ensures |r| == |IcdRows(rows, name)|
    ensures forall j :: 0 <= j < |r| ==> r[j] == IcdOf(IcdRows(rows, name)[j])
  {
    Map(IcdRows(rows, name), IcdOf)
  }

  /** A row contributes an entry exactly when its condition cell is `name`. */
  lemma IcdRowsMember(rows: seq<Row>, name: string, row: Row)
    ensures row in IcdRows(rows, name) <==> row in rows && CellIs(row, ConditionsColumn, name)
  {
    FilterMember(rows, row => CellIs(row, ConditionsColumn, name), row);
  }

  /** Input order is kept: the entries of earlier rows come first. */
  lemma IcdCodesAppend(a: seq<Row>, b: seq<Row>, name: string)
    ensures IcdCodesForCondition(a + b, name) == IcdCodesForCondition(a, name) + IcdCodesForCondition(b, name)
  {
    FilterAppend(a, b, row => CellIs(row, ConditionsColumn, name));
  }

  // ---------------------------------------------------------------- treatments

  function TreatmentOf(row: Row): Treatment {
    Treatment(Cell(row, ProcedureDescriptionColumn), Cell(row, ProcedureCodeColumn), Cell(row, CoveredColumn))
  }

  predicate IsTreatmentFor(row: Row, name: string) {
    CellIs(row, ConditionColumn, name)
  }

  predicate IsDiagnosticFor(row: Row, name: string) {
    IsTreatmentFor(row, name) && CellIs(row, BasketTypeColumn, DiagnosticType)
  }

  predicate IsManagementFor(row: Row, name: string) {
    IsTreatmentFor(row, name) && CellIs(row, BasketTypeColumn, ManagementType)
  }

  function TreatmentRows(rows: seq<Row>, name: string): seq<Row> {
    Filter(rows, row => IsTreatmentFor(row, name))
  }

  function DiagnosticRows(rows: seq<Row>, name: string): seq<Row> {
    Filter(rows, row => IsDiagnosticFor(row, name))
  }

  function ManagementRows(rows: seq<Row>, name: string): seq<Row> {
    Filter(rows, row => IsManagementFor(row, name))
  }

  /** `getTreatmentsForCondition`: one pass over the rows, pushing each matching row into its basket. */
  method TreatmentsForCondition(rows: seq<Row>, name: string) returns (diagnostic: seq<Treatment>, management: seq<Treatment>)
    ensures diagnostic == Map(DiagnosticRows(rows, name), TreatmentOf)
    ensures management == Map(ManagementRows(rows, name), TreatmentOf)
  {
    diagnostic, management := [], [];
    for i := 0 to |rows|
      invariant diagnostic == Map(DiagnosticRows(rows[..i], name), TreatmentOf)
      invariant management == Map(ManagementRows(rows[..i], name), TreatmentOf)
    {
      var row := rows[i];
      TreatmentsStep(rows, name, i);
      if CellIs(row, ConditionColumn, name) {
        var treatment := TreatmentOf(row);
        if CellIs(row, BasketTypeColumn, DiagnosticType) {
          diagnostic := diagnostic + [treatment];
        } else if CellIs(row, BasketTypeColumn, ManagementType) {
          management := management + [treatment];
        }
      }
    }
    assert rows[..|rows|] == rows;
  }

  /** One more row adds its treatment to the basket its type names, and to no other. */
  lemma TreatmentsStep(rows: seq<Row>, name: string, i: nat)
    requires i < |rows|
    ensures Map(DiagnosticRows(rows[..i + 1], name), TreatmentOf)
      == Map(DiagnosticRows(rows[..i], name), TreatmentOf) + (if IsDiagnosticFor(rows[i], name) then [TreatmentOf(rows[i])] else [])
    ensures Map(ManagementRows(rows[..i + 1], name), TreatmentOf)
      == Map(ManagementRows(rows[..i], name), TreatmentOf) + (if IsManagementFor(rows[i], name) then [TreatmentOf(rows[i])] else [])
  {
    assert rows[..i + 1][..i] == rows[..i];
    MapAppend(DiagnosticRows(rows[..i], name), if IsDiagnosticFor(rows[i], name) then [rows[i]] else [], TreatmentOf);
    MapAppend(ManagementRows(rows[..i], name), if IsManagementFor(rows[i], name) then [rows[i]] else [], TreatmentOf);
  }

  /** A matching row lands in the diagnostic basket iff its type is `Diagnostic`, in the management basket iff it is `Ongoing Management`. */
  lemma TreatmentRouting(rows: seq<Row>, name: string, row: Row)
    requires row in rows && IsTreatmentFor(row, name)
    ensures row in DiagnosticRows(rows, name) <==> CellIs(row, BasketTypeColumn, DiagnosticType)
    ensures row in ManagementRows(rows, name) <==> CellIs(row, BasketTypeColumn, ManagementType)
  {
    FilterMember(rows, row => IsDiagnosticFor(row, name), row);
    FilterMember(rows, row => IsManagementFor(row, name), row);
  }

  /** Rows of any other basket type are dropped, so the two baskets hold at most the matching rows. */
  lemma {:induction false} PartitionBound(rows: seq<Row>, name: string)
    ensures |DiagnosticRows(rows, name)| + |ManagementRows(rows, name)| <= |TreatmentRows(rows, name)|
    decreases |rows|
  {
    if rows != [] {
      PartitionBound(rows[..|rows| - 1], name);
    }
  }

  /** Within each basket the rows keep their input order. */
  lemma TreatmentsAppend(a: seq<Row>, b: seq<Row>, name: string)
    ensures DiagnosticRows(a + b, name) == DiagnosticRows(a, name) + DiagnosticRows(b, name)
    ensures ManagementRows(a + b, name) == ManagementRows(a, name) + ManagementRows(b, name)
  {
    FilterAppend(a, b, row => IsDiagnosticFor(row, name));
    FilterAppend(a, b, row => IsManagementFor(row, name));
  }

  // ---------------------------------------------------------------- medicines

  /** `name?.includes('Not available') || false`. */
  predicate Excluded(name: Option<string>) {
    name.Some? && Contains(name.value, ExclusionMarker)
  }

  function MedicationOf(row: Row): (m: Medication)
    ensures m.medicineName == Cell(row, MedicineNameColumn)
    ensures m.excluded <==> exists i :: OccursAt(Cell(row, MedicineNameColumn).GetOr(""), ExclusionMarker, i)
    ensures Cell(row, MedicineNameColumn).None? ==> !m.excluded
  {
    var name := Cell(row, MedicineNameColumn);
    ContainsIff(name.GetOr(""), ExclusionMarker);
    Medication(Cell(row, ConditionColumn), Cell(row, CdaCoreColumn), Cell(row, CdaExecutiveColumn),
               Cell(row, MedicineClassColumn), Cell(row, ActiveIngredientColumn), name, Excluded(name))
  }

  /** A medicine-table row of the condition `name` (its `CHRONIC DISEASE LIST CONDITION` cell). */
  predicate IsMedicineFor(row: Row, name: string) {
    CellIs(row, ConditionColumn, name)
  }

  /** The medicine-table rows for `name`, in table order. */
  function MedicineRows(rows: seq<Row>, name: string): seq<Row> {
    Filter(rows, row => IsMedicineFor(row, name))
  }

  /** `getMedicationsForCondition`: the matching rows as medications; a truthy plan drops the excluded ones. */
  function MedicationsForCondition(rows: seq<Row>, name: string, plan: Option<string>): seq<Medication> {
    var medications := Map(MedicineRows(rows, name), MedicationOf);
    if Truthy(plan) then Filter(medications, (m: Medication) => !m.excluded) else medications
  }

  /** With a plan, exactly the non-excluded medications of the unfiltered lookup remain; without one, all of them. */
  lemma PlanFilter(rows: seq<Row>, name: string, plan: Option<string>, m: Medication)
    ensures Truthy(plan) ==>
      (m in MedicationsForCondition(rows, name, plan) <==> m in MedicationsForCondition(rows, name, None) && !m.excluded)
    ensures !Truthy(plan) ==> MedicationsForCondition(rows, name, plan) == MedicationsForCondition(rows, name, None)
  {
    FilterMember(Map(MedicineRows(rows, name), MedicationOf), (m: Medication) => !m.excluded, m);
  }

  /** Input order is kept by the medication lookup. */
  lemma MedicationsAppend(a: seq<Row>, b: seq<Row>, name: string)
    ensures MedicationsForCondition(a + b, name, None) == MedicationsForCondition(a, name, None) + MedicationsForCondition(b, name, None)
  {
    FilterAppend(a, b, row => IsMedicineFor(row, name));
    MapAppend(MedicineRows(a, name), MedicineRows(b, name), MedicationOf);
  }

  /** A condition that no table mentions gives empty results, not an error. */
  lemma UnknownCondition(conditions: seq<Row>, treatments: seq<Row>, medicines: seq<Row>, name: string, plan: Option<string>)
    requires forall i :: 0 <= i < |conditions| ==> !CellIs(conditions[i], ConditionsColumn, name)
    requires forall i :: 0 <= i < |treatments| ==> !CellIs(treatments[i], ConditionColumn, name)
    requires forall i :: 0 <= i < |medicines| ==> !CellIs(medicines[i], ConditionColumn, name)
    ensures IcdCodesForCondition(conditions, name) == []
    ensures DiagnosticRows(treatments, name) == [] && ManagementRows(treatments, name) == []
    ensures MedicationsForCondition(medicines, name, plan) == []
  {
    FilterNoneMatch(conditions, row => CellIs(row, ConditionsColumn, name));
    FilterNoneMatch(treatments, row => IsDiagnosticFor(row, name));
    FilterNoneMatch(treatments, row => IsManagementFor(row, name));
    FilterNoneMatch(medicines, row => IsMedicineFor(row, name));
  }

  // ---------------------------------------------------------------- grouping

  /** `med.medicineClass || 'Other'`. */
  function ClassName(m: Medication): string {
    if Truthy(m.medicineClass) then m.medicineClass.value else OtherClass
  }

  /** The medications of class `k`, in input order. */
  function OfClass(meds: seq<Medication>, k: string): seq<Medication> {
    Filter(meds, m => ClassName(m) == k)
  }

  /** The class names in order of first appearance. */
  function DistinctClasses(meds: seq<Medication>): seq<string>
    decreases |meds|
  {
    if meds == [] then []
    else
      var known := DistinctClasses(meds[..|meds| - 1]);
      var k := ClassName(meds[|meds| - 1]);
      if k in known then known else known + [k]
  }

  /** `g` is the grouping of `meds`: one key per class in first-appearance order, each holding that class's medications. */
  ghost predicate IsGrouping(meds: seq<Medication>, g: Grouping) {
    && g.order == DistinctClasses(meds)
    && (forall k :: k in g.groups <==> k in g.order)
    && (forall k :: k in g.groups ==> g.groups[k] == OfClass(meds, k))
  }

  /** `groupMedicationsByClass`. */
  method GroupMedicationsByClass(meds: seq<Medication>) returns (grouped: Grouping)
    ensures IsGrouping(meds, grouped)
  {
    var order: seq<string> := [];
    var groups: map<string, seq<Medication>> := map[];
    for i := 0 to |meds|
      invariant IsGrouping(meds[..i], Grouping(order, groups))
    {
      var med := meds[i];
      var className := ClassName(med);
      assert meds[..i + 1][..i] == meds[..i];
      if className !in groups {
        groups := groups[className := []];
        order := order + [className];
        assert OfClass(meds[..i], className) == [] by {
          DistinctClassesMember(meds[..i], className);
          FilterNoneMatch(meds[..i], m => ClassName(m) == className);
        }
      }
      groups := groups[className := groups[className] + [med]];
    }
    assert meds[..|meds|] == meds;
    grouped := Grouping(order, groups);
  }

  lemma {:induction false} DistinctClassesMember(meds: seq<Medication>, k: string)
    ensures k in DistinctClasses(meds) <==> exists i :: 0 <= i < |meds| && ClassName(meds[i]) == k
    decreases |meds|
  {
    if meds != [] {
      DistinctClassesMember(meds[..|meds| - 1], k);
      assert forall i :: 0 <= i < |meds| - 1 ==> meds[..|meds| - 1][i] == meds[i];
    }
  }

  lemma {:induction false} DistinctClassesDistinct(meds: seq<Medication>)
    ensures Distinct(DistinctClasses(meds))
    decreases |meds|
  {
    if meds != [] {
      DistinctClassesDistinct(meds[..|meds| - 1]);
    }
  }

  /** Total size of the groups listed in `order`. */
  function GroupSizes(order: seq<string>, groups: map<string, seq<Medication>>): nat
    decreases |order|
  {
    if order == [] then 0
    else GroupSizes(order[..|order| - 1], groups)
         + (if order[|order| - 1] in groups then |groups[order[|order| - 1]]| else 0)
  }

  /** Total number of medications of the classes in `ks`. */
  function ClassCount(meds: seq<Medication>, ks: seq<string>): nat
    decreases |ks|
  {
    if ks == [] then 0 else ClassCount(meds, ks[..|ks| - 1]) + |OfClass(meds, ks[|ks| - 1])|
  }

  lemma {:induction false} ClassCountStep(meds: seq<Medication>, m: Medication, ks: seq<string>)
    requires Distinct(ks)
    ensures ClassCount(meds + [m], ks) == ClassCount(meds, ks) + (if ClassName(m) in ks then 1 else 0)
    decreases |ks|
  {
    if ks != [] {
      var ks' := ks[..|ks| - 1];
      assert Distinct(ks');
      ClassCountStep(meds, m, ks');
      assert (meds + [m])[..|meds|] == meds;
      assert ks == ks' + [ks[|ks| - 1]];
    }
  }

  lemma {:induction false} ClassCountAll(meds: seq<Medication>)
    ensures ClassCount(meds, DistinctClasses(meds)) == |meds|
    decreases |meds|
  {
    if meds != [] {
      var s, m := meds[..|meds| - 1], meds[|meds| - 1];
      var ks := DistinctClasses(s);
      var c := ClassName(m);
      assert meds == s + [m];
      ClassCountAll(s);
      DistinctClassesDistinct(s);
      ClassCountStep(s, m, ks);
      if c !in ks {
        var ks2 := ks + [c];
        assert ks2[..|ks2| - 1] == ks;
        DistinctClassesMember(s, c);
        FilterNoneMatch(s, x => ClassName(x) == c);
        assert OfClass(meds, c) == [m];
      }
    }
  }

  lemma {:induction false} GroupSizesMatch(meds: seq<Medication>, order: seq<string>, groups: map<string, seq<Medication>>)
    requires forall k :: k in order ==> k in groups && groups[k] == OfClass(meds, k)
    ensures GroupSizes(order, groups) == ClassCount(meds, order)
    decreases |order|
  {
    if order != [] {
      GroupSizesMatch(meds, order[..|order| - 1], groups);
    }
  }

  /** Grouping keeps every medication: the group sizes add up to the input length. */
  lemma GroupingPreservesCount(meds: seq<Medication>, g: Grouping)
    requires IsGrouping(meds, g)
    ensures GroupSizes(g.order, g.groups) == |meds|
  {
    GroupSizesMatch(meds, g.order, g.groups);
    ClassCountAll(meds);
  }

  /** Every medication sits in the group of its own class and in no other; groups keep input order. */
  lemma GroupOfEachMedication(meds: seq<Medication>, g: Grouping, i: nat)
    requires IsGrouping(meds, g) && i < |meds|
    ensures ClassName(meds[i]) in g.groups && meds[i] in g.groups[ClassName(meds[i])]
    ensures forall k :: k in g.groups && meds[i] in g.groups[k] ==> k == ClassName(meds[i])
    ensures forall k :: k in g.groups ==> IsSubseq(g.groups[k], meds)
  {
    DistinctClassesMember(meds, ClassName(meds[i]));
    FilterMember(meds, m => ClassName(m) == ClassName(meds[i]), meds[i]);
    forall k | k in g.groups
      ensures meds[i] in g.groups[k] ==> k == ClassName(meds[i])
      ensures IsSubseq(g.groups[k], meds)
    {
      FilterMember(meds, m => ClassName(m) == k, meds[i]);
      FilterIsSubseq(meds, m => ClassName(m) == k);
    }
  }
}
