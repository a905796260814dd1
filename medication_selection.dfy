/**
 * The medication-selection page: it maps the condition's medicine rows to
 * medications, groups them by class, shows the classes that keep a medicine
 * under the plan filter, and keeps a toggle selection keyed on the pair
 * (medicine name, active ingredient), which a confirm writes unchecked.
 */
module MedicationSelection {
  import opened Wrappers
  import opened Seqs
  import opened Text
  import opened Selection
  import opened CsvParser
  import opened CaseData
  import opened Routes
  import opened AppState

  const AllPlans := "all"

  /** The entry guard: without a confirmed condition the page goes back to the documentation. */
  function Redirect(r: CaseRecord): (s: Option<Stage>)
    ensures s.Some? <==> !Truthy(r.confirmedCondition)
    ensures s.Some? ==> s.value == Documentation
  {
    if !Truthy(r.confirmedCondition) then Some(Documentation) else None
  }

  /** The page's own row mapping; `excluded` is `(name || '').includes('Not available')`. */
  function PageMedicationOf(row: Row): Medication {
    Medication(Cell(row, ConditionColumn), Cell(row, CdaCoreColumn), Cell(row, CdaExecutiveColumn),
               Cell(row, MedicineClassColumn), Cell(row, ActiveIngredientColumn), Cell(row, MedicineNameColumn),
               Contains(Cell(row, MedicineNameColumn).GetOr(""), ExclusionMarker))
  }

  /** The medications the page offers for `condition`. */
  function Offered(medicinesData: seq<Row>, condition: string): seq<Medication> {
    Map(MedicineRows(medicinesData, condition), PageMedicationOf)
  }

  /** The key of the selection: the pair (medicine name, active ingredient). */
  function MedKey(m: Medication): (Option<string>, Option<string>) {
    (m.medicineName, m.activeIngredient)
  }

  /** `filterByPlan`: every medicine under "all", and under any other plan exactly the non-excluded ones. */
  function FilterByPlan(planFilter: string, med: Medication): (shown: bool)
    ensures shown <==> planFilter == AllPlans || !med.excluded
  {
    if planFilter == AllPlans then true
    else
      var isKeyCarePlan := planFilter in ["core", "priority", "saver"];
      var isExecutivePlan := planFilter in ["executive", "comprehensive"];
      !med.excluded
  }

  /** The classes shown: those whose list keeps at least one medicine under the plan filter, in key order. */
  function VisibleClasses(g: Grouping, planFilter: string): seq<string> {
    Filter(g.order, k => k in g.groups && Filter(g.groups[k], m => FilterByPlan(planFilter, m)) != [])
  }

  class MedicationPage {
    var medications: Grouping
    var selectedMeds: seq<Medication>
    var planFilter: string

    constructor (caseData: CaseRecord)
      ensures medications == Grouping([], map[])
      ensures selectedMeds == caseData.selectedMedications.GetOr([]) && planFilter == AllPlans
    {
      medications := Grouping([], map[]);
      selectedMeds := caseData.selectedMedications.GetOr([]);
      planFilter := AllPlans;
    }

    /** `loadMedications`, on the rows of the medicine table (none when the file could not be read). */
    method LoadMedications(medicinesData: seq<Row>, condition: string)
      modifies this`medications
      ensures IsGrouping(Offered(medicinesData, condition), medications)
    {
      var filtered := Map(MedicineRows(medicinesData, condition), PageMedicationOf);
      medications := GroupMedicationsByClass(filtered);
    }

    method SetPlanFilter(value: string)
      modifies this`planFilter
      ensures planFilter == value
    {
      planFilter := value;
    }

    /** `toggleMedication`: remove the medicines with the same name and ingredient if there are any, else append. */
    method ToggleMedication(med: Medication)
      modifies this`selectedMeds
      ensures selectedMeds == Toggle(old(selectedMeds), med, MedKey)
      ensures DistinctKeys(old(selectedMeds), MedKey) ==> DistinctKeys(selectedMeds, MedKey)
    {
      if DistinctKeys(selectedMeds, MedKey) {
        ToggleKeepsKeysDistinct(selectedMeds, med, MedKey);
      }
      if HasKey(selectedMeds, MedKey(med), MedKey) {
        selectedMeds := RemoveKey(selectedMeds, MedKey(med), MedKey);
      } else {
        selectedMeds := selectedMeds + [med];
      }
    }

    /** The checkbox of a listed medicine: `!med.excluded && toggleMedication(med)`. */
    method ClickMedication(med: Medication)
      modifies this`selectedMeds
      ensures med.excluded ==> selectedMeds == old(selectedMeds)
      ensures !med.excluded ==> selectedMeds == Toggle(old(selectedMeds), med, MedKey)
      ensures (forall m :: m in old(selectedMeds) ==> !m.excluded) ==> forall m :: m in selectedMeds ==> !m.excluded
    {
      if !med.excluded {
        ToggleMedication(med);
      }
    }

    /** `handleConfirm`: the selection is written as it is, even empty, and the registration follows. */
    method HandleConfirm(app: App) returns (next: Stage)
      requires app.Valid()
      modifies app`caseData
      ensures app.Valid()
      ensures app.caseData == Merge(old(app.caseData), NoUpdate.(selectedMedications := Some(selectedMeds)))
      ensures next == Registration
    {
      app.UpdateCaseData(NoUpdate.(selectedMedications := Some(selectedMeds)));
      next := Registration;
    }

    method HandleBack() returns (next: Stage)
      ensures next == Documentation
    {
      next := Documentation;
    }
  }

  // ---------------------------------------------------------------- properties

  /** The page's row mapping agrees with the lookup's, so it offers exactly the lookup's medications. */
  lemma OfferedIsLookup(medicinesData: seq<Row>, condition: string)
    ensures Offered(medicinesData, condition) == MedicationsForCondition(medicinesData, condition, None)
  {
    var rows := MedicineRows(medicinesData, condition);
    forall i | 0 <= i < |rows| ensures PageMedicationOf(rows[i]) == MedicationOf(rows[i]) {
    }
  }

  /** Under a plan other than "all" the page shows what the lookup returns for that plan; the tier is not consulted. */
  lemma PlanFilterIsLookup(medicinesData: seq<Row>, condition: string, planFilter: string)
    requires planFilter != AllPlans && planFilter != ""
    ensures Filter(Offered(medicinesData, condition), m => FilterByPlan(planFilter, m)) ==
            MedicationsForCondition(medicinesData, condition, Some(planFilter))
  {
    OfferedIsLookup(medicinesData, condition);
    var meds := Offered(medicinesData, condition);
    FilterCongruent(meds, m => FilterByPlan(planFilter, m), (m: Medication) => !m.excluded);
  }

  /** A class is shown iff some of its medicines pass the plan filter. */
  lemma VisibleClassesMember(g: Grouping, planFilter: string, k: string)
    ensures k in VisibleClasses(g, planFilter) <==>
      k in g.order && k in g.groups && exists i :: 0 <= i < |g.groups[k]| && FilterByPlan(planFilter, g.groups[k][i])
  {
    FilterMember(g.order, k => k in g.groups && Filter(g.groups[k], m => FilterByPlan(planFilter, m)) != [], k);
    if k in g.groups {
      var p := m => FilterByPlan(planFilter, m);
      var shown := Filter(g.groups[k], p);
      if shown != [] {
        FilterMember(g.groups[k], p, shown[0]);
        var i :| 0 <= i < |g.groups[k]| && g.groups[k][i] == shown[0];
      } else {
        forall i | 0 <= i < |g.groups[k]| ensures !p(g.groups[k][i]) {
          FilterMember(g.groups[k], p, g.groups[k][i]);
        }
      }
    }
  }
}
