/**
 * The clinical-note page: it refuses a blank note, sends the note to the
 * analysis service and stores the conditions it reports, and, when the
 * service cannot be reached, falls back on a fixed keyword heuristic that
 * never comes back empty.
 */
module ClinicalNoteInput {
  import opened Wrappers
  import opened Seqs
  import opened Text
  import opened CaseData
  import opened Routes
  import opened AppState
  import CE = ConditionExtraction

  /** The labels the fallback can push, in the order it tests them. */
  const FallbackOrder := [CE.CardiacFailure, CE.Hypertension, CE.DiabetesType1, CE.DiabetesType2, CE.DiabetesInsipidus]

  const BlankNoteError := "Please enter a clinical note"

  /** The keyword test the fallback applies for `condition` to the lowercased note. */
  predicate Fires(condition: string, lower: string) {
    if condition == CE.CardiacFailure then
      Contains(lower, "heart") || Contains(lower, "cardiac")
    else if condition == CE.Hypertension then
      Contains(lower, "hypertension") || Contains(lower, "blood pressure") || Contains(lower, "bp")
    else if condition == CE.DiabetesType1 then
      Contains(lower, "diabetes") && (Contains(lower, "type 1") || Contains(lower, "insulin"))
    else if condition == CE.DiabetesType2 then
      Contains(lower, "diabetes") && (Contains(lower, "type 2") || Contains(lower, "metformin"))
    else
      condition == CE.DiabetesInsipidus && Contains(lower, "diabetes insipidus")
  }

  /** The fallback's result: the labels whose test fires, in the fixed order, or hypertension when none does. */
  function FallbackSpec(lower: string): seq<string> {
    var hits := Filter(FallbackOrder, condition => Fires(condition, lower));
    if hits == [] then [CE.Hypertension] else hits
  }

  /** The mock detection of `handleAnalyze`'s error path: one conditional push per condition, then the default. */
  method MockConditions(clinicalNote: string) returns (mockConditions: seq<string>)
    ensures mockConditions == FallbackSpec(ToLower(clinicalNote))
  {
    var lowerNote := ToLower(clinicalNote);
    ghost var p := condition => Fires(condition, lowerNote);
    mockConditions := [];
    assert FallbackOrder[..0] == [];
    if Contains(lowerNote, "heart") || Contains(lowerNote, "cardiac") {
      mockConditions := mockConditions + [CE.CardiacFailure];
    }
    assert mockConditions == Filter(FallbackOrder[..1], p);
    if Contains(lowerNote, "hypertension") || Contains(lowerNote, "blood pressure") || Contains(lowerNote, "bp") {
      mockConditions := mockConditions + [CE.Hypertension];
    }
    assert FallbackOrder[..2][..1] == FallbackOrder[..1];
    assert mockConditions == Filter(FallbackOrder[..2], p);
    if Contains(lowerNote, "diabetes") && (Contains(lowerNote, "type 1") || Contains(lowerNote, "insulin")) {
      mockConditions := mockConditions + [CE.DiabetesType1];
    }
    assert FallbackOrder[..3][..2] == FallbackOrder[..2];
    assert mockConditions == Filter(FallbackOrder[..3], p);
    if Contains(lowerNote, "diabetes") && (Contains(lowerNote, "type 2") || Contains(lowerNote, "metformin")) {
      mockConditions := mockConditions + [CE.DiabetesType2];
    }
    assert FallbackOrder[..4][..3] == FallbackOrder[..3];
    assert mockConditions == Filter(FallbackOrder[..4], p);
    if Contains(lowerNote, "diabetes insipidus") {
      mockConditions := mockConditions + [CE.DiabetesInsipidus];
    }
    assert FallbackOrder[..5][..4] == FallbackOrder[..4];
    assert FallbackOrder[..5] == FallbackOrder;
    if |mockConditions| == 0 {
      mockConditions := mockConditions + [CE.Hypertension];
    }
  }

  // ---------------------------------------------------------------- properties of the fallback

  /** Never empty, no condition twice, labels in the fixed order, each a known chronic condition. */
  lemma FallbackShape(lower: string)
    ensures FallbackSpec(lower) != []
    ensures IsSubseq(FallbackSpec(lower), FallbackOrder)
    ensures Distinct(FallbackSpec(lower))
    ensures forall c :: c in FallbackSpec(lower) ==> c in CE.ChronicConditions
  {
    var hits := Filter(FallbackOrder, condition => Fires(condition, lower));
    FilterIsSubseq(FallbackOrder, condition => Fires(condition, lower));
    if hits == [] {
      assert [CE.Hypertension][..0] == [];
      assert FallbackOrder[..2][..1] == FallbackOrder[..1];
      assert IsSubseq([CE.Hypertension], FallbackOrder[..2]);
      SubseqExtend([CE.Hypertension], FallbackOrder[..2], FallbackOrder[2]);
      assert FallbackOrder[..2] + [FallbackOrder[2]] == FallbackOrder[..3];
      SubseqExtend([CE.Hypertension], FallbackOrder[..3], FallbackOrder[3]);
      assert FallbackOrder[..3] + [FallbackOrder[3]] == FallbackOrder[..4];
      SubseqExtend([CE.Hypertension], FallbackOrder[..4], FallbackOrder[4]);
      assert FallbackOrder[..4] + [FallbackOrder[4]] == FallbackOrder;
    }
    SubseqDistinct(FallbackSpec(lower), FallbackOrder);
  }

  /** A condition is reported iff its test fires, except that hypertension is also the default. */
  lemma FallbackMember(lower: string, condition: string)
    ensures condition in FallbackSpec(lower) <==>
      (condition in FallbackOrder && Fires(condition, lower)) ||
      (condition == CE.Hypertension && forall l :: l in FallbackOrder ==> !Fires(l, lower))
  {
    var hits := Filter(FallbackOrder, l => Fires(l, lower));
    FilterMember(FallbackOrder, l => Fires(l, lower), condition);
    if hits != [] {
      FilterMember(FallbackOrder, l => Fires(l, lower), hits[0]);
    } else {
      forall l | l in FallbackOrder ensures !Fires(l, lower) {
        FilterMember(FallbackOrder, l => Fires(l, lower), l);
      }
    }
  }

  /** Type 1 and type 2 are tested independently, so a note can yield both. */
  lemma BothDiabetesTypes(lower: string)
    requires Contains(lower, "diabetes") && Contains(lower, "insulin") && Contains(lower, "metformin")
    ensures CE.DiabetesType1 in FallbackSpec(lower) && CE.DiabetesType2 in FallbackSpec(lower)
  {
    FallbackMember(lower, CE.DiabetesType1);
    FallbackMember(lower, CE.DiabetesType2);
  }

  /** A note on which exactly one test fires (type 2 diabetes on metformin, say) yields that condition alone. */
  lemma OnlyOneFires(lower: string, condition: string)
    requires condition in FallbackOrder && Fires(condition, lower)
    requires forall l :: l in FallbackOrder && l != condition ==> !Fires(l, lower)
    ensures FallbackSpec(lower) == [condition]
  {
    FilterUnique(FallbackOrder, l => Fires(l, lower), condition);
  }

  // ---------------------------------------------------------------- the page

  /** What the analysis request did: answered (with a `conditions` field or without one), or threw. */
  datatype Analysis = Answered(conditions: Option<seq<string>>) | Unreachable

  /** The conditions stored for a non-blank note: `result.conditions || []`, or the fallback when the request threw. */
  function DetectedFor(analysis: Analysis, clinicalNote: string): seq<string> {
    match analysis
    case Answered(conditions) => conditions.GetOr([])
    case Unreachable => FallbackSpec(ToLower(clinicalNote))
  }

  class NoteInputPage {
    var clinicalNote: string
    var error: string

    /** The text box starts from the record's note. */
    constructor (caseData: CaseRecord)
      ensures clinicalNote == caseData.clinicalNote && error == ""
    {
      clinicalNote := caseData.clinicalNote;
      error := "";
    }

    method EditNote(text: string)
      modifies this`clinicalNote
      ensures clinicalNote == text
    {
      clinicalNote := text;
    }

    /**
     * `handleAnalyze`. A note that trims to nothing sets the error and
     * writes nothing. Otherwise the note and the detected conditions are
     * written together and the page moves on to the confirmation stage.
     */
    method HandleAnalyze(app: App, analysis: Analysis) returns (next: Stage)
      requires app.Valid()
      modifies this`error, app`caseData
      ensures app.Valid()
      ensures Trim(clinicalNote) == "" ==>
        error == BlankNoteError && app.caseData == old(app.caseData) && next == NoteInput
      ensures Trim(clinicalNote) != "" ==>
        && error == ""
        && app.caseData == Merge(old(app.caseData), NoUpdate.(clinicalNote := Some(clinicalNote),
                                                               detectedConditions := Some(DetectedFor(analysis, clinicalNote))))
        && next == Confirmation
    {
      if Trim(clinicalNote) == "" {
        error := BlankNoteError;
        return NoteInput;
      }
      error := "";
      var detectedConditions: seq<string>;
      match analysis {
        case Answered(conditions) =>
          detectedConditions := conditions.GetOr([]);
        case Unreachable =>
          detectedConditions := MockConditions(clinicalNote);
      }
      app.UpdateCaseData(NoUpdate.(clinicalNote := Some(clinicalNote), detectedConditions := Some(detectedConditions)));
      next := Confirmation;
    }
  }

  /** When the service is unreachable, a non-blank note always leaves at least one detected condition. */
  lemma FallbackLeavesAChoice(clinicalNote: string)
    ensures DetectedFor(Unreachable, clinicalNote) != []
  {
    FallbackShape(ToLower(clinicalNote));
  }
}
