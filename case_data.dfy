/**
 * The case record that the intake stages fill in one by one, and the shallow
 * merge (`{ ...prev, ...updates }`) through which every stage writes it.
 * Every list field is optional here because the stages read it as possibly
 * `undefined`; `Complete` says that all of them are present, which is what
 * the workflow actually keeps.
 */
module CaseData {
  import opened Wrappers
  import opened CsvParser

  /** A selected procedure or test: the treatment row's cells plus the quantity the clinician entered. */
  datatype BasketItem = BasketItem(description: Option<string>, code: Option<string>, covered: Option<string>, quantity: int)

  /** An uploaded document: its file name and the data URL the reader produced. */
  datatype FileRef = FileRef(name: string, data: string)

  /** The documentation kept for one procedure code; either part may be missing. */
  datatype DocEntry = DocEntry(notes: Option<string>, file: Option<FileRef>)

  /** Documentation keyed by procedure code (as a JavaScript property key). */
  type Documentation = map<string, DocEntry>

  datatype CaseRecord = CaseRecord(
    clinicalNote: string,
    detectedConditions: Option<seq<string>>,
    confirmedCondition: Option<string>,
    selectedICDCodes: Option<seq<IcdEntry>>,
    diagnosticBasket: Option<seq<BasketItem>>,
    managementBasket: Option<seq<BasketItem>>,
    documentation: Option<Documentation>,
    selectedMedications: Option<seq<Medication>>,
    registrationNote: string,
    id: Option<int>,
    date: Option<string>)

  /** The record the application starts with. */
  const InitialRecord := CaseRecord("", Some([]), None, Some([]), Some([]), Some([]), Some(map[]), Some([]), "", None, None)

  /** The record a new case starts from (written out again by the reset). */
  const ResetRecord := CaseRecord("", Some([]), None, Some([]), Some([]), Some([]), Some(map[]), Some([]), "", None, None)

  /** Every list and map field is present. */
  predicate Complete(r: CaseRecord) {
    && r.detectedConditions.Some? && r.selectedICDCodes.Some?
    && r.diagnosticBasket.Some? && r.managementBasket.Some?
    && r.documentation.Some? && r.selectedMedications.Some?
  }

  /** The starting record and the reset record agree: every text empty, every list and the documentation map empty, no condition chosen. */
  lemma InitialRecordIsEmpty()
    ensures InitialRecord == ResetRecord
    ensures Complete(InitialRecord)
    ensures InitialRecord.clinicalNote == "" && InitialRecord.registrationNote == ""
    ensures InitialRecord.confirmedCondition.None? && InitialRecord.documentation == Some(map[])
    ensures InitialRecord.detectedConditions == Some([]) && InitialRecord.selectedICDCodes == Some([])
    ensures InitialRecord.diagnosticBasket == Some([]) && InitialRecord.managementBasket == Some([])
    ensures InitialRecord.selectedMedications == Some([])
    ensures InitialRecord.id.None? && InitialRecord.date.None?
  {
  }

  /** The keys a stage may pass to `updateCaseData`; a present field is a key of the update object. */
  datatype CaseUpdate = CaseUpdate(
    clinicalNote: Option<string>,
    detectedConditions: Option<seq<string>>,
    confirmedCondition: Option<string>,
    selectedICDCodes: Option<seq<IcdEntry>>,
    diagnosticBasket: Option<seq<BasketItem>>,
    managementBasket: Option<seq<BasketItem>>,
    documentation: Option<Documentation>,
    selectedMedications: Option<seq<Medication>>,
    registrationNote: Option<string>)

  /** The empty update `{}`. */
  const NoUpdate := CaseUpdate(None, None, None, None, None, None, None, None, None)

  /** The keys of a case record, named as in the JavaScript object. */
  datatype Key =
    | ClinicalNoteKey | DetectedConditionsKey | ConfirmedConditionKey | SelectedICDCodesKey
    | DiagnosticBasketKey | ManagementBasketKey | DocumentationKey | SelectedMedicationsKey
    | RegistrationNoteKey | IdKey | DateKey

  /** The value stored under one key of a record. */
  datatype Value =
    | TextValue(text: string)
    | NamesValue(names: Option<seq<string>>)
    | NameValue(name: Option<string>)
    | CodesValue(codes: Option<seq<IcdEntry>>)
    | BasketValue(items: Option<seq<BasketItem>>)
    | DocsValue(docs: Option<Documentation>)
    | MedsValue(meds: Option<seq<Medication>>)
    | IdValue(id: Option<int>)
    | DateValue(date: Option<string>)

  /** `r[key]`. */
  function Field(r: CaseRecord, key: Key): Value {
    match key
    case ClinicalNoteKey => TextValue(r.clinicalNote)
    case DetectedConditionsKey => NamesValue(r.detectedConditions)
    case ConfirmedConditionKey => NameValue(r.confirmedCondition)
    case SelectedICDCodesKey => CodesValue(r.selectedICDCodes)
    case DiagnosticBasketKey => BasketValue(r.diagnosticBasket)
    case ManagementBasketKey => BasketValue(r.managementBasket)
    case DocumentationKey => DocsValue(r.documentation)
    case SelectedMedicationsKey => MedsValue(r.selectedMedications)
    case RegistrationNoteKey => TextValue(r.registrationNote)
    case IdKey => IdValue(r.id)
    case DateKey => DateValue(r.date)
  }

  /** `updates[key]` when the update carries that key; the stages never write `id` or `date`. */
  function Written(u: CaseUpdate, key: Key): Option<Value> {
    match key
    case ClinicalNoteKey => if u.clinicalNote.Some? then Some(TextValue(u.clinicalNote.value)) else None
    case DetectedConditionsKey => if u.detectedConditions.Some? then Some(NamesValue(u.detectedConditions)) else None
    case ConfirmedConditionKey => if u.confirmedCondition.Some? then Some(NameValue(u.confirmedCondition)) else None
    case SelectedICDCodesKey => if u.selectedICDCodes.Some? then Some(CodesValue(u.selectedICDCodes)) else None
    case DiagnosticBasketKey => if u.diagnosticBasket.Some? then Some(BasketValue(u.diagnosticBasket)) else None
    case ManagementBasketKey => if u.managementBasket.Some? then Some(BasketValue(u.managementBasket)) else None
    case DocumentationKey => if u.documentation.Some? then Some(DocsValue(u.documentation)) else None
    case SelectedMedicationsKey => if u.selectedMedications.Some? then Some(MedsValue(u.selectedMedications)) else None
    case RegistrationNoteKey => if u.registrationNote.Some? then Some(TextValue(u.registrationNote.value)) else None
    case IdKey => None
    case DateKey => None
  }

  /** The value of `key` after the merge: the update's where it carries the key, else the previous record's. */
  function MergedField(prev: CaseRecord, u: CaseUpdate, key: Key): Value {
    if Written(u, key).Some? then Written(u, key).value else Field(prev, key)
  }

  /**
   * `{ ...prev, ...updates }`: every key the update carries takes the update's
   * value, every other key keeps the previous one (`MergeField`); an update
   * never removes a list (`MergeKeepsComplete`).
   */
  function Merge(prev: CaseRecord, u: CaseUpdate): CaseRecord {
    CaseRecord(
      if u.clinicalNote.Some? then u.clinicalNote.value else prev.clinicalNote,
      if u.detectedConditions.Some? then u.detectedConditions else prev.detectedConditions,
      if u.confirmedCondition.Some? then u.confirmedCondition else prev.confirmedCondition,
      if u.selectedICDCodes.Some? then u.selectedICDCodes else prev.selectedICDCodes,
      if u.diagnosticBasket.Some? then u.diagnosticBasket else prev.diagnosticBasket,
      if u.managementBasket.Some? then u.managementBasket else prev.managementBasket,
      if u.documentation.Some? then u.documentation else prev.documentation,
      if u.selectedMedications.Some? then u.selectedMedications else prev.selectedMedications,
      if u.registrationNote.Some? then u.registrationNote.value else prev.registrationNote,
      prev.id,
      prev.date)
  }

  /** Each key of the merged record holds the update's value where the update carries the key, and the previous value otherwise. */
  lemma MergeField(prev: CaseRecord, u: CaseUpdate, key: Key)
    ensures Field(Merge(prev, u), key) == MergedField(prev, u, key)
  {
    match key
    case ClinicalNoteKey =>
    case DetectedConditionsKey =>
    case ConfirmedConditionKey =>
    case SelectedICDCodesKey =>
    case DiagnosticBasketKey =>
    case ManagementBasketKey =>
    case DocumentationKey =>
    case SelectedMedicationsKey =>
    case RegistrationNoteKey =>
    case IdKey =>
    case DateKey =>
  }

  /** An update never removes a list, so a complete record stays complete. */
  lemma MergeKeepsComplete(prev: CaseRecord, u: CaseUpdate)
    requires Complete(prev)
    ensures Complete(Merge(prev, u))
  {
    var r := Merge(prev, u);
    assert r.detectedConditions.Some? && r.selectedICDCodes.Some?;
    assert r.diagnosticBasket.Some? && r.managementBasket.Some?;
    assert r.documentation.Some? && r.selectedMedications.Some?;
  }

  /** `MergeField` for every key at once. */
  lemma MergeFields(prev: CaseRecord, u: CaseUpdate)
    ensures forall key :: Field(Merge(prev, u), key) == MergedField(prev, u, key)
  {
    forall key ensures Field(Merge(prev, u), key) == MergedField(prev, u, key) {
      MergeField(prev, u, key);
    }
  }

  /** The update that writes `u`'s keys and then `v`'s: `{ ...u, ...v }`. */
  function Then(u: CaseUpdate, v: CaseUpdate): CaseUpdate {
    CaseUpdate(
      if v.clinicalNote.Some? then v.clinicalNote else u.clinicalNote,
      if v.detectedConditions.Some? then v.detectedConditions else u.detectedConditions,
      if v.confirmedCondition.Some? then v.confirmedCondition else u.confirmedCondition,
      if v.selectedICDCodes.Some? then v.selectedICDCodes else u.selectedICDCodes,
      if v.diagnosticBasket.Some? then v.diagnosticBasket else u.diagnosticBasket,
      if v.managementBasket.Some? then v.managementBasket else u.managementBasket,
      if v.documentation.Some? then v.documentation else u.documentation,
      if v.selectedMedications.Some? then v.selectedMedications else u.selectedMedications,
      if v.registrationNote.Some? then v.registrationNote else u.registrationNote)
  }

  /** Two records that agree on every key are the same record. */
  lemma FieldsDetermineRecord(a: CaseRecord, b: CaseRecord)
    requires forall key :: Field(a, key) == Field(b, key)
    ensures a == b
  {
    assert Field(a, ClinicalNoteKey) == Field(b, ClinicalNoteKey);
    assert Field(a, DetectedConditionsKey) == Field(b, DetectedConditionsKey);
    assert Field(a, ConfirmedConditionKey) == Field(b, ConfirmedConditionKey);
    assert Field(a, SelectedICDCodesKey) == Field(b, SelectedICDCodesKey);
    assert Field(a, DiagnosticBasketKey) == Field(b, DiagnosticBasketKey);
    assert Field(a, ManagementBasketKey) == Field(b, ManagementBasketKey);
    assert Field(a, DocumentationKey) == Field(b, DocumentationKey);
    assert Field(a, SelectedMedicationsKey) == Field(b, SelectedMedicationsKey);
    assert Field(a, RegistrationNoteKey) == Field(b, RegistrationNoteKey);
    assert Field(a, IdKey) == Field(b, IdKey);
    assert Field(a, DateKey) == Field(b, DateKey);
  }

  /** The empty update changes nothing. */
  lemma MergeNoUpdate(prev: CaseRecord)
    ensures Merge(prev, NoUpdate) == prev
  {
    MergeFields(prev, NoUpdate);
    FieldsDetermineRecord(Merge(prev, NoUpdate), prev);
  }

  /** Two successive writes are one write of the combined update, the later keys winning. */
  lemma MergeThen(prev: CaseRecord, u: CaseUpdate, v: CaseUpdate)
    ensures Merge(Merge(prev, u), v) == Merge(prev, Then(u, v))
  {
  }

  /** Writing the same update twice is writing it once. */
  lemma MergeIdempotent(prev: CaseRecord, u: CaseUpdate)
    ensures Merge(Merge(prev, u), u) == Merge(prev, u)
  {
    MergeFields(Merge(prev, u), u);
    MergeFields(prev, u);
    FieldsDetermineRecord(Merge(Merge(prev, u), u), Merge(prev, u));
  }

  /** `{ ...caseData, id: Date.now(), date: new Date().toISOString() }`. */
  function Stamp(r: CaseRecord, now: int, isoDate: string): (s: CaseRecord)
    ensures forall key :: key != IdKey && key != DateKey ==> Field(s, key) == Field(r, key)
    ensures s.id == Some(now) && s.date == Some(isoDate)
    ensures Complete(r) ==> Complete(s)
  {
    r.(id := Some(now), date := Some(isoDate))
  }
}
