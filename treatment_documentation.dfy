/**
 * The treatment-documentation page: it lists the selected diagnostic tests
 * followed by the management ones, and keeps per procedure code a note and
 * an uploaded file, which a confirm writes into the record and a skip does
 * not.
 */
module TreatmentDocumentation {
  import opened Wrappers
  import opened Seqs
  import opened CaseData
  import opened Routes
  import opened AppState

  const DiagnosticTag := "Diagnostic"
  const ManagementTag := "Management"

  /** A selected test with the basket it came from (`{ ...t, type }`). */
  datatype TaggedTest = TaggedTest(item: BasketItem, kind: string)

  /** The entry guard: only a record without either basket goes back to the treatments; empty baskets pass. */
  function Redirect(r: CaseRecord): (s: Option<Stage>)
    ensures s.Some? <==> r.diagnosticBasket.None? && r.managementBasket.None?
    ensures s.Some? ==> s.value == Treatments
  {
    if r.diagnosticBasket.None? && r.managementBasket.None? then Some(Treatments) else None
  }

  function TagDiagnostic(t: BasketItem): TaggedTest {
    TaggedTest(t, DiagnosticTag)
  }

  function TagManagement(t: BasketItem): TaggedTest {
    TaggedTest(t, ManagementTag)
  }

  /** The combined list: the diagnostic items, then the management items, each tagged with its basket. */
  function Combined(r: CaseRecord): (tests: seq<TaggedTest>)
    ensures var d, m := r.diagnosticBasket.GetOr([]), r.managementBasket.GetOr([]);
      && |tests| == |d| + |m|
      && (forall i :: 0 <= i < |d| ==> tests[i] == TaggedTest(d[i], DiagnosticTag))
      && (forall i :: 0 <= i < |m| ==> tests[|d| + i] == TaggedTest(m[i], ManagementTag))
  {
    var d, m := r.diagnosticBasket.GetOr([]), r.managementBasket.GetOr([]);
    var tests := Map(d, TagDiagnostic) + Map(m, TagManagement);
    assert forall i :: 0 <= i < |m| ==> tests[|d| + i] == Map(m, TagManagement)[i];
    tests
  }

  /** A procedure code used as a property key: a missing code becomes the key `"undefined"`. */
  function PropertyKey(code: Option<string>): string {
    if code.Some? then code.value else "undefined"
  }

  /** The entry of `docs` for `key`, or the empty entry `{}` when there is none (`...prev[testCode]`). */
  function EntryOf(docs: Documentation, key: string): DocEntry {
    if key in docs then docs[key] else DocEntry(None, None)
  }

  class DocumentationPage {
    var documentation: Documentation
    var allTests: seq<TaggedTest>

    constructor (caseData: CaseRecord)
      ensures documentation == caseData.documentation.GetOr(map[]) && allTests == []
    {
      documentation := caseData.documentation.GetOr(map[]);
      allTests := [];
    }

    /** The effect that builds the list of tests from the record. */
    method CombineTests(caseData: CaseRecord)
      modifies this`allTests
      ensures allTests == Combined(caseData)
    {
      allTests := Combined(caseData);
    }

    /** `handleTextChange`: the code's note becomes the text, its file stays, every other code is untouched. */
    method HandleTextChange(testCode: Option<string>, text: string)
      modifies this`documentation
      ensures var key := PropertyKey(testCode);
        && key in documentation
        && documentation[key] == DocEntry(Some(text), EntryOf(old(documentation), key).file)
        && forall c :: c != key ==> (c in documentation <==> c in old(documentation)) &&
                                    (c in documentation ==> documentation[c] == old(documentation)[c])
    {
      var key := PropertyKey(testCode);
      documentation := documentation[key := EntryOf(documentation, key).(notes := Some(text))];
    }

    /**
     * The completion of `handleFileUpload`: with a file, the code's file
     * becomes `{name, data}` and its note stays; without one nothing happens.
     */
    method HandleFileUpload(testCode: Option<string>, file: Option<FileRef>)
      modifies this`documentation
      ensures file.None? ==> documentation == old(documentation)
      ensures file.Some? ==> var key := PropertyKey(testCode);
        && key in documentation
        && documentation[key] == DocEntry(EntryOf(old(documentation), key).notes, file)
        && forall c :: c != key ==> (c in documentation <==> c in old(documentation)) &&
                                    (c in documentation ==> documentation[c] == old(documentation)[c])
    {
      if file.Some? {
        var key := PropertyKey(testCode);
        documentation := documentation[key := EntryOf(documentation, key).(file := file)];
      }
    }

    /** `handleConfirm`: the documentation is written and the medications follow. */
    method HandleConfirm(app: App) returns (next: Stage)
      requires app.Valid()
      modifies app`caseData
      ensures app.Valid()
      ensures app.caseData == Merge(old(app.caseData), NoUpdate.(documentation := Some(documentation)))
      ensures next == Medications
    {
      app.UpdateCaseData(NoUpdate.(documentation := Some(documentation)));
      next := Medications;
    }

    /** `handleSkip`: on to the medications, writing nothing. */
    method HandleSkip() returns (next: Stage)
      ensures next == Medications
    {
      next := Medications;
    }

    method HandleBack() returns (next: Stage)
      ensures next == Treatments
    {
      next := Treatments;
    }
  }

  /** A note and a file for the same code are kept together, whatever the order they were given in. */
  lemma NoteAndFileCommute(docs: Documentation, key: string, text: string, file: FileRef)
    ensures var a := docs[key := EntryOf(docs, key).(notes := Some(text))];
            var b := docs[key := EntryOf(docs, key).(file := Some(file))];
      a[key := EntryOf(a, key).(file := Some(file))] == b[key := EntryOf(b, key).(notes := Some(text))]
  {
  }

  /** The combined list of the record written by the treatments page has one entry per selected test. */
  lemma CombinedOfWrittenBaskets(r: CaseRecord, d: seq<BasketItem>, m: seq<BasketItem>)
    ensures var w := Merge(r, NoUpdate.(diagnosticBasket := Some(d), managementBasket := Some(m)));
      Redirect(w).None? && |Combined(w)| == |d| + |m|
  {
  }
}
