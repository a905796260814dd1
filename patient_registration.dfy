/**
 * The patient-registration page: it keeps the registration note being
 * typed, saves the case into the list of saved cases, and exports the claim
 * document of the record with that note.
 */
module PatientRegistration {
  import opened Wrappers
  import opened Seqs
  import opened CaseData
  import opened Routes
  import opened AppState
  import opened ClaimPdf

  const SavedAlert := "Case saved successfully!"
  const ExportErrorAlert := "Error generating PDF. Please try again."

  /** The message shown once the claim is written. */
  function ExportedAlert(filename: string): string {
    "Claim exported successfully as " + filename
  }

  /** The update the page hands to `updateCaseData`: `{ registrationNote }`. */
  function NoteUpdate(note: string): CaseUpdate {
    NoUpdate.(registrationNote := Some(note))
  }

  class RegistrationPage {
    var registrationNote: string

    /** The note starts as the record's (`caseData.registrationNote || ''`). */
    constructor (caseData: CaseRecord)
      ensures registrationNote == caseData.registrationNote
    {
      registrationNote := caseData.registrationNote;
    }

    method EditNote(text: string)
      modifies this
      ensures registrationNote == text
    {
      registrationNote := text;
    }

    /**
     * `handleSaveCase`: the note is written into the working record and
     * `saveCase` is called, with no validation. `saveCase` stamps the record
     * the page was rendered with, which the queued note write has not yet
     * reached, so the snapshot is the record as it stood before the call.
     */
    method HandleSaveCase(app: App, now: int, isoDate: string) returns (saved: CaseRecord, alert: string)
      requires app.Valid()
      modifies app`caseData, app`savedCases
      ensures app.Valid()
      ensures app.caseData == Merge(old(app.caseData), NoteUpdate(registrationNote))
      ensures saved == Stamp(old(app.caseData), now, isoDate)
      ensures app.savedCases == old(app.savedCases) + [saved]
      ensures alert == SavedAlert
    {
      saved := app.SaveCase(now, isoDate);
      app.UpdateCaseData(NoteUpdate(registrationNote));
      alert := SavedAlert;
    }

    /**
     * `handleExportPDF`: the note is written into the working record, and the
     * claim is generated from the record with the note (`finalCaseData`).
     * `drawingFails` stands for an exception from the drawing library, which
     * only changes the message.
     */
    method HandleExportPdf(app: App, m: Metrics, today: string, now: nat, drawingFails: bool)
      returns (claim: Option<seq<Block>>, alert: string)
      requires app.Valid()
      modifies app`caseData
      ensures app.Valid()
      ensures app.caseData == Merge(old(app.caseData), NoteUpdate(registrationNote))
      ensures drawingFails ==> claim == None && alert == ExportErrorAlert
      ensures !drawingFails ==>
        && claim == Some(Layout(old(app.caseData).(registrationNote := registrationNote), m, today))
        && alert == ExportedAlert(ClaimFilename(now))
    {
      var finalCaseData := app.caseData.(registrationNote := registrationNote);
      app.UpdateCaseData(NoteUpdate(registrationNote));
      if drawingFails {
        claim, alert := None, ExportErrorAlert;
      } else {
        var layout, filename := GenerateClaimPdf(finalCaseData, m, today, now);
        claim, alert := Some(layout), ExportedAlert(filename);
      }
    }

    method HandleBack() returns (next: Stage)
      ensures next == Medications
    {
      next := Medications;
    }
  }

  // ---------------------------------------------------------------- properties

  /** The record the claim is drawn from is the working record after the write: `{ ...caseData, registrationNote }`. */
  lemma ExportedRecordIsWritten(r: CaseRecord, note: string)
    ensures Merge(r, NoteUpdate(note)) == r.(registrationNote := note)
  {
    MergeFields(r, NoteUpdate(note));
    FieldsDetermineRecord(Merge(r, NoteUpdate(note)), r.(registrationNote := note));
  }

  /** The exported claim has a registration section exactly when the typed note is non-empty. */
  lemma ExportedNoteSection(r: CaseRecord, m: Metrics, today: string, note: string)
    ensures RegistrationKind in Map(Layout(r.(registrationNote := note), m, today), KindOf) <==> note != ""
  {
    LayoutHasNote(r.(registrationNote := note), m, today);
  }

  /**
   * After a save, the saved case and the working record agree on every key
   * but the stamps and the registration note, which the saved case takes
   * from the record as it was rendered.
   */
  lemma SavedCaseAgreesWithRecord(r: CaseRecord, note: string, now: int, isoDate: string)
    ensures var saved, working := Stamp(r, now, isoDate), Merge(r, NoteUpdate(note));
      && saved.registrationNote == r.registrationNote && working.registrationNote == note
      && forall key :: key != IdKey && key != DateKey && key != RegistrationNoteKey ==> Field(saved, key) == Field(working, key)
  {
  }
}
