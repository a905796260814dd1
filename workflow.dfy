/**
 * The workflow across the pages: the entry guard of each stage, where a
 * stage ends up once the guards have redirected as far as they go, what each
 * confirm writes for the next stage's guard, and how the quantities the
 * treatment page writes are printed on the claim.
 */
module Workflow {
  import opened Wrappers
  import opened Seqs
  import opened Text
  import opened CsvParser
  import opened CaseData
  import opened Routes
  import opened ClaimPdf
  import ConditionConfirmation
  import IcdCodeSelection
  import TreatmentProtocol
  import TreatmentDocumentation
  import MedicationSelection

  /** The guard of a stage: where its page redirects on entry with this record, if anywhere. */
  function Guard(r: CaseRecord, s: Stage): (g: Option<Stage>)
    ensures g.Some? ==> Order(g.value) < Order(s)
  {
    match s
    case Confirmation => ConditionConfirmation.Redirect(r)
    case IcdSelection => IcdCodeSelection.Redirect(r)
    case Treatments => TreatmentProtocol.Redirect(r)
    case Documentation => TreatmentDocumentation.Redirect(r)
    case Medications => MedicationSelection.Redirect(r)
    case _ => None
  }

  /** The stage shown after following the redirects from `s`: one whose guard lets the record in, never a later one. */
  function Settle(r: CaseRecord, s: Stage): (t: Stage)
    ensures Guard(r, t).None?
    ensures Order(t) <= Order(s)
    ensures Guard(r, s).None? ==> t == s
    decreases Order(s)
  {
    match Guard(r, s)
    case None => s
    case Some(g) => Settle(r, g)
  }

  // ---------------------------------------------------------------- properties

  /** Following the redirects a second time goes nowhere. */
  lemma SettleIdempotent(r: CaseRecord, s: Stage)
    ensures Settle(r, Settle(r, s)) == Settle(r, s)
  {
  }

  /**
   * Without a confirmed condition, the ICD-10 and treatment stages send the
   * user back to the confirmation, and from there back to the note when
   * nothing was detected.
   */
  lemma {:induction false} UnconfirmedSettles(r: CaseRecord, s: Stage)
    requires !Truthy(r.confirmedCondition)
    requires s == IcdSelection || s == Treatments
    ensures Settle(r, s) == ConditionConfirmation.Redirect(r).GetOr(Confirmation)
    decreases Order(s)
  {
    if s == Treatments {
      UnconfirmedSettles(r, IcdSelection);
    }
  }

  /** The medication stage without a confirmed condition shows the documentation when a basket is present, else the note or the confirmation. */
  lemma MedicationsUnconfirmed(r: CaseRecord)
    requires !Truthy(r.confirmedCondition)
    ensures r.diagnosticBasket.Some? || r.managementBasket.Some? ==> Settle(r, Medications) == Documentation
    ensures r.diagnosticBasket.None? && r.managementBasket.None? ==>
      Settle(r, Medications) == ConditionConfirmation.Redirect(r).GetOr(Confirmation)
  {
    if r.diagnosticBasket.None? && r.managementBasket.None? {
      UnconfirmedSettles(r, Treatments);
    }
  }

  /** From the initial record every stage before the documentation falls back to the note; the later ones stay at or go to the documentation. */
  lemma InitialRecordSettles()
    ensures Settle(InitialRecord, Confirmation) == NoteInput
    ensures Settle(InitialRecord, Treatments) == NoteInput
    ensures Settle(InitialRecord, Documentation) == Documentation
    ensures Settle(InitialRecord, Medications) == Documentation
    ensures Settle(InitialRecord, Registration) == Registration
  {
    UnconfirmedSettles(InitialRecord, Treatments);
    MedicationsUnconfirmed(InitialRecord);
  }

  /** The detection write of the note page with a non-empty list lets the confirmation page in. */
  lemma DetectionOpensConfirmation(r: CaseRecord, note: string, conditions: seq<string>)
    requires conditions != []
    ensures Guard(Merge(r, NoUpdate.(clinicalNote := Some(note), detectedConditions := Some(conditions))), Confirmation).None?
  {
  }

  /** A confirmed (non-empty) condition lets the ICD-10, treatment and medication pages in. */
  lemma ConfirmOpensLaterStages(r: CaseRecord, condition: string)
    requires condition != ""
    ensures var w := Merge(r, NoUpdate.(confirmedCondition := Some(condition)));
      && Settle(w, IcdSelection) == IcdSelection
      && Settle(w, Treatments) == Treatments
      && Settle(w, Medications) == Medications
  {
  }

  /** Writing both baskets, even empty, lets the documentation page in. */
  lemma BasketsOpenDocumentation(r: CaseRecord, d: seq<BasketItem>, m: seq<BasketItem>)
    ensures Settle(Merge(r, NoUpdate.(diagnosticBasket := Some(d), managementBasket := Some(m))), Documentation) == Documentation
  {
  }

  /** Every item of a basket has a quantity other than 0. */
  predicate QuantitiesSet(items: seq<BasketItem>) {
    forall i :: 0 <= i < |items| ==> items[i].quantity != 0
  }

  /** The treatment page keeps the quantities set: offered items start at 1 and an edit never stores 0. */
  lemma QuantitiesStaySet(rows: seq<Row>, items: seq<BasketItem>, code: Option<string>, quantity: string)
    ensures QuantitiesSet(Map(rows, TreatmentProtocol.OfferedItem))
    ensures QuantitiesSet(items) ==> QuantitiesSet(TreatmentProtocol.SetQuantity(items, code, quantity))
  {
    TreatmentProtocol.OfferedMatchesLookup(rows);
  }

  /** A basket whose quantities are set prints each item's quantity in the claim, never the covered count. */
  lemma SetQuantitiesArePrinted(items: seq<BasketItem>)
    requires QuantitiesSet(items)
    ensures forall i :: 0 <= i < |items| ==> Map(items, BasketRow)[i][2] == NumberCell(items[i].quantity)
  {
  }
}
