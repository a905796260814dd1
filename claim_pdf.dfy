/**
 * The claim document: the sections `generateClaimPDF` writes, in their fixed
 * order, which of them are present, where each starts on the page (with the
 * page breaks its running vertical position triggers) and the rows of its
 * tables, plus the file name. The drawing itself is not modelled: the number
 * of lines the note wraps to and the position where a table ends are inputs.
 */
module ClaimPdf {
  import opened Wrappers
  import opened Seqs
  import opened Text
  import opened CsvParser
  import opened CaseData

  /** The sections of the claim, in the order they are written. */
  datatype Kind =
    | HeaderKind | ClinicalNoteKind | ConditionKind | IcdKind
    | DiagnosticKind | ManagementKind | MedicationKind | RegistrationKind

  const SectionOrder := [HeaderKind, ClinicalNoteKind, ConditionKind, IcdKind,
                         DiagnosticKind, ManagementKind, MedicationKind, RegistrationKind]

  /** The vertical position of the first line of a page. */
  const TopMargin := 20

  const Title := "SaluLink Chronic Treatment Claim"
  const NotAvailable := "N/A"

  /** One table cell: a text cell (possibly `undefined`) or a number. */
  datatype CellValue = TextCell(text: Option<string>) | NumberCell(n: int)

  /** What a section shows. */
  datatype SectionContent =
    | HeaderContent(title: string, dateLine: string)
    | TextContent(heading: string, text: string)
    | TableContent(heading: string, head: seq<string>, rows: seq<seq<CellValue>>)

  /**
   * A placed section: `before` is the running position when the section is
   * reached, `newPage` whether a page was added, `top` the position of its
   * heading.
   */
  datatype Block = Block(kind: Kind, content: SectionContent, before: int, newPage: bool, top: int)

  /**
   * What the drawing library decides: the number of lines the clinical note
   * wraps to, and the position `lastAutoTable.finalY` where a table of a kind
   * started at a position ends.
   */
  datatype Metrics = Metrics(noteLines: nat, tableEnd: (Kind, int) -> int)

  /** A section is written iff its list is present and non-empty (or, for the registration note, the note is non-empty). */
  predicate Included(r: CaseRecord, k: Kind) {
    match k
    case HeaderKind => true
    case ClinicalNoteKind => true
    case ConditionKind => true
    case IcdKind => r.selectedICDCodes.Some? && |r.selectedICDCodes.value| > 0
    case DiagnosticKind => r.diagnosticBasket.Some? && |r.diagnosticBasket.value| > 0
    case ManagementKind => r.managementBasket.Some? && |r.managementBasket.value| > 0
    case MedicationKind => r.selectedMedications.Some? && |r.selectedMedications.value| > 0
    case RegistrationKind => r.registrationNote != ""
  }

  /** The position beyond which a section starts on a new page; the first four sections are never moved. */
  function Threshold(k: Kind): Option<int> {
    match k
    case DiagnosticKind => Some(250)
    case ManagementKind => Some(250)
    case MedicationKind => Some(220)
    case RegistrationKind => Some(250)
    case _ => None
  }

  function IcdRow(e: IcdEntry): seq<CellValue> {
    [TextCell(e.code), TextCell(e.description)]
  }

  /** `item.quantity || item.covered`: the quantity, or the covered count when the quantity is 0. */
  function QuantityCell(item: BasketItem): CellValue {
    if item.quantity != 0 then NumberCell(item.quantity) else TextCell(item.covered)
  }

  function BasketRow(item: BasketItem): seq<CellValue> {
    [TextCell(item.description), TextCell(item.code), QuantityCell(item)]
  }

  function MedicationRow(med: Medication): seq<CellValue> {
    [TextCell(med.medicineName), TextCell(med.activeIngredient), TextCell(med.medicineClass), TextCell(med.cdaCore)]
  }

  /** The contents of a section: its heading and text, or its heading, column heads and one row per list element. */
  function ContentOf(r: CaseRecord, k: Kind, today: string): SectionContent {
    match k
    case HeaderKind => HeaderContent(Title, "Date: " + today)
    case ClinicalNoteKind => TextContent("Clinical Note:", r.clinicalNote)
    case ConditionKind =>
      TextContent("Confirmed Condition:", if Truthy(r.confirmedCondition) then r.confirmedCondition.value else NotAvailable)
    case IcdKind =>
      TableContent("ICD-10 Codes:", ["Code", "Description"], Map(r.selectedICDCodes.GetOr([]), IcdRow))
    case DiagnosticKind =>
      TableContent("Diagnostic Basket:", ["Procedure/Test", "Code", "Quantity"], Map(r.diagnosticBasket.GetOr([]), BasketRow))
    case ManagementKind =>
      TableContent("Ongoing Management Basket:", ["Procedure/Test", "Code", "Quantity"], Map(r.managementBasket.GetOr([]), BasketRow))
    case MedicationKind =>
      TableContent("Selected Medications:", ["Medicine Name", "Active Ingredient", "Class", "CDA"],
                   Map(r.selectedMedications.GetOr([]), MedicationRow))
    case RegistrationKind => TextContent("Registration Note:", r.registrationNote)
  }

  /** The running position after a placed section. */
  function After(m: Metrics, b: Block): int {
    match b.kind
    case HeaderKind => b.top + 15 + 15
    case ClinicalNoteKind => b.top + 7 + m.noteLines * 5 + 10
    case ConditionKind => b.top + 7 + 10
    case RegistrationKind => b.top + 7
    case _ => m.tableEnd(b.kind, b.top + 7) + 10
  }

  /** A block obeys the page-break rule: a page is added iff the section has a threshold and the position is beyond it. */
  predicate Placed(b: Block) {
    && (b.newPage <==> Threshold(b.kind).Some? && b.before > Threshold(b.kind).value)
    && b.top == (if b.newPage then TopMargin else b.before)
  }

  /** Section `k` reached at position `y`: no block if it is left out, else its block, and the position after it. */
  function Emit(r: CaseRecord, m: Metrics, today: string, k: Kind, y: int): (out: (seq<Block>, int))
    ensures !Included(r, k) ==> out == ([], y)
    ensures Included(r, k) ==> && |out.0| == 1 && out.0[0].kind == k && out.0[0].before == y
                               && out.0[0].content == ContentOf(r, k, today) && Placed(out.0[0])
                               && out.1 == After(m, out.0[0])
  {
    if !Included(r, k) then ([], y)
    else
      var newPage := Threshold(k).Some? && y > Threshold(k).value;
      var b := Block(k, ContentOf(r, k, today), y, newPage, if newPage then TopMargin else y);
      ([b], After(m, b))
  }

  /** The sections `ks` in order, the first one reached at `y`. */
  function LayoutFrom(r: CaseRecord, m: Metrics, today: string, ks: seq<Kind>, y: int): seq<Block>
    decreases |ks|
  {
    if ks == [] then []
    else
      var e := Emit(r, m, today, ks[0], y);
      e.0 + LayoutFrom(r, m, today, ks[1..], e.1)
  }

  /** The claim: every section in order, each reached at the position the previous one left. */
  function Layout(r: CaseRecord, m: Metrics, today: string): seq<Block> {
    LayoutFrom(r, m, today, SectionOrder, TopMargin)
  }

  /** `SaluLink_Claim_<ms>.pdf`. */
  function ClaimFilename(now: nat): string {
    "SaluLink_Claim_" + NatToString(now) + ".pdf"
  }

  /**
   * One table section (`ICD-10 Codes`, the two baskets, the medications)
   * reached at `yPosition`: nothing when its list is missing or empty;
   * otherwise a new page when the position is beyond the section's
   * threshold, the heading, the table 7 below it, and the position 10 below
   * the table's end.
   */
  method WriteTable(caseData: CaseRecord, m: Metrics, today: string, k: Kind, yPosition: int) returns (blocks: seq<Block>, y: int)
    requires k.IcdKind? || k.DiagnosticKind? || k.ManagementKind? || k.MedicationKind?
    ensures (blocks, y) == Emit(caseData, m, today, k, yPosition)
  {
    blocks, y := [], yPosition;
    if Included(caseData, k) {
      var newPage := false;
      if Threshold(k).Some? && y > Threshold(k).value {
        newPage, y := true, TopMargin;
      }
      var top := y;
      y := y + 7;
      y := m.tableEnd(k, y) + 10;
      blocks := [Block(k, ContentOf(caseData, k, today), yPosition, newPage, top)];
    }
  }

  /** The registration note, when there is one: a new page beyond 250, the heading, and the text 7 below it. */
  method WriteRegistration(caseData: CaseRecord, m: Metrics, today: string, yPosition: int) returns (blocks: seq<Block>, y: int)
    ensures (blocks, y) == Emit(caseData, m, today, RegistrationKind, yPosition)
  {
    blocks, y := [], yPosition;
    if caseData.registrationNote != "" {
      var newPage := false;
      if y > Threshold(RegistrationKind).value {
        newPage, y := true, TopMargin;
      }
      var top := y;
      y := y + 7;
      blocks := [Block(RegistrationKind, ContentOf(caseData, RegistrationKind, today), yPosition, newPage, top)];
    }
  }

  /**
   * `generateClaimPDF`: the sections are written one after the other,
   * moving the running position down and adding a page where a section
   * finds it beyond its threshold. The case data is only read.
   */
  method GenerateClaimPdf(caseData: CaseRecord, m: Metrics, today: string, now: nat) returns (layout: seq<Block>, filename: string)
    ensures layout == Layout(caseData, m, today)
    ensures filename == ClaimFilename(now)
  {
    var yPosition := 20;
    layout := [Block(HeaderKind, ContentOf(caseData, HeaderKind, today), yPosition, false, yPosition)];
    yPosition := yPosition + 15;
    yPosition := yPosition + 15;
    ghost var header, y1 := layout, yPosition;
    assert Emit(caseData, m, today, HeaderKind, TopMargin) == (header, y1);

    var top := yPosition;
    yPosition := yPosition + 7;
    yPosition := yPosition + m.noteLines * 5 + 10;
    layout := layout + [Block(ClinicalNoteKind, ContentOf(caseData, ClinicalNoteKind, today), top, false, top)];
    ghost var note, y2 := [layout[1]], yPosition;
    assert Emit(caseData, m, today, ClinicalNoteKind, y1) == (note, y2);

    top := yPosition;
    yPosition := yPosition + 7;
    yPosition := yPosition + 10;
    layout := layout + [Block(ConditionKind, ContentOf(caseData, ConditionKind, today), top, false, top)];
    ghost var condition, y3 := [layout[2]], yPosition;
    assert Emit(caseData, m, today, ConditionKind, y2) == (condition, y3);
    assert layout == header + note + condition;

    var icd, diagnostic, management, medication, registration;
    icd, yPosition := WriteTable(caseData, m, today, IcdKind, yPosition);
    ghost var y4 := yPosition;
    diagnostic, yPosition := WriteTable(caseData, m, today, DiagnosticKind, yPosition);
    ghost var y5 := yPosition;
    management, yPosition := WriteTable(caseData, m, today, ManagementKind, yPosition);
    ghost var y6 := yPosition;
    medication, yPosition := WriteTable(caseData, m, today, MedicationKind, yPosition);
    ghost var y7 := yPosition;
    registration, yPosition := WriteRegistration(caseData, m, today, yPosition);
    layout := layout + icd + diagnostic + management + medication + registration;
    LayoutOfSections(caseData, m, today, header, note, condition, icd, diagnostic, management, medication, registration,
                     y1, y2, y3, y4, y5, y6, y7, yPosition);

    filename := "SaluLink_Claim_" + NatToString(now) + ".pdf";
  }

  // ---------------------------------------------------------------- properties

  function KindOf(b: Block): Kind {
    b.kind
  }

  /** Each block is reached where the one before it left the position, the first at `y`. */
  predicate Chained(m: Metrics, bs: seq<Block>, y: int) {
    && (bs != [] ==> bs[0].before == y)
    && forall i :: 0 <= i < |bs| - 1 ==> bs[i + 1].before == After(m, bs[i])
  }

  /** One step of the fold: the first section, then the rest from where it left the position. */
  lemma LayoutFromCons(r: CaseRecord, m: Metrics, today: string, k: Kind, ks: seq<Kind>, y: int, blocks: seq<Block>, y': int)
    requires Emit(r, m, today, k, y) == (blocks, y')
    ensures LayoutFrom(r, m, today, [k] + ks, y) == blocks + LayoutFrom(r, m, today, ks, y')
  {
    assert ([k] + ks)[1..] == ks;
  }

  /** Moving the next section's blocks into the written prefix. */
  lemma LayoutFromPrefix(r: CaseRecord, m: Metrics, today: string, written: seq<Block>, k: Kind, ks: seq<Kind>,
                         y: int, blocks: seq<Block>, y': int)
    requires Emit(r, m, today, k, y) == (blocks, y')
    ensures written + LayoutFrom(r, m, today, [k] + ks, y) == (written + blocks) + LayoutFrom(r, m, today, ks, y')
  {
    LayoutFromCons(r, m, today, k, ks, y, blocks, y');
    assert written + (blocks + LayoutFrom(r, m, today, ks, y')) == (written + blocks) + LayoutFrom(r, m, today, ks, y');
  }

  /** The claim is the eight sections' blocks, each section reached where the one before it left the position. */
  lemma LayoutOfSections(r: CaseRecord, m: Metrics, today: string,
                         p1: seq<Block>, p2: seq<Block>, p3: seq<Block>, p4: seq<Block>,
                         p5: seq<Block>, p6: seq<Block>, p7: seq<Block>, p8: seq<Block>,
                         y1: int, y2: int, y3: int, y4: int, y5: int, y6: int, y7: int, y8: int)
    requires Emit(r, m, today, HeaderKind, TopMargin) == (p1, y1)
    requires Emit(r, m, today, ClinicalNoteKind, y1) == (p2, y2)
    requires Emit(r, m, today, ConditionKind, y2) == (p3, y3)
    requires Emit(r, m, today, IcdKind, y3) == (p4, y4)
    requires Emit(r, m, today, DiagnosticKind, y4) == (p5, y5)
    requires Emit(r, m, today, ManagementKind, y5) == (p6, y6)
    requires Emit(r, m, today, MedicationKind, y6) == (p7, y7)
    requires Emit(r, m, today, RegistrationKind, y7) == (p8, y8)
    ensures Layout(r, m, today) == p1 + p2 + p3 + p4 + p5 + p6 + p7 + p8
  {
    var t8: seq<Kind> := [];
    var t7 := [RegistrationKind] + t8;
    var t6 := [MedicationKind] + t7;
    var t5 := [ManagementKind] + t6;
    var t4 := [DiagnosticKind] + t5;
    var t3 := [IcdKind] + t4;
    var t2 := [ConditionKind] + t3;
    var t1 := [ClinicalNoteKind] + t2;
    assert SectionOrder == [HeaderKind] + t1;
    LayoutFromPrefix(r, m, today, [], HeaderKind, t1, TopMargin, p1, y1);
    assert [] + p1 == p1;
    LayoutFromPrefix(r, m, today, p1, ClinicalNoteKind, t2, y1, p2, y2);
    LayoutFromPrefix(r, m, today, p1 + p2, ConditionKind, t3, y2, p3, y3);
    LayoutFromPrefix(r, m, today, p1 + p2 + p3, IcdKind, t4, y3, p4, y4);
    LayoutFromPrefix(r, m, today, p1 + p2 + p3 + p4, DiagnosticKind, t5, y4, p5, y5);
    LayoutFromPrefix(r, m, today, p1 + p2 + p3 + p4 + p5, ManagementKind, t6, y5, p6, y6);
    LayoutFromPrefix(r, m, today, p1 + p2 + p3 + p4 + p5 + p6, MedicationKind, t7, y6, p7, y7);
    LayoutFromPrefix(r, m, today, p1 + p2 + p3 + p4 + p5 + p6 + p7, RegistrationKind, t8, y7, p8, y8);
    assert p1 + p2 + p3 + p4 + p5 + p6 + p7 + p8 + [] == p1 + p2 + p3 + p4 + p5 + p6 + p7 + p8;
  }

  lemma {:induction false} LayoutFromKinds(r: CaseRecord, m: Metrics, today: string, ks: seq<Kind>, y: int)
    ensures Map(LayoutFrom(r, m, today, ks, y), KindOf) == Filter(ks, k => Included(r, k))
    decreases |ks|
  {
    if ks != [] {
      var e := Emit(r, m, today, ks[0], y);
      LayoutFromKinds(r, m, today, ks[1..], e.1);
      MapAppend(e.0, LayoutFrom(r, m, today, ks[1..], e.1), KindOf);
      assert ks == [ks[0]] + ks[1..];
      FilterAppend([ks[0]], ks[1..], k => Included(r, k));
      assert Filter([ks[0]], k => Included(r, k)) == Filter([], k => Included(r, k)) + (if Included(r, ks[0]) then [ks[0]] else []);
    }
  }

  lemma {:induction false} LayoutFromBlocks(r: CaseRecord, m: Metrics, today: string, ks: seq<Kind>, y: int)
    ensures forall b :: b in LayoutFrom(r, m, today, ks, y) ==> Placed(b) && b.content == ContentOf(r, b.kind, today)
    decreases |ks|
  {
    if ks != [] {
      LayoutFromBlocks(r, m, today, ks[1..], Emit(r, m, today, ks[0], y).1);
    }
  }

  lemma {:induction false} LayoutFromChained(r: CaseRecord, m: Metrics, today: string, ks: seq<Kind>, y: int)
    ensures Chained(m, LayoutFrom(r, m, today, ks, y), y)
    decreases |ks|
  {
    if ks != [] {
      var e := Emit(r, m, today, ks[0], y);
      var rest := LayoutFrom(r, m, today, ks[1..], e.1);
      LayoutFromChained(r, m, today, ks[1..], e.1);
      if e.0 != [] {
        var bs := e.0 + rest;
        forall i | 0 <= i < |bs| - 1 ensures bs[i + 1].before == After(m, bs[i]) {
          if i > 0 {
            assert bs[i] == rest[i - 1] && bs[i + 1] == rest[i];
          }
        }
      }
    }
  }

  /** The sections of the claim are exactly the included ones, in the fixed order. */
  lemma LayoutSections(r: CaseRecord, m: Metrics, today: string)
    ensures Map(Layout(r, m, today), KindOf) == Filter(SectionOrder, k => Included(r, k))
  {
    LayoutFromKinds(r, m, today, SectionOrder, TopMargin);
  }

  /** A section is in the claim exactly when it is included. */
  lemma LayoutHasSection(r: CaseRecord, m: Metrics, today: string, k: Kind)
    ensures k in Map(Layout(r, m, today), KindOf) <==> Included(r, k)
  {
    LayoutSections(r, m, today);
    FilterMember(SectionOrder, k => Included(r, k), k);
  }

  /** The claim has a registration section exactly when the record's registration note is non-empty. */
  lemma LayoutHasNote(r: CaseRecord, m: Metrics, today: string)
    ensures RegistrationKind in Map(Layout(r, m, today), KindOf) <==> r.registrationNote != ""
  {
    LayoutHasSection(r, m, today, RegistrationKind);
    RegistrationIncluded(r);
  }

  lemma RegistrationIncluded(r: CaseRecord)
    ensures Included(r, RegistrationKind) <==> r.registrationNote != ""
  {
  }

  /**
   * Every section shows its own contents and obeys the page-break rule; in
   * particular the header, the note, the condition and the ICD-10 table never
   * start a new page.
   */
  lemma LayoutPlaced(r: CaseRecord, m: Metrics, today: string)
    ensures forall b :: b in Layout(r, m, today) ==> Placed(b) && b.content == ContentOf(r, b.kind, today)
    ensures forall b :: b in Layout(r, m, today) && Threshold(b.kind).None? ==> !b.newPage && b.top == b.before
  {
    LayoutFromBlocks(r, m, today, SectionOrder, TopMargin);
  }

  /** The first section starts at the top margin and each next one where the previous one ended. */
  lemma LayoutChained(r: CaseRecord, m: Metrics, today: string)
    ensures Chained(m, Layout(r, m, today), TopMargin)
  {
    LayoutFromChained(r, m, today, SectionOrder, TopMargin);
  }

  /** The claim always opens with the header, the clinical note and the confirmed condition (`N/A` when there is none). */
  lemma LayoutOpening(r: CaseRecord, m: Metrics, today: string)
    ensures var l := Layout(r, m, today);
      && |l| >= 3
      && l[0].content == HeaderContent(Title, "Date: " + today)
      && l[1].content == TextContent("Clinical Note:", r.clinicalNote)
      && l[2].content == TextContent("Confirmed Condition:", if Truthy(r.confirmedCondition) then r.confirmedCondition.value else NotAvailable)
  {
    var ks := SectionOrder[3..];
    var e1 := Emit(r, m, today, HeaderKind, TopMargin);
    var e2 := Emit(r, m, today, ClinicalNoteKind, e1.1);
    var e3 := Emit(r, m, today, ConditionKind, e2.1);
    LayoutFromCons(r, m, today, ConditionKind, ks, e2.1, e3.0, e3.1);
    LayoutFromCons(r, m, today, ClinicalNoteKind, [ConditionKind] + ks, e1.1, e2.0, e2.1);
    LayoutFromCons(r, m, today, HeaderKind, [ClinicalNoteKind, ConditionKind] + ks, TopMargin, e1.0, e1.1);
    assert SectionOrder == [HeaderKind, ClinicalNoteKind, ConditionKind] + ks;
    OpeningContents(r, today);
  }

  lemma OpeningContents(r: CaseRecord, today: string)
    ensures Included(r, HeaderKind) && Included(r, ClinicalNoteKind) && Included(r, ConditionKind)
    ensures ContentOf(r, HeaderKind, today) == HeaderContent(Title, "Date: " + today)
    ensures ContentOf(r, ClinicalNoteKind, today) == TextContent("Clinical Note:", r.clinicalNote)
    ensures ContentOf(r, ConditionKind, today)
      == TextContent("Confirmed Condition:", if Truthy(r.confirmedCondition) then r.confirmedCondition.value else NotAvailable)
  {
  }

  /** Distinct export times name distinct files, and the time can be read back from the name. */
  lemma ClaimFilenameParts(now: nat)
    ensures var f := ClaimFilename(now);
      && |f| >= 20
      && f[..15] == "SaluLink_Claim_" && f[|f| - 4..] == ".pdf"
      && ParseInt(f[15..|f| - 4]) == Some(now)
  {
    var f := ClaimFilename(now);
    var digits := NatToString(now);
    assert f == "SaluLink_Claim_" + digits + ".pdf";
    assert f[15..|f| - 4] == digits;
    ParseIntNatToString(now);
  }

  lemma ClaimFilenameInjective(a: nat, b: nat)
    ensures ClaimFilename(a) == ClaimFilename(b) <==> a == b
  {
    var x, y := NatToString(a), NatToString(b);
    if ClaimFilename(a) == ClaimFilename(b) {
      var f := ClaimFilename(a);
      assert |x| == |y|;
      assert x == f[15..15 + |x|] == y;
      ParseIntNatToString(a);
      ParseIntNatToString(b);
    }
  }
}
