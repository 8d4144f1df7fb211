/**
 * How a prescription is written out in src/lib/generatePrescriptionPDF.ts:
 * the compact text `formatPrescriptionAsText` puts in the QR code, and the
 * data-dependent content of the page `createPrescriptionHTML` builds (the
 * medicine table, the defaults of the doctor fields and the optional
 * sections). Locale formatting of dates is passed in as text.
 */
module Prescription {
  import opened Wrappers
  import opened Text

  datatype Medicine = Medicine(id: string, name: string, dosage: string, frequency: string, duration: string,
                               notes: Option<string>)

  datatype PrescriptionData = PrescriptionData(
    id: string,
    doctorName: string,
    doctorLicense: Option<string>,
    doctorSpecialization: Option<string>,
    patientName: string,
    patientEmail: string,
    patientTemperature: Option<string>,
    appointmentDate: string,
    medicines: seq<Medicine>,
    generalNotes: Option<string>,
    createdAt: string)

  /** The truth of an optional string in JavaScript: present and not empty. */
  predicate Present(o: Option<string>) {
    o.Some? && o.value != ""
  }

  /** `o || fallback` */
  function OrElse(o: Option<string>, fallback: string): string {
    if Present(o) then o.value else fallback
  }

  // ---------------------------------------------------------------------------
  // formatPrescriptionAsText
  // ---------------------------------------------------------------------------

  /** ` (notes)` when there are notes, nothing otherwise. */
  function NotesPart(notes: Option<string>): string {
    if Present(notes) then " (" + notes.value + ")" else ""
  }

  /** The line of the medicine at index `idx`: `n. name dosage, frequency, duration` and its notes. */
  function MedicineLine(idx: nat, m: Medicine): string {
    NatToString(idx + 1) + "." + (" " + m.name + " " + m.dosage + ", " + m.frequency + ", " + m.duration + NotesPart(m.notes))
  }

  /** The lines `medicines.map((med, idx) => …)` yields. */
  function MedicineLines(meds: seq<Medicine>): seq<string> {
    seq(|meds|, i requires 0 <= i < |meds| => MedicineLine(i, meds[i]))
  }

  /** The medicine lines joined by newlines. */
  function MedicinesText(meds: seq<Medicine>): string {
    Join(MedicineLines(meds), "\n")
  }

  /**
   * `formatPrescriptionAsText`; `localeDate` is what `toLocaleDateString`
   * makes of the creation date.
   */
  function FormatPrescriptionAsText(p: PrescriptionData, localeDate: string): string {
    "PRESCRIPTION" + "\n" + (
    "Patient: " + p.patientName + "\n" + (
    "Doctor: " + p.doctorName + "\n" + (
    "Date: " + localeDate + "\n" + (
    "Medicines:" + "\n" + (
    MedicinesText(p.medicines) + "\n" + Trailer(p))))))
  }

  /** What follows the medicines: nothing more, or an empty line and the `Instructions:` line. */
  function Trailer(p: PrescriptionData): string {
    if Present(p.generalNotes) then "\n" + ("Instructions: " + p.generalNotes.value) else ""
  }

  /** The digits of a number hold no full stop and no newline. */
  lemma NumberTextFree(n: nat)
    ensures '.' !in NatToString(n) && '\n' !in NatToString(n)
  {
  }

  /** The number in front of the first `.` of each line reads back as the line's place, counted from 1. */
  lemma MedicineLineNumbered(idx: nat, m: Medicine)
    ensures var n := BeforeFirst(MedicineLine(idx, m), '.'); AllDigits(n) && DigitsValue(n) == idx + 1
  {
    LineNumberText(idx, m);
    NatToStringRoundTrip(idx + 1);
  }

  /** What comes before the first `.` of a line is the text of its number. */
  lemma LineNumberText(idx: nat, m: Medicine)
    ensures BeforeFirst(MedicineLine(idx, m), '.') == NatToString(idx + 1)
  {
    NumberTextFree(idx + 1);
    BeforeFirstOf(NatToString(idx + 1), '.',
                  " " + m.name + " " + m.dosage + ", " + m.frequency + ", " + m.duration + NotesPart(m.notes));
  }

  /**
   * The notes are appended to a line, in parentheses, exactly when they are
   * present and not empty; empty notes write the same line as no notes.
   */
  lemma NotesOnlyWhenPresent(idx: nat, m: Medicine)
    ensures Present(m.notes) ==> MedicineLine(idx, m) == MedicineLine(idx, m.(notes := None)) + " (" + m.notes.value + ")"
    ensures !Present(m.notes) ==> MedicineLine(idx, m) == MedicineLine(idx, m.(notes := None))
  {
  }

  /** No field of a medicine holds a newline. */
  predicate SingleLineMedicine(m: Medicine) {
    && '\n' !in m.name && '\n' !in m.dosage && '\n' !in m.frequency && '\n' !in m.duration
    && (m.notes.Some? ==> '\n' !in m.notes.value)
  }

  /** A medicine whose fields hold no newline is written on one line. */
  lemma MedicineLineSingle(idx: nat, m: Medicine)
    requires SingleLineMedicine(m)
    ensures '\n' !in MedicineLine(idx, m)
  {
    NumberTextFree(idx + 1);
  }

  /**
   * The lines the medicines take up in the text: one per medicine, or a single
   * empty line when there are none (joining no lines gives the empty string).
   */
  function MedicineBlock(meds: seq<Medicine>): seq<string> {
    if |meds| == 0 then [""] else MedicineLines(meds)
  }

  /**
   * The medicines text splits at its newlines into one line per medicine, in
   * list order; with no medicines it is a single empty line.
   */
  lemma MedicinesTextLines(meds: seq<Medicine>)
    requires forall i :: 0 <= i < |meds| ==> SingleLineMedicine(meds[i])
    ensures |meds| >= 1 ==> SplitOn(MedicinesText(meds), '\n') == MedicineLines(meds)
    ensures |meds| == 0 ==> SplitOn(MedicinesText(meds), '\n') == [""]
  {
    if |meds| >= 1 {
      MedicineLinesSingle(meds);
      SplitJoin(MedicineLines(meds), '\n');
    }
  }

  /** The header lines of the text, in order. */
  function HeaderLines(p: PrescriptionData, localeDate: string): seq<string> {
    ["PRESCRIPTION", "Patient: " + p.patientName, "Doctor: " + p.doctorName, "Date: " + localeDate, "Medicines:"]
  }

  /** No field the text shows holds a newline. */
  predicate SingleLineFields(p: PrescriptionData, localeDate: string) {
    && '\n' !in p.patientName && '\n' !in p.doctorName && '\n' !in localeDate
    && (p.generalNotes.Some? ==> '\n' !in p.generalNotes.value)
    && forall i :: 0 <= i < |p.medicines| ==> SingleLineMedicine(p.medicines[i])
  }

  /** The lines after the medicines: an empty one, then the `Instructions:` line when there are general notes. */
  function TrailerLines(p: PrescriptionData): seq<string> {
    if Present(p.generalNotes) then ["", "Instructions: " + p.generalNotes.value] else [""]
  }

  /**
   * The text is its header lines, its medicine lines (a single empty line when
   * there are no medicines) and its trailer lines joined by newlines.
   */
  lemma TextIsJoin(p: PrescriptionData, localeDate: string)
    ensures FormatPrescriptionAsText(p, localeDate)
         == Join(HeaderLines(p, localeDate) + MedicineBlock(p.medicines) + TrailerLines(p), "\n")
  {
    var m, t := MedicineBlock(p.medicines), TrailerLines(p);
    assert Join(m, "\n") == MedicinesText(p.medicines);
    var l0, l1, l2, l3, l4 := "PRESCRIPTION", "Patient: " + p.patientName, "Doctor: " + p.doctorName,
                              "Date: " + localeDate, "Medicines:";
    assert Join(t, "\n") == Trailer(p) by {
      if Present(p.generalNotes) {
        JoinCons("", ["Instructions: " + p.generalNotes.value], "\n");
        assert t == [""] + ["Instructions: " + p.generalNotes.value];
      }
    }
    JoinAppend(m, t, "\n");
    JoinCons(l4, m + t, "\n");
    JoinCons(l3, [l4] + (m + t), "\n");
    JoinCons(l2, [l3] + ([l4] + (m + t)), "\n");
    JoinCons(l1, [l2] + ([l3] + ([l4] + (m + t))), "\n");
    JoinCons(l0, [l1] + ([l2] + ([l3] + ([l4] + (m + t)))), "\n");
    PrependFive(l0, l1, l2, l3, l4, m, t);
  }

  /** Five elements in front of two lists, one element at a time. */
  lemma PrependFive<T>(a: T, b: T, c: T, d: T, e: T, x: seq<T>, y: seq<T>)
    ensures [a, b, c, d, e] + x + y == [a] + ([b] + ([c] + ([d] + ([e] + (x + y)))))
  {
    assert [a, b, c, d, e] + x + y == [a, b, c, d, e] + (x + y);
  }

  /**
   * Read line by line, the text is the five header lines, one line per
   * medicine in list order (an empty line when there are none), an empty line,
   * and an `Instructions:` line exactly when there are general notes.
   */
  lemma TextLines(p: PrescriptionData, localeDate: string)
    requires SingleLineFields(p, localeDate)
    ensures SplitOn(FormatPrescriptionAsText(p, localeDate), '\n')
         == HeaderLines(p, localeDate) + (if |p.medicines| == 0 then [""] else MedicineLines(p.medicines))
            + (if Present(p.generalNotes) then ["", "Instructions: " + p.generalNotes.value] else [""])
  {
    var h, m, t := HeaderLines(p, localeDate), MedicineBlock(p.medicines), TrailerLines(p);
    TextIsJoin(p, localeDate);
    MedicineLinesSingle(p.medicines);
    HeaderLinesSingle(p, localeDate);
    TrailerLinesSingle(p);
    FreeOfConcat(h, m, t, '\n');
    SplitJoin(h + m + t, '\n');
  }

  /** The header lines hold no newline when the fields they show hold none. */
  lemma HeaderLinesSingle(p: PrescriptionData, localeDate: string)
    requires '\n' !in p.patientName && '\n' !in p.doctorName && '\n' !in localeDate
    ensures forall k :: 0 <= k < |HeaderLines(p, localeDate)| ==> '\n' !in HeaderLines(p, localeDate)[k]
  {
    var h := HeaderLines(p, localeDate);
    assert '\n' !in h[0] by {
      assert h[0] == "PRESCRIPTION";
    }
    assert '\n' !in h[1] && '\n' !in h[2] && '\n' !in h[3];
    assert '\n' !in h[4] by {
      assert h[4] == "Medicines:";
    }
  }

  /** The trailer lines hold no newline when the general notes hold none. */
  lemma TrailerLinesSingle(p: PrescriptionData)
    requires p.generalNotes.Some? ==> '\n' !in p.generalNotes.value
    ensures forall k :: 0 <= k < |TrailerLines(p)| ==> '\n' !in TrailerLines(p)[k]
  {
    if Present(p.generalNotes) {
      assert '\n' !in "Instructions: ";
    }
  }

  /** Three lists of pieces free of a character, one after the other, are free of it. */
  lemma FreeOfConcat(a: seq<string>, b: seq<string>, c: seq<string>, ch: char)
    requires forall k :: 0 <= k < |a| ==> ch !in a[k]
    requires forall k :: 0 <= k < |b| ==> ch !in b[k]
    requires forall k :: 0 <= k < |c| ==> ch !in c[k]
    ensures forall k :: 0 <= k < |a + b + c| ==> ch !in (a + b + c)[k]
  {
  }

  /** Medicines whose fields hold no newline are written on lines without one. */
  lemma MedicineLinesSingle(meds: seq<Medicine>)
    requires forall i :: 0 <= i < |meds| ==> SingleLineMedicine(meds[i])
    ensures forall k :: 0 <= k < |MedicineLines(meds)| ==> '\n' !in MedicineLines(meds)[k]
  {
    forall k | 0 <= k < |meds|
      ensures '\n' !in MedicineLines(meds)[k]
    {
      MedicineLineSingle(k, meds[k]);
    }
  }

  // ---------------------------------------------------------------------------
  // createPrescriptionHTML: the data-dependent content
  // ---------------------------------------------------------------------------

  /** One row of the medicine table: its background colour and the text of its six cells. */
  datatype Row = Row(background: string, number: string, name: string, dosage: string, frequency: string,
                     duration: string, notes: string)

  /** The row for the medicine at index `idx`: white on even indices, grey on odd ones, `-` for no notes. */
  function MedicineRow(idx: nat, m: Medicine): Row {
    Row(if idx % 2 == 0 then "#ffffff" else "#f9fafb", NatToString(idx + 1), m.name, m.dosage, m.frequency,
        m.duration, OrElse(m.notes, "-"))
  }

  /** The rows `medicines.map((med, idx) => …)` yields. */
  function MedicineRows(meds: seq<Medicine>): seq<Row> {
    seq(|meds|, i requires 0 <= i < |meds| => MedicineRow(i, meds[i]))
  }

  /** What the page shows that depends on the prescription; the fixed markup around it is left out. */
  datatype Page = Page(
    doctorName: string,
    license: string,
    specialization: string,
    patientName: string,
    patientEmail: string,
    temperature: Option<string>,
    dateAndTime: string,
    rows: seq<Row>,
    instructions: Option<string>,
    qrCode: Option<string>,
    prescriptionId: string,
    generated: string)

  /**
   * The text the page puts after the temperature. The source file holds the
   * UTF-8 bytes of "°F" read back as Mac Roman and saved again as UTF-8, so
   * the page shows "¬∞F" (U+00AC, U+221E, "F"), and that is what is modelled.
   */
  const TemperatureUnit := "\U{00AC}\U{221E}F"

  /**
   * `createPrescriptionHTML`; `formattedDate`, `formattedTime` and
   * `generatedAt` are what the locale formatting makes of the creation date
   * and of the current time.
   */
  function CreatePrescriptionPage(p: PrescriptionData, qrCodeUrl: Option<string>, formattedDate: string,
                                  formattedTime: string, generatedAt: string): Page {
    Page(
      if p.doctorName != "" then "Dr. " + p.doctorName else "N/A",
      OrElse(p.doctorLicense, "N/A"),
      OrElse(p.doctorSpecialization, "General Practice"),
      p.patientName,
      p.patientEmail,
      if Present(p.patientTemperature) then Some(p.patientTemperature.value + TemperatureUnit) else None,
      formattedDate + " | " + formattedTime,
      MedicineRows(p.medicines),
      if Present(p.generalNotes) then Some(p.generalNotes.value) else None,
      if Present(qrCodeUrl) then Some(qrCodeUrl.value) else None,
      p.id,
      generatedAt)
  }

  /**
   * The table has one row per medicine, in list order: each row shows its
   * medicine's fields, a number reading back as its place counted from 1,
   * and `-` in the notes cell exactly when the medicine has no notes.
   */
  lemma TableRows(p: PrescriptionData, qrCodeUrl: Option<string>, formattedDate: string, formattedTime: string,
                  generatedAt: string)
    ensures var rows := CreatePrescriptionPage(p, qrCodeUrl, formattedDate, formattedTime, generatedAt).rows;
      && |rows| == |p.medicines|
      && forall i :: 0 <= i < |rows| ==>
           && DigitsValue(rows[i].number) == i + 1
           && rows[i].name == p.medicines[i].name && rows[i].dosage == p.medicines[i].dosage
           && rows[i].frequency == p.medicines[i].frequency && rows[i].duration == p.medicines[i].duration
           && (Present(p.medicines[i].notes) ==> rows[i].notes == p.medicines[i].notes.value)
           && (!Present(p.medicines[i].notes) ==> rows[i].notes == "-")
  {
    var rows := CreatePrescriptionPage(p, qrCodeUrl, formattedDate, formattedTime, generatedAt).rows;
    forall i | 0 <= i < |rows|
      ensures DigitsValue(rows[i].number) == i + 1
    {
      NatToStringRoundTrip(i + 1);
    }
  }

  /** The rows are striped: the first is white, and each row's background differs from the next one's. */
  lemma {:induction false} RowsStriped(meds: seq<Medicine>)
    ensures |meds| >= 1 ==> MedicineRows(meds)[0].background == "#ffffff"
    ensures forall i :: 0 <= i < |meds| - 1 ==>
      {MedicineRows(meds)[i].background, MedicineRows(meds)[i + 1].background} == {"#ffffff", "#f9fafb"}
  {
    var rows := MedicineRows(meds);
    forall i | 0 <= i < |meds| - 1
      ensures {rows[i].background, rows[i + 1].background} == {"#ffffff", "#f9fafb"}
    {
      if i % 2 == 0 {
        assert (i + 1) % 2 == 1;
      } else {
        assert (i + 1) % 2 == 0;
      }
    }
  }

  /**
   * The doctor fields fall back to defaults: the name is shown as `Dr. `
   * and the name, or `N/A` when empty; the license defaults to `N/A` and
   * the specialization to `General Practice`.
   */
  lemma DoctorDefaults(p: PrescriptionData, qrCodeUrl: Option<string>, formattedDate: string, formattedTime: string,
                       generatedAt: string)
    ensures var page := CreatePrescriptionPage(p, qrCodeUrl, formattedDate, formattedTime, generatedAt);
      && (p.doctorName == "" <==> page.doctorName == "N/A")
      && (p.doctorName != "" ==> StartsWith(page.doctorName, "Dr. ") && page.doctorName[4..] == p.doctorName)
      && (Present(p.doctorLicense) ==> page.license == p.doctorLicense.value)
      && (!Present(p.doctorLicense) ==> page.license == "N/A")
      && (Present(p.doctorSpecialization) ==> page.specialization == p.doctorSpecialization.value)
      && (!Present(p.doctorSpecialization) ==> page.specialization == "General Practice")
  {
    var page := CreatePrescriptionPage(p, qrCodeUrl, formattedDate, formattedTime, generatedAt);
    if p.doctorName != "" {
      assert page.doctorName[..4] == "Dr. ";
      assert page.doctorName != "N/A" by {
        assert |page.doctorName| > 3;
      }
    }
  }

  /**
   * The temperature line, the general instructions and the QR code each
   * appear exactly when their input is present and not empty, and then show
   * that input (the temperature followed by its unit).
   */
  lemma OptionalSections(p: PrescriptionData, qrCodeUrl: Option<string>, formattedDate: string, formattedTime: string,
                         generatedAt: string)
    ensures var page := CreatePrescriptionPage(p, qrCodeUrl, formattedDate, formattedTime, generatedAt);
      && (page.temperature.Some? <==> Present(p.patientTemperature))
      && (page.temperature.Some? ==> page.temperature.value == p.patientTemperature.value + TemperatureUnit)
      && (page.instructions.Some? <==> Present(p.generalNotes))
      && (page.instructions.Some? ==> page.instructions.value == p.generalNotes.value)
      && (page.qrCode.Some? <==> Present(qrCodeUrl))
      && (page.qrCode.Some? ==> page.qrCode.value == qrCodeUrl.value)
  {
  }

  /** The text and the table number each medicine alike. */
  lemma TextAndTableAgree(meds: seq<Medicine>, i: nat)
    requires i < |meds|
    ensures BeforeFirst(MedicineLines(meds)[i], '.') == MedicineRows(meds)[i].number
  {
    LineNumberText(i, meds[i]);
  }
}
