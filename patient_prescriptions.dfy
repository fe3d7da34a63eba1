/** The patient's prescription page (frontend/app/patient/prescriptions/page.tsx):
    marking a prescription as read in the page's list, and the text and file
    name of a downloaded prescription.

    The list is the page state that `setPrescriptions` replaces; marking is a
    map over it, so it is modelled as a function from the old list to the
    new. The PUT request's outcome and the clock and locale renderings are
    parameters. */
module PatientPrescriptions {
  import opened Common
  import opened Text

  /** A prescription as the page holds it. */
  datatype Prescription = Prescription(
    id: string,
    patientName: string,
    doctorName: string,
    medications: seq<string>,
    createdAt: string,
    status: string,
    read: bool,
    readAt: Option<string>)

  /** `{ ...p, read: true, read_at: now }`. */
  function MarkRead(p: Prescription, now: string): Prescription {
    p.(read := true, readAt := Some(now))
  }

  /** `markAsRead`: when the request succeeded, every entry with the id is
      read from `now` on; every other entry, and the whole list when the
      request failed, stays as it was. */
  function MarkAsRead(prescriptions: seq<Prescription>, id: string, ok: bool, now: string): (r: seq<Prescription>)
    ensures |r| == |prescriptions|
    ensures !ok ==> r == prescriptions
    ensures ok ==> forall i :: 0 <= i < |r| ==>
              if prescriptions[i].id == id
              then r[i].read && r[i].readAt == Some(now)
                   && r[i] == prescriptions[i].(read := r[i].read, readAt := r[i].readAt)
              else r[i] == prescriptions[i]
  {
    if ok then Map(prescriptions, (p: Prescription) => if p.id == id then MarkRead(p, now) else p)
    else prescriptions
  }

  /** Marking is idempotent, and marking leaves nothing unread that was read. */
  lemma MarkAsReadTwice(prescriptions: seq<Prescription>, id: string, ok: bool, now: string)
    ensures MarkAsRead(MarkAsRead(prescriptions, id, ok, now), id, ok, now) == MarkAsRead(prescriptions, id, ok, now)
    ensures forall i :: 0 <= i < |prescriptions| && prescriptions[i].read ==> MarkAsRead(prescriptions, id, ok, now)[i].read
  {
    var once := MarkAsRead(prescriptions, id, ok, now);
    var twice := MarkAsRead(once, id, ok, now);
    assert |twice| == |once|;
    forall i | 0 <= i < |once| ensures twice[i] == once[i] {
    }
  }

  /** The heavy horizontal rule of the download text. */
  const Rule := Repeat('\U{2501}', 36)

  /** `${idx + 1}. ${med}` for every medication, in order. */
  function MedicationLines(medications: seq<string>): (r: seq<string>)
    ensures |r| == |medications|
  {
    seq(|medications|, i requires 0 <= i < |medications| => NatToString(i + 1) + ". " + medications[i])
  }

  /** The lines of the template before the medication list. */
  function Header(p: Prescription, date: string): seq<string> {
    ["PRESCRIPTION", Rule, "",
     "Patient: " + p.patientName,
     "Doctor: " + p.doctorName,
     "Date: " + date,
     "Status: " + ToUpper(p.status),
     "",
     "PRESCRIBED MEDICATIONS:", Rule, ""]
  }

  /** The lines of the template after the medication list. */
  function Footer(p: Prescription, generated: string): seq<string> {
    ["", Rule, "",
     "IMPORTANT:",
     "Please follow your doctor's instructions carefully.",
     "If you have any questions or concerns about these",
     "medications, contact your healthcare provider.",
     "",
     "Prescription ID: " + p.id,
     "Generated: " + generated]
  }

  /** `medications.map((med, idx) => `${idx + 1}. ${med}`).join('\n')`. */
  function MedicationList(medications: seq<string>): string {
    Join(MedicationLines(medications), "\n")
  }

  /** The text `downloadPrescription` saves: the template, which opens with a
      line break and closes with a line break and four spaces, trimmed.
      `date` is the rendered creation date, `generated` the rendered clock. */
  function DownloadText(p: Prescription, date: string, generated: string): string {
    JsTrim("\n" + Join(Header(p, date), "\n") + "\n"
           + MedicationList(p.medications) + "\n"
           + Join(Footer(p, generated), "\n") + "\n    ")
  }

  predicate NoLineBreak(s: string) {
    '\n' !in s
  }

  /** When the clock text ends in a visible character, trimming removes just
      the template's opening line break and closing indentation: the saved
      text is the header, the medication list and the footer, one line
      break apart. */
  lemma DownloadTextLayout(p: Prescription, date: string, generated: string)
    requires generated != [] && !IsJsSpace(generated[|generated| - 1])
    ensures DownloadText(p, date, generated)
            == Join(Header(p, date), "\n") + "\n" + MedicationList(p.medications) + "\n"
               + Join(Footer(p, generated), "\n")
  {
    var h, f := Header(p, date), Footer(p, generated);
    JoinFirst(h, "\n");
    JoinLast(f, "\n");
    TrimmedTemplate(Join(h, "\n"), MedicationList(p.medications), Join(f, "\n"));
  }

  /** The medication list reads back, line by line, as the medications
      numbered from 1 in list order. */
  lemma MedicationListLines(medications: seq<string>)
    requires medications != []
    requires forall i :: 0 <= i < |medications| ==> NoLineBreak(medications[i])
    ensures Split(MedicationList(medications), '\n') == MedicationLines(medications)
    ensures forall i :: 0 <= i < |medications| ==>
              Split(MedicationList(medications), '\n')[i] == NatToString(i + 1) + ". " + medications[i]
  {
    var lines := MedicationLines(medications);
    forall i | 0 <= i < |lines| ensures '\n' !in lines[i] {
      DigitsNoBreak(NatToString(i + 1));
    }
    SplitJoin(lines, '\n');
  }

  /** Trimming the template drops exactly its opening line break and its
      closing line break and indentation. */
  lemma TrimmedTemplate(head: string, list: string, foot: string)
    requires head != [] && !IsJsSpace(head[0])
    requires foot != [] && !IsJsSpace(foot[|foot| - 1])
    ensures JsTrim("\n" + head + "\n" + list + "\n" + foot + "\n    ")
            == head + "\n" + list + "\n" + foot
  {
    var body := head + "\n" + list + "\n" + foot;
    assert body[0] == head[0];
    assert body[|body| - 1] == foot[|foot| - 1];
    var tail := body + "\n    ";
    assert "\n" + head + "\n" + list + "\n" + foot + "\n    " == "\n" + tail;
    TrimStartSpaces("\n", tail, IsJsSpace);
    TrimEndSpaces(body, "\n    ", IsJsSpace);
  }

  lemma JoinFirst(parts: seq<string>, sep: string)
    requires parts != [] && parts[0] != []
    ensures Join(parts, sep) != [] && Join(parts, sep)[0] == parts[0][0]
  {
  }

  lemma {:induction false} JoinLast(parts: seq<string>, sep: string)
    requires parts != [] && parts[|parts| - 1] != []
    ensures var j := Join(parts, sep);
            j != [] && j[|j| - 1] == parts[|parts| - 1][|parts[|parts| - 1]| - 1]
    decreases |parts|
  {
    if |parts| > 1 {
      JoinLast(parts[1..], sep);
    }
  }

  lemma DigitsNoBreak(s: string)
    requires AllDigits(s)
    ensures NoLineBreak(s)
  {
    forall i | 0 <= i < |s| ensures s[i] != '\n' {
      assert IsDigit(s[i]);
    }
  }

  /** The file name `Prescription_<patient>_<date>.txt`, with every '/' of the
      rendered date turned into '-'. */
  function DownloadFilename(patientName: string, localeDate: string): string {
    "Prescription_" + patientName + "_" + ReplaceChar(localeDate, '/', '-') + ".txt"
  }

  /** The date part of the file name holds no '/' and differs from the
      rendered date only where that had one. */
  lemma FilenameDateHasNoSlash(patientName: string, localeDate: string)
    ensures var d := ReplaceChar(localeDate, '/', '-');
            && DownloadFilename(patientName, localeDate) == "Prescription_" + patientName + "_" + d + ".txt"
            && '/' !in d && |d| == |localeDate|
            && forall i :: 0 <= i < |d| && localeDate[i] != '/' ==> d[i] == localeDate[i]
  {
    var d := ReplaceChar(localeDate, '/', '-');
    forall i | 0 <= i < |d| ensures d[i] != '/' {
    }
  }
}
