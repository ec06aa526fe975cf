/**
 * The pure parts of report generation: the conditions line of the report (app.py lines
 * 223-227), the report file name (lines 284, 755-757) and the history row written for a
 * report (lines 762-763). Drawing the PDF, the clock and the database are not modelled.
 */
module Report {
  import opened Wrappers
  import opened Text
  import opened Details

  /** The "Reported Conditions" text for the patient's `medical_conditions` field. */
  function ConditionsDisplay(conditions: Option<string>): (r: string)
    ensures r == [] || (!IsSpace(r[0]) && !IsSpace(r[|r| - 1]))
    ensures conditions.None? || conditions == Some("") ==> r == "None"
    ensures conditions.Some? && Lower(Strip(conditions.value)) == "none" ==> r == "None"
  {
    if conditions.Some? && conditions.value != "" && Lower(Strip(conditions.value)) == "normal" then
      "Normal (No pre-existing)"
    else if conditions.Some? && conditions.value != "" && Lower(Strip(conditions.value)) != "none" then
      Strip(conditions.value)
    else
      "None"
  }

  /** `normal`, in any letter case and with surrounding blanks, is reported as no pre-existing conditions. */
  lemma NormalConditionsDisplay(conditions: string)
    requires Lower(Strip(conditions)) == "normal"
    ensures ConditionsDisplay(Some(conditions)) == "Normal (No pre-existing)"
  {
  }

  /** Any other recorded text is reported as written, without its surrounding blanks. */
  lemma OtherConditionsDisplay(conditions: string)
    requires conditions != ""
    requires Lower(Strip(conditions)) != "normal" && Lower(Strip(conditions)) != "none"
    ensures ConditionsDisplay(Some(conditions)) == Strip(conditions)
  {
  }

  /** A character the report file name may keep as it is. */
  predicate FileNameChar(c: char): (b: bool)
    ensures b ==> c != '/' && c != '.'
  {
    IsAlnum(c) || c == '_' || c == '-'
  }

  /** `os.path.basename` on a POSIX path: what follows the last `/`. */
  function Basename(path: string): (r: string)
    ensures '/' !in r
    ensures |r| <= |path| && r == path[|path| - |r|..]
  {
    if path == [] then []
    else if path[|path| - 1] == '/' then []
    else Basename(path[..|path| - 1]) + [path[|path| - 1]]
  }

  /** A final stretch without `/` stays part of the base name. */
  lemma {:induction false} BasenameKeepsSuffix(path: string, k: nat)
    requires k <= |path| && '/' !in path[|path| - k..]
    ensures |Basename(path)| >= k
  {
    if k > 0 {
      var init := path[..|path| - 1];
      assert path[|path| - 1] in path[|path| - k..];
      assert init[|init| - (k - 1)..] == path[|path| - k..|path| - 1];
      BasenameKeepsSuffix(init, k - 1);
    }
  }

  /** Every character outside letters, digits, `_` and `-` becomes `_`. */
  function Sanitize(s: string): (r: string)
    ensures |r| == |s|
    ensures forall i :: 0 <= i < |s| ==> r[i] == (if FileNameChar(s[i]) then s[i] else '_')
  {
    if s == [] then [] else [if FileNameChar(s[0]) then s[0] else '_'] + Sanitize(s[1..])
  }

  /** `safe_base_filename` as line 284 computes it. */
  function SafeBaseFilename(filenameBase: string): (r: string)
    ensures forall i :: 0 <= i < |r| ==> FileNameChar(r[i])
  {
    Sanitize(Basename(filenameBase))
  }

  /** A sanitised name is kept as is: sanitising is idempotent. */
  lemma SanitizeIdempotent(s: string)
    ensures Sanitize(Sanitize(s)) == Sanitize(s)
  {
  }

  /** The disease part of the report name (line 756): everything but letters and digits becomes `_`. */
  function SafeDiseaseName(disease: string): (r: string)
    ensures |r| == |disease|
    ensures forall i :: 0 <= i < |r| ==> IsAlnum(r[i]) || r[i] == '_'
    ensures forall i :: 0 <= i < |r| ==> IsAlnum(disease[i]) ==> r[i] == disease[i]
    ensures forall i :: 0 <= i < |r| ==> r[i] == (if IsAlnum(disease[i]) then disease[i] else '_')
  {
    if disease == [] then []
    else [if IsAlnum(disease[0]) then disease[0] else '_'] + SafeDiseaseName(disease[1..])
  }

  predicate EndsWithPdf(s: string) {
    |s| >= 4 && s[|s| - 4..] == ".pdf"
  }

  /** The name built on line 757; the user id and the time stamp come in already rendered as text. */
  function ReportBaseName(userId: string, disease: string, timestamp: string): (r: string)
    ensures EndsWithPdf(r)
  {
    "Report_" + userId + "_" + SafeDiseaseName(disease) + "_" + timestamp + ".pdf"
  }

  /**
   * As written, line 284 also rewrites the `.` of the `.pdf` suffix that line 757 appended:
   * the report is stored under a name without its extension.
   */
  lemma SafeBaseFilenameDropsExtension(filenameBase: string)
    ensures '.' !in SafeBaseFilename(filenameBase)
    ensures !EndsWithPdf(SafeBaseFilename(filenameBase))
  {
    EndsWithPdfHasDot(SafeBaseFilename(filenameBase));
  }

  lemma EndsWithPdfHasDot(s: string)
    ensures EndsWithPdf(s) ==> s[|s| - 4] == '.'
  {
  }

  /** The concrete case: a stored name `<stem>.pdf` comes back from the sanitiser as `<stem>_pdf`. */
  lemma PdfNameLosesItsDot(stem: string)
    requires forall i :: 0 <= i < |stem| ==> FileNameChar(stem[i])
    ensures SafeBaseFilename(stem + ".pdf") == stem + "_pdf"
  {
    var name := stem + ".pdf";
    forall c | c in name ensures c != '/' {
      var k :| 0 <= k < |name| && name[k] == c;
      if k < |stem| { assert FileNameChar(name[k]); }
    }
    BasenameOfPlainName(name);
    var r := Sanitize(name);
    forall i | 0 <= i < |name| ensures r[i] == (stem + "_pdf")[i] {
      if i < |stem| {
        assert name[i] == stem[i];
      }
    }
  }

  /** A name without `/` is its own base name. */
  lemma BasenameOfPlainName(name: string)
    requires '/' !in name
    ensures Basename(name) == name
  {
    assert name[0..] == name;
    BasenameKeepsSuffix(name, |name|);
  }

  /** The evidently intended name: the base name sanitised, a `.pdf` suffix kept. */
  function SafeReportFilename(filenameBase: string): (r: string)
    ensures '/' !in r
    ensures EndsWithPdf(Basename(filenameBase)) ==> EndsWithPdf(r)
  {
    var b := Basename(filenameBase);
    if EndsWithPdf(b) then Sanitize(b[..|b| - 4]) + ".pdf" else Sanitize(b)
  }

  /**
   * Every report name of line 757 survives the corrected sanitiser with its extension and its
   * sanitised stem, and without a directory part.
   */
  lemma StoredReportName(userId: string, disease: string, timestamp: string)
    ensures var base := ReportBaseName(userId, disease, timestamp);
      && EndsWithPdf(SafeReportFilename(base))
      && '/' !in SafeReportFilename(base)
      && forall i :: 0 <= i < |SafeReportFilename(base)| - 4 ==> FileNameChar(SafeReportFilename(base)[i])
  {
    PdfNameKeepsExtension(ReportBaseName(userId, disease, timestamp));
  }

  /** Any name ending in `.pdf` keeps the extension and gets a stem of file-name characters. */
  lemma PdfNameKeepsExtension(base: string)
    requires EndsWithPdf(base)
    ensures EndsWithPdf(SafeReportFilename(base))
    ensures forall i :: 0 <= i < |SafeReportFilename(base)| - 4 ==> FileNameChar(SafeReportFilename(base)[i])
  {
    BasenameKeepsSuffix(base, 4);
    var b := Basename(base);
    assert b[|b| - 4..] == base[|base| - 4..];
    var stem := Sanitize(b[..|b| - 4]);
    assert SafeReportFilename(base) == stem + ".pdf";
    assert forall i :: 0 <= i < |stem| ==> (stem + ".pdf")[i] == stem[i];
  }

  /** A history row: user, symptoms as comma-separated text, diagnosis, confidence, report file. */
  datatype DiagnosisRecord = DiagnosisRecord(
    userId: int, symptoms: string, diagnosis: string, confidence: real, reportFile: string)

  /** The row `add_diagnosis_db` receives for the details kept in the session. */
  function HistoryRecord(userId: int, details: Details, reportFile: string): (r: DiagnosisRecord)
    ensures r.confidence == details.rawConfidence && r.diagnosis == details.rawDisease
    ensures r.symptoms == Join(",", details.rawSymptoms)
  {
    DiagnosisRecord(userId, Join(",", details.rawSymptoms), details.rawDisease, details.rawConfidence, reportFile)
  }
}
