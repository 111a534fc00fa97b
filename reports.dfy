/**
 * The downloadable reports panel (components/downloadable-reports.tsx): the report template
 * chosen by the report type, the attendance status line, the assignment lines, the download
 * file name and the per-button "generating" flag.
 */
module Reports {
  import opened Wrappers
  import opened Text

  /** The first position of `c` in `s`, if any. */
  function IndexOf(s: string, c: char): (k: Option<nat>)
    ensures k == None <==> c !in s
    ensures k.Some? ==> k.value < |s| && s[k.value] == c && c !in s[..k.value]
  {
    if s == [] then None
    else if s[0] == c then Some(0)
    else match IndexOf(s[1..], c)
      case None => None
      case Some(j) =>
        assert s[..j + 1] == [s[0]] + s[1..][..j];
        Some(j + 1)
  }

  /** `s.replace(from, to)` with a one-character pattern: only the first occurrence is replaced. */
  function ReplaceFirst(s: string, from: char, to: char): (r: string)
    ensures |r| == |s|
    ensures forall i :: 0 <= i < |s| ==> r[i] == if IndexOf(s, from) == Some(i) then to else s[i]
  {
    match IndexOf(s, from)
      case None => s
      case Some(k) => s[..k] + [to] + s[k + 1..]
  }

  lemma LowerCharSpace(c: char)
    ensures LowerChar(c) == ' ' <==> c == ' '
  {
  }

  /** Lowercasing keeps the position of the first space. */
  lemma {:induction false} IndexOfSpaceToLower(s: string)
    ensures IndexOf(ToLower(s), ' ') == IndexOf(s, ' ')
  {
    if s != [] {
      IndexOfSpaceToLower(s[1..]);
      LowerCharSpace(s[0]);
      assert ToLower(s)[1..] == ToLower(s[1..]);
    }
  }

  const FilenameSuffix := "_report.txt"

  /** The download name: `reportType.toLowerCase().replace(" ", "_") + "_report.txt"`. */
  function ReportFilename(reportType: string): string {
    ReplaceFirst(ToLower(reportType), ' ', '_') + FilenameSuffix
  }

  /**
   * The file name is the report type lowercased with its first space, and only that one,
   * turned into '_', followed by the fixed suffix.
   */
  lemma ReportFilenameShape(reportType: string)
    ensures var r := ReportFilename(reportType);
            |r| == |reportType| + |FilenameSuffix| &&
            r[|reportType|..] == FilenameSuffix &&
            forall i :: 0 <= i < |reportType| ==>
              r[i] == if IndexOf(reportType, ' ') == Some(i) then '_' else LowerChar(reportType[i])
  {
    IndexOfSpaceToLower(reportType);
  }

  /** A first occurrence found by hand is the one `IndexOf` finds. */
  lemma IndexOfUnique(s: string, c: char, k: nat)
    requires k < |s| && s[k] == c && c !in s[..k]
    ensures IndexOf(s, c) == Some(k)
  {
    assert c in s;
  }

  lemma LowerAttendance(t: string)
    requires t == "Attendance Report"
    ensures ToLower(t) == "attendance report"
  {
    var lower := "attendance report";
    forall i | 0 <= i < |t| ensures ToLower(t)[i] == lower[i] { }
  }

  lemma ReplaceFirstAt(s: string, from: char, to: char, k: nat)
    requires IndexOf(s, from) == Some(k)
    ensures ReplaceFirst(s, from, to) == s[..k] + [to] + s[k + 1..]
  {
  }

  lemma SpaceOfAttendance(lower: string)
    requires lower == "attendance report"
    ensures IndexOf(lower, ' ') == Some(10)
  {
    assert lower[..10] == "attendance";
    IndexOfUnique(lower, ' ', 10);
  }

  lemma ReplaceAttendance(lower: string)
    requires lower == "attendance report"
    ensures ReplaceFirst(lower, ' ', '_') == "attendance_report"
  {
    SpaceOfAttendance(lower);
    ReplaceFirstAt(lower, ' ', '_', 10);
    SpliceAttendance(lower);
  }

  lemma SpliceAttendance(lower: string)
    requires lower == "attendance report"
    ensures lower[..10] + ['_'] + lower[11..] == "attendance_report"
  {
  }

  lemma FilenameFrom(reportType: string, lower: string, replaced: string)
    requires ToLower(reportType) == lower && ReplaceFirst(lower, ' ', '_') == replaced
    ensures ReportFilename(reportType) == replaced + FilenameSuffix
  {
  }

  lemma AttendanceFilenameParts(reportType: string)
    requires reportType == "Attendance Report"
    ensures ReportFilename(reportType) == "attendance_report" + FilenameSuffix
  {
    LowerAttendance(reportType);
    ReplaceAttendance(ToLower(reportType));
    FilenameFrom(reportType, ToLower(reportType), "attendance_report");
  }

  lemma AttendanceSuffix(replaced: string)
    requires replaced == "attendance_report"
    ensures replaced + FilenameSuffix == "attendance_report_report.txt"
  {
  }

  /** The attendance button's file: the suffix repeats the word "report". */
  lemma AttendanceFilename(reportType: string)
    requires reportType == "Attendance Report"
    ensures ReportFilename(reportType) == "attendance_report_report.txt"
  {
    AttendanceFilenameParts(reportType);
    AttendanceSuffix("attendance_report");
  }

  datatype Template = AttendanceTemplate | PerformanceTemplate

  /** `generateReportContent`'s branch: only the exact title selects the attendance template. */
  function TemplateFor(reportType: string): (t: Template)
    ensures t == AttendanceTemplate <==> reportType == "Attendance Report"
    ensures t == PerformanceTemplate <==> reportType != "Attendance Report"
  {
    if reportType == "Attendance Report" then AttendanceTemplate else PerformanceTemplate
  }

  /** The minimum attendance percentage for exam eligibility. */
  const MinimumAttendance: real := 75.0

  const Satisfactory := "SATISFACTORY"
  const BelowMinimum := "BELOW MINIMUM REQUIREMENT"

  /** The attendance report's status line. */
  function StatusLine(attendancePercentage: real): (line: string)
    ensures line == "Status: " + Satisfactory <==> attendancePercentage >= MinimumAttendance
    ensures line == "Status: " + BelowMinimum <==> attendancePercentage < MinimumAttendance
  {
    assert |Satisfactory| != |BelowMinimum|;
    "Status: " + (if attendancePercentage >= MinimumAttendance then Satisfactory else BelowMinimum)
  }

  datatype AssignmentStatus = Completed | Pending | Overdue

  function StatusName(s: AssignmentStatus): string {
    match s
    case Completed => "completed"
    case Pending => "pending"
    case Overdue => "overdue"
  }

  /** A score is printed only when it is truthy: present and not zero. */
  predicate ScoreShown(score: Option<int>) {
    score.Some? && score.value != 0
  }

  function ScoreSuffix(score: Option<int>): string {
    if ScoreShown(score) then " (" + IntToString(score.value) + "/100)" else ""
  }

  /** The part of an assignment line before the score. */
  function StatusHead(subject: string, title: string, status: AssignmentStatus): string {
    subject + " - " + title + ": " + ToUpper(StatusName(status))
  }

  lemma ScoreSuffixShape(score: Option<int>)
    requires ScoreShown(score)
    ensures var tail := ScoreSuffix(score);
            |tail| >= 8 && tail[..2] == " (" && tail[|tail| - 5..] == "/100)"
            && tail[2..|tail| - 5] == IntToString(score.value)
  {
  }

  /** One line of the performance report's assignment list. */
  function AssignmentLine(subject: string, title: string, status: AssignmentStatus, score: Option<int>): (line: string)
    ensures var head := StatusHead(subject, title, status);
            |line| >= |head| && line[..|head|] == head
    ensures ScoreShown(score) <==> line[|line| - 1] == ')'
    ensures !ScoreShown(score) ==> line == StatusHead(subject, title, status)
    ensures ScoreShown(score) ==>
              var tail := line[|StatusHead(subject, title, status)|..];
              |tail| >= 8 && tail[..2] == " (" && tail[|tail| - 5..] == "/100)"
              && tail[2..|tail| - 5] == IntToString(score.value)
  {
    var head := StatusHead(subject, title, status);
    assert head[|head| - 1] != ')' by {
      assert head[|head| - 1] == ToUpper(StatusName(status))[|StatusName(status)| - 1];
    }
    var line := head + ScoreSuffix(score);
    assert line[..|head|] == head;
    assert line[|head|..] == ScoreSuffix(score);
    if ScoreShown(score) then ScoreSuffixShape(score); line else line
  }

  /** A score of zero is dropped from the line, exactly like a missing score. */
  lemma ZeroScoreOmitted(subject: string, title: string, status: AssignmentStatus)
    ensures AssignmentLine(subject, title, status, Some(0)) == AssignmentLine(subject, title, status, None)
  {
  }

  /** The panel's state: which report, if any, is being produced. */
  class ReportsPanel {
    var isGenerating: Option<string>

    constructor ()
      ensures isGenerating == None
    {
      isGenerating := None;
    }

    /** A download button is disabled while its own report is being produced. */
    predicate ButtonDisabled(reportType: string)
      reads this
    {
      isGenerating == Some(reportType)
    }

    /** The start of `generatePDF`: mark this report as in progress. */
    method BeginGeneration(reportType: string)
      modifies this
      ensures isGenerating == Some(reportType)
      ensures ButtonDisabled(reportType)
      ensures forall other :: other != reportType ==> !ButtonDisabled(other)
    {
      isGenerating := Some(reportType);
    }

    /** The end of `generatePDF`: the file is produced under its name and the flag is cleared. */
    method CompleteGeneration(reportType: string) returns (filename: string, template: Template)
      modifies this
      ensures filename == ReportFilename(reportType)
      ensures template == TemplateFor(reportType)
      ensures isGenerating == None
      ensures forall t :: !ButtonDisabled(t)
    {
      template := TemplateFor(reportType);
      filename := ReportFilename(reportType);
      isGenerating := None;
    }
  }
}
