/**
 * The text report (lines 333-373): a fixed preamble with the run's system information,
 * then four sections (modified, unchanged, blank, skipped), each headed by its title and
 * the number of its entries, one line per entry; the previous report, when there is one,
 * follows the new one after a dashed divider.
 */
module Report {
  import opened Common
  import opened Tree
  import opened ExportCheck

  /** The `groupInfo` record pushed into the outcome lists (lines 231-235, 302, 309). */
  datatype GroupInfo = GroupInfo(name: string, artboard: string, color: Option<string>, reason: Option<Reason>)

  /** `systemInfo` (lines 10-16); every field is read from the environment. */
  datatype SystemInfo = SystemInfo(date: string, user: string, photoshop: string, os: string, osVersion: string)

  /** The line that separates the new report from the previous one (line 371). */
  const Divider: string := "\n\n----------------------------------------\n\n"

  // ---------------------------------------------------------------------------
  // Numbers as JavaScript prints them
  // ---------------------------------------------------------------------------

  predicate IsDigit(c: char)
  {
    '0' <= c <= '9'
  }

  function DigitChar(d: nat): (c: char)
    requires d < 10
    ensures IsDigit(c) && (c as int) - ('0' as int) == d
  {
    "0123456789"[d]
  }

  /** The decimal numeral of a count, as `"" + n` gives it. */
  function Decimal(n: nat): string
  {
    if n < 10 then [DigitChar(n)] else Decimal(n / 10) + [DigitChar(n % 10)]
  }

  /** The value of a numeral made of digits. */
  function DecimalValue(s: string): nat
  {
    if s == [] then 0
    else
      var d := (s[|s| - 1] as int) - ('0' as int);
      DecimalValue(s[..|s| - 1]) * 10 + (if 0 <= d < 10 then d else 0)
  }

  /** A count prints as digits without a leading zero, and reads back as the same count. */
  lemma {:induction false} DecimalRoundTrip(n: nat)
    ensures |Decimal(n)| > 0
    ensures forall i :: 0 <= i < |Decimal(n)| ==> IsDigit(Decimal(n)[i])
    ensures |Decimal(n)| > 1 ==> Decimal(n)[0] != '0'
    ensures DecimalValue(Decimal(n)) == n
  {
    if n >= 10 {
      DecimalRoundTrip(n / 10);
      var s := Decimal(n);
      assert s[..|s| - 1] == Decimal(n / 10);
      assert s[0] == Decimal(n / 10)[0];
    }
  }

  // ---------------------------------------------------------------------------
  // Lines and sections
  // ---------------------------------------------------------------------------

  datatype Section = Modified | Unchanged | Blank | Skipped

  /** An undefined reason prints as "undefined". */
  function ReasonLabel(reason: Option<Reason>): string
  {
    match reason
    case Some(r) => ReasonText(r)
    case None => "undefined"
  }

  /** "- <artboard> > <group>", the start of every entry line. */
  function EntryHead(g: GroupInfo): string
  {
    "- " + g.artboard + " > " + g.name
  }

  /** The line written for an entry of the given section (lines 346-348, 354, 360, 366). */
  function Line(section: Section, g: GroupInfo): string
  {
    match section
    case Modified =>
      EntryHead(g) + (if g.color == Some(Green) then " (Ready)" else "") + " - " + ReasonLabel(g.reason) + "\n"
    case Unchanged => EntryHead(g) + "\n"
    case Blank => EntryHead(g) + "\n"
    case Skipped => EntryHead(g) + " (Marked as not ready)" + "\n"
  }

  /** The lines of a whole list, in list order. */
  function Lines(section: Section, gs: seq<GroupInfo>): string
  {
    if gs == [] then "" else Lines(section, gs[..|gs| - 1]) + Line(section, gs[|gs| - 1])
  }

  function Preamble(info: SystemInfo): string
  {
    "Export Report\n" + "-------------\n\n" + "System Information:\n" +
    "Date: " + info.date + "\n" + "User: " + info.user + "\n" +
    "Photoshop Version: " + info.photoshop + "\n" + "Operating System: " + info.os + "\n" +
    "OS Version: " + info.osVersion + "\n\n"
  }

  /** The report of this run, before any history is appended. */
  function ReportBody(info: SystemInfo, modifiedGroups: seq<GroupInfo>, unchangedGroups: seq<GroupInfo>,
                      blankGroups: seq<GroupInfo>, skippedGroups: seq<GroupInfo>): string
  {
    Preamble(info) +
    "Modified Groups (" + Decimal(|modifiedGroups|) + "):\n" + Lines(Modified, modifiedGroups) +
    "\nUnchanged Groups (" + Decimal(|unchangedGroups|) + "):\n" + Lines(Unchanged, unchangedGroups) +
    "\nBlank Groups (" + Decimal(|blankGroups|) + "):\n" + Lines(Blank, blankGroups) +
    "\nSkipped Groups (" + Decimal(|skippedGroups|) + "):\n" + Lines(Skipped, skippedGroups)
  }

  /** The text written to the report file: the new report, then the old one if non-empty. */
  function WithHistory(body: string, existing: string): string
  {
    if existing != "" then body + Divider + existing else body
  }

  // ---------------------------------------------------------------------------
  // What the report promises
  // ---------------------------------------------------------------------------

  /**
   * The previous report survives whole at the end, after the new report and the divider;
   * with no previous report the new one is written alone.
   */
  lemma ReportKeepsHistory(body: string, existing: string)
    ensures existing != "" ==>
      && WithHistory(body, existing)[..|body|] == body
      && WithHistory(body, existing)[|body|..|body| + |Divider|] == Divider
      && WithHistory(body, existing)[|body| + |Divider|..] == existing
      && |WithHistory(body, existing)| > |existing|
    ensures existing == "" ==> WithHistory(body, existing) == body
  {
  }

  /** The mark " (Ready)" right after the group name. */
  predicate HasReadyMark(section: Section, g: GroupInfo)
  {
    var line, n := Line(section, g), |EntryHead(g)|;
    |line| >= n + 8 && line[n..n + 8] == " (Ready)"
  }

  /** Only a modified entry tagged green is marked ready; every other line never is. */
  lemma ReadyMarkOnlyOnGreenModified(section: Section, g: GroupInfo)
    ensures HasReadyMark(section, g) <==> section == Modified && g.color == Some(Green)
  {
    var head, line := EntryHead(g), Line(section, g);
    var n := |head|;
    assert line[..n] == head;
    match section
    case Modified =>
      if g.color != Some(Green) {
        assert head + "" == head;
        assert line == head + " - " + ReasonLabel(g.reason) + "\n";
        assert line[n + 1] == '-';
        assert |line| >= n + 8 ==> line[n..n + 8][1] == '-';
        assert " (Ready)"[1] == '(';
        assert !HasReadyMark(section, g);
      }
    case Skipped =>
      assert line[n..] == " (Marked as not ready)" + "\n";
      assert line[n + 2] == 'M';
    case Unchanged =>
      assert |line| == n + 1;
    case Blank =>
      assert |line| == n + 1;
  }

  /** The number of line breaks in a text. */
  function LineBreaks(s: string): nat
  {
    if s == [] then 0 else LineBreaks(s[..|s| - 1]) + (if s[|s| - 1] == '\n' then 1 else 0)
  }

  lemma {:induction false} LineBreaksConcat(a: string, b: string)
    ensures LineBreaks(a + b) == LineBreaks(a) + LineBreaks(b)
    decreases |b|
  {
    if b != [] {
      var ab := a + b;
      assert ab[..|ab| - 1] == a + b[..|b| - 1];
      assert ab[|ab| - 1] == b[|b| - 1];
      LineBreaksConcat(a, b[..|b| - 1]);
    } else {
      assert a + b == a;
    }
  }

  predicate NoBreak(s: string)
  {
    forall i :: 0 <= i < |s| ==> s[i] != '\n'
  }

  lemma {:induction false} NoBreakHasNone(s: string)
    requires NoBreak(s)
    ensures LineBreaks(s) == 0
    decreases |s|
  {
    if s != [] {
      NoBreakHasNone(s[..|s| - 1]);
    }
  }

  /** Names without line breaks: each entry is then exactly one line of the report. */
  predicate SingleLine(g: GroupInfo)
  {
    NoBreak(g.name) && NoBreak(g.artboard)
  }

  lemma NoBreakConcat(a: string, b: string)
    requires NoBreak(a) && NoBreak(b)
    ensures NoBreak(a + b)
  {
    forall i | 0 <= i < |a + b| ensures (a + b)[i] != '\n' {
      if i >= |a| {
        assert (a + b)[i] == b[i - |a|];
      }
    }
  }

  /** A text without breaks followed by one break has exactly one. */
  lemma {:induction false} OneBreakAtEnd(body: string)
    requires NoBreak(body)
    ensures LineBreaks(body + "\n") == 1
  {
    NoBreakHasNone(body);
    assert (body + "\n")[..|body|] == body;
  }

  lemma LineIsOneLine(section: Section, g: GroupInfo)
    requires SingleLine(g)
    ensures LineBreaks(Line(section, g)) == 1
  {
    var head := EntryHead(g);
    NoBreakConcat("- ", g.artboard);
    NoBreakConcat("- " + g.artboard, " > ");
    NoBreakConcat("- " + g.artboard + " > ", g.name);
    match section
    case Modified =>
      var mark := if g.color == Some(Green) then " (Ready)" else "";
      var reasonText := ReasonLabel(g.reason);
      assert NoBreak(reasonText) by {
        match g.reason
        case Some(r) => { match r { case NewFile => case ContentModified => case NoChanges => } }
        case None =>
      }
      NoBreakConcat(head, mark);
      NoBreakConcat(head + mark, " - ");
      NoBreakConcat(head + mark + " - ", reasonText);
      OneBreakAtEnd(head + mark + " - " + reasonText);
    case Unchanged =>
      OneBreakAtEnd(head);
    case Blank =>
      OneBreakAtEnd(head);
    case Skipped =>
      NoBreakConcat(head, " (Marked as not ready)");
      OneBreakAtEnd(head + " (Marked as not ready)");
  }

  /**
   * Each section's header states, in decimal, exactly the number of entry lines under it.
   */
  lemma {:induction false} SectionCountMatchesLines(section: Section, gs: seq<GroupInfo>)
    requires forall k :: 0 <= k < |gs| ==> SingleLine(gs[k])
    ensures DecimalValue(Decimal(|gs|)) == LineBreaks(Lines(section, gs))
    decreases |gs|
  {
    DecimalRoundTrip(|gs|);
    if gs != [] {
      SectionCountMatchesLines(section, gs[..|gs| - 1]);
      DecimalRoundTrip(|gs| - 1);
      LineIsOneLine(section, gs[|gs| - 1]);
      LineBreaksConcat(Lines(section, gs[..|gs| - 1]), Line(section, gs[|gs| - 1]));
    }
  }

  // ---------------------------------------------------------------------------
  // Building the text
  // ---------------------------------------------------------------------------

  lemma LinesSnoc(report: string, section: Section, gs: seq<GroupInfo>, i: nat)
    requires i < |gs|
    ensures report + Lines(section, gs[..i + 1]) == report + Lines(section, gs[..i]) + Line(section, gs[i])
  {
    assert gs[..i + 1][..i] == gs[..i];
  }

  /** One of the loops of lines 344-367: `report +=` a line per entry. */
  method AppendLines(report: string, section: Section, gs: seq<GroupInfo>) returns (r: string)
    ensures r == report + Lines(section, gs)
  {
    r := report;
    for i := 0 to |gs|
      invariant r == report + Lines(section, gs[..i])
    {
      var group := gs[i];
      var line := Line(section, group);
      LinesSnoc(report, section, gs, i);
      r := r + line;
    }
    assert gs[..|gs|] == gs;
  }

  /** Lines 334-373: the new report, then the divider and the previous report if any. */
  method BuildReport(info: SystemInfo, modifiedGroups: seq<GroupInfo>, unchangedGroups: seq<GroupInfo>,
                     blankGroups: seq<GroupInfo>, skippedGroups: seq<GroupInfo>, existing: string)
    returns (report: string)
    ensures report == WithHistory(ReportBody(info, modifiedGroups, unchangedGroups, blankGroups, skippedGroups), existing)
  {
    report := "Export Report\n";
    report := report + "-------------\n\n";
    report := report + "System Information:\n";
    report := report + "Date: " + info.date + "\n";
    report := report + "User: " + info.user + "\n";
    report := report + "Photoshop Version: " + info.photoshop + "\n";
    report := report + "Operating System: " + info.os + "\n";
    report := report + "OS Version: " + info.osVersion + "\n\n";
    assert report == Preamble(info);

    report := report + "Modified Groups (" + Decimal(|modifiedGroups|) + "):\n";
    report := AppendLines(report, Modified, modifiedGroups);
    report := report + "\nUnchanged Groups (" + Decimal(|unchangedGroups|) + "):\n";
    report := AppendLines(report, Unchanged, unchangedGroups);
    report := report + "\nBlank Groups (" + Decimal(|blankGroups|) + "):\n";
    report := AppendLines(report, Blank, blankGroups);
    report := report + "\nSkipped Groups (" + Decimal(|skippedGroups|) + "):\n";
    report := AppendLines(report, Skipped, skippedGroups);

    if existing != "" {
      report := report + Divider;
      report := report + existing;
    }
  }
}
