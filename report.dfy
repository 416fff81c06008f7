/**
 * The session report `/endlist` sends to the owner: a plain-text summary
 * of the list as it was when the session closed.
 */
module Report {
  import opened Base
  import opened Numbers
  import opened Strings
  import opened Render

  /** The first lines of the report; `time` is the localized date string of the moment of closing. */
  function ReportHeader(time: string, title: string): string
  {
    "📊 **Session Report**\n📅 Date: " + time + "\n📝 Title: " + title + "\n\n"
  }

  const NoParticipants := "No participants."

  /** `@username` when the entry has a non-empty username, the word `null` otherwise. */
  function UsernameLabel(username: Option<string>): string
  {
    match username
    case Some(name) => if name != "" then "@" + name else "null"
    case None => "null"
  }

  /** Entry `i` (0-based) as `<i+1>. <name> | <@username or null> | ID: <userId>`. */
  function ReportLine(i: nat, e: Entry): string
  {
    NatToString(i + 1) + ". " + ReportFields(e) + "\n"
  }

  /** The `<name> | <@username or null> | ID: <userId>` part of a report line. */
  function ReportFields(e: Entry): string
  {
    e.name + " | " + UsernameLabel(e.username) + " | ID: " + IntToString(e.userId)
  }

  function ReportText(time: string, title: string, es: seq<Entry>): string
  {
    ReportHeader(time, title) + if |es| == 0 then NoParticipants else Lines(es, 0, |es|, ReportLine)
  }

  /** The report builder of `/endlist`: the report is accumulated entry by entry. */
  method BuildReport(time: string, title: string, es: seq<Entry>) returns (report: string)
    ensures report == ReportText(time, title, es)
  {
    report := ReportHeader(time, title);
    if |es| == 0 {
      report := report + NoParticipants;
    } else {
      ghost var header := report;
      for i := 0 to |es|
        invariant report == header + Lines(es, 0, i, ReportLine)
      {
        var line := ReportLine(i, es[i]);
        Concat3(header, Lines(es, 0, i, ReportLine), line);
        report := report + line;
      }
    }
  }

  /**
   * The report lists entry `k` as its own line, after the lines of the
   * entries before it and before those of the entries after it.
   */
  lemma ReportEntry(time: string, title: string, es: seq<Entry>, k: nat)
    requires k < |es|
    ensures ReportText(time, title, es)
         == ReportHeader(time, title) + (Lines(es, 0, k, ReportLine) + ReportLine(k, es[k]) + Lines(es, k + 1, |es|, ReportLine))
  {
    LinesAt(es, k, ReportLine);
  }

  /** A report line names the entry's user id and gives the `null` marker exactly when there is no username. */
  lemma ReportLineParts(i: nat, e: Entry)
    ensures UsernameLabel(e.username) == "null" <==> e.username.None? || e.username.value == ""
    ensures exists prefix :: ReportLine(i, e) == prefix + " | ID: " + IntToString(e.userId) + "\n"
  {
    var shown := UsernameLabel(e.username);
    if e.username.Some? && e.username.value != "" {
      assert shown[0] == '@';
    }
    var prefix := NatToString(i + 1) + ". " + e.name + " | " + shown;
    assert ReportFields(e) == e.name + " | " + shown + " | ID: " + IntToString(e.userId);
    assert ReportLine(i, e) == prefix + " | ID: " + IntToString(e.userId) + "\n";
  }
}
