/**
 * The spreadsheet manager: the fixed column layout, the tolerant cell
 * reader, the row selectors (schools to scrape, follow-ups due, coaches to
 * message on Twitter, counts) and the cell writers.
 *
 * The worksheet is its rows as `get_all_values` returns them (`data`) plus
 * the cells written so far (`cells`, keyed by 1-based row and column);
 * gspread itself, retries and rate limiting are not part of this model.
 */
module Sheets {
  import opened Text
  import opened Dates

  // ---------------------------------------------------------------------
  // Column layout
  // ---------------------------------------------------------------------

  /** The fields of `SheetsConfig.column_map`. */
  datatype FieldName =
    School | Url | RcName | OlName
    | RcTwitter | OlTwitter | RcEmail | OlEmail
    | RcContacted | OlContacted | RcNotes | OlNotes
    | RcFollowupStage | RcNextContact | OlFollowupStage | OlNextContact
    | RcResponded | OlResponded | RcTwitterStatus | OlTwitterStatus
    | RcEmailStatus | OlEmailStatus

  /** `column_map`: each field's 0-based column. */
  function Col(f: FieldName): (c: nat)
    ensures c < 22
  {
    match f
    case School => 0
    case Url => 1
    case RcName => 2
    case OlName => 3
    case RcTwitter => 4
    case OlTwitter => 5
    case RcEmail => 6
    case OlEmail => 7
    case RcContacted => 8
    case OlContacted => 9
    case RcNotes => 10
    case OlNotes => 11
    case RcFollowupStage => 12
    case RcNextContact => 13
    case OlFollowupStage => 14
    case OlNextContact => 15
    case RcResponded => 16
    case OlResponded => 17
    case RcTwitterStatus => 18
    case OlTwitterStatus => 19
    case RcEmailStatus => 20
    case OlEmailStatus => 21
  }

  /** The key `column_map` knows the field by. */
  function KeyOf(f: FieldName): string {
    match f
    case School => "school"
    case Url => "url"
    case RcName => "rc_name"
    case OlName => "ol_name"
    case RcTwitter => "rc_twitter"
    case OlTwitter => "ol_twitter"
    case RcEmail => "rc_email"
    case OlEmail => "ol_email"
    case RcContacted => "rc_contacted"
    case OlContacted => "ol_contacted"
    case RcNotes => "rc_notes"
    case OlNotes => "ol_notes"
    case RcFollowupStage => "rc_followup_stage"
    case RcNextContact => "rc_next_contact"
    case OlFollowupStage => "ol_followup_stage"
    case OlNextContact => "ol_next_contact"
    case RcResponded => "rc_responded"
    case OlResponded => "ol_responded"
    case RcTwitterStatus => "rc_twitter_status"
    case OlTwitterStatus => "ol_twitter_status"
    case RcEmailStatus => "rc_email_status"
    case OlEmailStatus => "ol_email_status"
  }

  /** The field a key names, if `column_map` has that key. */
  function FieldOf(name: string): (r: Option<FieldName>)
    ensures r.Some? ==> KeyOf(r.value) == name
  {
    if name == "school" then Some(School) else
    if name == "url" then Some(Url) else
    if name == "rc_name" then Some(RcName) else
    if name == "ol_name" then Some(OlName) else
    if name == "rc_twitter" then Some(RcTwitter) else
    if name == "ol_twitter" then Some(OlTwitter) else
    if name == "rc_email" then Some(RcEmail) else
    if name == "ol_email" then Some(OlEmail) else
    if name == "rc_contacted" then Some(RcContacted) else
    if name == "ol_contacted" then Some(OlContacted) else
    if name == "rc_notes" then Some(RcNotes) else
    if name == "ol_notes" then Some(OlNotes) else
    if name == "rc_followup_stage" then Some(RcFollowupStage) else
    if name == "rc_next_contact" then Some(RcNextContact) else
    if name == "ol_followup_stage" then Some(OlFollowupStage) else
    if name == "ol_next_contact" then Some(OlNextContact) else
    if name == "rc_responded" then Some(RcResponded) else
    if name == "ol_responded" then Some(OlResponded) else
    if name == "rc_twitter_status" then Some(RcTwitterStatus) else
    if name == "ol_twitter_status" then Some(OlTwitterStatus) else
    if name == "rc_email_status" then Some(RcEmailStatus) else
    if name == "ol_email_status" then Some(OlEmailStatus) else
    None
  }

  /** `get_col_index`: the mapped column, or -1 for a name the layout does not know. */
  function GetColIndex(name: string): (i: int)
    ensures -1 <= i < 22
    ensures i == -1 <==> forall f: FieldName :: KeyOf(f) != name
  {
    match FieldOf(name)
    case Some(f) => Col(f)
    case None => KeyNamesField(name); -1
  }

  lemma KeyNamesField(name: string)
    requires FieldOf(name).None?
    ensures forall f: FieldName :: KeyOf(f) != name
  {
  }

  /** Each field's key looks up that field's column. */
  lemma ColumnKeys(f: FieldName)
    ensures FieldOf(KeyOf(f)) == Some(f)
    ensures GetColIndex(KeyOf(f)) == Col(f)
  {
    // one literal key per case, so each lookup is decided on its own
    match f
    case School => case Url => case RcName => case OlName =>
    case RcTwitter => case OlTwitter => case RcEmail => case OlEmail =>
    case RcContacted => case OlContacted => case RcNotes => case OlNotes =>
    case RcFollowupStage => case RcNextContact => case OlFollowupStage => case OlNextContact =>
    case RcResponded => case OlResponded => case RcTwitterStatus => case OlTwitterStatus =>
    case RcEmailStatus => case OlEmailStatus =>
  }

  /** No two fields share a column. */
  lemma ColumnsDistinct(f: FieldName, g: FieldName)
    ensures f != g ==> Col(f) != Col(g)
  {
  }

  /** The column of the role's field: the RC field for "rc", the OL field for anything else. */
  function RoleField(coachType: string, rcField: FieldName, olField: FieldName): FieldName {
    if coachType == "rc" then rcField else olField
  }

  /** `_safe_get`: the stripped cell, or `default` when the index is off the row or the cell is empty. */
  function SafeGet(row: seq<string>, idx: int, default: string := ""): (r: string)
    ensures idx < 0 || idx >= |row| ==> r == default
    ensures 0 <= idx < |row| ==> r == (if row[idx] == "" then default else Strip(row[idx]))
  {
    if idx < 0 || idx >= |row| then default
    else if row[idx] != "" then Strip(row[idx]) else default
  }

  /** What `_safe_get` returns carries no surrounding whitespace unless the default does. */
  lemma SafeGetStripped(row: seq<string>, idx: int, default: string)
    requires Strip(default) == default
    ensures Strip(SafeGet(row, idx, default)) == SafeGet(row, idx, default)
  {
    if 0 <= idx < |row| && row[idx] != "" {
      StripIdempotent(row[idx]);
    }
  }

  /** The cell of a named field, `_safe_get(row, get_col_index(field))`. */
  function Field(row: seq<string>, f: FieldName): string {
    SafeGet(row, Col(f))
  }

  // ---------------------------------------------------------------------
  // Row selectors
  // ---------------------------------------------------------------------

  /** The entries every data row contributes, row k being sheet row k + 2. */
  function Collect<T>(rows: seq<seq<string>>, f: (seq<string>, int) -> seq<T>): seq<T> {
    if rows == [] then [] else Collect(rows[..|rows| - 1], f) + f(rows[|rows| - 1], |rows| + 1)
  }

  /** An entry is selected exactly when some row contributes it. */
  lemma {:induction false} CollectMembers<T>(rows: seq<seq<string>>, f: (seq<string>, int) -> seq<T>, x: T)
    ensures x in Collect(rows, f) <==> exists k | 0 <= k < |rows| :: x in f(rows[k], k + 2)
  {
    if rows != [] {
      var init := rows[..|rows| - 1];
      CollectMembers(init, f, x);
      if x in Collect(init, f) {
        var k :| 0 <= k < |init| && x in f(init[k], k + 2);
        assert rows[k] == init[k];
      }
      if exists k | 0 <= k < |rows| :: x in f(rows[k], k + 2) {
        var k :| 0 <= k < |rows| && x in f(rows[k], k + 2);
        if k < |init| {
          assert init[k] == rows[k];
        }
      }
    }
  }

  /** The loop step: one more row's entries appended. */
  lemma CollectStep<T>(rows: seq<seq<string>>, f: (seq<string>, int) -> seq<T>, i: nat)
    requires i < |rows|
    ensures Collect(rows[..i + 1], f) == Collect(rows[..i], f) + f(rows[i], i + 2)
  {
    assert rows[..i + 1][..i] == rows[..i];
  }

  /** A school whose staff page still has a name to find (the dict form of the record). */
  datatype SchoolTask = SchoolTask(rowIndex: int, schoolName: string, staffUrl: string, needsRc: bool, needsOl: bool)

  /** A name counts as found when it is present and not marked for review. */
  predicate NameDone(name: string) {
    name != "" && !StartsWith(name, "REVIEW:")
  }

  /** The row rule of `get_schools_to_process`: an http URL, and some name not yet found. */
  function SchoolRow(row: seq<string>, rowNum: int): (r: seq<SchoolTask>)
    ensures |r| <= 1
    ensures |r| == 1 <==> StartsWith(Field(row, Url), "http") && !(NameDone(Field(row, RcName)) && NameDone(Field(row, OlName)))
    ensures forall t | t in r ::
      t.rowIndex == rowNum && t.staffUrl == Field(row, Url) && t.schoolName == Field(row, School)
      && t.needsRc == !NameDone(Field(row, RcName)) && t.needsOl == !NameDone(Field(row, OlName))
      && (t.needsRc || t.needsOl)
  {
    var school := Field(row, School);
    var url := Field(row, Url);
    var rcName := Field(row, RcName);
    var olName := Field(row, OlName);
    if url == "" || !StartsWith(url, "http") then []
    else if NameDone(rcName) && NameDone(olName) then []
    else [SchoolTask(rowNum, school, url, !NameDone(rcName), !NameDone(olName))]
  }

  /** A name marked for review is always sent back for processing. */
  lemma ReviewNeedsProcessing(rows: seq<seq<string>>, k: nat)
    requires k < |rows| && StartsWith(Field(rows[k], Url), "http")
    requires StartsWith(Field(rows[k], RcName), "REVIEW:") || StartsWith(Field(rows[k], OlName), "REVIEW:")
    ensures exists t | t in Collect(rows, SchoolRow) :: t.rowIndex == k + 2
  {
    var t := SchoolRow(rows[k], k + 2)[0];
    CollectMembers(rows, SchoolRow, t);
  }

  /** A row whose two names are both found is never listed. */
  lemma DoneRowsSkipped(rows: seq<seq<string>>, t: SchoolTask)
    requires t in Collect(rows, SchoolRow)
    ensures 2 <= t.rowIndex < |rows| + 2
    ensures var row := rows[t.rowIndex - 2];
      StartsWith(Field(row, Url), "http") && !(NameDone(Field(row, RcName)) && NameDone(Field(row, OlName)))
  {
    CollectMembers(rows, SchoolRow, t);
    var k :| 0 <= k < |rows| && t in SchoolRow(rows[k], k + 2);
  }

  /** The row loop of `get_schools_to_process`. */
  method ScanSchools(rows: seq<seq<string>>) returns (schools: seq<SchoolTask>)
    ensures schools == Collect(rows, SchoolRow)
  {
    schools := [];
    for i := 0 to |rows|
      invariant schools == Collect(rows[..i], SchoolRow)
    {
      CollectStep(rows, SchoolRow, i);
      var row := rows[i];
      var school := Field(row, School);
      var url := Field(row, Url);
      var rcName := Field(row, RcName);
      var olName := Field(row, OlName);
      if url == "" || !StartsWith(url, "http") {
        continue;
      }
      var rcDone := NameDone(rcName);
      var olDone := NameDone(olName);
      if rcDone && olDone {
        continue;
      }
      schools := schools + [SchoolTask(i + 2, school, url, !rcDone, !olDone)];
    }
    assert rows[..|rows|] == rows;
  }

  function Reverse<T>(xs: seq<T>): (r: seq<T>)
    ensures |r| == |xs| && forall i | 0 <= i < |xs| :: r[i] == xs[|xs| - 1 - i]
  {
    if xs == [] then [] else Reverse(xs[1..]) + [xs[0]]
  }

  /** A coach whose next-contact date has come (`get_due_followups`). */
  datatype DueEntry = DueEntry(
    rowIndex: int, school: string, coachType: string, name: string, email: string,
    stage: int, isRestart: bool, nextContact: string)

  /** One role of a row: a next-contact date that parses and is not after today, and a stage `int()` accepts. */
  function DueRole(row: seq<string>, rowNum: int, school: string, coachType: string, today: Date): (r: seq<DueEntry>)
    ensures |r| <= 1
    ensures forall e | e in r ::
      e.rowIndex == rowNum && e.school == school && e.coachType == coachType
      && e.nextContact == Field(row, RoleField(coachType, RcNextContact, OlNextContact))
      && (exists d :: ParseDate(e.nextContact) == Some(d) && OnOrBefore(d, today))
      && e.isRestart == (e.stage >= 2)
  {
    var next := Field(row, RoleField(coachType, RcNextContact, OlNextContact));
    if next == "" then []
    else
      match ParseDate(next)
      case None => []
      case Some(d) =>
        if !OnOrBefore(d, today) then []
        else
          var raw := Field(row, RoleField(coachType, RcFollowupStage, OlFollowupStage));
          match ParseInt(if raw == "" then "0" else raw)
          case None => []
          case Some(stage) =>
            [DueEntry(rowNum, school, coachType,
                      Field(row, RoleField(coachType, RcName, OlName)),
                      Field(row, RoleField(coachType, RcEmail, OlEmail)),
                      stage, stage >= 2, next)]
  }

  /** The row rule of `get_due_followups`: nothing without a school, the RC entry before the OL one. */
  function DueRow(row: seq<string>, rowNum: int, today: Date): (r: seq<DueEntry>)
    ensures |r| <= 2
    ensures Field(row, School) == "" ==> r == []
    ensures forall e | e in r :: e.school == Field(row, School) && e.school != "" && e.rowIndex == rowNum
    ensures |r| == 2 ==> r[0].coachType == "rc" && r[1].coachType == "ol"
  {
    var school := Field(row, School);
    if school == "" then [] else DueRole(row, rowNum, school, "rc", today) + DueRole(row, rowNum, school, "ol", today)
  }

  /** A stage cell `int()` rejects drops that role's entry (the `ValueError` is caught). */
  lemma BadStageDropsEntry(row: seq<string>, rowNum: int, coachType: string, today: Date)
    requires Field(row, School) != ""
    requires var raw := Field(row, RoleField(coachType, RcFollowupStage, OlFollowupStage));
      raw != "" && ParseInt(raw).None?
    ensures DueRole(row, rowNum, Field(row, School), coachType, today) == []
  {
  }

  /** The row loop of `get_due_followups`. */
  method ScanDue(rows: seq<seq<string>>, today: Date) returns (due: seq<DueEntry>)
    ensures due == Collect(rows, (row, n) => DueRow(row, n, today))
  {
    due := [];
    ghost var f := (row, n) => DueRow(row, n, today);
    for i := 0 to |rows|
      invariant due == Collect(rows[..i], f)
    {
      CollectStep(rows, f, i);
      assert f(rows[i], i + 2) == DueRow(rows[i], i + 2, today);
      var school := Field(rows[i], School);
      if school == "" {
        continue;
      }
      var rc := DueRole(rows[i], i + 2, school, "rc", today);
      var ol := DueRole(rows[i], i + 2, school, "ol", today);
      due := due + (rc + ol);
    }
    assert rows[..|rows|] == rows;
  }

  /** Every due entry has a parseable next-contact date on or before today. */
  lemma DueEntriesAreDue(rows: seq<seq<string>>, today: Date, e: DueEntry)
    requires e in Collect(rows, (row, n) => DueRow(row, n, today))
    ensures exists d :: ParseDate(e.nextContact) == Some(d) && OnOrBefore(d, today)
    ensures e.school != "" && e.isRestart == (e.stage >= 2) && 2 <= e.rowIndex < |rows| + 2
  {
    var f := (row, n) => DueRow(row, n, today);
    CollectMembers(rows, f, e);
    var k :| 0 <= k < |rows| && e in f(rows[k], k + 2);
    var school := Field(rows[k], School);
    assert e in DueRole(rows[k], k + 2, school, "rc", today) || e in DueRole(rows[k], k + 2, school, "ol", today);
  }

  /** A coach to message on Twitter (`get_coaches_for_twitter`). */
  datatype TwitterEntry = TwitterEntry(
    rowIndex: int, school: string, coachType: string, name: string, handle: string, email: string)

  /** A status that rules a handle out: already messaged, only followed, or wrong. */
  predicate StatusClosed(status: string) {
    status == "messaged" || status == "followed" || status == "wrong"
  }

  /** One role is wanted: a handle, no response, and no closing status (in any case). */
  predicate TwitterWanted(row: seq<string>, coachType: string) {
    Field(row, RoleField(coachType, RcTwitter, OlTwitter)) != ""
    && Field(row, RoleField(coachType, RcResponded, OlResponded)) == ""
    && !StatusClosed(Lower(Field(row, RoleField(coachType, RcTwitterStatus, OlTwitterStatus))))
  }

  function TwitterRole(row: seq<string>, rowNum: int, school: string, coachType: string): (r: seq<TwitterEntry>)
    ensures |r| == (if TwitterWanted(row, coachType) then 1 else 0)
    ensures forall e | e in r ::
      e.rowIndex == rowNum && e.school == school && e.coachType == coachType
      && e.handle == Field(row, RoleField(coachType, RcTwitter, OlTwitter)) && e.handle != ""
  {
    if TwitterWanted(row, coachType) then
      [TwitterEntry(rowNum, school, coachType, Field(row, RoleField(coachType, RcName, OlName)),
                    Field(row, RoleField(coachType, RcTwitter, OlTwitter)),
                    Field(row, RoleField(coachType, RcEmail, OlEmail)))]
    else []
  }

  /** The row rule of `get_coaches_for_twitter`: with a school, each wanted role, RC first. */
  function TwitterRow(row: seq<string>, rowNum: int): (r: seq<TwitterEntry>)
    ensures Field(row, School) == "" ==> r == []
    ensures Field(row, School) != "" ==>
      |r| == (if TwitterWanted(row, "rc") then 1 else 0) + (if TwitterWanted(row, "ol") then 1 else 0)
    ensures forall e | e in r :: e.school != "" && e.handle != "" && e.rowIndex == rowNum
    ensures |r| == 2 ==> r[0].coachType == "rc" && r[1].coachType == "ol"
  {
    var school := Field(row, School);
    if school == "" then [] else TwitterRole(row, rowNum, school, "rc") + TwitterRole(row, rowNum, school, "ol")
  }

  /** The row loop of `get_coaches_for_twitter`. */
  method ScanTwitter(rows: seq<seq<string>>) returns (coaches: seq<TwitterEntry>)
    ensures coaches == Collect(rows, TwitterRow)
  {
    coaches := [];
    for i := 0 to |rows|
      invariant coaches == Collect(rows[..i], TwitterRow)
    {
      CollectStep(rows, TwitterRow, i);
      var row := rows[i];
      var school := Field(row, School);
      if school == "" {
        continue;
      }
      coaches := coaches + TwitterRole(row, i + 2, school, "rc") + TwitterRole(row, i + 2, school, "ol");
    }
    assert rows[..|rows|] == rows;
  }

  /** A listed Twitter coach has a school, a handle, no response and an open status. */
  lemma TwitterEntriesWanted(rows: seq<seq<string>>, e: TwitterEntry)
    requires e in Collect(rows, TwitterRow)
    ensures 2 <= e.rowIndex < |rows| + 2
    ensures var row := rows[e.rowIndex - 2];
      e.school == Field(row, School) && e.school != "" && TwitterWanted(row, e.coachType)
  {
    CollectMembers(rows, TwitterRow, e);
    var k :| 0 <= k < |rows| && e in TwitterRow(rows[k], k + 2);
    var school := Field(rows[k], School);
    assert e in TwitterRole(rows[k], k + 2, school, "rc") || e in TwitterRole(rows[k], k + 2, school, "ol");
  }

  /** The counts of `get_stats`. */
  datatype SheetStats = SheetStats(total: nat, rc: nat, ol: nat, review: nat, emails: nat, twitter: nat)

  function Present(s: string): nat { if s != "" then 1 else 0 }

  /** What one row adds to the counts. */
  function RowStats(row: seq<string>): SheetStats {
    var rcName, olName := Field(row, RcName), Field(row, OlName);
    SheetStats(
      1,
      if rcName != "" && !StartsWith(rcName, "REVIEW:") then 1 else 0,
      if olName != "" && !StartsWith(olName, "REVIEW:") then 1 else 0,
      (if StartsWith(rcName, "REVIEW:") then 1 else 0) + (if StartsWith(olName, "REVIEW:") then 1 else 0),
      Present(Field(row, RcEmail)) + Present(Field(row, OlEmail)),
      Present(Field(row, RcTwitter)) + Present(Field(row, OlTwitter)))
  }

  function Plus(a: SheetStats, b: SheetStats): SheetStats {
    SheetStats(a.total + b.total, a.rc + b.rc, a.ol + b.ol, a.review + b.review, a.emails + b.emails, a.twitter + b.twitter)
  }

  /** The counts over the data rows. */
  function StatsOf(rows: seq<seq<string>>): SheetStats {
    if rows == [] then SheetStats(0, 0, 0, 0, 0, 0)
    else Plus(StatsOf(rows[..|rows| - 1]), RowStats(rows[|rows| - 1]))
  }

  /** Each name is counted once, as found or as for review; each row has two addresses and two handles at most. */
  lemma {:induction false} StatsBounds(rows: seq<seq<string>>)
    ensures StatsOf(rows).total == |rows|
    ensures StatsOf(rows).rc + StatsOf(rows).ol + StatsOf(rows).review <= 2 * |rows|
    ensures StatsOf(rows).rc <= |rows| && StatsOf(rows).ol <= |rows|
    ensures StatsOf(rows).emails <= 2 * |rows| && StatsOf(rows).twitter <= 2 * |rows|
  {
    if rows != [] {
      StatsBounds(rows[..|rows| - 1]);
    }
  }

  /** The row loop of `get_stats`. */
  method CountRows(rows: seq<seq<string>>) returns (s: SheetStats)
    ensures s == StatsOf(rows)
  {
    s := SheetStats(0, 0, 0, 0, 0, 0);
    assert rows[..0] == [];
    for i := 0 to |rows|
      invariant s == StatsOf(rows[..i])
    {
      assert rows[..i + 1][..i] == rows[..i];
      s := CountRow(s, rows[i]);
    }
    assert rows[..|rows|] == rows;
  }

  /** One pass of that loop: the counters a row bumps. */
  method CountRow(before: SheetStats, row: seq<string>) returns (s: SheetStats)
    ensures s == Plus(before, RowStats(row))
  {
    var rc, ol, review, emails, twitter := before.rc, before.ol, before.review, before.emails, before.twitter;
    rc, review := TallyName(Field(row, RcName), rc, review);
    ol, review := TallyName(Field(row, OlName), ol, review);
    emails := Tally(Field(row, RcEmail), emails);
    emails := Tally(Field(row, OlEmail), emails);
    twitter := Tally(Field(row, RcTwitter), twitter);
    twitter := Tally(Field(row, OlTwitter), twitter);
    s := SheetStats(before.total + 1, rc, ol, review, emails, twitter);
  }

  /** A filled cell bumps its counter. */
  method Tally(cell: string, n: nat) returns (n': nat)
    ensures n' == n + Present(cell)
  {
    n' := n;
    if cell != "" { n' := n + 1; }
  }

  /** A name cell counts as found, or as for review when it starts with `REVIEW:`. */
  method TallyName(name: string, found: nat, review: nat) returns (found': nat, review': nat)
    ensures found' == found + (if name != "" && !StartsWith(name, "REVIEW:") then 1 else 0)
    ensures review' == review + (if StartsWith(name, "REVIEW:") then 1 else 0)
  {
    found', review' := found, review;
    if name != "" {
      if StartsWith(name, "REVIEW:") { review' := review + 1; } else { found' := found + 1; }
    }
  }

  // ---------------------------------------------------------------------
  // Stage arithmetic
  // ---------------------------------------------------------------------

  /** The stage `mark_contacted_with_followup` writes: 0 after an intro, else one more, capped at 2. */
  function NextStage(isIntro: bool, current: int): (s: int)
    ensures isIntro ==> s == 0
    ensures !isIntro ==> s <= 2 && (s == current + 1 || s == 2) && (current < 2 ==> s == current + 1)
  {
    var s := if isIntro then 0 else current + 1;
    if s >= 2 then 2 else s
  }

  /** What `mark_contacted_with_followup` ends in: a result, or the exception it lets through. */
  datatype MarkResult = Returned(ok: bool) | Raised(reason: string)

  /** Python's `data[i]` for a possibly negative `i`, or `None` for the `IndexError`. */
  function PyIndex<T>(xs: seq<T>, i: int): (r: Option<T>)
    ensures r.Some? <==> -|xs| <= i < |xs|
    ensures 0 <= i < |xs| ==> r == Some(xs[i])
    ensures -|xs| <= i < 0 ==> r == Some(xs[|xs| + i])
  {
    if 0 <= i < |xs| then Some(xs[i]) else if -|xs| <= i < 0 then Some(xs[|xs| + i]) else None
  }

  // ---------------------------------------------------------------------
  // The manager
  // ---------------------------------------------------------------------

  class SheetsManager {
    /** `self._sheet` is set. */
    var connected: bool
    /** What `get_all_values` returns. */
    var data: seq<seq<string>>
    /** The cells written, by 1-based (row, column). */
    var cells: map<(int, int), string>
    var readCount: nat
    var writeCount: nat

    constructor(connected: bool, data: seq<seq<string>>)
      ensures this.connected == connected && this.data == data
      ensures cells == map[] && readCount == 0 && writeCount == 0
    {
      this.connected := connected;
      this.data := data;
      cells := map[];
      readCount := 0;
      writeCount := 0;
    }

    /** `get_all_data`: the rows, or nothing without a sheet. */
    method GetAllData() returns (d: seq<seq<string>>)
      modifies this
      ensures d == (if connected then data else [])
      ensures readCount == old(readCount) + (if connected then 1 else 0)
      ensures connected == old(connected) && data == old(data) && cells == old(cells) && writeCount == old(writeCount)
    {
      if !connected {
        return [];
      }
      d := data;
      readCount := readCount + 1;
    }

    /** `update_cell`: one cell written, or `False` without a sheet. */
    method UpdateCell(row: int, col: int, value: string) returns (ok: bool)
      modifies this
      ensures ok == connected
      ensures cells == (if connected then old(cells)[(row, col) := value] else old(cells))
      ensures writeCount == old(writeCount) + (if connected then 1 else 0)
      ensures connected == old(connected) && data == old(data) && readCount == old(readCount)
    {
      if !connected {
        return false;
      }
      cells := cells[(row, col) := value];
      writeCount := writeCount + 1;
      ok := true;
    }

    /** `update_rc`: the RC name, and the RC address when one is given. */
    method UpdateRc(rowIndex: int, name: string, email: string) returns (ok: bool)
      modifies this
      ensures ok == connected
      ensures connected ==> cells == (if email != "" then old(cells)[(rowIndex, 3) := name][(rowIndex, 7) := email]
                                      else old(cells)[(rowIndex, 3) := name])
      ensures !connected ==> cells == old(cells)
      ensures connected == old(connected) && data == old(data)
      ensures readCount == old(readCount) && writeCount == old(writeCount) + (if connected then (if email != "" then 2 else 1) else 0)
    {
      ok := true;
      var col := Col(RcName) + 1;
      if col > 0 {
        var w := UpdateCell(rowIndex, col, name);
        ok := ok && w;
      }
      if email != "" {
        col := Col(RcEmail) + 1;
        if col > 0 {
          var w := UpdateCell(rowIndex, col, email);
          ok := ok && w;
        }
      }
    }

    /** `update_ol`: the OL name, and the OL address when one is given. */
    method UpdateOl(rowIndex: int, name: string, email: string) returns (ok: bool)
      modifies this
      ensures ok == connected
      ensures connected ==> cells == (if email != "" then old(cells)[(rowIndex, 4) := name][(rowIndex, 8) := email]
                                      else old(cells)[(rowIndex, 4) := name])
      ensures !connected ==> cells == old(cells)
      ensures connected == old(connected) && data == old(data)
      ensures readCount == old(readCount) && writeCount == old(writeCount) + (if connected then (if email != "" then 2 else 1) else 0)
    {
      ok := true;
      var col := Col(OlName) + 1;
      if col > 0 {
        var w := UpdateCell(rowIndex, col, name);
        ok := ok && w;
      }
      if email != "" {
        col := Col(OlEmail) + 1;
        if col > 0 {
          var w := UpdateCell(rowIndex, col, email);
          ok := ok && w;
        }
      }
    }

    /** `update_email_status`: the role's e-mail status cell (21 for "rc", 22 otherwise). */
    method UpdateEmailStatus(rowIndex: int, coachType: string, status: string) returns (ok: bool)
      modifies this
      ensures ok == connected
      ensures var col := Col(RoleField(coachType, RcEmailStatus, OlEmailStatus)) + 1;
        col == (if coachType == "rc" then 21 else 22)
        && cells == (if connected then old(cells)[(rowIndex, col) := status] else old(cells))
      ensures connected == old(connected) && data == old(data)
      ensures readCount == old(readCount) && writeCount == old(writeCount) + (if connected then 1 else 0)
    {
      var col := Col(RoleField(coachType, RcEmailStatus, OlEmailStatus)) + 1;
      if col > 0 {
        ok := UpdateCell(rowIndex, col, status);
      } else {
        ok := false;
      }
    }

    /** `update_twitter_status`: the role's Twitter status cell (19 for "rc", 20 otherwise). */
    method UpdateTwitterStatus(rowIndex: int, coachType: string, status: string) returns (ok: bool)
      modifies this
      ensures ok == connected
      ensures var col := Col(RoleField(coachType, RcTwitterStatus, OlTwitterStatus)) + 1;
        col == (if coachType == "rc" then 19 else 20)
        && cells == (if connected then old(cells)[(rowIndex, col) := status] else old(cells))
      ensures connected == old(connected) && data == old(data)
      ensures readCount == old(readCount) && writeCount == old(writeCount) + (if connected then 1 else 0)
    {
      var col := Col(RoleField(coachType, RcTwitterStatus, OlTwitterStatus)) + 1;
      if col > 0 {
        ok := UpdateCell(rowIndex, col, status);
      } else {
        ok := false;
      }
    }

    /** `update_followup`: the role's stage and next-contact cells (13/14 for "rc", 15/16 otherwise). */
    method UpdateFollowup(rowIndex: int, coachType: string, stage: int, nextContact: string) returns (ok: bool)
      modifies this
      ensures ok == connected
      ensures var s := Col(RoleField(coachType, RcFollowupStage, OlFollowupStage)) + 1;
        var n := Col(RoleField(coachType, RcNextContact, OlNextContact)) + 1;
        s == (if coachType == "rc" then 13 else 15) && n == s + 1
        && cells == (if connected then old(cells)[(rowIndex, s) := IntToString(stage)][(rowIndex, n) := nextContact]
                     else old(cells))
      ensures connected == old(connected) && data == old(data)
      ensures readCount == old(readCount) && writeCount == old(writeCount) + (if connected then 2 else 0)
    {
      ok := true;
      var stageCol := Col(RoleField(coachType, RcFollowupStage, OlFollowupStage)) + 1;
      var nextCol := Col(RoleField(coachType, RcNextContact, OlNextContact)) + 1;
      if stageCol > 0 {
        var w := UpdateCell(rowIndex, stageCol, IntToString(stage));
        ok := ok && w;
      }
      if nextCol > 0 {
        var w := UpdateCell(rowIndex, nextCol, nextContact);
        ok := ok && w;
      }
    }

    /** `clear_followup`: blank exactly the role's stage and next-contact cells. */
    method ClearFollowup(rowIndex: int, coachType: string) returns (ok: bool)
      modifies this
      ensures ok == connected
      ensures var s := if coachType == "rc" then 13 else 15;
        cells == (if connected then old(cells)[(rowIndex, s) := ""][(rowIndex, s + 1) := ""] else old(cells))
      ensures connected == old(connected) && data == old(data)
      ensures readCount == old(readCount) && writeCount == old(writeCount) + (if connected then 2 else 0)
    {
      ok := true;
      var stageCol := Col(RoleField(coachType, RcFollowupStage, OlFollowupStage)) + 1;
      var nextCol := Col(RoleField(coachType, RcNextContact, OlNextContact)) + 1;
      if stageCol > 0 {
        var w := UpdateCell(rowIndex, stageCol, "");
        ok := ok && w;
      }
      if nextCol > 0 {
        var w := UpdateCell(rowIndex, nextCol, "");
        ok := ok && w;
      }
    }

    /**
     * `mark_responded`: clear the role's follow-up cells, then write the date
     * (today's, formatted, when none is given) to its responded cell.
     */
    method MarkResponded(rowIndex: int, coachType: string, dateStr: Option<string>, today: Date) returns (ok: bool)
      requires Valid(today)
      modifies this
      ensures ok == connected
      ensures var s := if coachType == "rc" then 13 else 15;
        var resp := if coachType == "rc" then 17 else 18;
        var date := if dateStr.Some? then dateStr.value else FormatDate(today);
        cells == (if connected then old(cells)[(rowIndex, s) := ""][(rowIndex, s + 1) := ""][(rowIndex, resp) := date]
                  else old(cells))
      ensures connected == old(connected) && data == old(data)
      ensures readCount == old(readCount) && writeCount == old(writeCount) + (if connected then 3 else 0)
    {
      var date := if dateStr.Some? then dateStr.value else FormatDate(today);
      var col := Col(RoleField(coachType, RcResponded, OlResponded)) + 1;
      if col > 0 {
        var _ := ClearFollowup(rowIndex, coachType);
        ok := UpdateCell(rowIndex, col, date);
      } else {
        ok := false;
      }
    }

    /**
     * `mark_contacted_with_followup`: read the role's stage from the row
     * (Python indexing, so a row index of 0 or less counts from the end),
     * then write today to the contacted cell and the next stage and
     * today + 3 to the follow-up cells. A row past the data returns `False`
     * with nothing written; an index past the front of the data, a stage
     * `int()` rejects, or a today + 3 past year 9999 raises before any write.
     */
    method MarkContactedWithFollowup(rowIndex: int, coachType: string, isIntro: bool, today: Date)
      returns (r: MarkResult)
      requires Valid(today)
      modifies this
      ensures var d := if old(connected) then old(data) else [];
        var contacted := if coachType == "rc" then 9 else 10;
        var s := if coachType == "rc" then 13 else 15;
        if rowIndex - 1 >= |d| then r == Returned(false) && cells == old(cells)
        else if PyIndex(d, rowIndex - 1).None? then r.Raised? && cells == old(cells)
        else
          var raw := SafeGet(PyIndex(d, rowIndex - 1).value, s - 1);
          match ParseInt(if raw == "" then "0" else raw)
          case None => r.Raised? && cells == old(cells)
          case Some(cur) =>
            if AddDays(today, 3).year > 9999 then r.Raised? && cells == old(cells)
            else
            r == Returned(connected) && cells == (if connected then
              old(cells)[(rowIndex, contacted) := FormatDate(today)]
                        [(rowIndex, s) := IntToString(NextStage(isIntro, cur))]
                        [(rowIndex, s + 1) := FormatDate(AddDays(today, 3))]
              else old(cells))
      ensures connected == old(connected) && data == old(data)
    {
      var todayStr := FormatDate(today);
      var contactedCol := Col(RoleField(coachType, RcContacted, OlContacted)) + 1;
      var stageCol := Col(RoleField(coachType, RcFollowupStage, OlFollowupStage));
      assert contactedCol == (if coachType == "rc" then 9 else 10) && stageCol == (if coachType == "rc" then 12 else 14);
      var d := GetAllData();
      if rowIndex - 1 >= |d| {
        return Returned(false);
      }
      var row := PyIndex(d, rowIndex - 1);
      if row.None? {
        return Raised("IndexError: list index out of range");
      }
      var raw := SafeGet(row.value, stageCol);
      var current := ParseInt(if raw == "" then "0" else raw);
      if current.None? {
        return Raised("ValueError: invalid literal for int()");
      }
      var newStage := if isIntro then 0 else current.value + 1;
      var next := AddDays(today, 3);
      if next.year > 9999 {
        return Raised("OverflowError: date value out of range");
      }
      var nextContact := FormatDate(next);
      if newStage >= 2 {
        newStage := 2;
      }
      assert newStage == NextStage(isIntro, current.value);
      ghost var c0 := cells;
      var a := UpdateCell(rowIndex, contactedCol, todayStr);
      ghost var c1 := cells;
      assert connected ==> c1 == c0[(rowIndex, contactedCol) := todayStr];
      var b := UpdateFollowup(rowIndex, coachType, newStage, nextContact);
      r := Returned(a && b);
    }

    /** `get_schools_to_process`: nothing without a data row, else the selected rows, bottom first when `reverse`. */
    method GetSchoolsToProcess(reverse: bool) returns (schools: seq<SchoolTask>)
      modifies this
      ensures var d := if old(connected) then old(data) else [];
        schools == (if |d| < 2 then [] else if reverse then Reverse(Collect(d[1..], SchoolRow)) else Collect(d[1..], SchoolRow))
      ensures connected == old(connected) && data == old(data) && cells == old(cells)
    {
      var d := GetAllData();
      if |d| < 2 {
        return [];
      }
      schools := ScanSchools(d[1..]);
      if reverse {
        schools := Reverse(schools);
      }
    }

    /** `get_due_followups`. */
    method GetDueFollowups(today: Date) returns (due: seq<DueEntry>)
      modifies this
      ensures var d := if old(connected) then old(data) else [];
        due == (if |d| < 2 then [] else Collect(d[1..], (row, n) => DueRow(row, n, today)))
      ensures connected == old(connected) && data == old(data) && cells == old(cells)
    {
      var d := GetAllData();
      if |d| < 2 {
        return [];
      }
      due := ScanDue(d[1..], today);
    }

    /** `get_coaches_for_twitter`. */
    method GetCoachesForTwitter() returns (coaches: seq<TwitterEntry>)
      modifies this
      ensures var d := if old(connected) then old(data) else [];
        coaches == (if |d| < 2 then [] else Collect(d[1..], TwitterRow))
      ensures connected == old(connected) && data == old(data) && cells == old(cells)
    {
      var d := GetAllData();
      if |d| < 2 {
        return [];
      }
      coaches := ScanTwitter(d[1..]);
    }

    /** `get_stats`: `None` for the empty dictionary returned when there is no data row. */
    method GetStats() returns (s: Option<SheetStats>)
      modifies this
      ensures var d := if old(connected) then old(data) else [];
        s == (if |d| < 2 then None else Some(StatsOf(d[1..])))
      ensures connected == old(connected) && data == old(data) && cells == old(cells)
    {
      var d := GetAllData();
      if |d| < 2 {
        return None;
      }
      var counts := CountRows(d[1..]);
      s := Some(counts);
    }
  }
}
