/**
 * The sending side of the e-mail sender: the stage rule and the cells
 * stamped after a send, the classification of a failed send, the batch
 * loop with its daily quota and its halt on a blocked account, and the
 * fallback template substitution.
 *
 * SMTP is not modelled: whether each send is delivered, and the error text
 * when it is not, is an input (`outcomes`, one per coach), and so is the
 * result of connecting. The worksheet is the list of calls made on it.
 */
module EmailSender {
  import opened Text
  import opened Dates
  import opened EmailRules
  import opened CoachList
  import opened EmailTracking
  import Sheets
  import opened Placeholders

  /** `EmailConfig.max_per_day`. */
  const MaxPerDay: int := 50

  /** The 1-based follow-up and status columns the loop writes. */
  const RcStageCol: int := 13
  const RcNextCol: int := 14
  const OlStageCol: int := 15
  const OlNextCol: int := 16
  const RcEmailStatusCol: int := 21
  const OlEmailStatusCol: int := 22

  /** The hard-coded columns are the layout's columns, 1-based. */
  lemma StampColumnsMatchLayout()
    ensures RcStageCol == Sheets.Col(Sheets.RcFollowupStage) + 1
    ensures RcNextCol == Sheets.Col(Sheets.RcNextContact) + 1
    ensures OlStageCol == Sheets.Col(Sheets.OlFollowupStage) + 1
    ensures OlNextCol == Sheets.Col(Sheets.OlNextContact) + 1
    ensures RcEmailStatusCol == Sheets.Col(Sheets.RcEmailStatus) + 1
    ensures OlEmailStatusCol == Sheets.Col(Sheets.OlEmailStatus) + 1
  {
  }

  /** The `type` string of an entry. */
  function TypeName(r: Role): string {
    match r
    case OL => "ol"
    case RC => "rc"
    case Dual => "dual"
  }

  // ---------------------------------------------------------------------
  // After a successful send
  // ---------------------------------------------------------------------

  /** The stage written after a send: 0 after an intro, else one more, capped at 2. */
  function NewStage(isFollowup: bool, current: nat): (s: nat)
    ensures s <= 2
    ensures !isFollowup ==> s == 0
    ensures isFollowup ==> s >= 1 && (current < 2 ==> s == current + 1) && (current >= 1 ==> s == 2)
  {
    if isFollowup then (if current + 1 < 2 then current + 1 else 2) else 0
  }

  /** The sender's stage rule and the sheet manager's agree. */
  lemma StageRulesAgree(isFollowup: bool, current: nat)
    ensures NewStage(isFollowup, current) == Sheets.NextStage(!isFollowup, current)
  {
  }

  /** The stage the sender writes is the stage the list builder reads back. */
  lemma StageReadBack(n: nat)
    ensures StageOf(IntToString(n)) == n
  {
    StripNoSpace(IntToString(n));
    NatToStringValue(n);
  }

  /** One call made on the worksheet. */
  datatype SheetOp = UpdateCell(row: int, col: int, value: string) | DeleteRows(row: int)

  /** `if coach.get(key):` on an optional column. */
  predicate Truthy(col: Option<int>) {
    col.Some? && col.value != 0
  }

  function StageCols(r: Role): set<int> {
    match r
    case OL => {OlStageCol}
    case RC => {RcStageCol}
    case Dual => {RcStageCol, OlStageCol}
  }

  function NextCols(r: Role): set<int> {
    match r
    case OL => {OlNextCol}
    case RC => {RcNextCol}
    case Dual => {RcNextCol, OlNextCol}
  }

  function ColSet(col: Option<int>): set<int> {
    if Truthy(col) then {col.value} else {}
  }

  /** The contacted columns an entry carries. */
  function ContactedCols(c: Coach): set<int> {
    match c.role
    case Dual => ColSet(c.olContactedCol) + ColSet(c.rcContactedCol)
    case _ => ColSet(c.contactedCol)
  }

  function StageText(c: Coach): string {
    IntToString(NewStage(c.isFollowup, c.currentStage))
  }

  /** The two dates a successful send writes, as `MM/DD/YYYY`: today and the next contact. */
  datatype Stamps = Stamps(today: string, next: string)

  /** The stamps written on day `d`: `d` itself and `d + 3 days`. */
  function StampsOn(d: Date): Stamps
    requires Valid(d)
  {
    Stamps(FormatDate(d), FormatDate(AddDays(d, 3)))
  }

  /** The stamps of day `d` read back as `d` and `d + 3 days`. */
  lemma StampsOnDates(d: Date)
    requires Valid(d) && AddDays(d, 3).year <= 9999
    ensures ParseDate(StampsOn(d).today) == Some(d)
    ensures ParseDate(StampsOn(d).next) == Some(AddDays(d, 3))
  {
    AddDaysLater(d, 3);
    FormatParseRoundTrip(d);
    FormatParseRoundTrip(AddDays(d, 3));
  }

  /** The next-contact date stamped on day `d` makes the row due three days on, and not again that day. */
  lemma StampsOnDue(d: Date, t: Date)
    requires Valid(d) && AddDays(d, 3).year <= 9999
    ensures !IsDueForFollowup(StampsOn(d).next, d)
    ensures IsDueForFollowup(StampsOn(d).next, t) <==> OnOrBefore(AddDays(d, 3), t)
  {
    AddDaysLater(d, 3);
    LaterStampDue(d, AddDays(d, 3), t);
  }

  function Stamp(row: int, col: Option<int>, value: string): seq<SheetOp> {
    if Truthy(col) then [UpdateCell(row, col.value, value)] else []
  }

  /** The calls made on the worksheet after a successful send. */
  function SuccessOps(c: Coach, st: Stamps): seq<SheetOp> {
    var row := c.rowIdx;
    var stage := StageText(c);
    match c.role
    case Dual =>
      Stamp(row, c.olContactedCol, st.today) + Stamp(row, c.rcContactedCol, st.today)
      + [UpdateCell(row, RcStageCol, stage), UpdateCell(row, RcNextCol, st.next),
         UpdateCell(row, OlStageCol, stage), UpdateCell(row, OlNextCol, st.next)]
    case RC =>
      Stamp(row, c.contactedCol, st.today) + [UpdateCell(row, RcStageCol, stage), UpdateCell(row, RcNextCol, st.next)]
    case OL =>
      Stamp(row, c.contactedCol, st.today) + [UpdateCell(row, OlStageCol, stage), UpdateCell(row, OlNextCol, st.next)]
  }

  /** A successful send only writes cells of the entry's row: its contacted, stage and next-contact cells. */
  lemma SuccessInRow(c: Coach, st: Stamps)
    ensures var r := SuccessOps(c, st);
      forall op | op in r :: op.UpdateCell? && op.row == c.rowIdx
    ensures var r := SuccessOps(c, st);
      forall op | op in r ::
        (op.col in StageCols(c.role) && op.value == StageText(c))
        || (op.col in NextCols(c.role) && op.value == st.next)
        || (op.col in ContactedCols(c) && op.value == st.today)
    ensures var r := SuccessOps(c, st);
      forall col | col in StageCols(c.role) :: UpdateCell(c.rowIdx, col, StageText(c)) in r
    ensures var r := SuccessOps(c, st);
      forall col | col in NextCols(c.role) :: UpdateCell(c.rowIdx, col, st.next) in r
    ensures var r := SuccessOps(c, st);
      forall col | col in ContactedCols(c) :: UpdateCell(c.rowIdx, col, st.today) in r
  {
  }

  /**
   * The cells written after a successful send on day `d`: `d` in the
   * contacted column(s), the new stage and `d + 3 days` in the role's
   * follow-up columns (both roles' for a dual entry), all in the entry's
   * row and nothing else.
   */
  lemma SuccessCells(c: Coach, d: Date)
    requires Valid(d)
    ensures var r := SuccessOps(c, StampsOn(d));
      forall op | op in r :: op.UpdateCell? && op.row == c.rowIdx
    ensures var r := SuccessOps(c, StampsOn(d));
      forall op | op in r ::
        (op.col in StageCols(c.role) && op.value == StageText(c))
        || (op.col in NextCols(c.role) && op.value == FormatDate(AddDays(d, 3)))
        || (op.col in ContactedCols(c) && op.value == FormatDate(d))
    ensures var r := SuccessOps(c, StampsOn(d));
      forall col | col in StageCols(c.role) :: UpdateCell(c.rowIdx, col, StageText(c)) in r
    ensures var r := SuccessOps(c, StampsOn(d));
      forall col | col in NextCols(c.role) :: UpdateCell(c.rowIdx, col, FormatDate(AddDays(d, 3))) in r
    ensures var r := SuccessOps(c, StampsOn(d));
      forall col | col in ContactedCols(c) :: UpdateCell(c.rowIdx, col, FormatDate(d)) in r
  {
    SuccessInRow(c, StampsOn(d));
  }

  // ---------------------------------------------------------------------
  // After a failed send
  // ---------------------------------------------------------------------

  function StatusCols(r: Role): set<int> {
    match r
    case OL => {OlEmailStatusCol}
    case RC => {RcEmailStatusCol}
    case Dual => {RcEmailStatusCol, OlEmailStatusCol}
  }

  /**
   * The writes after a failed send: a blocked account deletes the row,
   * whatever else the error says; otherwise a recipient problem marks the
   * role's e-mail status (both for a dual entry) "wrong"; anything else
   * writes nothing.
   */
  function FailureOps(c: Coach, error: string): (r: seq<SheetOp>)
    ensures IsBlocked(error) ==> r == [DeleteRows(c.rowIdx)]
    ensures !IsBlocked(error) ==> forall op | op in r ::
      op.UpdateCell? && op.row == c.rowIdx && op.value == "wrong" && op.col in StatusCols(c.role)
    ensures !IsBlocked(error) && IsInvalidRecipient(error) ==>
      forall col | col in StatusCols(c.role) :: UpdateCell(c.rowIdx, col, "wrong") in r
    ensures !IsInvalidRecipient(error) && !IsBlocked(error) ==> r == []
  {
    var row := c.rowIdx;
    if IsBlocked(error) then [DeleteRows(row)]
    else if IsInvalidRecipient(error) then
      match c.role
      case Dual => [UpdateCell(row, RcEmailStatusCol, "wrong"), UpdateCell(row, OlEmailStatusCol, "wrong")]
      case RC => [UpdateCell(row, RcEmailStatusCol, "wrong")]
      case OL => [UpdateCell(row, OlEmailStatusCol, "wrong")]
    else []
  }

  // ---------------------------------------------------------------------
  // The batch
  // ---------------------------------------------------------------------

  /** What `send_email` reported for one coach. */
  datatype Outcome = Delivered | Failed(error: string)

  /** The arguments of one `mark_sent` call. */
  datatype Mark = Mark(email: string, school: string, coachType: string)

  /**
   * The loop's state: its three counters, the worksheet calls and tracker
   * marks so far, whether it has stopped, and whether it stopped on a
   * blocked account.
   */
  datatype Batch = Batch(
    sent: nat, errors: nat, skipped: nat, ops: seq<SheetOp>, marks: seq<Mark>, halted: bool, blocked: bool)

  const Start: Batch := Batch(0, 0, 0, [], [], false, false)

  /** A delivered send: one more sent, the address marked, the cells stamped. */
  function Delivery(b: Batch, c: Coach, email: string, writes: bool, st: Stamps): Batch {
    b.(sent := b.sent + 1, marks := b.marks + [Mark(email, c.school, TypeName(c.role))],
       ops := b.ops + (if writes then SuccessOps(c, st) else []))
  }

  /** A failed send: one more error, the failure written, and a stop if the account is blocked. */
  function Failure(b: Batch, c: Coach, error: string, writes: bool): Batch {
    b.(errors := b.errors + 1, ops := b.ops + (if writes then FailureOps(c, error) else []),
       halted := IsBlocked(error), blocked := IsBlocked(error))
  }

  /** One pass of the loop body, for coach `i` of `n`. */
  function Step(b: Batch, c: Coach, o: Outcome, i: nat, n: nat, remaining: int, hasSheet: bool, st: Stamps): Batch
    requires i < n
  {
    if b.halted then b
    else if b.sent >= remaining then b.(skipped := b.skipped + (n - i), halted := true)
    else
      var email := Lower(Strip(c.email));
      var writes := hasSheet && c.rowIdx != 0;
      if !IsSingleValidEmail(email) then b.(errors := b.errors + 1)
      else
        match o
        case Delivered => Delivery(b, c, email, writes, st)
        case Failed(e) => Failure(b, c, e, writes)
  }

  /** The state after the first `k` passes. */
  function Run(coaches: seq<Coach>, outcomes: seq<Outcome>, remaining: int, hasSheet: bool, st: Stamps, k: nat): Batch
    requires k <= |coaches| == |outcomes|
  {
    if k == 0 then Start
    else Step(Run(coaches, outcomes, remaining, hasSheet, st, k - 1), coaches[k - 1], outcomes[k - 1],
              k - 1, |coaches|, remaining, hasSheet, st)
  }

  /**
   * What holds after every pass: one mark per send, no more sends than the
   * quota left, every counted coach accounted for, only sendable addresses
   * marked, and a row deletion only as the very last call of a blocked run.
   */
  predicate Sound(b: Batch, k: nat, n: nat, remaining: int) {
    b.sent == |b.marks|
    && (b.sent <= remaining || b.sent == 0)
    && (!b.halted ==> b.sent + b.errors == k && b.skipped == 0 && !b.blocked)
    && (b.halted && !b.blocked ==> b.sent + b.errors + b.skipped == n)
    && (b.blocked ==> b.halted && b.skipped == 0 && b.sent + b.errors <= k)
    && (forall m | m in b.marks :: IsSingleValidEmail(m.email))
    && (forall j | 0 <= j < |b.ops| && b.ops[j].DeleteRows? :: j == |b.ops| - 1 && b.blocked)
  }

  lemma StepSound(b: Batch, next: Batch, c: Coach, o: Outcome, i: nat, n: nat, remaining: int, hasSheet: bool, st: Stamps)
    requires i < n && Sound(b, i, n, remaining)
    requires next == Step(b, c, o, i, n, remaining, hasSheet, st)
    ensures Sound(next, i + 1, n, remaining)
  {
    if !b.halted && b.sent < remaining && IsSingleValidEmail(Lower(Strip(c.email))) && o.Delivered? {
      SuccessInRow(c, st);
    }
  }

  /** One more pass keeps the loop sound. */
  lemma RunStepSound(coaches: seq<Coach>, outcomes: seq<Outcome>, remaining: int, hasSheet: bool, st: Stamps, k: nat)
    requires 0 < k <= |coaches| == |outcomes|
    requires Sound(Run(coaches, outcomes, remaining, hasSheet, st, k - 1), k - 1, |coaches|, remaining)
    ensures Sound(Run(coaches, outcomes, remaining, hasSheet, st, k), k, |coaches|, remaining)
  {
    var prev := Run(coaches, outcomes, remaining, hasSheet, st, k - 1);
    var next := Run(coaches, outcomes, remaining, hasSheet, st, k);
    assert next == Step(prev, coaches[k - 1], outcomes[k - 1], k - 1, |coaches|, remaining, hasSheet, st);
    StepSound(prev, next, coaches[k - 1], outcomes[k - 1], k - 1, |coaches|, remaining, hasSheet, st);
  }

  lemma {:induction false} RunSound(coaches: seq<Coach>, outcomes: seq<Outcome>, remaining: int, hasSheet: bool, st: Stamps, k: nat)
    requires k <= |coaches| == |outcomes|
    ensures Sound(Run(coaches, outcomes, remaining, hasSheet, st, k), k, |coaches|, remaining)
  {
    if k == 0 {
      assert Run(coaches, outcomes, remaining, hasSheet, st, 0) == Start;
    } else {
      RunSound(coaches, outcomes, remaining, hasSheet, st, k - 1);
      RunStepSound(coaches, outcomes, remaining, hasSheet, st, k);
    }
  }

  /** Once the loop has stopped, the later passes change nothing (the `break`). */
  lemma {:induction false} RunHalted(coaches: seq<Coach>, outcomes: seq<Outcome>, remaining: int, hasSheet: bool, st: Stamps, k: nat, m: nat)
    requires k <= m <= |coaches| == |outcomes|
    requires Run(coaches, outcomes, remaining, hasSheet, st, k).halted
    ensures Run(coaches, outcomes, remaining, hasSheet, st, m) == Run(coaches, outcomes, remaining, hasSheet, st, k)
    decreases m - k
  {
    if m > k {
      RunHalted(coaches, outcomes, remaining, hasSheet, st, k, m - 1);
      var prev := Run(coaches, outcomes, remaining, hasSheet, st, m - 1);
      assert Run(coaches, outcomes, remaining, hasSheet, st, m)
          == Step(prev, coaches[m - 1], outcomes[m - 1], m - 1, |coaches|, remaining, hasSheet, st);
    }
  }

  /**
   * `send_to_coaches` as a whole: a spent quota skips everything, a failed
   * connection counts one error and skips everything, and otherwise the
   * loop runs over every coach.
   */
  function SendResult(coaches: seq<Coach>, outcomes: seq<Outcome>, dailyCount: int, maxPerDay: int,
                      connected: bool, hasSheet: bool, st: Stamps): Batch
    requires |coaches| == |outcomes|
  {
    var remaining := maxPerDay - dailyCount;
    if remaining <= 0 then Start.(skipped := |coaches|, halted := true)
    else if !connected then Start.(errors := 1, skipped := |coaches|, halted := true)
    else Run(coaches, outcomes, remaining, hasSheet, st, |coaches|)
  }

  /**
   * The batch never sends past the daily quota; each coach is sent, failed
   * or skipped once, unless a blocked account stops the run early; every
   * address it sends to passed the final check; and a row is deleted only
   * by the failure that stops the run, as its last worksheet call.
   */
  lemma SendBounds(coaches: seq<Coach>, outcomes: seq<Outcome>, dailyCount: int, maxPerDay: int,
                   connected: bool, hasSheet: bool, st: Stamps)
    requires |coaches| == |outcomes| 
    ensures var r := SendResult(coaches, outcomes, dailyCount, maxPerDay, connected, hasSheet, st);
      dailyCount + r.sent <= maxPerDay || r.sent == 0
    ensures var r := SendResult(coaches, outcomes, dailyCount, maxPerDay, connected, hasSheet, st);
      maxPerDay - dailyCount <= 0 ==> r.sent == 0 && r.errors == 0 && r.skipped == |coaches|
    ensures var r := SendResult(coaches, outcomes, dailyCount, maxPerDay, connected, hasSheet, st);
      maxPerDay - dailyCount > 0 && connected ==>
        (r.blocked ==> r.sent + r.errors <= |coaches| && r.skipped == 0)
        && (!r.blocked ==> r.sent + r.errors + r.skipped == |coaches|)
    ensures var r := SendResult(coaches, outcomes, dailyCount, maxPerDay, connected, hasSheet, st);
      r.sent == |r.marks| && forall m | m in r.marks :: IsSingleValidEmail(m.email)
    ensures var r := SendResult(coaches, outcomes, dailyCount, maxPerDay, connected, hasSheet, st);
      forall j | 0 <= j < |r.ops| && r.ops[j].DeleteRows? :: j == |r.ops| - 1 && r.blocked
  {
    if maxPerDay - dailyCount > 0 && connected {
      RunSound(coaches, outcomes, maxPerDay - dailyCount, hasSheet, st, |coaches|);
    }
  }

  /** Every entry the list builder produces passes the sending loop's final address check. */
  lemma BuiltAddressesSendable(rows: seq<seq<string>>, cols: Columns, today: Date)
    ensures forall c | c in Build(rows, cols, today) :: IsSingleValidEmail(Lower(Strip(c.email)))
  {
    BuildSound(rows, cols, today);
    forall c | c in Build(rows, cols, today) ensures IsSingleValidEmail(Lower(Strip(c.email))) {
      ValidSendable(c.email);
    }
  }

  // ---------------------------------------------------------------------
  // The loop itself
  // ---------------------------------------------------------------------

  /** The worksheet, as the calls made on it. */
  class Worksheet {
    var ops: seq<SheetOp>

    constructor()
      ensures ops == []
    {
      ops := [];
    }

    method UpdateCell(row: int, col: int, value: string)
      modifies this
      ensures ops == old(ops) + [SheetOp.UpdateCell(row, col, value)]
    {
      ops := ops + [SheetOp.UpdateCell(row, col, value)];
    }

    method DeleteRows(row: int)
      modifies this
      ensures ops == old(ops) + [SheetOp.DeleteRows(row)]
    {
      ops := ops + [SheetOp.DeleteRows(row)];
    }
  }

  /** The date written to a contacted column, when the entry has one. */
  method StampContacted(sheet: Worksheet, row: int, col: Option<int>, value: string)
    modifies sheet
    ensures sheet.ops == old(sheet.ops) + Stamp(row, col, value)
  {
    if Truthy(col) {
      sheet.UpdateCell(row, col.value, value);
    }
  }

  /** The sheet update after a successful send, with the day's stamps `st` (`StampsOn(today)`, see `SendToCoaches`). */
  method StampSuccess(sheet: Worksheet, c: Coach, st: Stamps)
    modifies sheet
    ensures sheet.ops == old(sheet.ops) + SuccessOps(c, st)
  {
    var todayStr := st.today;
    var nextContact := st.next;
    var row := c.rowIdx;
    var newStage := if c.isFollowup then (if c.currentStage + 1 < 2 then c.currentStage + 1 else 2) else 0;
    var stage := IntToString(newStage);
    assert stage == StageText(c);
    match c.role {
      case Dual =>
        StampContacted(sheet, row, c.olContactedCol, todayStr);
        StampContacted(sheet, row, c.rcContactedCol, todayStr);
        sheet.UpdateCell(row, RcStageCol, stage);
        sheet.UpdateCell(row, RcNextCol, nextContact);
        sheet.UpdateCell(row, OlStageCol, stage);
        sheet.UpdateCell(row, OlNextCol, nextContact);
      case RC =>
        StampContacted(sheet, row, c.contactedCol, todayStr);
        sheet.UpdateCell(row, RcStageCol, stage);
        sheet.UpdateCell(row, RcNextCol, nextContact);
      case OL =>
        StampContacted(sheet, row, c.contactedCol, todayStr);
        sheet.UpdateCell(row, OlStageCol, stage);
        sheet.UpdateCell(row, OlNextCol, nextContact);
    }
  }

  /** The sheet update after a failed send. */
  method MarkFailure(sheet: Worksheet, c: Coach, error: string)
    modifies sheet
    ensures sheet.ops == old(sheet.ops) + FailureOps(c, error)
  {
    var row := c.rowIdx;
    var errorLower := Lower(error);
    var blocked := AnyMarker(errorLower, BlockedMarkers());
    var invalid := AnyMarker(errorLower, InvalidMarkers());
    if blocked {
      sheet.DeleteRows(row);
    } else if invalid {
      match c.role {
        case Dual =>
          sheet.UpdateCell(row, RcEmailStatusCol, "wrong");
          sheet.UpdateCell(row, OlEmailStatusCol, "wrong");
        case RC =>
          sheet.UpdateCell(row, RcEmailStatusCol, "wrong");
        case OL =>
          sheet.UpdateCell(row, OlEmailStatusCol, "wrong");
      }
    }
  }

  /** `any(x in text for x in markers)`. */
  method AnyMarker(text: string, markers: seq<string>) returns (found: bool)
    ensures found <==> exists k | 0 <= k < |markers| :: Contains(text, markers[k])
  {
    found := false;
    var k := 0;
    while k < |markers|
      invariant 0 <= k <= |markers|
      invariant found <==> exists j | 0 <= j < k :: Contains(text, markers[j])
    {
      if Contains(text, markers[k]) {
        found := true;
      }
      k := k + 1;
    }
  }

  /** The tracker's map after `mark_sent` for each mark in turn. */
  function MarkAll(sent: map<string, SentRecord>, marks: seq<Mark>, now: string): map<string, SentRecord> {
    if marks == [] then sent
    else
      var m := marks[|marks| - 1];
      MarkAll(sent, marks[..|marks| - 1], now)[Lower(m.email) := SentRecord(now, m.school, m.coachType)]
  }

  function SchoolsOf(marks: seq<Mark>): set<string> {
    set m | m in marks :: m.school
  }

  lemma MarkAllSnoc(sent: map<string, SentRecord>, marks: seq<Mark>, m: Mark, now: string)
    ensures MarkAll(sent, marks + [m], now) == MarkAll(sent, marks, now)[Lower(m.email) := SentRecord(now, m.school, m.coachType)]
    ensures SchoolsOf(marks + [m]) == SchoolsOf(marks) + {m.school}
  {
    assert (marks + [m])[..|marks|] == marks;
  }

  /** The per-date send counts with `n` more sends on `day`. */
  function CountOn(byDate: map<string, int>, day: string, n: nat): map<string, int>
  {
    if n == 0 then byDate else byDate[day := (if day in byDate then byDate[day] else 0) + n]
  }

  /** One more mark adds its school to those contacted. */
  lemma SchoolsSnoc(schools: set<string>, marks: seq<Mark>, m: Mark, before: set<string>, after: set<string>)
    requires before == schools + SchoolsOf(marks)
    requires after == before + {m.school}
    ensures after == schools + SchoolsOf(marks + [m])
  {
    MarkAllSnoc(map[], marks, m, "");
  }

  /** One more send on `day` is counted on top of the `n` before it. */
  lemma CountOnSnoc(byDate: map<string, int>, day: string, n: nat, before: map<string, int>, after: map<string, int>)
    requires before == CountOn(byDate, day, n)
    requires after == before[day := (if day in before then before[day] else 0) + 1]
    ensures after == CountOn(byDate, day, n + 1)
  {
  }

  /**
   * What the worksheet, the tracker and the analytics held when the loop
   * began, and `day`, the ISO date the sends are counted under.
   */
  datatype Origin = Origin(ops: seq<SheetOp>, sent: map<string, SentRecord>, daily: int, lastDate: string,
                           emails: int, byDate: map<string, int>, schools: set<string>, day: string,
                           responses: int, offers: int, responded: seq<string>, offered: seq<string>)

  /** The tracker shows exactly the marks `marks` on top of `o`. */
  ghost predicate TrackerLedger(marks: seq<Mark>, o: Origin, now: string, tracker: EmailTracker)
    reads tracker
  {
    tracker.dailyCount == o.daily + |marks| && tracker.sentEmails == MarkAll(o.sent, marks, now)
    && tracker.lastDate == o.lastDate
  }

  /** The analytics count exactly the marks `marks` on top of `o`, under the day `o.day`. */
  ghost predicate AnalyticsLedger(marks: seq<Mark>, o: Origin, analytics: AnalyticsTracker)
    reads analytics
  {
    analytics.Valid() && analytics.emailsSent == o.emails + |marks|
    && analytics.emailsByDate == CountOn(o.byDate, o.day, |marks|)
    && analytics.schoolsContacted == o.schools + SchoolsOf(marks)
    && analytics.responsesReceived == o.responses && analytics.offersReceived == o.offers
    && analytics.responded == o.responded && analytics.offered == o.offered
  }

  /** The tracker and the analytics show exactly the marks `marks` on top of `o`. */
  ghost predicate Ledger(marks: seq<Mark>, o: Origin, now: string, tracker: EmailTracker, analytics: AnalyticsTracker)
    reads tracker, analytics
  {
    TrackerLedger(marks, o, now, tracker) && AnalyticsLedger(marks, o, analytics)
  }

  /** The three objects show exactly the calls and marks of the batch `b` on top of `o`. */
  ghost predicate Mirrors(b: Batch, o: Origin, now: string, sheet: Worksheet, tracker: EmailTracker, analytics: AnalyticsTracker)
    reads sheet, tracker, analytics
  {
    sheet.ops == o.ops + b.ops && Ledger(b.marks, o, now, tracker, analytics)
  }

  /** Objects holding exactly what `o` records mirror the empty batch. */
  lemma MirrorsStart(o: Origin, now: string, sheet: Worksheet, tracker: EmailTracker, analytics: AnalyticsTracker)
    requires sheet.ops == o.ops && tracker.sentEmails == o.sent && tracker.dailyCount == o.daily
    requires tracker.lastDate == o.lastDate && analytics.Valid()
    requires analytics.emailsSent == o.emails && analytics.emailsByDate == o.byDate
    requires analytics.schoolsContacted == o.schools
    requires analytics.responsesReceived == o.responses && analytics.offersReceived == o.offers
    requires analytics.responded == o.responded && analytics.offered == o.offered
    ensures Mirrors(Start, o, now, sheet, tracker, analytics)
  {
    assert SchoolsOf([]) == {};
  }

  /** A pass that neither calls the worksheet nor marks an address leaves the objects mirroring the batch. */
  lemma MirrorsKept(b: Batch, b': Batch, o: Origin, now: string, sheet: Worksheet, tracker: EmailTracker, analytics: AnalyticsTracker)
    requires Mirrors(b, o, now, sheet, tracker, analytics)
    requires b'.ops == b.ops && b'.marks == b.marks
    ensures Mirrors(b', o, now, sheet, tracker, analytics)
  {
  }

  /** `mark_sent` on the tracker for one delivered send. */
  method TrackMark(m: Mark, tracker: EmailTracker, now: string, ghost marks: seq<Mark>, ghost o: Origin)
    requires TrackerLedger(marks, o, now, tracker)
    modifies tracker
    ensures TrackerLedger(marks + [m], o, now, tracker)
  {
    MarkAllSnoc(o.sent, marks, m, now);
    tracker.MarkSent(m.email, m.school, m.coachType, now);
  }

  /** `record_email_sent` on the analytics for one delivered send. */
  method CountMark(m: Mark, analytics: AnalyticsTracker, todayIso: string, ghost marks: seq<Mark>, ghost o: Origin)
    requires AnalyticsLedger(marks, o, analytics) && todayIso == o.day
    modifies analytics
    ensures AnalyticsLedger(marks + [m], o, analytics)
  {
    ghost var byDate, schools := analytics.emailsByDate, analytics.schoolsContacted;
    analytics.RecordEmailSent(m.school, m.coachType, todayIso);
    CountOnSnoc(o.byDate, o.day, |marks|, byDate, analytics.emailsByDate);
    SchoolsSnoc(o.schools, marks, m, schools, analytics.schoolsContacted);
  }

  /** `mark_sent` on the tracker and `record_email_sent` on the analytics for one delivered send. */
  method RecordMark(m: Mark, tracker: EmailTracker, analytics: AnalyticsTracker, todayIso: string, now: string,
                    ghost marks: seq<Mark>, ghost o: Origin)
    requires Ledger(marks, o, now, tracker, analytics) && todayIso == o.day
    modifies tracker, analytics
    ensures Ledger(marks + [m], o, now, tracker, analytics)
  {
    TrackMark(m, tracker, now, marks, o);
    CountMark(m, analytics, todayIso, marks, o);
  }

  /** The tracker and sheet updates after a delivered send. */
  method Deliver(coach: Coach, email: string, writes: bool, st: Stamps,
                 tracker: EmailTracker, analytics: AnalyticsTracker, sheet: Worksheet, todayIso: string, now: string,
                 ghost b: Batch, ghost o: Origin)
    requires Mirrors(b, o, now, sheet, tracker, analytics) && todayIso == o.day
    modifies tracker, analytics, sheet
    ensures Mirrors(Delivery(b, coach, email, writes, st), o, now, sheet, tracker, analytics)
  {
    ghost var b' := Delivery(b, coach, email, writes, st);
    ghost var extra := if writes then SuccessOps(coach, st) else [];
    assert b'.ops == b.ops + extra;
    assert (o.ops + b.ops) + extra == o.ops + b'.ops;
    RecordMark(Mark(email, coach.school, TypeName(coach.role)), tracker, analytics, todayIso, now, b.marks, o);
    if writes {
      StampSuccess(sheet, coach, st);
    }
    assert sheet.ops == (o.ops + b.ops) + extra;
  }

  /** The sheet update after a failed send, and whether the loop stops. */
  method Fail(coach: Coach, error: string, writes: bool,
              tracker: EmailTracker, analytics: AnalyticsTracker, sheet: Worksheet, now: string,
              ghost b: Batch, ghost o: Origin)
    returns (stop: bool)
    requires Mirrors(b, o, now, sheet, tracker, analytics)
    modifies sheet
    ensures Mirrors(Failure(b, coach, error, writes), o, now, sheet, tracker, analytics)
    ensures stop == IsBlocked(error)
  {
    ghost var extra := if writes then FailureOps(coach, error) else [];
    assert (o.ops + b.ops) + extra == o.ops + Failure(b, coach, error, writes).ops;
    if writes {
      MarkFailure(sheet, coach, error);
    }
    assert sheet.ops == (o.ops + b.ops) + extra;
    stop := AnyMarker(Lower(error), BlockedMarkers());
  }

  /** The send itself, once the quota and the address have passed: the success or failure path. */
  method Attempt(coach: Coach, o: Outcome, i: nat, n: nat, remaining: int, hasSheet: bool, st: Stamps,
                 tracker: EmailTracker, analytics: AnalyticsTracker, sheet: Worksheet, todayIso: string, now: string,
                 ghost b: Batch, ghost org: Origin, sent: nat, errors: nat, skipped: nat)
    returns (sent': nat, errors': nat, skipped': nat, stop: bool)
    requires i < n && !b.halted && sent == b.sent && errors == b.errors && skipped == b.skipped
    requires b.sent < remaining && IsSingleValidEmail(Lower(Strip(coach.email)))
    requires Mirrors(b, org, now, sheet, tracker, analytics) && todayIso == org.day
    modifies tracker, analytics, sheet
    ensures var b' := Step(b, coach, o, i, n, remaining, hasSheet, st);
      sent' == b'.sent && errors' == b'.errors && skipped' == b'.skipped && stop == b'.halted
      && Mirrors(b', org, now, sheet, tracker, analytics)
  {
    var email := Lower(Strip(coach.email));
    var writes := hasSheet && coach.rowIdx != 0;
    if o.Delivered? {
      assert Step(b, coach, o, i, n, remaining, hasSheet, st) == Delivery(b, coach, email, writes, st);
      Deliver(coach, email, writes, st, tracker, analytics, sheet, todayIso, now, b, org);
      return sent + 1, errors, skipped, false;
    }
    assert Step(b, coach, o, i, n, remaining, hasSheet, st) == Failure(b, coach, o.error, writes);
    stop := Fail(coach, o.error, writes, tracker, analytics, sheet, now, b, org);
    sent', errors', skipped' := sent, errors + 1, skipped;
  }

  /** One pass of the loop body over coach `i` of `n`, given the loop's state `b` so far; `stop` is the `break`. */
  method PassStep(coach: Coach, o: Outcome, i: nat, n: nat, remaining: int, hasSheet: bool, st: Stamps,
                  tracker: EmailTracker, analytics: AnalyticsTracker, sheet: Worksheet, todayIso: string, now: string,
                  ghost b: Batch, ghost org: Origin, sent: nat, errors: nat, skipped: nat)
    returns (sent': nat, errors': nat, skipped': nat, stop: bool)
    requires i < n && !b.halted && sent == b.sent && errors == b.errors && skipped == b.skipped
    requires Mirrors(b, org, now, sheet, tracker, analytics) && todayIso == org.day
    modifies tracker, analytics, sheet
    ensures var b' := Step(b, coach, o, i, n, remaining, hasSheet, st);
      sent' == b'.sent && errors' == b'.errors && skipped' == b'.skipped && stop == b'.halted
      && Mirrors(b', org, now, sheet, tracker, analytics)
  {
    ghost var b' := Step(b, coach, o, i, n, remaining, hasSheet, st);
    if sent >= remaining {
      assert b' == b.(skipped := b.skipped + (n - i), halted := true);
      MirrorsKept(b, b', org, now, sheet, tracker, analytics);
      return sent, errors, skipped + (n - i), true;
    }
    var email := Lower(Strip(coach.email));
    if !IsSingleValidEmail(email) {
      assert b' == b.(errors := b.errors + 1);
      MirrorsKept(b, b', org, now, sheet, tracker, analytics);
      return sent, errors + 1, skipped, false;
    }
    sent', errors', skipped', stop := Attempt(coach, o, i, n, remaining, hasSheet, st, tracker, analytics, sheet,
                                              todayIso, now, b, org, sent, errors, skipped);
  }

  /** Pass `i` of the loop, when the first `i` passes have not stopped. */
  method SendOne(coaches: seq<Coach>, outcomes: seq<Outcome>, i: nat, remaining: int, hasSheet: bool, st: Stamps,
                 tracker: EmailTracker, analytics: AnalyticsTracker, sheet: Worksheet, todayIso: string, now: string,
                 ghost org: Origin, sent: nat, errors: nat, skipped: nat)
    returns (sent': nat, errors': nat, skipped': nat, stop: bool)
    requires i < |coaches| == |outcomes|
    requires var b := Run(coaches, outcomes, remaining, hasSheet, st, i);
      !b.halted && sent == b.sent && errors == b.errors && skipped == b.skipped
      && Mirrors(b, org, now, sheet, tracker, analytics) && todayIso == org.day
    modifies tracker, analytics, sheet
    ensures var b' := Run(coaches, outcomes, remaining, hasSheet, st, i + 1);
      sent' == b'.sent && errors' == b'.errors && skipped' == b'.skipped && stop == b'.halted
      && Mirrors(b', org, now, sheet, tracker, analytics)
  {
    ghost var b := Run(coaches, outcomes, remaining, hasSheet, st, i);
    sent', errors', skipped', stop := PassStep(coaches[i], outcomes[i], i, |coaches|, remaining, hasSheet, st,
                                               tracker, analytics, sheet, todayIso, now, b, org, sent, errors, skipped);
  }

  /** The `for` loop of `send_to_coaches`, once the quota and the connection are checked. */
  method SendAll(coaches: seq<Coach>, outcomes: seq<Outcome>, remaining: int, hasSheet: bool, st: Stamps,
                 tracker: EmailTracker, analytics: AnalyticsTracker, sheet: Worksheet, todayIso: string, now: string,
                 ghost org: Origin)
    returns (sent: nat, errors: nat, skipped: nat)
    requires |outcomes| == |coaches| && Mirrors(Start, org, now, sheet, tracker, analytics) && todayIso == org.day
    modifies tracker, analytics, sheet
    ensures var r := Run(coaches, outcomes, remaining, hasSheet, st, |coaches|);
      sent == r.sent && errors == r.errors && skipped == r.skipped
      && Mirrors(r, org, now, sheet, tracker, analytics)
  {
    sent, errors, skipped := 0, 0, 0;
    var i, stop := 0, false;
    while i < |coaches| && !stop
      invariant 0 <= i <= |coaches|
      invariant var b := Run(coaches, outcomes, remaining, hasSheet, st, i);
        stop == b.halted && sent == b.sent && errors == b.errors && skipped == b.skipped
        && Mirrors(b, org, now, sheet, tracker, analytics)
    {
      sent, errors, skipped, stop := SendOne(coaches, outcomes, i, remaining, hasSheet, st,
                                             tracker, analytics, sheet, todayIso, now, org, sent, errors, skipped);
      i := i + 1;
    }
    if stop {
      RunHalted(coaches, outcomes, remaining, hasSheet, st, i, |coaches|);
    }
  }

  /**
   * `send_to_coaches` on day `today`: the counters, the worksheet calls and
   * the tracker updates are those of `SendResult` with the stamps of that
   * day, and the daily quota is read under that day's ISO key.
   */
  method SendToCoaches(coaches: seq<Coach>, outcomes: seq<Outcome>, tracker: EmailTracker,
                       analytics: AnalyticsTracker, hasSheet: bool, sheet: Worksheet, connected: bool,
                       maxPerDay: int, today: Date, now: string)
    returns (sent: nat, errors: nat, skipped: nat)
    requires |outcomes| == |coaches| && analytics.Valid() && Valid(today)
    modifies tracker, analytics, sheet
    ensures var daily := DailyAfter(old(tracker.lastDate), old(tracker.dailyCount), IsoFormat(today));
      var r := SendResult(coaches, outcomes, daily, maxPerDay, connected, hasSheet, StampsOn(today));
      sent == r.sent && errors == r.errors && skipped == r.skipped
      && sheet.ops == old(sheet.ops) + r.ops
      && tracker.dailyCount == daily + |r.marks|
      && tracker.sentEmails == MarkAll(old(tracker.sentEmails), r.marks, now)
      && analytics.Valid() && analytics.emailsSent == old(analytics.emailsSent) + |r.marks|
      && analytics.schoolsContacted == old(analytics.schoolsContacted) + SchoolsOf(r.marks)
      && tracker.lastDate == IsoFormat(today)
      && analytics.emailsByDate == CountOn(old(analytics.emailsByDate), IsoFormat(today), |r.marks|)
      && analytics.responsesReceived == old(analytics.responsesReceived)
      && analytics.offersReceived == old(analytics.offersReceived)
      && analytics.responded == old(analytics.responded) && analytics.offered == old(analytics.offered)
  {
    var todayIso := IsoFormat(today);
    ghost var daily := DailyAfter(tracker.lastDate, tracker.dailyCount, todayIso);
    var dailySent := tracker.GetDailyCount(todayIso);
    ghost var org := Origin(old(sheet.ops), old(tracker.sentEmails), daily, todayIso,
                            old(analytics.emailsSent), old(analytics.emailsByDate), old(analytics.schoolsContacted), todayIso,
                            old(analytics.responsesReceived), old(analytics.offersReceived),
                            old(analytics.responded), old(analytics.offered));
    MirrorsStart(org, now, sheet, tracker, analytics);
    ghost var r := SendResult(coaches, outcomes, daily, maxPerDay, connected, hasSheet, StampsOn(today));
    var remaining := maxPerDay - dailySent;
    if remaining <= 0 || !connected {
      sent, errors, skipped := 0, if remaining <= 0 then 0 else 1, |coaches|;
    } else {
      var st := StampsOn(today);
      sent, errors, skipped := SendAll(coaches, outcomes, remaining, hasSheet, st, tracker, analytics, sheet, todayIso, now, org);
    }
    assert sent == r.sent && errors == r.errors && skipped == r.skipped && Mirrors(r, org, now, sheet, tracker, analytics);
  }

  // ---------------------------------------------------------------------
  // The fallback template substitution
  // ---------------------------------------------------------------------

  /** The athlete fields the templates use. */
  datatype Athlete = Athlete(
    name: string, graduationYear: string, height: string, weight: string, positions: string,
    highSchool: string, city: string, state: string, gpa: string, highlightUrl: string,
    phone: string, email: string)

  /** `AthleteInfo.city_state`: "City, ST", or whichever part is present. */
  function CityState(a: Athlete): (r: string)
    ensures r == "" <==> a.city == "" && a.state == ""
    ensures a.city != "" && a.state != "" ==> r == a.city + ", " + a.state
    ensures a.city == "" || a.state == "" ==> r == a.city + a.state
  {
    if a.city != "" && a.state != "" then a.city + ", " + a.state
    else if a.city != "" then a.city
    else a.state
  }

  /** The template variables, in the order `prepare_email` lists them. */
  function Variables(c: Coach, a: Athlete): seq<(string, string)> {
    [("coach_name", c.lastName), ("school", c.school), ("athlete_name", a.name),
     ("position", if a.positions != "" then a.positions else "Athlete"),
     ("grad_year", a.graduationYear), ("height", a.height), ("weight", a.weight), ("gpa", a.gpa),
     ("hudl_link", a.highlightUrl), ("high_school", a.highSchool), ("city_state", CityState(a)),
     ("phone", a.phone), ("email", a.email), ("last_name", c.lastName),
     ("graduation_year", a.graduationYear), ("positions", a.positions), ("highlight_url", a.highlightUrl)]
  }

  /** The default templates and subjects of `EmailConfig`. */
  datatype Templates = Templates(
    rcTemplate: string, olTemplate: string, dualTemplate: string,
    rcSubject: string, olSubject: string, dualSubject: string)

  /** The (subject, body) templates for an entry: dual, OL, or else RC. */
  function TemplatesFor(r: Role, t: Templates): (p: (string, string))
    ensures r == Dual ==> p == (t.dualSubject, t.dualTemplate)
    ensures r == OL ==> p == (t.olSubject, t.olTemplate)
    ensures r == RC ==> p == (t.rcSubject, t.rcTemplate)
  {
    if r == Dual then (t.dualSubject, t.dualTemplate)
    else if r == OL then (t.olSubject, t.olTemplate)
    else (t.rcSubject, t.rcTemplate)
  }

  /** The fallback path of `prepare_email`. */
  method PrepareEmail(c: Coach, a: Athlete, t: Templates) returns (subject: string, body: string)
    ensures subject == FillOnce(TemplatesFor(c.role, t).0, Variables(c, a))
    ensures body == FillTwice(TemplatesFor(c.role, t).1, Variables(c, a))
  {
    var vars := Variables(c, a);
    var template, subjectTemplate;
    if c.role == Dual {
      template, subjectTemplate := t.dualTemplate, t.dualSubject;
    } else if c.role == OL {
      template, subjectTemplate := t.olTemplate, t.olSubject;
    } else {
      template, subjectTemplate := t.rcTemplate, t.rcSubject;
    }
    subject, body := subjectTemplate, template;
    for k := 0 to |vars|
      invariant subject == FillOnce(subjectTemplate, vars[..k])
      invariant body == FillTwice(template, vars[..k])
    {
      assert vars[..k + 1][..k] == vars[..k];
      var (key, value) := vars[k];
      subject := Replace(subject, "{" + key + "}", value);
      body := Replace(body, "{" + key + "}", value);
      body := Replace(body, "{" + key + "}", value);
    }
    assert vars[..|vars|] == vars;
  }
}
