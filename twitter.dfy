/**
 * The Twitter/X direct-message sender: the tracker of handles already
 * messaged and of today's count, the guards in front of one DM, the
 * message template, and the two batch loops (over a given list, and over
 * the sheet's Twitter candidates with the status written back).
 *
 * The browser is not modelled: whether the browser part of a DM goes
 * through, or the text of the exception it raised, is an input
 * (`runs(i)` for the i-th coach of a batch).
 */
module Twitter {
  import opened Text
  import opened DmTracking
  import opened DmMessage
  import Sheets

  /** `TwitterConfig.max_dms_per_day`. */
  const MaxDmsPerDay: int := 20

  // ---------------------------------------------------------------------
  // One DM
  // ---------------------------------------------------------------------

  /** What the browser part of `send_dm` did: the DM went out, or it raised. */
  datatype BrowserRun = Delivered | Raised(error: string)

  /** Why `send_dm` reports failure. */
  datatype Refusal = AlreadySent | LimitReached | NotLoggedIn | BrowserFailed(error: string)

  /** The result of `send_dm`, with the handle stripped of leading '@'. */
  datatype DmResult = Sent(handle: string) | NotSent(handle: string, why: Refusal)

  /**
   * `send_dm`'s decision given the tracker's records, today's count and
   * the login state: already sent, then the daily limit, then the login,
   * then the browser.
   */
  function DmVerdict(sent: map<string, DMRecord>, daily: int, maxDms: int, loggedIn: bool, handle: string, run: BrowserRun): DmResult {
    var h := LStrip(handle, '@');
    if HandleKey(h) in sent then NotSent(h, AlreadySent)
    else if daily >= maxDms then NotSent(h, LimitReached)
    else if !loggedIn then NotSent(h, NotLoggedIn)
    else match run
      case Delivered => Sent(h)
      case Raised(e) => NotSent(h, BrowserFailed(e))
  }

  /**
   * The guards in order: an already-messaged handle is refused whatever the
   * count and login; a spent quota is refused whatever the login; and a DM
   * goes out exactly when it is new, under the limit, logged in and the
   * browser does not raise.
   */
  lemma GuardOrder(sent: map<string, DMRecord>, daily: int, maxDms: int, loggedIn: bool, handle: string, run: BrowserRun)
    ensures var r := DmVerdict(sent, daily, maxDms, loggedIn, handle, run);
      HandleKey(LStrip(handle, '@')) in sent ==> r.NotSent? && r.why == AlreadySent
    ensures var r := DmVerdict(sent, daily, maxDms, loggedIn, handle, run);
      HandleKey(LStrip(handle, '@')) !in sent && daily >= maxDms ==> r.NotSent? && r.why == LimitReached
    ensures DmVerdict(sent, daily, maxDms, loggedIn, handle, run).Sent? <==>
      HandleKey(LStrip(handle, '@')) !in sent && daily < maxDms && loggedIn && run == Delivered
  {
  }

  /** The error text `send_dm` reports for a refusal. */
  function ErrorText(why: Refusal, maxDms: int): string {
    match why
    case AlreadySent => "Already sent DM to this handle"
    case LimitReached => "Daily DM limit reached (" + IntToString(maxDms) + ")"
    case NotLoggedIn => "Not logged into Twitter"
    case BrowserFailed(e) => e
  }

  // ---------------------------------------------------------------------
  // The batch loops
  // ---------------------------------------------------------------------

  /** A coach of `send_to_coaches`: `handle`, `school` and `name` ('' when absent). */
  datatype DmCoach = DmCoach(handle: string, school: string, name: string)

  /** The entries `get_coaches_for_twitter` gives, as the loop reads them. */
  function FromSheet(e: Sheets.TwitterEntry): DmCoach {
    DmCoach(e.handle, e.school, e.name)
  }

  /**
   * The loop's state: the tracker's records and today's count, the three
   * counters, whether it has stopped on the limit, and the positions of
   * the coaches messaged.
   */
  datatype DmBatch = DmBatch(dms: map<string, DMRecord>, daily: int, sent: nat, errors: nat, skipped: nat,
                             halted: bool, messaged: seq<nat>)

  /** One pass of the loop body, for coach number `i`. */
  function DmStep(b: DmBatch, c: DmCoach, message: string, run: BrowserRun, i: nat,
                  maxDms: int, loggedIn: bool, now: string): DmBatch
  {
    var h := LStrip(c.handle, '@');
    if b.halted then b
    else if h == "" then b.(skipped := b.skipped + 1)
    else if b.daily >= maxDms then b.(halted := true)
    else if HandleKey(h) in b.dms then b.(skipped := b.skipped + 1)
    else
      match DmVerdict(b.dms, b.daily, maxDms, loggedIn, h, run)
      case Sent(_) =>
        b.(dms := b.dms[HandleKey(h) := DMRecord(HandleKey(h), c.school, c.name, now, Preview(message))],
           daily := b.daily + 1, sent := b.sent + 1, messaged := b.messaged + [i])
      case NotSent(_, _) => b.(errors := b.errors + 1)
  }

  /** The message each coach of a batch is sent. */
  function Messages(coaches: seq<DmCoach>, template: string, info: map<string, string>): (m: seq<string>)
    ensures |m| == |coaches|
  {
    if coaches == [] then []
    else
      var c := coaches[|coaches| - 1];
      Messages(coaches[..|coaches| - 1], template, info) + [MessageFor(c.name, c.school, template, info)]
  }

  lemma {:induction false} MessagesAt(coaches: seq<DmCoach>, template: string, info: map<string, string>, i: nat)
    requires i < |coaches|
    ensures Messages(coaches, template, info)[i] == MessageFor(coaches[i].name, coaches[i].school, template, info)
  {
    if i < |coaches| - 1 {
      MessagesAt(coaches[..|coaches| - 1], template, info, i);
    }
  }

  /** The state after the first `k` coaches, from the tracker's records and today's count. */
  function DmRun(coaches: seq<DmCoach>, runs: nat -> BrowserRun, messages: seq<string>,
                 maxDms: int, loggedIn: bool, now: string, dms0: map<string, DMRecord>, daily0: int, k: nat): DmBatch
    requires k <= |coaches| == |messages|
  {
    if k == 0 then DmBatch(dms0, daily0, 0, 0, 0, false, [])
    else DmStep(DmRun(coaches, runs, messages, maxDms, loggedIn, now, dms0, daily0, k - 1),
                coaches[k - 1], messages[k - 1], runs(k - 1), k - 1, maxDms, loggedIn, now)
  }

  function KeyOf(c: DmCoach): string {
    HandleKey(LStrip(c.handle, '@'))
  }

  /**
   * What holds after every pass: each send counted once today and on the
   * record; no more sends than the limit left; no coach counted twice; and
   * the coaches messaged were new to the tracker, in order, with distinct
   * handles.
   */
  predicate DmSound(b: DmBatch, coaches: seq<DmCoach>, k: nat, maxDms: int, dms0: map<string, DMRecord>, daily0: int)
    requires k <= |coaches|
  {
    b.daily == daily0 + b.sent
    && (b.sent > 0 ==> b.daily <= maxDms)
    && b.sent + b.errors + b.skipped <= k
    && (!b.halted ==> b.sent + b.errors + b.skipped == k)
    && |b.messaged| == b.sent
    && dms0.Keys <= b.dms.Keys
    && (forall j | 0 <= j < |b.messaged| :: b.messaged[j] < k && KeyOf(coaches[b.messaged[j]]) in b.dms
          && KeyOf(coaches[b.messaged[j]]) !in dms0)
    && (forall j1, j2 | 0 <= j1 < j2 < |b.messaged| ::
          b.messaged[j1] < b.messaged[j2] && KeyOf(coaches[b.messaged[j1]]) != KeyOf(coaches[b.messaged[j2]]))
  }

  lemma DmStepSound(b: DmBatch, coaches: seq<DmCoach>, message: string, run: BrowserRun, i: nat,
                    maxDms: int, loggedIn: bool, now: string, dms0: map<string, DMRecord>, daily0: int)
    requires i < |coaches| && DmSound(b, coaches, i, maxDms, dms0, daily0)
    ensures DmSound(DmStep(b, coaches[i], message, run, i, maxDms, loggedIn, now), coaches, i + 1, maxDms, dms0, daily0)
  {
    var c := coaches[i];
    var h := LStrip(c.handle, '@');
    var r := DmStep(b, c, message, run, i, maxDms, loggedIn, now);
    if !b.halted && h != "" && b.daily < maxDms && HandleKey(h) !in b.dms && r.sent == b.sent + 1 {
      assert KeyOf(c) == HandleKey(h);
      assert r.messaged == b.messaged + [i];
      forall j | 0 <= j < |r.messaged|
        ensures r.messaged[j] < i + 1 && KeyOf(coaches[r.messaged[j]]) in r.dms && KeyOf(coaches[r.messaged[j]]) !in dms0
      {
        if j < |b.messaged| {
          assert r.messaged[j] == b.messaged[j];
        }
      }
      forall j1, j2 | 0 <= j1 < j2 < |r.messaged|
        ensures r.messaged[j1] < r.messaged[j2] && KeyOf(coaches[r.messaged[j1]]) != KeyOf(coaches[r.messaged[j2]])
      {
        assert r.messaged[j1] == b.messaged[j1];
        if j2 < |b.messaged| {
          assert r.messaged[j2] == b.messaged[j2];
        }
      }
    }
  }

  lemma {:induction false} DmRunSound(coaches: seq<DmCoach>, runs: nat -> BrowserRun, messages: seq<string>,
                                      maxDms: int, loggedIn: bool, now: string, dms0: map<string, DMRecord>, daily0: int, k: nat)
    requires k <= |coaches| == |messages|
    ensures DmSound(DmRun(coaches, runs, messages, maxDms, loggedIn, now, dms0, daily0, k), coaches, k, maxDms, dms0, daily0)
  {
    if k > 0 {
      DmRunSound(coaches, runs, messages, maxDms, loggedIn, now, dms0, daily0, k - 1);
      DmStepSound(DmRun(coaches, runs, messages, maxDms, loggedIn, now, dms0, daily0, k - 1), coaches,
                  messages[k - 1], runs(k - 1), k - 1, maxDms, loggedIn, now, dms0, daily0);
    }
  }

  /** Once the limit has stopped the loop, the later passes change nothing (the `break`). */
  lemma {:induction false} DmRunHalted(coaches: seq<DmCoach>, runs: nat -> BrowserRun, messages: seq<string>,
                                       maxDms: int, loggedIn: bool, now: string, dms0: map<string, DMRecord>, daily0: int, k: nat, m: nat)
    requires k <= m <= |coaches| == |messages|
    requires DmRun(coaches, runs, messages, maxDms, loggedIn, now, dms0, daily0, k).halted
    ensures DmRun(coaches, runs, messages, maxDms, loggedIn, now, dms0, daily0, m)
         == DmRun(coaches, runs, messages, maxDms, loggedIn, now, dms0, daily0, k)
    decreases m - k
  {
    if m > k {
      DmRunHalted(coaches, runs, messages, maxDms, loggedIn, now, dms0, daily0, k, m - 1);
    }
  }

  /**
   * A batch never sends more than the limit left today, counts each coach
   * at most once, and never messages a handle twice nor one the tracker
   * already had.
   */
  lemma DmBatchBounds(coaches: seq<DmCoach>, runs: nat -> BrowserRun, messages: seq<string>,
                      maxDms: int, loggedIn: bool, now: string, dms0: map<string, DMRecord>, daily0: int)
    requires |coaches| == |messages|
    ensures var r := DmRun(coaches, runs, messages, maxDms, loggedIn, now, dms0, daily0, |coaches|);
      (r.sent == 0 || daily0 + r.sent <= maxDms)
      && r.sent + r.errors + r.skipped <= |coaches|
      && (forall j | 0 <= j < |r.messaged| :: r.messaged[j] < |coaches| && KeyOf(coaches[r.messaged[j]]) !in dms0)
      && (forall j1, j2 | 0 <= j1 < j2 < |r.messaged| :: r.messaged[j1] < r.messaged[j2] < |coaches| && KeyOf(coaches[r.messaged[j1]]) != KeyOf(coaches[r.messaged[j2]]))
  {
    DmRunSound(coaches, runs, messages, maxDms, loggedIn, now, dms0, daily0, |coaches|);
  }

  /** `get_stats`, without the `recent` list. */
  datatype DmStats = DmStats(totalSent: nat, sentToday: int, dailyLimit: int, remainingToday: int)

  /** The sender: its limit, its tracker and whether the browser is logged in. */
  class DMSender {
    const maxDmsPerDay: int
    const tracker: DMTracker
    var loggedIn: bool

    constructor(maxDms: int, today: string)
      ensures maxDmsPerDay == maxDms && !loggedIn && fresh(tracker)
      ensures tracker.sentDms == map[] && tracker.dailyCount == 0 && tracker.lastResetDate == today
    {
      maxDmsPerDay := maxDms;
      tracker := new DMTracker(today);
      loggedIn := false;
    }

    /**
     * `get_stats`: the DMs on record, today's count, the limit, and what is
     * left of it today (never negative).
     */
    function Stats(today: string): (s: DmStats)
      reads this, tracker
      ensures s.totalSent == |tracker.sentDms| && s.sentToday == tracker.Today(today)
      ensures s.dailyLimit == maxDmsPerDay
      ensures s.remainingToday >= 0 && s.sentToday + s.remainingToday >= s.dailyLimit
      ensures s.remainingToday > 0 ==> s.sentToday + s.remainingToday == s.dailyLimit
    {
      var today' := tracker.Today(today);
      DmStats(|tracker.sentDms|, today', maxDmsPerDay, if maxDmsPerDay - today' > 0 then maxDmsPerDay - today' else 0)
    }

    /** `send_dm`: the guards, then the browser, then the tracker on success. */
    method SendDm(handle: string, message: string, school: string, coachName: string, run: BrowserRun,
                  today: string, now: string) returns (r: DmResult)
      modifies tracker
      ensures r == DmVerdict(old(tracker.sentDms), old(tracker.Today(today)), maxDmsPerDay, loggedIn, handle, run)
      ensures r.Sent? ==> tracker.sentDms == old(tracker.sentDms)[HandleKey(r.handle) :=
                            DMRecord(HandleKey(r.handle), school, coachName, now, Preview(message))]
                          && tracker.Today(today) == old(tracker.Today(today)) + 1
      ensures r.NotSent? ==> tracker.sentDms == old(tracker.sentDms) && tracker.Today(today) == old(tracker.Today(today))
      ensures r == NotSent(r.handle, AlreadySent) ==>
        tracker.dailyCount == old(tracker.dailyCount) && tracker.lastResetDate == old(tracker.lastResetDate)
    {
      var h := LStrip(handle, '@');
      if tracker.HasSentTo(h) {
        return NotSent(h, AlreadySent);
      }
      var daily := tracker.GetDailyCount(today);
      if daily >= maxDmsPerDay {
        return NotSent(h, LimitReached);
      }
      if !loggedIn {
        return NotSent(h, NotLoggedIn);
      }
      match run {
        case Raised(e) =>
          return NotSent(h, BrowserFailed(e));
        case Delivered =>
          tracker.MarkSent(h, school, coachName, message, now);
          return Sent(h);
      }
    }

    /** One pass of either loop body; `stop` is the `break`, `delivered` a successful DM. */
    method DmOne(coaches: seq<DmCoach>, i: nat, run: BrowserRun, template: string, info: map<string, string>,
                 today: string, now: string, ghost msg: string, ghost b: DmBatch, sent: nat, errors: nat, skipped: nat)
      returns (sent': nat, errors': nat, skipped': nat, stop: bool, delivered: bool)
      requires i < |coaches| && msg == Messages(coaches, template, info)[i]
      requires !b.halted && sent == b.sent && errors == b.errors && skipped == b.skipped
      requires tracker.sentDms == b.dms && tracker.Today(today) == b.daily
      modifies tracker
      ensures var b' := DmStep(b, coaches[i], msg, run, i, maxDmsPerDay, loggedIn, now);
        sent' == b'.sent && errors' == b'.errors && skipped' == b'.skipped && stop == b'.halted
        && (delivered ==> b'.messaged == b.messaged + [i])
        && (!delivered ==> b'.messaged == b.messaged)
        && tracker.sentDms == b'.dms && tracker.Today(today) == b'.daily
    {
      sent', errors', skipped', stop, delivered := sent, errors, skipped, false, false;
      var c := coaches[i];
      MessagesAt(coaches, template, info, i);
      var h := LStrip(c.handle, '@');
      if h == "" {
        skipped' := skipped + 1;
        return;
      }
      var daily := tracker.GetDailyCount(today);
      if daily >= maxDmsPerDay {
        stop := true;
        return;
      }
      if tracker.HasSentTo(h) {
        skipped' := skipped + 1;
        return;
      }
      var lastName := LastName(c.name);
      var message := PrepareMessage(template, lastName, c.school, info);
      LStripFixed(h, '@');
      var result := SendDm(h, message, c.school, c.name, run, today, now);
      if result.Sent? {
        sent' := sent + 1;
        delivered := true;
      } else {
        errors' := errors + 1;
      }
    }

    /** The loop's counters and the tracker agree with the batch state `b`. */
    predicate Counts(b: DmBatch, sent: nat, errors: nat, skipped: nat, today: string)
      reads tracker
    {
      sent == b.sent && errors == b.errors && skipped == b.skipped
      && tracker.sentDms == b.dms && tracker.Today(today) == b.daily
    }

    /** Pass number `i` of a batch, as the step from `DmRun` at `i` to `DmRun` at `i + 1`. */
    method Pass(coaches: seq<DmCoach>, runs: nat -> BrowserRun, i: nat, template: string, info: map<string, string>,
                today: string, now: string, ghost msgs: seq<string>, ghost dms0: map<string, DMRecord>, ghost daily0: int,
                ghost b: DmBatch, sent: nat, errors: nat, skipped: nat)
      returns (sent': nat, errors': nat, skipped': nat, stop: bool, delivered: bool, ghost b': DmBatch)
      requires i < |coaches| && msgs == Messages(coaches, template, info)
      requires b == DmRun(coaches, runs, msgs, maxDmsPerDay, loggedIn, now, dms0, daily0, i) && !b.halted
      requires Counts(b, sent, errors, skipped, today)
      modifies tracker
      ensures b' == DmRun(coaches, runs, msgs, maxDmsPerDay, loggedIn, now, dms0, daily0, i + 1) && stop == b'.halted
      ensures Counts(b', sent', errors', skipped', today)
      ensures b'.messaged == (if delivered then b.messaged + [i] else b.messaged)
    {
      sent', errors', skipped', stop, delivered := DmOne(coaches, i, runs(i), template, info, today, now, msgs[i], b, sent, errors, skipped);
      b' := DmStep(b, coaches[i], msgs[i], runs(i), i, maxDmsPerDay, loggedIn, now);
    }

    /**
     * `send_to_coaches`: the counters, the tracker and the final daily total
     * are those of `DmRun` from the tracker's state on entry.
     */
    method SendToCoaches(coaches: seq<DmCoach>, template: string, info: map<string, string>, runs: nat -> BrowserRun,
                         today: string, now: string)
      returns (sent: nat, errors: nat, skipped: nat, dailyTotal: int)
      modifies tracker
      ensures var r := DmRun(coaches, runs, Messages(coaches, template, info), maxDmsPerDay, loggedIn, now,
                             old(tracker.sentDms), old(tracker.Today(today)), |coaches|);
        sent == r.sent && errors == r.errors && skipped == r.skipped && dailyTotal == r.daily
        && tracker.sentDms == r.dms
    {
      ghost var dms0, daily0 := tracker.sentDms, tracker.Today(today);
      ghost var msgs := Messages(coaches, template, info);
      ghost var b := DmRun(coaches, runs, msgs, maxDmsPerDay, loggedIn, now, dms0, daily0, 0);
      sent, errors, skipped := 0, 0, 0;
      var i, stopped := 0, false;
      while i < |coaches| && !stopped
        invariant 0 <= i <= |coaches|
        invariant b == DmRun(coaches, runs, msgs, maxDmsPerDay, loggedIn, now, dms0, daily0, i) && stopped == b.halted
        invariant Counts(b, sent, errors, skipped, today)
      {
        var delivered;
        sent, errors, skipped, stopped, delivered, b := Pass(coaches, runs, i, template, info, today, now, msgs, dms0, daily0, b, sent, errors, skipped);
        i := i + 1;
      }
      if stopped {
        DmRunHalted(coaches, runs, msgs, maxDmsPerDay, loggedIn, now, dms0, daily0, i, |coaches|);
      }
      dailyTotal := tracker.GetDailyCount(today);
    }

    /** One pass of the sheet loop: `Pass`, then the status cell when the DM went out. */
    method SheetPass(sheets: Sheets.SheetsManager, entries: seq<Sheets.TwitterEntry>, coaches: seq<DmCoach>,
                     runs: nat -> BrowserRun, i: nat, template: string, info: map<string, string>, today: string, now: string,
                     ghost msgs: seq<string>, ghost dms0: map<string, DMRecord>, ghost daily0: int,
                     ghost conn0: bool, ghost data0: seq<seq<string>>, ghost cells0: map<(int, int), string>,
                     ghost b: DmBatch, sent: nat, errors: nat, skipped: nat)
      returns (sent': nat, errors': nat, skipped': nat, stop: bool, ghost b': DmBatch)
      requires i < |coaches| == |entries| && msgs == Messages(coaches, template, info)
      requires b == DmRun(coaches, runs, msgs, maxDmsPerDay, loggedIn, now, dms0, daily0, i) && !b.halted
      requires Counts(b, sent, errors, skipped, today)
      requires Written(sheets, conn0, data0, cells0, entries, b.messaged)
      modifies tracker, sheets
      ensures b' == DmRun(coaches, runs, msgs, maxDmsPerDay, loggedIn, now, dms0, daily0, i + 1) && stop == b'.halted
      ensures Counts(b', sent', errors', skipped', today)
      ensures Written(sheets, conn0, data0, cells0, entries, b'.messaged)
    {
      var delivered;
      sent', errors', skipped', stop, delivered, b' := Pass(coaches, runs, i, template, info, today, now, msgs, dms0, daily0,
                                                          b, sent, errors, skipped);
      if delivered {
        MarkMessagedSnoc(cells0, entries, b.messaged, i);
        var _ := sheets.UpdateTwitterStatus(entries[i].rowIndex, entries[i].coachType, "messaged");
      }
    }

    /**
     * `send_to_coaches_from_sheet`: the same loop over the sheet's Twitter
     * candidates, writing "messaged" to the coach's Twitter status cell
     * after each DM that goes out.
     */
    method SendToCoachesFromSheet(sheets: Sheets.SheetsManager, template: string, info: map<string, string>,
                                  runs: nat -> BrowserRun, today: string, now: string)
      returns (sent: nat, errors: nat, skipped: nat, dailyTotal: int)
      modifies tracker, sheets
      ensures var d := if old(sheets.connected) then old(sheets.data) else [];
        var entries := if |d| < 2 then [] else Sheets.Collect(d[1..], Sheets.TwitterRow);
        var coaches := Candidates(entries);
        var r := DmRun(coaches, runs, Messages(coaches, template, info), maxDmsPerDay, loggedIn, now,
                       old(tracker.sentDms), old(tracker.Today(today)), |coaches|);
        sent == r.sent && errors == r.errors && skipped == r.skipped && dailyTotal == r.daily
        && tracker.sentDms == r.dms
        && sheets.cells == (if sheets.connected then MarkMessaged(old(sheets.cells), entries, r.messaged) else old(sheets.cells))
    {
      var entries := sheets.GetCoachesForTwitter();
      sent, errors, skipped, dailyTotal := SendToEntries(sheets, entries, Candidates(entries), template, info, runs, today, now);
    }

    /** The loop of `send_to_coaches_from_sheet` over the candidates read from the sheet. */
    method SendToEntries(sheets: Sheets.SheetsManager, entries: seq<Sheets.TwitterEntry>, coaches: seq<DmCoach>,
                         template: string, info: map<string, string>, runs: nat -> BrowserRun, today: string, now: string)
      returns (sent: nat, errors: nat, skipped: nat, dailyTotal: int)
      requires |coaches| == |entries|
      modifies tracker, sheets
      ensures var r := DmRun(coaches, runs, Messages(coaches, template, info), maxDmsPerDay, loggedIn, now,
                       old(tracker.sentDms), old(tracker.Today(today)), |coaches|);
        sent == r.sent && errors == r.errors && skipped == r.skipped && dailyTotal == r.daily
        && tracker.sentDms == r.dms
        && sheets.connected == old(sheets.connected) && sheets.data == old(sheets.data)
        && sheets.cells == (if sheets.connected then MarkMessaged(old(sheets.cells), entries, r.messaged) else old(sheets.cells))
    {
      ghost var dms0, daily0 := tracker.sentDms, tracker.Today(today);
      ghost var conn0, data0, cells0 := sheets.connected, sheets.data, sheets.cells;
      ghost var msgs := Messages(coaches, template, info);
      ghost var b := DmRun(coaches, runs, msgs, maxDmsPerDay, loggedIn, now, dms0, daily0, 0);
      sent, errors, skipped := 0, 0, 0;
      var i, stopped := 0, false;
      while i < |coaches| && !stopped
        invariant 0 <= i <= |coaches|
        invariant b == DmRun(coaches, runs, msgs, maxDmsPerDay, loggedIn, now, dms0, daily0, i) && stopped == b.halted
        invariant Counts(b, sent, errors, skipped, today)
        invariant Written(sheets, conn0, data0, cells0, entries, b.messaged)
      {
        sent, errors, skipped, stopped, b := SheetPass(sheets, entries, coaches, runs, i, template, info, today, now,
                                                       msgs, dms0, daily0, conn0, data0, cells0, b, sent, errors, skipped);
        i := i + 1;
      }
      if stopped {
        DmRunHalted(coaches, runs, msgs, maxDmsPerDay, loggedIn, now, dms0, daily0, i, |coaches|);
      }
      dailyTotal := tracker.GetDailyCount(today);
    }
  }

  /** The sheet is still connected to the same data, and its cells are `cells0` with the listed statuses written. */
  predicate Written(sheets: Sheets.SheetsManager, conn0: bool, data0: seq<seq<string>>, cells0: map<(int, int), string>,
                    entries: seq<Sheets.TwitterEntry>, messaged: seq<nat>)
    reads sheets
  {
    sheets.connected == conn0 && sheets.data == data0
    && sheets.cells == (if conn0 then MarkMessaged(cells0, entries, messaged) else cells0)
  }

  /** The coaches of the sheet's Twitter candidates, in sheet order. */
  function Candidates(entries: seq<Sheets.TwitterEntry>): (coaches: seq<DmCoach>)
    ensures |coaches| == |entries|
  {
    seq(|entries|, k requires 0 <= k < |entries| => FromSheet(entries[k]))
  }

  /** The 1-based column of a coach's Twitter status: 19 for "rc", 20 otherwise. */
  function StatusCol(coachType: string): int {
    if coachType == "rc" then 19 else 20
  }

  /** The sheet's cells after "messaged" is written for each listed entry, in order. */
  function MarkMessaged(cells: map<(int, int), string>, entries: seq<Sheets.TwitterEntry>, messaged: seq<nat>): map<(int, int), string> {
    if messaged == [] then cells
    else
      var j := messaged[|messaged| - 1];
      var prev := MarkMessaged(cells, entries, messaged[..|messaged| - 1]);
      if j < |entries| then
        prev[(entries[j].rowIndex, StatusCol(entries[j].coachType)) := "messaged"]
      else prev
  }

  /** Writing one more entry's status extends `MarkMessaged` by that one cell. */
  lemma MarkMessagedSnoc(cells: map<(int, int), string>, entries: seq<Sheets.TwitterEntry>, messaged: seq<nat>, i: nat)
    requires i < |entries|
    ensures MarkMessaged(cells, entries, messaged + [i])
         == MarkMessaged(cells, entries, messaged)[(entries[i].rowIndex,
              StatusCol(entries[i].coachType)) := "messaged"]
  {
    assert (messaged + [i])[..|messaged|] == messaged;
  }
}
