/**
 * The two in-memory trackers of the e-mail sender: `EmailTracker` (who has
 * been e-mailed, and how many today) and `AnalyticsTracker` (running
 * counters). The JSON files they are loaded from and saved to are not part
 * of this model; "today" and "now" are passed in as ISO strings.
 */
module EmailTracking {
  import opened Text

  /** What `mark_sent` stores for an address. */
  datatype SentRecord = SentRecord(date: string, school: string, coachType: string)

  /** The number of distinct keys after storing one more (`get_total_sent`). */
  lemma StoreCount<V>(m: map<string, V>, key: string, v: V)
    ensures |m[key := v]| == |m| + (if key in m then 0 else 1)
  {
    if key in m {
      assert m[key := v].Keys == m.Keys;
    } else {
      assert m[key := v].Keys == m.Keys + {key};
    }
  }

  /** The count a tracker's `get_daily_count` reports: 0 once the stored date is not today. */
  function DailyAfter(lastDate: string, count: int, today: string): int {
    if lastDate != today then 0 else count
  }

  class EmailTracker {
    /** Lower-cased address to the record of the last send to it. */
    var sentEmails: map<string, SentRecord>
    var dailyCount: int
    var lastDate: string

    /** A tracker with nothing loaded, started on `today`. */
    constructor(today: string)
      ensures sentEmails == map[] && dailyCount == 0 && lastDate == today
    {
      sentEmails := map[];
      dailyCount := 0;
      lastDate := today;
    }

    /** `has_sent_to`: the address is known, whatever its case. */
    predicate HasSentTo(email: string)
      reads this
    {
      Lower(email) in sentEmails
    }

    /** `get_total_sent`: the number of distinct lower-cased addresses sent to. */
    function TotalSent(): (n: nat)
      reads this
      ensures n == 0 <==> sentEmails == map[]
      ensures forall e | HasSentTo(e) :: n >= 1
    {
      |sentEmails|
    }

    /** `mark_sent`: store the record under the lower-cased address and count one more send today. */
    method MarkSent(email: string, school: string, coachType: string, now: string)
      modifies this
      ensures sentEmails == old(sentEmails)[Lower(email) := SentRecord(now, school, coachType)]
      ensures dailyCount == old(dailyCount) + 1 && lastDate == old(lastDate)
      ensures HasSentTo(email)
      ensures forall e | Lower(e) == Lower(email) :: HasSentTo(e)
      ensures TotalSent() == old(TotalSent()) + (if old(HasSentTo(email)) then 0 else 1)
    {
      StoreCount(sentEmails, Lower(email), SentRecord(now, school, coachType));
      sentEmails := sentEmails[Lower(email) := SentRecord(now, school, coachType)];
      dailyCount := dailyCount + 1;
    }

    /** `get_daily_count`: a new day resets the count. */
    method GetDailyCount(today: string) returns (n: int)
      modifies this
      ensures lastDate == today && n == dailyCount
      ensures dailyCount == DailyAfter(old(lastDate), old(dailyCount), today)
      ensures sentEmails == old(sentEmails)
    {
      if lastDate != today {
        dailyCount := 0;
        lastDate := today;
      }
      n := dailyCount;
    }
  }

  /** Whether `x` occurs in `xs` at most once. */
  predicate NoDuplicates(xs: seq<string>) {
    forall i, j | 0 <= i < j < |xs| :: xs[i] != xs[j]
  }

  /** `list.append` guarded by `not in`, as the status lists are kept. */
  function AddOnce(xs: seq<string>, x: string): (r: seq<string>)
    ensures x in r && (forall y | y in xs :: y in r) && (forall y | y in r :: y in xs || y == x)
    ensures |r| == |xs| + (if x in xs then 0 else 1)
    ensures NoDuplicates(xs) ==> NoDuplicates(r)
  {
    if x in xs then xs else xs + [x]
  }

  /** The integer part of `get_stats` (the float response rate is not modelled). */
  datatype AnalyticsStats = AnalyticsStats(
    emailsSent: int, schoolsContacted: nat, responsesReceived: int, offersReceived: int)

  class AnalyticsTracker {
    var emailsSent: int
    var emailsByDate: map<string, int>
    var schoolsContacted: set<string>
    var responsesReceived: int
    var offersReceived: int
    /** `schools_by_status['responded']` and `['offered']`. */
    var responded: seq<string>
    var offered: seq<string>

    /**
     * What every `record_*` keeps: no school listed twice under a status,
     * no more schools than events behind them.
     */
    predicate Valid()
      reads this
    {
      NoDuplicates(responded) && NoDuplicates(offered)
      && |responded| <= responsesReceived && |offered| <= offersReceived
      && |schoolsContacted| <= emailsSent
      && (forall d | d in emailsByDate :: 1 <= emailsByDate[d] <= emailsSent)
    }

    /** The initial `data` dictionary. */
    constructor()
      ensures Valid()
      ensures emailsSent == 0 && emailsByDate == map[] && schoolsContacted == {}
      ensures responsesReceived == 0 && offersReceived == 0 && responded == [] && offered == []
    {
      emailsSent := 0;
      emailsByDate := map[];
      schoolsContacted := {};
      responsesReceived := 0;
      offersReceived := 0;
      responded := [];
      offered := [];
    }

    /** `record_email_sent`: one more send, counted under today's date and the school. */
    method RecordEmailSent(school: string, coachType: string, today: string)
      requires Valid()
      modifies this
      ensures Valid()
      ensures emailsSent == old(emailsSent) + 1
      ensures emailsByDate == old(emailsByDate)[today := (if today in old(emailsByDate) then old(emailsByDate)[today] else 0) + 1]
      ensures schoolsContacted == old(schoolsContacted) + {school}
      ensures responsesReceived == old(responsesReceived) && offersReceived == old(offersReceived)
      ensures responded == old(responded) && offered == old(offered)
    {
      emailsSent := emailsSent + 1;
      var before := if today in emailsByDate then emailsByDate[today] else 0;
      emailsByDate := emailsByDate[today := before + 1];
      schoolsContacted := schoolsContacted + {school};
    }

    /** `record_response`: one more response; the school listed once under "responded". */
    method RecordResponse(school: string)
      requires Valid()
      modifies this
      ensures Valid()
      ensures responsesReceived == old(responsesReceived) + 1
      ensures responded == AddOnce(old(responded), school)
      ensures emailsSent == old(emailsSent) && emailsByDate == old(emailsByDate)
      ensures schoolsContacted == old(schoolsContacted)
      ensures offersReceived == old(offersReceived) && offered == old(offered)
    {
      responsesReceived := responsesReceived + 1;
      if school !in responded {
        responded := responded + [school];
      }
    }

    /** `record_offer`: one more offer; the school listed once under "offered". */
    method RecordOffer(school: string)
      requires Valid()
      modifies this
      ensures Valid()
      ensures offersReceived == old(offersReceived) + 1
      ensures offered == AddOnce(old(offered), school)
      ensures emailsSent == old(emailsSent) && emailsByDate == old(emailsByDate)
      ensures schoolsContacted == old(schoolsContacted)
      ensures responsesReceived == old(responsesReceived) && responded == old(responded)
    {
      offersReceived := offersReceived + 1;
      if school !in offered {
        offered := offered + [school];
      }
    }

    /** The counts of `get_stats`: never more schools contacted than e-mails sent. */
    function Stats(): (s: AnalyticsStats)
      reads this
      ensures s.emailsSent == emailsSent && s.schoolsContacted == |schoolsContacted|
      ensures s.responsesReceived == responsesReceived && s.offersReceived == offersReceived
      ensures Valid() ==> s.schoolsContacted <= s.emailsSent && s.responsesReceived >= |responded|
      ensures Valid() ==> s.offersReceived >= |offered|
    {
      AnalyticsStats(emailsSent, |schoolsContacted|, responsesReceived, offersReceived)
    }
  }
}
