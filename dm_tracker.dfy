/**
 * The tracker of handles already sent a DM and of today's count (the
 * `DMTracker` of the Twitter sender).
 */
module DmTracking {
  import opened Text
  import opened EmailTracking

  /** `handle.lower().lstrip('@')`: the key a handle is tracked under. */
  function HandleKey(handle: string): (k: string)
    ensures k == [] || k[0] != '@'
  {
    LStrip(Lower(handle), '@')
  }

  lemma LowerAt(h: string)
    ensures Lower("@" + h) == "@" + Lower(h)
  {
  }

  lemma LStripFixed(s: string, c: char)
    requires s == [] || s[0] != c
    ensures LStrip(s, c) == s
  {
  }

  /**
   * A handle's key ignores case and leading '@': `@Coach` and `coach` are
   * the same handle, and a key is its own key.
   */
  lemma HandleKeyCanonical(h: string)
    ensures HandleKey("@" + h) == HandleKey(h)
    ensures HandleKey(Lower(h)) == HandleKey(h)
    ensures HandleKey(HandleKey(h)) == HandleKey(h)
  {
    LowerAt(h);
    assert ("@" + Lower(h))[1..] == Lower(h);
    LowerIdempotent(h);
    var k := HandleKey(h);
    LStripSuffix(Lower(h), '@');
    assert Lower(k) == k by {
      forall i | 0 <= i < |k|
        ensures Lower(k)[i] == k[i]
      {
        assert k[i] == Lower(h)[|Lower(h)| - |k| + i];
      }
    }
    LStripFixed(k, '@');
  }

  /** `message[:50] + '...' if len(message) > 50 else message`. */
  function Preview(message: string): (p: string)
    ensures |message| <= 50 ==> p == message
    ensures |message| > 50 ==> |p| == 53 && p[..50] == message[..50] && p[50..] == "..."
  {
    if |message| > 50 then message[..50] + "..." else message
  }

  /** `DMRecord`. */
  datatype DMRecord = DMRecord(handle: string, school: string, coachName: string, sentAt: string, messagePreview: string)

  class DMTracker {
    /** Handle key to the record of the DM sent to it. */
    var sentDms: map<string, DMRecord>
    var dailyCount: int
    var lastResetDate: string

    /** A tracker with nothing loaded, reset for `today`. */
    constructor(today: string)
      ensures sentDms == map[] && dailyCount == 0 && lastResetDate == today
    {
      sentDms := map[];
      dailyCount := 0;
      lastResetDate := today;
    }

    /** `has_sent_to`. */
    predicate HasSentTo(handle: string)
      reads this
    {
      HandleKey(handle) in sentDms
    }

    /** The DMs sent today, as `get_daily_count` would report them. */
    function Today(today: string): int
      reads this
    {
      DailyAfter(lastResetDate, dailyCount, today)
    }

    /**
     * `mark_sent`: the record stored under the handle's key, one more DM
     * today; afterwards every spelling of the handle counts as sent.
     */
    method MarkSent(handle: string, school: string, coachName: string, message: string, now: string)
      modifies this
      ensures sentDms == old(sentDms)[HandleKey(handle) := DMRecord(HandleKey(handle), school, coachName, now, Preview(message))]
      ensures dailyCount == old(dailyCount) + 1 && lastResetDate == old(lastResetDate)
      ensures forall h | HandleKey(h) == HandleKey(handle) :: HasSentTo(h)
    {
      var key := HandleKey(handle);
      sentDms := sentDms[key := DMRecord(key, school, coachName, now, Preview(message))];
      dailyCount := dailyCount + 1;
    }

    /** `get_daily_count`: a new day resets the count to 0. */
    method GetDailyCount(today: string) returns (n: int)
      modifies this
      ensures n == old(Today(today)) && n == dailyCount && lastResetDate == today
      ensures sentDms == old(sentDms)
    {
      if lastResetDate != today {
        dailyCount := 0;
        lastResetDate := today;
      }
      n := dailyCount;
    }
  }
}
