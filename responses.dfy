/**
 * The response log of the outreach system: the list of sent emails and the
 * list of coach responses, the counts reported over them, the hot-lead
 * ranking of coaches who have not answered, the de-duplication of responses
 * read back from the mailbox, and the plain-text snippet kept for each.
 *
 * The IMAP mailbox, the EmailLog worksheet and the clock are outside the
 * model: what the mailbox returns and the current time are parameters.
 */
module Responses {
  import opened Text

  datatype SentEmail = SentEmail(
    coachEmail: string, coachName: string, school: string, division: string,
    coachType: string, templateId: string, followupNumber: int, sentAt: string)

  datatype Response = Response(
    coachEmail: string, coachName: string, school: string,
    subject: string, snippet: string, receivedAt: string)

  // ---------------------------------------------------------------------
  // Snippets
  // ---------------------------------------------------------------------

  const SnippetLength := 150

  /**
   * The text part of a snippet: whitespace runs become one space, the ends
   * are trimmed, and text longer than 150 characters is cut and marked "...".
   */
  function Snippet(text: string): (r: string)
    ensures |r| <= SnippetLength + 3
    ensures r == [] || !IsSpace(r[0])
    ensures SingleSpaced(r)
    ensures var t := Strip(Collapse(text, false));
      (|t| > SnippetLength <==> |r| == SnippetLength + 3 && r[SnippetLength..] == "...")
      && (|t| > SnippetLength ==> r[..SnippetLength] == t[..SnippetLength])
      && (|t| <= SnippetLength ==> r == t)
  {
    var t := Strip(Collapse(text, false));
    StripSingleSpaced(Collapse(text, false));
    if |t| > SnippetLength then
      var r := t[..SnippetLength] + "...";
      SingleSpacedSlice(t, 0, SnippetLength);
      assert SingleSpaced(r) by {
        forall i | 0 <= i < |r| && IsSpace(r[i]) ensures r[i] == ' ' && (i + 1 == |r| || !IsSpace(r[i + 1])) {
          if i + 1 < SnippetLength { assert r[i] == t[i] && r[i + 1] == t[i + 1]; }
          else if i + 1 == SnippetLength { assert r[i] == t[i]; }
        }
      }
      r
    else t
  }

  /** Taking the snippet of a snippet gives it back. */
  lemma SnippetIdempotent(text: string)
    ensures Snippet(Snippet(text)) == Snippet(text)
  {
    var r := Snippet(text);
    CollapseSingleSpaced(r);
    assert r == [] || !IsSpace(r[|r| - 1]) by {
      var t := Strip(Collapse(text, false));
      StripProps(Collapse(text, false));
      if |t| > SnippetLength { assert r[|r| - 1] == '.'; }
    }
    StripTrimmed(r);
  }

  // ---------------------------------------------------------------------
  // Matching a sent record to an address
  // ---------------------------------------------------------------------

  /** The most recent sent record whose address equals `email` ignoring case. */
  function LastSentMatch(sent: seq<SentEmail>, email: string): (r: Option<nat>)
    ensures r.Some? ==> (r.value < |sent| && EqualsIgnoreCase(sent[r.value].coachEmail, email)
                         && forall j | r.value < j < |sent| :: !EqualsIgnoreCase(sent[j].coachEmail, email))
    ensures r.None? ==> forall j | 0 <= j < |sent| :: !EqualsIgnoreCase(sent[j].coachEmail, email)
  {
    if sent == [] then None
    else if EqualsIgnoreCase(sent[|sent| - 1].coachEmail, email) then Some(|sent| - 1)
    else LastSentMatch(sent[..|sent| - 1], email)
  }

  /** The earliest sent record whose address equals `email` ignoring case. */
  function FirstSentMatch(sent: seq<SentEmail>, email: string): (r: Option<nat>)
    ensures r.Some? ==> (r.value < |sent| && EqualsIgnoreCase(sent[r.value].coachEmail, email)
                         && forall j | 0 <= j < r.value :: !EqualsIgnoreCase(sent[j].coachEmail, email))
    ensures r.None? ==> forall j | 0 <= j < |sent| :: !EqualsIgnoreCase(sent[j].coachEmail, email)
  {
    if sent == [] then None
    else if EqualsIgnoreCase(sent[0].coachEmail, email) then Some(0)
    else match FirstSentMatch(sent[1..], email)
      case None => None
      case Some(k) => Some(k + 1)
  }

  /** `received_at or now`: a missing or empty timestamp is replaced by the current time. */
  function OrNow(receivedAt: Option<string>, now: string): (r: string)
    ensures r == now || (receivedAt.Some? && r == receivedAt.value != "")
  {
    if receivedAt.Some? && receivedAt.value != "" then receivedAt.value else now
  }

  /** The record a response from `email` adds: name and school of the latest matching send. */
  function NewResponse(sent: seq<SentEmail>, email: string, subject: string, snippet: string,
                       receivedAt: string): (r: Response)
    ensures r.coachEmail == Strip(Lower(email)) && r.subject == subject && r.snippet == snippet
    ensures r.receivedAt == receivedAt
    ensures match LastSentMatch(sent, email)
      case Some(k) => r.coachName == sent[k].coachName && r.school == sent[k].school
      case None => r.coachName == "" && r.school == ""
  {
    match LastSentMatch(sent, email)
    case Some(k) => Response(Strip(Lower(email)), sent[k].coachName, sent[k].school, subject, snippet, receivedAt)
    case None => Response(Strip(Lower(email)), "", "", subject, snippet, receivedAt)
  }

  // ---------------------------------------------------------------------
  // Counts
  // ---------------------------------------------------------------------

  /** The addresses of the sent records, in order. */
  function SentEmails(sent: seq<SentEmail>): seq<string> {
    seq(|sent|, i requires 0 <= i < |sent| => sent[i].coachEmail)
  }

  /** The addresses of the responses, in order. */
  function ResponseEmails(rs: seq<Response>): seq<string> {
    seq(|rs|, i requires 0 <= i < |rs| => rs[i].coachEmail)
  }

  /** The distinct addresses of a list of records' addresses. */
  function Addresses(xs: seq<string>): (a: set<string>)
    ensures |a| <= |xs|
    ensures forall i | 0 <= i < |xs| :: xs[i] in a
  {
    if xs == [] then {}
    else Addresses(xs[..|xs| - 1]) + {xs[|xs| - 1]}
  }

  /** Every distinct address is the address of some record. */
  lemma {:induction false} AddressesFromRecords(xs: seq<string>, x: string)
    ensures x in Addresses(xs) <==> exists i | 0 <= i < |xs| :: xs[i] == x
    decreases |xs|
  {
    if xs != [] {
      AddressesFromRecords(xs[..|xs| - 1], x);
      if x in Addresses(xs[..|xs| - 1]) {
        var i :| 0 <= i < |xs| - 1 && xs[..|xs| - 1][i] == x;
        assert xs[i] == x;
      }
    }
  }

  /** The number of first emails: records with follow-up number 0. */
  function CountInitial(sent: seq<SentEmail>): nat {
    if sent == [] then 0
    else CountInitial(sent[..|sent| - 1]) + (if sent[|sent| - 1].followupNumber == 0 then 1 else 0)
  }

  /** The number of follow-ups: records with a positive follow-up number. */
  function CountFollowup(sent: seq<SentEmail>): nat {
    if sent == [] then 0
    else CountFollowup(sent[..|sent| - 1]) + (if sent[|sent| - 1].followupNumber > 0 then 1 else 0)
  }

  /** First emails and follow-ups never overlap, and they cover every record numbered from 0 up. */
  lemma {:induction false} InitialFollowupSplit(sent: seq<SentEmail>)
    ensures CountInitial(sent) + CountFollowup(sent) <= |sent|
    ensures (forall i | 0 <= i < |sent| :: sent[i].followupNumber >= 0) ==>
              CountInitial(sent) + CountFollowup(sent) == |sent|
    ensures (forall i | 0 <= i < |sent| :: sent[i].followupNumber != 0) ==> CountInitial(sent) == 0
    decreases |sent|
  {
    if sent != [] {
      InitialFollowupSplit(sent[..|sent| - 1]);
    }
  }

  datatype Stats = Stats(
    totalEmailsSent: nat, uniqueCoachesContacted: nat, initialEmails: nat,
    followupEmails: nat, totalResponses: nat, uniqueResponders: nat)

  /** The integer part of the overall statistics. */
  function StatsOf(sent: seq<SentEmail>, rs: seq<Response>): (s: Stats)
    ensures s.totalEmailsSent == |sent| && s.totalResponses == |rs|
    ensures s.uniqueCoachesContacted == |Addresses(SentEmails(sent))| <= s.totalEmailsSent
    ensures s.uniqueResponders == |Addresses(ResponseEmails(rs))| <= s.totalResponses
    ensures s.initialEmails + s.followupEmails <= s.totalEmailsSent
    ensures (forall i | 0 <= i < |sent| :: sent[i].followupNumber >= 0) ==>
              s.initialEmails + s.followupEmails == s.totalEmailsSent
  {
    InitialFollowupSplit(sent);
    Stats(|sent|, |Addresses(SentEmails(sent))|, CountInitial(sent), CountFollowup(sent),
          |rs|, |Addresses(ResponseEmails(rs))|)
  }

  // ---------------------------------------------------------------------
  // Counts per division
  // ---------------------------------------------------------------------

  /** The division a record is counted under: an empty division is "Unknown". */
  function DivisionOf(e: SentEmail): string {
    if e.division == "" then "Unknown" else e.division
  }

  /** The divisions of the sent records. */
  function Divisions(sent: seq<SentEmail>): (ds: set<string>)
    ensures forall i | 0 <= i < |sent| :: DivisionOf(sent[i]) in ds
  {
    if sent == [] then {}
    else Divisions(sent[..|sent| - 1]) + {DivisionOf(sent[|sent| - 1])}
  }

  /** The distinct addresses sent to under division `d`. */
  function DivisionCoaches(sent: seq<SentEmail>, d: string): (a: set<string>)
    ensures forall i | 0 <= i < |sent| && DivisionOf(sent[i]) == d :: sent[i].coachEmail in a
  {
    if sent == [] then {}
    else
      var e := sent[|sent| - 1];
      DivisionCoaches(sent[..|sent| - 1], d) + (if DivisionOf(e) == d then {e.coachEmail} else {})
  }

  /** A coach counted under a division was sent to under that division. */
  lemma {:induction false} DivisionCoachesSent(sent: seq<SentEmail>, d: string, x: string)
    requires x in DivisionCoaches(sent, d)
    ensures exists i | 0 <= i < |sent| :: sent[i].coachEmail == x && DivisionOf(sent[i]) == d
    decreases |sent|
  {
    var init := sent[..|sent| - 1];
    if x in DivisionCoaches(init, d) {
      DivisionCoachesSent(init, d, x);
      var i :| 0 <= i < |init| && init[i].coachEmail == x && DivisionOf(init[i]) == d;
      assert sent[i] == init[i];
    }
  }

  /** A division no record is counted under has no coaches. */
  lemma {:induction false} NoDivisionNoCoaches(sent: seq<SentEmail>, d: string)
    requires d !in Divisions(sent)
    ensures DivisionCoaches(sent, d) == {}
    decreases |sent|
  {
    if sent != [] { NoDivisionNoCoaches(sent[..|sent| - 1], d); }
  }

  /** The division a response from `email` is credited to: that of the first matching send. */
  function CreditedDivision(sent: seq<SentEmail>, email: string): (r: Option<string>)
    ensures r.Some? ==> r.value in Divisions(sent)
  {
    match FirstSentMatch(sent, email)
    case Some(k) => Some(DivisionOf(sent[k]))
    case None => None
  }

  /** The distinct responder addresses credited to division `d`. */
  function DivisionResponders(sent: seq<SentEmail>, rs: seq<Response>, d: string): set<string> {
    if rs == [] then {}
    else
      var r := rs[|rs| - 1];
      DivisionResponders(sent, rs[..|rs| - 1], d)
        + (if CreditedDivision(sent, r.coachEmail) == Some(d) then {r.coachEmail} else {})
  }

  /** A responder is credited to exactly the division of its first matching send, and to no other. */
  lemma {:induction false} RespondersCredited(sent: seq<SentEmail>, rs: seq<Response>, d: string, x: string)
    ensures x in DivisionResponders(sent, rs, d) <==>
              (exists i | 0 <= i < |rs| :: rs[i].coachEmail == x) && CreditedDivision(sent, x) == Some(d)
    decreases |rs|
  {
    if rs != [] {
      var init := rs[..|rs| - 1];
      RespondersCredited(sent, init, d, x);
      assert (exists i | 0 <= i < |init| :: init[i].coachEmail == x)
         <==> (exists i | 0 <= i < |rs| - 1 :: rs[i].coachEmail == x);
    }
  }

  datatype DivisionCount = DivisionCount(coaches: nat, responders: nat)

  /** The per-division counts: every division sent to, with its distinct coaches and responders. */
  function DivisionTable(sent: seq<SentEmail>, rs: seq<Response>): (t: map<string, DivisionCount>)
    ensures t.Keys == Divisions(sent)
  {
    map d | d in Divisions(sent) :: DivisionCount(|DivisionCoaches(sent, d)|, |DivisionResponders(sent, rs, d)|)
  }

  /** A responder sent to under some division is credited once; one matching nothing is not counted. */
  lemma DivisionResponderBounds(sent: seq<SentEmail>, rs: seq<Response>, d: string)
    requires d in Divisions(sent)
    ensures DivisionResponders(sent, rs, d) <= Addresses(ResponseEmails(rs))
    ensures forall x | x in DivisionResponders(sent, rs, d) ::
              exists i | 0 <= i < |sent| :: EqualsIgnoreCase(sent[i].coachEmail, x) && DivisionOf(sent[i]) == d
  {
    forall x | x in DivisionResponders(sent, rs, d)
      ensures x in Addresses(ResponseEmails(rs))
      ensures exists i | 0 <= i < |sent| :: EqualsIgnoreCase(sent[i].coachEmail, x) && DivisionOf(sent[i]) == d
    {
      RespondersCredited(sent, rs, d, x);
      var j :| 0 <= j < |rs| && rs[j].coachEmail == x;
      assert ResponseEmails(rs)[j] == x;
      var k := FirstSentMatch(sent, x).value;
      assert EqualsIgnoreCase(sent[k].coachEmail, x) && DivisionOf(sent[k]) == d;
    }
  }

  /** The per-division sets a pass over the first `sent` records and the first `rs` responses builds. */
  datatype Bucket = Bucket(coaches: set<string>, responders: set<string>)

  ghost predicate Buckets(b: map<string, Bucket>, sent: seq<SentEmail>, all: seq<SentEmail>, rs: seq<Response>) {
    b.Keys == Divisions(sent)
    && forall d | d in b :: b[d] == Bucket(DivisionCoaches(sent, d), DivisionResponders(all, rs, d))
  }

  lemma BucketsTable(b: map<string, Bucket>, sent: seq<SentEmail>, rs: seq<Response>)
    requires Buckets(b, sent, sent, rs)
    ensures (map d | d in b :: DivisionCount(|b[d].coaches|, |b[d].responders|)) == DivisionTable(sent, rs)
  {
  }

  lemma CoachStep(b: map<string, Bucket>, sent: seq<SentEmail>, i: nat)
    requires i < |sent| && Buckets(b, sent[..i], sent, [])
    ensures var d := DivisionOf(sent[i]);
      var cur := if d in b then b[d] else Bucket({}, {});
      Buckets(b[d := cur.(coaches := cur.coaches + {sent[i].coachEmail})], sent[..i + 1], sent, [])
  {
    assert sent[..i + 1][..i] == sent[..i];
    var d := DivisionOf(sent[i]);
    if d !in b { NoDivisionNoCoaches(sent[..i], d); }
  }

  lemma ResponderStep(b: map<string, Bucket>, sent: seq<SentEmail>, rs: seq<Response>, i: nat)
    requires i < |rs| && Buckets(b, sent, sent, rs[..i])
    ensures match FirstSentMatch(sent, rs[i].coachEmail)
      case None => Buckets(b, sent, sent, rs[..i + 1])
      case Some(k) =>
        var d := DivisionOf(sent[k]);
        d in b && Buckets(b[d := b[d].(responders := b[d].responders + {rs[i].coachEmail})], sent, sent, rs[..i + 1])
  {
    var rs1 := rs[..i + 1];
    assert rs1[..|rs1| - 1] == rs[..i];
    var e := rs[i].coachEmail;
    forall d
      ensures DivisionResponders(sent, rs1, d)
        == DivisionResponders(sent, rs[..i], d) + (if CreditedDivision(sent, e) == Some(d) then {e} else {})
    {
      assert rs1[|rs1| - 1] == rs[i];
    }
    match FirstSentMatch(sent, e)
    case None =>
    case Some(k) =>
      var d := DivisionOf(sent[k]);
      var b' := b[d := b[d].(responders := b[d].responders + {e})];
      assert d in Divisions(sent);
      assert b'.Keys == b.Keys;
  }

  /** The first pass of the division statistics: one set of coach addresses per division. */
  method CoachBuckets(sent: seq<SentEmail>) returns (b: map<string, Bucket>)
    ensures Buckets(b, sent, sent, [])
  {
    b := map[];
    for i := 0 to |sent|
      invariant Buckets(b, sent[..i], sent, [])
    {
      CoachStep(b, sent, i);
      var d := DivisionOf(sent[i]);
      var cur := if d in b then b[d] else Bucket({}, {});
      b := b[d := cur.(coaches := cur.coaches + {sent[i].coachEmail})];
    }
    assert sent[..|sent|] == sent;
  }

  /** The forward scan for the first send to `email`, ignoring case. */
  method FindFirstSent(sent: seq<SentEmail>, email: string) returns (r: Option<nat>)
    ensures r == FirstSentMatch(sent, email)
  {
    var j := 0;
    while j < |sent| && Lower(sent[j].coachEmail) != Lower(email)
      invariant 0 <= j <= |sent|
      invariant forall k | 0 <= k < j :: !EqualsIgnoreCase(sent[k].coachEmail, email)
    {
      j := j + 1;
    }
    r := if j < |sent| then Some(j) else None;
  }

  /** The second pass: each response credited to the division of its first matching send. */
  method AddResponders(b0: map<string, Bucket>, sent: seq<SentEmail>, rs: seq<Response>) returns (b: map<string, Bucket>)
    requires Buckets(b0, sent, sent, [])
    ensures Buckets(b, sent, sent, rs)
  {
    b := b0;
    assert rs[..0] == [];
    for i := 0 to |rs|
      invariant Buckets(b, sent, sent, rs[..i])
    {
      var m := FindFirstSent(sent, rs[i].coachEmail);
      ResponderStep(b, sent, rs, i);
      if m.Some? {
        var d := DivisionOf(sent[m.value]);
        b := b[d := b[d].(responders := b[d].responders + {rs[i].coachEmail})];
      }
    }
    assert rs[..|rs|] == rs;
  }

  // ---------------------------------------------------------------------
  // Stable descending sort and Python slicing
  // ---------------------------------------------------------------------

  /** `before` is a strict order: irreflexive and transitive. */
  ghost predicate StrictOrder<T(!new)>(before: (T, T) -> bool) {
    (forall a :: !before(a, a))
    && (forall a, b, c :: before(a, b) && before(b, c) ==> before(a, c))
  }

  /** No element comes strictly before one placed ahead of it. */
  ghost predicate SortedBy<T>(s: seq<T>, before: (T, T) -> bool) {
    forall i, j | 0 <= i < j < |s| :: !before(s[j], s[i])
  }

  /** Places `x` after every element it does not come before, keeping equals in arrival order. */
  function Insert<T>(x: T, ys: seq<T>, before: (T, T) -> bool): (r: seq<T>)
    ensures |r| == |ys| + 1
    ensures multiset(r) == multiset(ys) + multiset{x}
  {
    if ys == [] then [x]
    else if before(x, ys[0]) then [x] + ys
    else
      assert ys == [ys[0]] + ys[1..];
      [ys[0]] + Insert(x, ys[1..], before)
  }

  /** `sorted(xs, key=..., reverse=True)`: each element in turn inserted into the sorted prefix. */
  function SortDesc<T>(xs: seq<T>, before: (T, T) -> bool): (r: seq<T>)
    ensures multiset(r) == multiset(xs) && |r| == |xs|
  {
    if xs == [] then []
    else
      var init, last := xs[..|xs| - 1], xs[|xs| - 1];
      assert xs == init + [last];
      assert multiset(xs) == multiset(init) + multiset{last};
      Insert(last, SortDesc(init, before), before)
  }

  lemma {:induction false} InsertSorted<T(!new)>(x: T, ys: seq<T>, before: (T, T) -> bool)
    requires StrictOrder(before) && SortedBy(ys, before)
    ensures SortedBy(Insert(x, ys, before), before)
    decreases |ys|
  {
    if ys != [] && !before(x, ys[0]) {
      InsertSorted(x, ys[1..], before);
      var r := Insert(x, ys, before);
      forall j | 0 < j < |r| ensures !before(r[j], r[0]) {
        assert r[j] in multiset(ys[1..]) + multiset{x};
        if r[j] != x {
          var k :| 0 <= k < |ys[1..]| && ys[1..][k] == r[j];
          assert ys[k + 1] == r[j];
        }
      }
    } else if ys != [] {
      var r := Insert(x, ys, before);
      forall j | 0 < j < |r| ensures !before(r[j], x) {
        assert r[j] == ys[j - 1];
      }
    }
  }

  /** The sort puts its input in order. */
  lemma {:induction false} SortDescSorted<T(!new)>(xs: seq<T>, before: (T, T) -> bool)
    requires StrictOrder(before)
    ensures SortedBy(SortDesc(xs, before), before)
    decreases |xs|
  {
    if xs != [] {
      SortDescSorted(xs[..|xs| - 1], before);
      InsertSorted(xs[|xs| - 1], SortDesc(xs[..|xs| - 1], before), before);
    }
  }

  /** Python's `xs[:limit]`, where a negative limit counts from the end. */
  function Take<T>(xs: seq<T>, limit: int): (r: seq<T>)
    ensures |r| <= |xs| && r == xs[..|r|]
    ensures limit >= 0 ==> |r| == (if limit < |xs| then limit else |xs|)
    ensures limit < 0 ==> |r| == (if |xs| + limit > 0 then |xs| + limit else 0)
  {
    if limit >= 0 then (if limit < |xs| then xs[..limit] else xs)
    else if |xs| + limit > 0 then xs[..|xs| + limit] else []
  }

  /** A prefix of a sorted sequence is sorted, and keeps only elements of the sequence. */
  lemma TakeSorted<T>(xs: seq<T>, limit: int, before: (T, T) -> bool)
    requires SortedBy(xs, before)
    ensures SortedBy(Take(xs, limit), before)
    ensures forall x | x in Take(xs, limit) :: x in xs
  {
    var r := Take(xs, limit);
    forall x | x in r ensures x in xs {
      var k :| 0 <= k < |r| && r[k] == x;
      assert xs[k] == x;
    }
  }

  /**
   * Cutting a sorted sequence keeps part of it, and nothing cut off comes
   * before anything kept.
   */
  lemma TakeComplete<T>(xs: seq<T>, limit: int, before: (T, T) -> bool)
    requires SortedBy(xs, before)
    ensures multiset(Take(xs, limit)) <= multiset(xs)
    ensures forall x, y | x in multiset(xs) - multiset(Take(xs, limit)) && y in Take(xs, limit) :: !before(x, y)
  {
    var r := Take(xs, limit);
    var rest := xs[|r|..];
    assert xs == r + rest;
    assert multiset(xs) == multiset(r) + multiset(rest);
    forall x, y | x in multiset(xs) - multiset(r) && y in r ensures !before(x, y) {
      assert x in multiset(rest);
      var j :| 0 <= j < |rest| && rest[j] == x;
      var i :| 0 <= i < |r| && r[i] == y;
      assert xs[i] == y && xs[|r| + j] == x;
    }
  }
  /** The first `limit` of a sort are in order, drawn from its input, and outrank every element left out. */
  lemma TopOfSort<T(!new)>(xs: seq<T>, before: (T, T) -> bool, limit: int)
    requires StrictOrder(before)
    ensures var r := Take(SortDesc(xs, before), limit);
      SortedBy(r, before)
      && multiset(r) <= multiset(xs)
      && forall x, y | x in multiset(xs) - multiset(r) && y in r :: !before(x, y)
  {
    SortDescSorted(xs, before);
    TakeSorted(SortDesc(xs, before), limit, before);
    TakeComplete(SortDesc(xs, before), limit, before);
  }


  // ---------------------------------------------------------------------
  // Recent responses
  // ---------------------------------------------------------------------

  /** The later-received response comes first. */
  function ReceivedLater(a: Response, b: Response): bool {
    StrLt(b.receivedAt, a.receivedAt)
  }

  lemma ReceivedLaterOrder()
    ensures StrictOrder(ReceivedLater)
  {
    forall a: Response ensures !ReceivedLater(a, a) { StrLtIrreflexive(a.receivedAt); }
    forall a, b, c | ReceivedLater(a, b) && ReceivedLater(b, c) ensures ReceivedLater(a, c) {
      StrLtTransitive(c.receivedAt, b.receivedAt, a.receivedAt);
    }
  }

  /** `TopOfSort` for the newest-first order, stated on the receive times. */
  lemma RecentTop(rs: seq<Response>, limit: int)
    ensures var r := Take(SortDesc(rs, ReceivedLater), limit);
      multiset(r) <= multiset(rs)
      && (forall i, j | 0 <= i < j < |r| :: !StrLt(r[i].receivedAt, r[j].receivedAt))
      && forall x, y | x in multiset(rs) - multiset(r) && y in r :: !StrLt(y.receivedAt, x.receivedAt)
  {
    var r := Take(SortDesc(rs, ReceivedLater), limit);
    ReceivedLaterOrder();
    TopOfSort(rs, ReceivedLater, limit);
    forall i, j | 0 <= i < j < |r| ensures !StrLt(r[i].receivedAt, r[j].receivedAt) {
      assert !ReceivedLater(r[j], r[i]);
    }
    forall x, y | x in multiset(rs) - multiset(r) && y in r ensures !StrLt(y.receivedAt, x.receivedAt) {
      assert !ReceivedLater(x, y);
    }
  }

  /**
   * The most recent responses, newest first: `limit` of them (Python's
   * slice, so a negative limit drops that many from the end), drawn from
   * the recorded ones, and no response left out is newer than one kept.
   */
  function RecentResponses(rs: seq<Response>, limit: int): (r: seq<Response>)
    ensures limit >= 0 ==> |r| == (if limit < |rs| then limit else |rs|)
    ensures limit < 0 ==> |r| == (if |rs| + limit > 0 then |rs| + limit else 0)
    ensures multiset(r) <= multiset(rs)
    ensures forall i, j | 0 <= i < j < |r| :: !StrLt(r[i].receivedAt, r[j].receivedAt)
    ensures forall x, y | x in multiset(rs) - multiset(r) && y in r :: !StrLt(y.receivedAt, x.receivedAt)
  {
    RecentTop(rs, limit);
    Take(SortDesc(rs, ReceivedLater), limit)
  }

  // ---------------------------------------------------------------------
  // Hot leads
  // ---------------------------------------------------------------------

  datatype Lead = Lead(
    coachEmail: string, coachName: string, school: string, division: string,
    timesContacted: nat, lastContact: string)

  /** The lower-cased addresses that have responded. */
  function RespondedSet(rs: seq<Response>): (a: set<string>)
    ensures forall i | 0 <= i < |rs| :: Lower(rs[i].coachEmail) in a
  {
    if rs == [] then {}
    else RespondedSet(rs[..|rs| - 1]) + {Lower(rs[|rs| - 1].coachEmail)}
  }

  /** A key is in the responded set exactly when some response's lower-cased address is that key. */
  lemma {:induction false} RespondedSetMembers(rs: seq<Response>, key: string)
    ensures key in RespondedSet(rs) <==> exists i | 0 <= i < |rs| :: Lower(rs[i].coachEmail) == key
  {
    if rs != [] {
      var init := rs[..|rs| - 1];
      RespondedSetMembers(init, key);
      if key in RespondedSet(init) {
        var i :| 0 <= i < |init| && Lower(init[i].coachEmail) == key;
        assert rs[i] == init[i];
      }
    }
  }

  /** The number of sends to the lower-cased address `key`. */
  function SendsTo(sent: seq<SentEmail>, key: string): nat {
    if sent == [] then 0
    else SendsTo(sent[..|sent| - 1], key) + (if Lower(sent[|sent| - 1].coachEmail) == key then 1 else 0)
  }

  /** One send folded into the lead table, keyed by lower-cased address in first-seen order. */
  function AddSend(t: (seq<string>, map<string, Lead>), e: SentEmail, responded: set<string>): (seq<string>, map<string, Lead>) {
    var (order, m) := t;
    var k := Lower(e.coachEmail);
    if k in responded then t
    else if k !in m then (order + [k], m[k := Lead(e.coachEmail, e.coachName, e.school, e.division, 1, e.sentAt)])
    else
      var l := m[k];
      (order, m[k := l.(timesContacted := l.timesContacted + 1,
                         lastContact := if StrLt(l.lastContact, e.sentAt) then e.sentAt else l.lastContact)])
  }

  /** The lead table built from the sends, one send at a time. */
  function Tally(sent: seq<SentEmail>, responded: set<string>): (seq<string>, map<string, Lead>) {
    if sent == [] then ([], map[])
    else AddSend(Tally(sent[..|sent| - 1], responded), sent[|sent| - 1], responded)
  }

  /** The table's keys in first-seen order, each once. */
  ghost predicate WellOrdered(t: (seq<string>, map<string, Lead>)) {
    (forall k :: k in t.1 <==> k in t.0)
    && (forall i, j | 0 <= i < j < |t.0| :: t.0[i] != t.0[j])
  }

  /** Every address not responded to has an entry. */
  ghost predicate Covers(t: (seq<string>, map<string, Lead>), sent: seq<SentEmail>, responded: set<string>) {
    forall i | 0 <= i < |sent| && Lower(sent[i].coachEmail) !in responded :: Lower(sent[i].coachEmail) in t.1
  }

  /** Each entry is for an address not responded to, and counts the sends to it. */
  ghost predicate Counted(t: (seq<string>, map<string, Lead>), sent: seq<SentEmail>, responded: set<string>) {
    forall k | k in t.1 ::
      k !in responded && Lower(t.1[k].coachEmail) == k && t.1[k].timesContacted == SendsTo(sent, k) >= 1
  }

  /** No send to an entry's address is later than the entry's last contact. */
  ghost predicate Latest(t: (seq<string>, map<string, Lead>), sent: seq<SentEmail>) {
    forall k, i | k in t.1 && 0 <= i < |sent| && Lower(sent[i].coachEmail) == k :: !StrLt(t.1[k].lastContact, sent[i].sentAt)
  }

  /** Each entry's last contact is the time of some send to its address. */
  ghost predicate Witnessed(t: (seq<string>, map<string, Lead>), sent: seq<SentEmail>) {
    forall k | k in t.1 :: exists i | 0 <= i < |sent| :: Lower(sent[i].coachEmail) == k && sent[i].sentAt == t.1[k].lastContact
  }

  ghost predicate Describes(t: (seq<string>, map<string, Lead>), sent: seq<SentEmail>, responded: set<string>) {
    WellOrdered(t) && Covers(t, sent, responded) && Counted(t, sent, responded) && Latest(t, sent) && Witnessed(t, sent)
  }

  lemma AddSendOrdered(t: (seq<string>, map<string, Lead>), e: SentEmail, responded: set<string>)
    requires WellOrdered(t)
    ensures WellOrdered(AddSend(t, e, responded))
  {
  }

  lemma AddSendCovers(t: (seq<string>, map<string, Lead>), sent: seq<SentEmail>, e: SentEmail, responded: set<string>)
    requires Covers(t, sent, responded)
    ensures Covers(AddSend(t, e, responded), sent + [e], responded)
  {
    var s' := sent + [e];
    forall i | 0 <= i < |s'| && Lower(s'[i].coachEmail) !in responded
      ensures Lower(s'[i].coachEmail) in AddSend(t, e, responded).1
    {
      if i < |sent| { assert s'[i] == sent[i]; }
    }
  }

  lemma SendsToSnoc(sent: seq<SentEmail>, e: SentEmail, k: string)
    ensures SendsTo(sent + [e], k) == SendsTo(sent, k) + (if Lower(e.coachEmail) == k then 1 else 0)
  {
    assert (sent + [e])[..|sent|] == sent;
  }

  lemma AddSendCounted(t: (seq<string>, map<string, Lead>), sent: seq<SentEmail>, e: SentEmail, responded: set<string>)
    requires Covers(t, sent, responded) && Counted(t, sent, responded)
    ensures Counted(AddSend(t, e, responded), sent + [e], responded)
  {
    var t' := AddSend(t, e, responded);
    forall k | k in t'.1
      ensures k !in responded && Lower(t'.1[k].coachEmail) == k && t'.1[k].timesContacted == SendsTo(sent + [e], k) >= 1
    {
      SendsToSnoc(sent, e, k);
      if k !in t.1 {
        assert k == Lower(e.coachEmail);
        SendsToNone(sent, k, responded, t);
      }
    }
  }

  /** An address with no entry and not responded to has never been sent to. */
  lemma {:induction false} SendsToNone(sent: seq<SentEmail>, k: string, responded: set<string>, t: (seq<string>, map<string, Lead>))
    requires Covers(t, sent, responded) && k !in t.1 && k !in responded
    ensures SendsTo(sent, k) == 0
    decreases |sent|
  {
    if sent != [] {
      var init := sent[..|sent| - 1];
      forall i | 0 <= i < |init| && Lower(init[i].coachEmail) !in responded ensures Lower(init[i].coachEmail) in t.1 {
        assert init[i] == sent[i];
      }
      SendsToNone(init, k, responded, t);
    }
  }

  lemma AddSendLatest(t: (seq<string>, map<string, Lead>), sent: seq<SentEmail>, e: SentEmail, responded: set<string>)
    requires Covers(t, sent, responded) && Counted(t, sent, responded) && Latest(t, sent)
    ensures Latest(AddSend(t, e, responded), sent + [e])
  {
    var t' := AddSend(t, e, responded);
    var s' := sent + [e];
    var key := Lower(e.coachEmail);
    forall k, i | k in t'.1 && 0 <= i < |s'| && Lower(s'[i].coachEmail) == k
      ensures !StrLt(t'.1[k].lastContact, s'[i].sentAt)
    {
      StrLtIrreflexive(t'.1[k].lastContact);
      if i < |sent| {
        assert s'[i] == sent[i];
        if k == key && key !in responded {
          if key in t.1 {
            var l := t.1[key];
            if StrLt(l.lastContact, e.sentAt) && StrLt(e.sentAt, sent[i].sentAt) {
              StrLtTransitive(l.lastContact, e.sentAt, sent[i].sentAt);
            }
          } else {
            assert false;
          }
        }
      } else if key in t.1 {
        StrLtTotal(t.1[key].lastContact, e.sentAt);
      }
    }
  }

  lemma AddSendWitnessed(t: (seq<string>, map<string, Lead>), sent: seq<SentEmail>, e: SentEmail, responded: set<string>)
    requires Witnessed(t, sent)
    ensures Witnessed(AddSend(t, e, responded), sent + [e])
  {
    var t' := AddSend(t, e, responded);
    var s' := sent + [e];
    forall k | k in t'.1
      ensures exists i | 0 <= i < |s'| :: Lower(s'[i].coachEmail) == k && s'[i].sentAt == t'.1[k].lastContact
    {
      if k in t.1 && t'.1[k].lastContact == t.1[k].lastContact {
        var i :| 0 <= i < |sent| && Lower(sent[i].coachEmail) == k && sent[i].sentAt == t.1[k].lastContact;
        assert s'[i] == sent[i];
      } else {
        assert s'[|sent|] == e;
      }
    }
  }

  lemma {:induction false} TallyDescribes(sent: seq<SentEmail>, responded: set<string>)
    ensures Describes(Tally(sent, responded), sent, responded)
    decreases |sent|
  {
    if sent != [] {
      var init := sent[..|sent| - 1];
      var e := sent[|sent| - 1];
      assert sent == init + [e];
      TallyDescribes(init, responded);
      var t := Tally(init, responded);
      AddSendOrdered(t, e, responded);
      AddSendCovers(t, init, e, responded);
      AddSendCounted(t, init, e, responded);
      AddSendLatest(t, init, e, responded);
      AddSendWitnessed(t, init, e, responded);
    }
  }

  /** The table's leads in first-seen order. */
  function LeadList(t: (seq<string>, map<string, Lead>)): (r: seq<Lead>)
    requires forall k | k in t.0 :: k in t.1
    ensures |r| == |t.0| && forall i | 0 <= i < |r| :: r[i] == t.1[t.0[i]]
    decreases |t.0|
  {
    if t.0 == [] then []
    else LeadList((t.0[..|t.0| - 1], t.1)) + [t.1[t.0[|t.0| - 1]]]
  }

  /** Points for the division; unlisted and empty divisions get 5. */
  function DivisionScore(division: string): (s: nat)
    ensures 5 <= s <= 30
  {
    if division == "NAIA" || division == "JUCO" then 30
    else if division == "D3" then 25
    else if division == "D2" then 20
    else if division == "FCS" then 15
    else if division == "FBS" then 10
    else 5
  }

  /** Points for recency; a contact time that cannot be read earns none. */
  function RecencyScore(daysAgo: Option<int>): (s: nat)
    ensures s in {0, 10, 20}
    ensures s == 20 <==> daysAgo.Some? && daysAgo.value <= 7
    ensures s == 10 <==> daysAgo.Some? && 7 < daysAgo.value <= 14
  {
    match daysAgo
    case None => 0
    case Some(d) => if d <= 7 then 20 else if d <= 14 then 10 else 0
  }

  /**
   * The priority of a lead: 10 per contact up to three, the division's
   * points, and the recency points; `daysAgo` gives the whole days since a
   * contact time, or None when the time cannot be read.
   */
  function Score(l: Lead, daysAgo: string -> Option<int>): (s: nat)
    ensures 5 <= s <= 80
    ensures l.timesContacted >= 1 ==> 15 <= s
  {
    (if l.timesContacted < 3 then l.timesContacted else 3) * 10
      + DivisionScore(l.division) + RecencyScore(daysAgo(l.lastContact))
  }

  /** A further contact never lowers a score, and past three it stops raising it. */
  lemma ScoreContacts(l: Lead, daysAgo: string -> Option<int>)
    ensures Score(l.(timesContacted := l.timesContacted + 1), daysAgo) >= Score(l, daysAgo)
    ensures l.timesContacted >= 3 ==> Score(l.(timesContacted := l.timesContacted + 1), daysAgo) == Score(l, daysAgo)
    ensures l.timesContacted < 3 ==> Score(l.(timesContacted := l.timesContacted + 1), daysAgo) == Score(l, daysAgo) + 10
  {
  }

  function Outranks(daysAgo: string -> Option<int>): (Lead, Lead) -> bool {
    (a: Lead, b: Lead) => Score(a, daysAgo) > Score(b, daysAgo)
  }

  /** Every lead of the table, in first-seen order. */
  function AllLeads(sent: seq<SentEmail>, rs: seq<Response>): seq<Lead> {
    var t := Tally(sent, RespondedSet(rs));
    TallyDescribes(sent, RespondedSet(rs));
    LeadList(t)
  }

  /** Ranking by score is a strict order. */
  lemma OutranksStrict(daysAgo: string -> Option<int>)
    ensures StrictOrder(Outranks(daysAgo))
  {
  }

  /** The hot leads: coaches with no response, highest score first, at most `limit` of them. */
  function HotLeadList(sent: seq<SentEmail>, rs: seq<Response>, limit: int, daysAgo: string -> Option<int>): seq<Lead> {
    Take(SortDesc(AllLeads(sent, rs), Outranks(daysAgo)), limit)
  }

  /**
   * No hot lead has responded; each counts the sends to its address, carries
   * the latest send time, and no later lead outscores an earlier one.
   */
  lemma HotLeadsSound(sent: seq<SentEmail>, rs: seq<Response>, limit: int, daysAgo: string -> Option<int>)
    ensures var r := HotLeadList(sent, rs, limit, daysAgo);
      (limit >= 0 ==> |r| <= limit)
      && (forall i, j | 0 <= i < j < |r| :: Score(r[i], daysAgo) >= Score(r[j], daysAgo))
      && forall l | l in r ::
           (forall i | 0 <= i < |rs| :: Lower(rs[i].coachEmail) != Lower(l.coachEmail))
           && l.timesContacted == SendsTo(sent, Lower(l.coachEmail)) >= 1
           && (forall i | 0 <= i < |sent| && EqualsIgnoreCase(sent[i].coachEmail, l.coachEmail) :: !StrLt(l.lastContact, sent[i].sentAt))
           && (exists i | 0 <= i < |sent| :: EqualsIgnoreCase(sent[i].coachEmail, l.coachEmail) && sent[i].sentAt == l.lastContact)
  {
    var all := AllLeads(sent, rs);
    var r := HotLeadList(sent, rs, limit, daysAgo);
    OutranksStrict(daysAgo);
    TopOfSort(all, Outranks(daysAgo), limit);
    forall i, j | 0 <= i < j < |r| ensures Score(r[i], daysAgo) >= Score(r[j], daysAgo) {
      assert !Outranks(daysAgo)(r[j], r[i]);
    }
    AllLeadsDescribe(sent, rs);
    forall l | l in r ensures l in all {
      assert l in multiset(r);
    }
  }

  /** Each lead of the table describes a coach that never responded, with its send count and latest send. */
  lemma AllLeadsDescribe(sent: seq<SentEmail>, rs: seq<Response>)
    ensures forall l | l in AllLeads(sent, rs) ::
      (forall i | 0 <= i < |rs| :: Lower(rs[i].coachEmail) != Lower(l.coachEmail))
      && l.timesContacted == SendsTo(sent, Lower(l.coachEmail)) >= 1
      && (forall i | 0 <= i < |sent| && EqualsIgnoreCase(sent[i].coachEmail, l.coachEmail) :: !StrLt(l.lastContact, sent[i].sentAt))
      && (exists i | 0 <= i < |sent| :: EqualsIgnoreCase(sent[i].coachEmail, l.coachEmail) && sent[i].sentAt == l.lastContact)
  {
    var responded := RespondedSet(rs);
    var t := Tally(sent, responded);
    TallyDescribes(sent, responded);
    var leads := LeadList(t);
    assert leads == AllLeads(sent, rs);
    forall l | l in leads
      ensures (forall i | 0 <= i < |rs| :: Lower(rs[i].coachEmail) != Lower(l.coachEmail))
      ensures l.timesContacted == SendsTo(sent, Lower(l.coachEmail)) >= 1
      ensures forall i | 0 <= i < |sent| && EqualsIgnoreCase(sent[i].coachEmail, l.coachEmail) :: !StrLt(l.lastContact, sent[i].sentAt)
      ensures exists i | 0 <= i < |sent| :: EqualsIgnoreCase(sent[i].coachEmail, l.coachEmail) && sent[i].sentAt == l.lastContact
    {
      var p :| 0 <= p < |leads| && leads[p] == l;
      var k := t.0[p];
      assert l == t.1[k] && Lower(l.coachEmail) == k;
    }
  }


  /** The lower-cased addresses sent to that are not among `responded`. */
  function NonResponders(sent: seq<SentEmail>, responded: set<string>): set<string> {
    set i | 0 <= i < |sent| && Lower(sent[i].coachEmail) !in responded :: Lower(sent[i].coachEmail)
  }

  lemma {:induction false} SendsToSent(sent: seq<SentEmail>, k: string)
    requires SendsTo(sent, k) >= 1
    ensures exists i | 0 <= i < |sent| :: Lower(sent[i].coachEmail) == k
    decreases |sent|
  {
    var init := sent[..|sent| - 1];
    if SendsTo(init, k) >= 1 {
      SendsToSent(init, k);
      var i :| 0 <= i < |init| && Lower(init[i].coachEmail) == k;
      assert sent[i] == init[i];
    }
  }

  /** A sequence without repeats has as many distinct elements as positions. */
  lemma {:induction false} DistinctCard<T>(s: seq<T>)
    requires forall i, j | 0 <= i < j < |s| :: s[i] != s[j]
    ensures |set x | x in s| == |s|
    decreases |s|
  {
    if s != [] {
      var init, last := s[..|s| - 1], s[|s| - 1];
      DistinctCard(init);
      assert (set x | x in s) == (set x | x in init) + {last};
    }
  }

  /** An element at two positions occurs at least twice. */
  lemma TwoPositions<T>(s: seq<T>, i: int, j: int)
    requires 0 <= i < j < |s| && s[i] == s[j]
    ensures multiset(s)[s[i]] >= 2
  {
    assert s == s[..j] + [s[j]] + s[j + 1..];
    assert s[..j][i] == s[i];
    assert multiset(s[..j])[s[i]] >= 1;
  }

  /** In a sequence without repeats each element occurs once. */
  lemma DistinctOnce<T>(s: seq<T>, p: int)
    requires forall i, j | 0 <= i < j < |s| :: s[i] != s[j]
    requires 0 <= p < |s|
    ensures multiset(s)[s[p]] == 1
  {
    var x := s[p];
    assert s == s[..p] + [x] + s[p + 1..];
  }

  /**
   * The leads are one per address sent to that has not responded: each
   * for its own address, none twice, and no such address without a lead.
   */
  lemma AllLeadsCover(sent: seq<SentEmail>, rs: seq<Response>)
    ensures var all := AllLeads(sent, rs); var keys := NonResponders(sent, RespondedSet(rs));
      |all| == |keys|
      && (forall i, j | 0 <= i < j < |all| :: Lower(all[i].coachEmail) != Lower(all[j].coachEmail))
      && (forall l | l in all :: Lower(l.coachEmail) in keys)
      && (forall k | k in keys :: exists l | l in all :: Lower(l.coachEmail) == k)
  {
    var responded := RespondedSet(rs);
    var t := Tally(sent, responded);
    TallyDescribes(sent, responded);
    var all := LeadList(t);
    var keys := NonResponders(sent, responded);
    assert all == AllLeads(sent, rs);
    forall i | 0 <= i < |all| ensures Lower(all[i].coachEmail) == t.0[i] {
      assert t.0[i] in t.1;
    }
    var order := set x | x in t.0;
    forall k | k in keys ensures k in order {
      var i :| 0 <= i < |sent| && Lower(sent[i].coachEmail) !in responded && Lower(sent[i].coachEmail) == k;
      assert k in t.1;
    }
    forall k | k in order ensures k in keys {
      assert k in t.1;
      SendsToSent(sent, k);
      var i :| 0 <= i < |sent| && Lower(sent[i].coachEmail) == k;
    }
    assert order == keys;
    DistinctCard(t.0);
    forall k | k in keys ensures exists l | l in all :: Lower(l.coachEmail) == k {
      var p :| 0 <= p < |t.0| && t.0[p] == k;
      assert all[p] in all;
    }
  }

  /** Leads drawn from a list whose addresses are all different have all different addresses. */
  lemma DrawnDistinct(r: seq<Lead>, all: seq<Lead>)
    requires multiset(r) <= multiset(all)
    requires forall i, j | 0 <= i < j < |all| :: Lower(all[i].coachEmail) != Lower(all[j].coachEmail)
    ensures forall i, j | 0 <= i < j < |r| :: Lower(r[i].coachEmail) != Lower(r[j].coachEmail)
  {
    assert forall i, j | 0 <= i < j < |all| :: all[i] != all[j];
    forall i, j | 0 <= i < j < |r| ensures Lower(r[i].coachEmail) != Lower(r[j].coachEmail) {
      if Lower(r[i].coachEmail) == Lower(r[j].coachEmail) {
        assert r[i] in multiset(all) && r[j] in multiset(all);
        var p :| 0 <= p < |all| && all[p] == r[i];
        var q :| 0 <= q < |all| && all[q] == r[j];
        assert p == q;
        TwoPositions(r, i, j);
        DistinctOnce(all, p);
        assert false;
      }
    }
  }

  /**
   * The hot leads are the top `limit` leads by score: `limit` of them (or
   * all), each for a different address, drawn from the table, and no lead
   * left out scores more than one kept.
   */
  lemma HotLeadsRanked(sent: seq<SentEmail>, rs: seq<Response>, limit: int, daysAgo: string -> Option<int>)
    ensures var all := AllLeads(sent, rs); var r := HotLeadList(sent, rs, limit, daysAgo);
      (limit >= 0 ==> |r| == (if limit < |all| then limit else |all|))
      && multiset(r) <= multiset(all)
      && (forall x, y | x in multiset(all) - multiset(r) && y in r :: Score(x, daysAgo) <= Score(y, daysAgo))
      && (forall i, j | 0 <= i < j < |r| :: Lower(r[i].coachEmail) != Lower(r[j].coachEmail))
  {
    var all := AllLeads(sent, rs);
    var r := HotLeadList(sent, rs, limit, daysAgo);
    OutranksStrict(daysAgo);
    TopOfSort(all, Outranks(daysAgo), limit);
    forall x, y | x in multiset(all) - multiset(r) && y in r ensures Score(x, daysAgo) <= Score(y, daysAgo) {
      assert !Outranks(daysAgo)(x, y);
    }
    AllLeadsCover(sent, rs);
    DrawnDistinct(r, all);
  }

  // ---------------------------------------------------------------------
  // Responses read back from the mailbox
  // ---------------------------------------------------------------------

  /** A response as the mailbox reader reports it; `date` is the Date header, if any. */
  datatype RawResponse = RawResponse(coachEmail: string, subject: string, snippet: string, date: Option<string>)

  /** The (lower-cased address, subject) pairs already recorded. */
  function Known(rs: seq<Response>): (k: set<(string, string)>)
    ensures forall i | 0 <= i < |rs| :: (Lower(rs[i].coachEmail), rs[i].subject) in k
  {
    if rs == [] then {}
    else Known(rs[..|rs| - 1]) + {(Lower(rs[|rs| - 1].coachEmail), rs[|rs| - 1].subject)}
  }

  /** A known pair is the pair of some recorded response. */
  lemma {:induction false} KnownRecorded(rs: seq<Response>, p: (string, string))
    requires p in Known(rs)
    ensures exists i | 0 <= i < |rs| :: (Lower(rs[i].coachEmail), rs[i].subject) == p
    decreases |rs|
  {
    var init := rs[..|rs| - 1];
    if p in Known(init) {
      KnownRecorded(init, p);
      var i :| 0 <= i < |init| && (Lower(init[i].coachEmail), init[i].subject) == p;
      assert rs[i] == init[i];
    }
  }

  /** The mailbox responses whose pair was not known before the check, in mailbox order. */
  function Unknown(raw: seq<RawResponse>, known: set<(string, string)>): (r: seq<RawResponse>)
    ensures |r| <= |raw|
  {
    if raw == [] then []
    else
      var x := raw[|raw| - 1];
      Unknown(raw[..|raw| - 1], known) + (if (Lower(x.coachEmail), x.subject) in known then [] else [x])
  }

  /** The new responses are exactly the mailbox responses whose pair is not known. */
  lemma {:induction false} UnknownMembers(raw: seq<RawResponse>, known: set<(string, string)>, x: RawResponse)
    ensures x in Unknown(raw, known) <==> x in raw && (Lower(x.coachEmail), x.subject) !in known
    decreases |raw|
  {
    if raw != [] {
      var init := raw[..|raw| - 1];
      UnknownMembers(init, known, x);
      assert raw == init + [raw[|raw| - 1]];
    }
  }

  /** The records the new mailbox responses add, in order. */
  function Recorded(sent: seq<SentEmail>, found: seq<RawResponse>, now: string): (r: seq<Response>)
    ensures |r| == |found|
  {
    if found == [] then []
    else
      var x := found[|found| - 1];
      Recorded(sent, found[..|found| - 1], now) + [NewResponse(sent, x.coachEmail, x.subject, x.snippet, OrNow(x.date, now))]
  }

  /** One more mailbox response extends the unknown ones by itself exactly when its pair is new. */
  lemma UnknownStep(raw: seq<RawResponse>, known: set<(string, string)>, i: nat)
    requires i < |raw|
    ensures Unknown(raw[..i + 1], known)
         == Unknown(raw[..i], known) + (if (Lower(raw[i].coachEmail), raw[i].subject) in known then [] else [raw[i]])
  {
    assert raw[..i + 1][..i] == raw[..i];
  }

  /** Recording one more found response extends the recorded list by its record. */
  lemma RecordedStep(base: seq<Response>, sent: seq<SentEmail>, found: seq<RawResponse>, x: RawResponse,
                     now: string, cur: seq<Response>)
    requires cur == base + Recorded(sent, found, now)
    ensures cur + [NewResponse(sent, x.coachEmail, x.subject, x.snippet, OrNow(x.date, now))]
         == base + Recorded(sent, found + [x], now)
  {
    assert (found + [x])[..|found|] == found;
  }

  // ---------------------------------------------------------------------
  // The tracker
  // ---------------------------------------------------------------------

  class ResponseTracker {
    var sentEmails: seq<SentEmail>
    var responses: seq<Response>

    /** A tracker with empty lists; loading the EmailLog worksheet is not part of this model. */
    constructor ()
      ensures sentEmails == [] && responses == []
    {
      sentEmails := [];
      responses := [];
    }

    /** Whether a response from `email`, stripped and lower-cased, is recorded. */
    predicate HasResponded(email: string)
      reads this
      ensures HasResponded(email) <==> Strip(Lower(email)) in RespondedSet(responses)
    {
      RespondedSetMembers(responses, Strip(Lower(email)));
      exists i | 0 <= i < |responses| :: Lower(responses[i].coachEmail) == Strip(Lower(email))
    }

    /** Appends one sent record, with the address lower-cased and stripped; `now` is the send time. */
    method RecordSent(email: string, name: string, school: string, division: string, coachType: string,
                      templateId: string, followupNumber: int, now: string)
      modifies this
      ensures sentEmails == old(sentEmails) + [SentEmail(Strip(Lower(email)), name, school, division,
                                                         coachType, templateId, followupNumber, now)]
      ensures responses == old(responses)
    {
      sentEmails := sentEmails + [SentEmail(Strip(Lower(email)), name, school, division,
                                            coachType, templateId, followupNumber, now)];
    }

    /**
     * Appends one response, with the name and school of the most recent send
     * to the same address, found by a backwards scan; afterwards the coach
     * counts as having responded.
     */
    method RecordResponse(email: string, subject: string, snippet: string, receivedAt: Option<string>, now: string)
      modifies this
      ensures sentEmails == old(sentEmails)
      ensures responses == old(responses) + [NewResponse(sentEmails, email, subject, snippet, OrNow(receivedAt, now))]
      ensures HasResponded(email)
    {
      var name, school := "", "";
      var i := |sentEmails|;
      var found := false;
      while i > 0 && !found
        invariant 0 <= i <= |sentEmails|
        invariant forall j | i <= j < |sentEmails| && (!found || j != i) :: !EqualsIgnoreCase(sentEmails[j].coachEmail, email)
        invariant found ==> (i < |sentEmails| && EqualsIgnoreCase(sentEmails[i].coachEmail, email)
                             && name == sentEmails[i].coachName && school == sentEmails[i].school)
        invariant !found ==> name == "" && school == ""
      {
        i := i - 1;
        if Lower(sentEmails[i].coachEmail) == Lower(email) {
          name := sentEmails[i].coachName;
          school := sentEmails[i].school;
          found := true;
        }
      }
      assert found ==> LastSentMatch(sentEmails, email) == Some(i);
      var r := Response(Strip(Lower(email)), name, school, subject, snippet, OrNow(receivedAt, now));
      responses := responses + [r];
      StripLowered(email);
      assert responses[|responses| - 1] == r;
    }

    /** The integer statistics over both lists. */
    function GetStats(): (s: Stats)
      reads this
      ensures s.totalEmailsSent == |sentEmails| && s.totalResponses == |responses|
      ensures s.uniqueCoachesContacted == |Addresses(SentEmails(sentEmails))| <= s.totalEmailsSent
      ensures s.uniqueResponders == |Addresses(ResponseEmails(responses))| <= s.totalResponses
      ensures s.initialEmails == CountInitial(sentEmails) && s.followupEmails == CountFollowup(sentEmails)
      ensures s.initialEmails + s.followupEmails <= s.totalEmailsSent
      ensures (forall i | 0 <= i < |sentEmails| :: sentEmails[i].followupNumber >= 0) ==>
                s.initialEmails + s.followupEmails == s.totalEmailsSent
    {
      StatsOf(sentEmails, responses)
    }

    /** The coach and responder counts per division, built in two passes over the lists. */
    method GetStatsByDivision() returns (table: map<string, DivisionCount>)
      ensures table == DivisionTable(sentEmails, responses)
    {
      var sent, rs := sentEmails, responses;
      var buckets := CoachBuckets(sent);
      buckets := AddResponders(buckets, sent, rs);
      BucketsTable(buckets, sent, rs);
      table := map d | d in buckets :: DivisionCount(|buckets[d].coaches|, |buckets[d].responders|);
    }

    /** The newest responses first: `limit` of them, and none left out newer than one kept. */
    function GetRecentResponses(limit: int): (r: seq<Response>)
      reads this
      ensures limit >= 0 ==> |r| == (if limit < |responses| then limit else |responses|)
      ensures limit < 0 ==> |r| == (if |responses| + limit > 0 then |responses| + limit else 0)
      ensures multiset(r) <= multiset(responses)
      ensures forall i, j | 0 <= i < j < |r| :: !StrLt(r[i].receivedAt, r[j].receivedAt)
      ensures forall x, y | x in multiset(responses) - multiset(r) && y in r :: !StrLt(y.receivedAt, x.receivedAt)
    {
      RecentResponses(responses, limit)
    }

    /** Builds the lead table in one pass over the sends, then ranks it. */
    method GetHotLeads(limit: int, daysAgo: string -> Option<int>) returns (leads: seq<Lead>)
      ensures leads == HotLeadList(sentEmails, responses, limit, daysAgo)
    {
      var responded := RespondedSet(responses);
      var t: (seq<string>, map<string, Lead>) := ([], map[]);
      for i := 0 to |sentEmails|
        invariant t == Tally(sentEmails[..i], responded)
      {
        assert sentEmails[..i + 1][..i] == sentEmails[..i];
        t := AddSend(t, sentEmails[i], responded);
      }
      assert sentEmails[..|sentEmails|] == sentEmails;
      TallyDescribes(sentEmails, responded);
      var values := LeadList(t);
      leads := Take(SortDesc(values, Outranks(daysAgo)), limit);
    }

    /**
     * Records every mailbox response whose (address, subject) pair was not
     * known before the check began; returns their number and the responses.
     * Nothing is read when no email has been sent.
     */
    method CheckGmailForResponses(raw: seq<RawResponse>, now: string) returns (count: nat, found: seq<RawResponse>)
      modifies this
      ensures sentEmails == old(sentEmails)
      ensures count == |found|
      ensures old(sentEmails) == [] ==> found == [] && responses == old(responses)
      ensures old(sentEmails) != [] ==>
        found == Unknown(raw, Known(old(responses)))
        && responses == old(responses) + Recorded(sentEmails, found, now)
    {
      if sentEmails == [] {
        return 0, [];
      }
      var known := Known(responses);
      found := [];
      for i := 0 to |raw|
        invariant sentEmails == old(sentEmails)
        invariant found == Unknown(raw[..i], known)
        invariant responses == old(responses) + Recorded(sentEmails, found, now)
      {
        var x := raw[i];
        UnknownStep(raw, known, i);
        if (Lower(x.coachEmail), x.subject) !in known {
          RecordedStep(old(responses), sentEmails, found, x, now, responses);
          RecordResponse(x.coachEmail, x.subject, x.snippet, x.date, now);
          found := found + [x];
        }
      }
      assert raw[..|raw|] == raw;
      count := |found|;
    }
  }
}
