/**
 * The cell-level rules of the coach e-mail sender: header lookup by keyword,
 * the e-mail address pattern and clean-up, and the classifiers that read the
 * contacted, responded, e-mail-status, stage and next-contact cells.
 */
module EmailRules {
  import opened Text
  import opened Dates

  // ---------------------------------------------------------------------
  // Header lookup
  // ---------------------------------------------------------------------

  /** A header matches when one of the keywords occurs in `h.lower().strip()`. */
  predicate HeaderMatches(h: string, kws: seq<string>) {
    exists k | 0 <= k < |kws| :: Contains(Strip(Lower(h)), kws[k])
  }

  /** The index of the first matching header, or -1 when none matches. */
  function FirstMatch(headers: seq<string>, kws: seq<string>): (r: int)
    ensures -1 <= r < |headers|
    ensures r >= 0 ==> HeaderMatches(headers[r], kws)
    ensures forall j | 0 <= j < |headers| && (r == -1 || j < r) :: !HeaderMatches(headers[j], kws)
  {
    if |headers| == 0 then -1
    else if HeaderMatches(headers[0], kws) then 0
    else
      var r := FirstMatch(headers[1..], kws);
      assert forall j | 1 <= j < |headers| :: headers[j] == headers[1..][j - 1];
      if r < 0 then -1 else r + 1
  }

  /** `find_col`: headers in order, and for each header the keywords in order. */
  method FindCol(headers: seq<string>, kws: seq<string>) returns (r: int)
    ensures r == FirstMatch(headers, kws)
  {
    var i := 0;
    while i < |headers|
      invariant 0 <= i <= |headers|
      invariant forall j | 0 <= j < i :: !HeaderMatches(headers[j], kws)
    {
      var found := AnyKeywordIn(Strip(Lower(headers[i])), kws);
      if found {
        FirstMatchAt(headers, kws, i);
        return i;
      }
      i := i + 1;
    }
    FirstMatchNone(headers, kws);
    return -1;
  }

  /** The inner loop of `find_col`: does any keyword occur in the prepared header? */
  method AnyKeywordIn(h: string, kws: seq<string>) returns (found: bool)
    ensures found <==> exists k | 0 <= k < |kws| :: Contains(h, kws[k])
  {
    var k := 0;
    while k < |kws|
      invariant 0 <= k <= |kws|
      invariant forall m | 0 <= m < k :: !Contains(h, kws[m])
    {
      if Contains(h, kws[k]) {
        return true;
      }
      k := k + 1;
    }
    return false;
  }

  lemma FirstMatchAt(headers: seq<string>, kws: seq<string>, i: nat)
    requires i < |headers| && HeaderMatches(headers[i], kws)
    requires forall j | 0 <= j < i :: !HeaderMatches(headers[j], kws)
    ensures FirstMatch(headers, kws) == i
  {
  }

  lemma FirstMatchNone(headers: seq<string>, kws: seq<string>)
    requires forall j | 0 <= j < |headers| :: !HeaderMatches(headers[j], kws)
    ensures FirstMatch(headers, kws) == -1
  {
  }

  function SchoolKeywords(): seq<string> { ["school"] }
  function OlNameKeywords(): seq<string> { ["oline coach", "ol coach", "o-line coach", "offensive line coach", "oline", "position coach"] }
  function RcNameKeywords(): seq<string> { ["recruiting coordinator", "recruiting coord", "rc name"] }
  function OlEmailKeywords(): seq<string> { ["oc email", "ol email", "oline email", "position coach email"] }
  function RcEmailKeywords(): seq<string> { ["rc email", "recruiting coordinator email", "recruiting email"] }
  function OlContactedKeywords(): seq<string> { ["ol contacted", "oc contacted", "oline contacted", "position contacted"] }
  function RcContactedKeywords(): seq<string> { ["rc contacted", "recruiting contacted"] }
  function RcStageKeywords(): seq<string> { ["rc stage"] }
  function RcNextKeywords(): seq<string> { ["rc next contact", "rc next"] }
  function OlStageKeywords(): seq<string> { ["ol stage"] }
  function OlNextKeywords(): seq<string> { ["ol next contact", "ol next"] }
  function RcRespondedKeywords(): seq<string> { ["rc responded"] }
  function OlRespondedKeywords(): seq<string> { ["ol responded"] }
  function RcEmailStatusKeywords(): seq<string> { ["rc email status"] }
  function OlEmailStatusKeywords(): seq<string> { ["ol email status"] }

  // ---------------------------------------------------------------------
  // E-mail addresses
  // ---------------------------------------------------------------------

  /** `[a-zA-Z0-9._%+-]` */
  predicate LocalChar(c: char) {
    IsAsciiAlnum(c) || c == '.' || c == '_' || c == '%' || c == '+' || c == '-'
  }

  /** `[a-zA-Z0-9.-]` */
  predicate DomainChar(c: char) {
    IsAsciiAlnum(c) || c == '.' || c == '-'
  }

  /** `[a-zA-Z0-9.-]+\.[a-zA-Z]{2,}$`: some '.' with a domain run before it and two or more letters after it. */
  predicate DomainPattern(d: string) {
    (forall k | 0 <= k < |d| :: DomainChar(d[k]))
    && exists p | 1 <= p < |d| - 2 :: d[p] == '.' && forall k | p < k < |d| :: IsAsciiLetter(d[k])
  }

  /** `^[a-zA-Z0-9._%+-]+@[a-zA-Z0-9.-]+\.[a-zA-Z]{2,}$` matched against the whole string. */
  predicate EmailPattern(s: string) {
    exists i | 0 < i < |s| :: s[i] == '@' && (forall k | 0 <= k < i :: LocalChar(s[k])) && DomainPattern(s[i + 1..])
  }

  /** `is_valid_email`: non-empty, and once stripped it matches the pattern and is shorter than 100. */
  predicate IsValidEmail(email: string) {
    email != "" && EmailPattern(Strip(email)) && |Strip(email)| < 100
  }

  /**
   * `is_single_valid_email` of the sending loop: the same test with two
   * extra guards (exactly one '@'; no space, newline or carriage return).
   */
  predicate IsSingleValidEmail(email: string) {
    if email == "" then false
    else
      var e := Strip(email);
      if CountChar(e, '@') != 1 then false
      else if ' ' in e || '\n' in e || '\r' in e then false
      else EmailPattern(e) && |e| < 100
  }

  /** The '@' a matched address is split at, with what the pattern says of either side. */
  lemma PatternAt(s: string) returns (i: nat)
    requires EmailPattern(s)
    ensures 0 < i < |s| && s[i] == '@'
    ensures forall k | 0 <= k < i :: LocalChar(s[k])
    ensures forall k | i < k < |s| :: DomainChar(s[k])
    ensures DomainPattern(s[i + 1..])
  {
    i :| 0 < i < |s| && s[i] == '@' && (forall k | 0 <= k < i :: LocalChar(s[k])) && DomainPattern(s[i + 1..]);
    var d := s[i + 1..];
    forall k | i < k < |s| ensures DomainChar(s[k]) {
      assert s[k] == d[k - i - 1];
    }
  }

  /** Nothing a matched address holds is an '@' except its separator, nor a space, newline or carriage return. */
  lemma PatternChars(s: string) returns (i: nat)
    requires EmailPattern(s)
    ensures 0 < i < |s| && s[i] == '@'
    ensures forall k | 0 <= k < |s| && k != i :: s[k] != '@' && s[k] != ' ' && s[k] != '\n' && s[k] != '\r'
  {
    i := PatternAt(s);
  }

  lemma {:induction false} CountOne(s: string, c: char, i: nat)
    requires i < |s| && s[i] == c
    requires forall k | 0 <= k < |s| && k != i :: s[k] != c
    ensures CountChar(s, c) == 1
    decreases |s|
  {
    if i == 0 {
      assert c !in s[1..] by {
        forall k | 0 <= k < |s[1..]| ensures s[1..][k] != c { assert s[1..][k] == s[k + 1]; }
      }
    } else {
      forall k | 0 <= k < |s[1..]| && k != i - 1 ensures s[1..][k] != c { assert s[1..][k] == s[k + 1]; }
      CountOne(s[1..], c, i - 1);
    }
  }

  /** The extra guards of the sending loop reject nothing the pattern accepts. */
  lemma SingleValidIffValid(email: string)
    ensures IsSingleValidEmail(email) <==> IsValidEmail(email)
  {
    if IsValidEmail(email) {
      var e := Strip(email);
      var i := PatternChars(e);
      CountOne(e, '@', i);
      assert ' ' !in e && '\n' !in e && '\r' !in e by {
        forall k | 0 <= k < |e| ensures e[k] != ' ' && e[k] != '\n' && e[k] != '\r' {
          if k == i { assert e[k] == '@'; }
        }
      }
    }
  }

  /** Lower-casing keeps an address matched: letters stay letters and nothing else changes. */
  lemma PatternLower(s: string)
    requires EmailPattern(s)
    ensures EmailPattern(Lower(s))
  {
    var i := PatternAt(s);
    var t := Lower(s);
    LowerSuffix(s, i + 1);
    DomainLower(s[i + 1..]);
    forall k | 0 <= k < i ensures LocalChar(t[k]) {
      LowerCharClass(s[k]);
    }
    assert 0 < i < |t| && t[i] == '@' && (forall k | 0 <= k < i :: LocalChar(t[k])) && DomainPattern(t[i + 1..]);
  }

  lemma LowerCharClass(c: char)
    ensures LocalChar(c) ==> LocalChar(LowerChar(c))
    ensures DomainChar(c) ==> DomainChar(LowerChar(c))
    ensures IsAsciiLetter(c) ==> IsAsciiLetter(LowerChar(c))
  {
  }

  lemma LowerSuffix(s: string, j: nat)
    requires j <= |s|
    ensures Lower(s)[j..] == Lower(s[j..])
  {
  }

  lemma DomainLower(d: string)
    requires DomainPattern(d)
    ensures DomainPattern(Lower(d))
  {
    var e := Lower(d);
    var p :| 1 <= p < |d| - 2 && d[p] == '.' && forall k | p < k < |d| :: IsAsciiLetter(d[k]);
    forall k | 0 <= k < |e| ensures DomainChar(e[k]) && (p < k ==> IsAsciiLetter(e[k])) {
      LowerCharClass(d[k]);
    }
    assert 1 <= p < |e| - 2 && e[p] == '.' && forall k | p < k < |e| :: IsAsciiLetter(e[k]);
  }

  /** `clean_email`: strip and lower-case, drop newlines, returns and spaces, keep the first of a list, validate. */
  function CleanEmail(raw: string): (r: string)
    ensures r == "" || IsValidEmail(r)
  {
    if raw == "" then ""
    else
      var e0 := RemoveChar(RemoveChar(RemoveChar(Lower(Strip(raw)), '\n'), '\r'), ' ');
      var e1 := if ',' in e0 then Strip(BeforeFirst(e0, ',')) else e0;
      var e2 := if ';' in e1 then Strip(BeforeFirst(e1, ';')) else e1;
      var e3 := if '\n' in e2 then Strip(BeforeFirst(e2, '\n')) else e2;
      if IsValidEmail(e3) then e3 else ""
  }

  /** An address kept by `clean_email` passes the final check of the sending loop. */
  lemma CleanEmailSendable(raw: string)
    requires CleanEmail(raw) != ""
    ensures IsSingleValidEmail(Lower(Strip(CleanEmail(raw))))
  {
    ValidSendable(CleanEmail(raw));
  }

  /** Stripping and lower-casing a valid address, as the sending loop does, keeps it sendable. */
  lemma ValidSendable(email: string)
    requires IsValidEmail(email)
    ensures IsSingleValidEmail(Lower(Strip(email)))
  {
    var s := Strip(email);
    PatternLower(s);
    ValidMatched(Lower(s));
  }

  /** A string that matches the pattern and is shorter than 100 passes both address checks. */
  lemma ValidMatched(l: string)
    requires EmailPattern(l) && |l| < 100
    ensures IsValidEmail(l) && IsSingleValidEmail(l)
  {
    PatternNoSpace(l);
    StripNoSpace(l);
    SingleValidIffValid(l);
  }

  lemma PatternNoSpace(l: string)
    requires EmailPattern(l)
    ensures NoSpace(l)
  {
    var j := PatternAt(l);
    forall k | 0 <= k < |l| ensures !IsSpace(l[k]) {
      if k < j { assert LocalChar(l[k]); } else if k > j { assert DomainChar(l[k]); }
    }
  }

  // ---------------------------------------------------------------------
  // Row classifiers
  // ---------------------------------------------------------------------

  function ContactedIndicators(): seq<string> { ["yes", "followed", "sent", "done", "x", "true", "emailed", "contacted"] }

  /** `is_contacted`: some indicator occurs, or the cell is anything but blank, "no" or "false". */
  predicate IsContacted(value: string) {
    if value == "" then false
    else
      var v := Lower(Strip(value));
      (exists k | 0 <= k < |ContactedIndicators()| :: Contains(v, ContactedIndicators()[k]))
      || (v != "" && v != "no" && v != "false")
  }

  /** A string cannot contain a text that holds a character it lacks. */
  lemma {:induction false} NotContainsMissingChar(s: string, sub: string, c: char)
    requires c in sub && c !in s
    ensures !Contains(s, sub)
    decreases |s|
  {
    if |sub| <= |s| {
      assert c !in s[..|sub|];
    }
    if |s| > 0 {
      NotContainsMissingChar(s[1..], sub, c);
    }
  }

  lemma NoIndicatorIn(v: string)
    requires v == "" || v == "no" || v == "false"
    ensures forall k | 0 <= k < |ContactedIndicators()| :: !Contains(v, ContactedIndicators()[k])
  {
    // each indicator holds a character that none of "", "no", "false" holds
    var marks := ['y', 'w', 't', 'd', 'x', 't', 'm', 'c'];
    forall k | 0 <= k < |ContactedIndicators()| ensures !Contains(v, ContactedIndicators()[k]) {
      assert marks[k] in ContactedIndicators()[k];
      NotContainsMissingChar(v, ContactedIndicators()[k], marks[k]);
    }
  }

  /** The indicator list adds nothing: a cell counts as contacted unless it is blank, "no" or "false". */
  lemma IsContactedMeaning(value: string)
    ensures IsContacted(value) <==> !(Lower(Strip(value)) in {"", "no", "false"})
  {
    var v := Lower(Strip(value));
    if value == "" {
      assert Strip(value) == "";
    }
    if v == "" || v == "no" || v == "false" {
      NoIndicatorIn(v);
    }
  }

  /** `has_responded`: any non-blank text. */
  predicate HasResponded(value: string) {
    value != "" && Strip(value) != ""
  }

  function BadEmailMarks(): seq<string> { ["wrong", "bad", "invalid", "bounced"] }

  /** `has_bad_email`: the status cell is one of the bad-address marks, ignoring case and whitespace. */
  predicate HasBadEmail(value: string) {
    value != "" && Lower(Strip(value)) in BadEmailMarks()
  }

  /** `is_due_for_followup`: the cell holds an `MM/DD/YYYY` date on or before today. */
  predicate IsDueForFollowup(value: string, today: Date) {
    if value == "" then false
    else
      match ParseDate(Strip(value))
      case Some(d) => OnOrBefore(d, today)
      case None => false
  }

  /** The stage cell: `int(raw)` when the stripped text is all digits, else 0. */
  function StageOf(raw: string): (n: nat)
    ensures !IsDigits(Strip(raw)) ==> n == 0
    ensures IsDigits(Strip(raw)) ==> ParseInt(raw) == Some(n)
  {
    var t := Strip(raw);
    if IsDigits(t) then
      assert Strip(t) == t by { StripIdempotent(raw); }
      DigitsValue(t)
    else 0
  }

  /**
   * A next-contact date written as `strftime('%m/%d/%Y')` is due exactly
   * on the days that are on or after it.
   */
  lemma StampedDateDue(stamp: Date, today: Date)
    requires Valid(stamp) && stamp.year <= 9999
    ensures IsDueForFollowup(FormatDate(stamp), today) <==> OnOrBefore(stamp, today)
  {
    FormatDateStripped(stamp);
    FormatParseRoundTrip(stamp);
    DueOfParsed(FormatDate(stamp), stamp, today);
  }

  lemma DueOfParsed(s: string, d: Date, today: Date)
    requires Strip(s) == s && ParseDate(s) == Some(d)
    ensures IsDueForFollowup(s, today) <==> OnOrBefore(d, today)
  {
  }

  /**
   * A date stamped later than today is due from that date on, and not
   * today: an entry just stamped is not selected again the same day.
   */
  lemma LaterStampDue(today: Date, next: Date, t: Date)
    requires Valid(next) && next.year <= 9999 && OnOrBefore(today, next) && next != today
    ensures IsDueForFollowup(FormatDate(next), t) <==> OnOrBefore(next, t)
    ensures !IsDueForFollowup(FormatDate(next), today)
  {
    StampedDateDue(next, t);
    StampedDateDue(next, today);
    OnOrBeforeTotal(today, next);
  }

  function BlockedMarkers(): seq<string> {
    ["blocked", "banned", "suspended", "authentication", "sender refused", "550 5.7", "policy", "spam"]
  }

  function InvalidMarkers(): seq<string> {
    ["recipient", "mailbox", "user unknown", "does not exist", "550", "551", "552", "553", "554", "invalid", "rejected"]
  }

  /** The error text, lower-cased, names an account problem. */
  predicate IsBlocked(error: string) {
    exists k | 0 <= k < |BlockedMarkers()| :: Contains(Lower(error), BlockedMarkers()[k])
  }

  /** The error text, lower-cased, names a recipient problem. */
  predicate IsInvalidRecipient(error: string) {
    exists k | 0 <= k < |InvalidMarkers()| :: Contains(Lower(error), InvalidMarkers()[k])
  }
}
