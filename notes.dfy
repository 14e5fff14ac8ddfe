/**
 * The one-off notes migration: free-text notes cells are parsed into a
 * responded date, a Twitter status and the notes that remain, and the
 * differences become a list of cell changes that a live run writes back.
 *
 * Each pattern of the migration is written out as its own matcher rather
 * than through a regular-expression engine. A literal matches ignoring ASCII
 * case, "whitespace" is `Text.IsSpace`, and a date is one or two digits, a
 * slash, one or two digits, and optionally a slash with two to four digits.
 * Where the engine would backtrack, the matcher computes the position at
 * which it would settle.
 */
module Notes {
  import opened Text
  import EmailRules

  // ---------------------------------------------------------------------
  // Matchers
  // ---------------------------------------------------------------------

  /** A pattern's literal text; it is never empty, so every match consumes text. */
  type Literal = s: string | s != [] witness "x"

  /** The shapes of the migration's patterns. */
  datatype Pattern =
    | Dated(lit: Literal)         // the literal, whitespace, and an optional captured date
    | Plain(lit: Literal)         // the literal alone
    | WrongTwitter(lit: Literal)  // the literal, colons or whitespace, and an optional http(s) link
    | DateRequired(lit: Literal)  // the literal, whitespace, and a date
    | FollowUpSent               // "Follow-up ", digits, " sent", whitespace, and a date
    | FollowUpNumbered           // "Follow-up ", digits, whitespace, and a date

  /** Where a match ends, and the date it captured, if any. */
  datatype Hit = Hit(end: nat, group: Option<string>)

  /** The literal `lit` occurs at `p`, ignoring case. */
  predicate LitAt(s: string, p: nat, lit: string) {
    p + |lit| <= |s| && Lower(s[p..p + |lit|]) == Lower(lit)
  }

  /** The end of the run of ASCII digits from `p`. */
  function DigitsEnd(s: string, p: nat): (e: nat)
    requires p <= |s|
    ensures p <= e <= |s| && (e == |s| || !IsAsciiDigit(s[e]))
    ensures forall k | p <= k < e :: IsAsciiDigit(s[k])
    decreases |s| - p
  {
    if p < |s| && IsAsciiDigit(s[p]) then DigitsEnd(s, p + 1) else p
  }

  /** The end of the run of colons and whitespace from `p`. */
  function ColonRunEnd(s: string, p: nat): (e: nat)
    requires p <= |s|
    ensures p <= e <= |s|
    decreases |s| - p
  {
    if p < |s| && (s[p] == ':' || IsSpace(s[p])) then ColonRunEnd(s, p + 1) else p
  }

  /** The end of the run of characters that are neither whitespace nor ';'. */
  function WordEnd(s: string, p: nat): (e: nat)
    requires p <= |s|
    ensures p <= e <= |s|
    ensures forall k | p <= k < e :: !IsSpace(s[k]) && s[k] != ';'
    decreases |s| - p
  {
    if p < |s| && !IsSpace(s[p]) && s[p] != ';' then WordEnd(s, p + 1) else p
  }

  predicate DateChar(c: char) { IsAsciiDigit(c) || c == '/' }

  /** Text shaped like a captured date: a digit first, then digits and slashes, at least three characters. */
  predicate IsDateText(t: string) {
    |t| >= 3 && IsAsciiDigit(t[0]) && forall k | 0 <= k < |t| :: DateChar(t[k])
  }

  /** The end of the second field and the optional year of a date whose first slash ends before `q`. */
  function DateTail(s: string, q: nat): (r: Option<nat>)
    requires q <= |s|
    ensures r.Some? ==> q < r.value <= |s| && forall k | q <= k < r.value :: DateChar(s[k])
  {
    if q == |s| || !IsAsciiDigit(s[q]) then None
    else
      var m := if q + 1 < |s| && IsAsciiDigit(s[q + 1]) then q + 2 else q + 1;
      if m < |s| && s[m] == '/' && DigitsEnd(s, m + 1) >= m + 3 then
        var e := DigitsEnd(s, m + 1);
        Some(if e > m + 5 then m + 5 else e)
      else Some(m)
  }

  /** The end of a date starting at `p`: one or two digits, a slash, then `DateTail`. */
  function DateEnd(s: string, p: nat): (r: Option<nat>)
    requires p <= |s|
    ensures r.Some? ==> p + 3 <= r.value <= |s| && IsDateText(s[p..r.value])
  {
    if p + 2 < |s| && IsAsciiDigit(s[p]) && IsAsciiDigit(s[p + 1]) && s[p + 2] == '/' then DateTail(s, p + 3)
    else if p + 1 < |s| && IsAsciiDigit(s[p]) && s[p + 1] == '/' then DateTail(s, p + 2)
    else None
  }

  /** The end of an "http://" or "https://" link starting at `p`, with at least one character after it. */
  function LinkEnd(s: string, p: nat): (r: Option<nat>)
    requires p <= |s|
    ensures r.Some? ==> p < r.value <= |s|
  {
    if !LitAt(s, p, "http") then None
    else
      var h := if LitAt(s, p + 4, "s://") then p + 8 else if LitAt(s, p + 4, "://") then p + 7 else p;
      if h == p then None
      else if WordEnd(s, h) > h then Some(WordEnd(s, h)) else None
  }

  /** The match of `pat` starting at `p`, if there is one. */
  function MatchAt(pat: Pattern, s: string, p: nat): (r: Option<Hit>)
    requires p <= |s|
    ensures r.Some? ==> p < r.value.end <= |s|
    ensures r.Some? && r.value.group.Some? ==> IsDateText(r.value.group.value)
  {
    match pat
    case Dated(lit) =>
      if !LitAt(s, p, lit) then None
      else
        var w := RunEnd(s, p + |lit|, false);
        (match DateEnd(s, w)
         case Some(e) => Some(Hit(e, Some(s[w..e])))
         case None => Some(Hit(w, None)))
    case Plain(lit) =>
      if LitAt(s, p, lit) then Some(Hit(p + |lit|, None)) else None
    case WrongTwitter(lit) =>
      if !LitAt(s, p, lit) then None
      else
        var w := ColonRunEnd(s, p + |lit|);
        (match LinkEnd(s, w)
         case Some(e) => Some(Hit(e, None))
         case None => Some(Hit(w, None)))
    case DateRequired(lit) =>
      if !LitAt(s, p, lit) then None
      else
        (match DateEnd(s, RunEnd(s, p + |lit|, false))
         case Some(e) => Some(Hit(e, None))
         case None => None)
    case FollowUpSent =>
      if !LitAt(s, p, "Follow-up ") then None
      else
        var d := DigitsEnd(s, p + 10);
        if d == p + 10 || !LitAt(s, d, " sent") then None
        else
          (match DateEnd(s, RunEnd(s, d + 5, false))
           case Some(e) => Some(Hit(e, None))
           case None => None)
    case FollowUpNumbered =>
      if !LitAt(s, p, "Follow-up ") then None
      else
        var d := DigitsEnd(s, p + 10);
        var w := RunEnd(s, d, false);
        // With whitespace after the digits the date follows it; with none,
        // the date can only begin at the last of at least two digits.
        var start := if w > d then w else if d >= p + 12 then d - 1 else |s|;
        if d == p + 10 then None
        else
          match DateEnd(s, start)
          case Some(e) => Some(Hit(e, None))
          case None => None
  }

  /** The numbered follow-up pattern needs at least one digit after "Follow-up ", as `\d+` does. */
  lemma FollowUpNumberedDigit(s: string, p: nat)
    requires p <= |s|
    ensures MatchAt(FollowUpNumbered, s, p).Some? ==> p + 10 < |s| && IsAsciiDigit(s[p + 10])
  {
  }

  /** The first match of `pat` at or after `p`, with where it starts. */
  function SearchFrom(pat: Pattern, s: string, p: nat): (r: Option<(nat, Hit)>)
    requires p <= |s|
    ensures r.Some? ==> p <= r.value.0 < |s| && MatchAt(pat, s, r.value.0) == Some(r.value.1)
    decreases |s| - p
  {
    if p == |s| then None
    else if MatchAt(pat, s, p).Some? then Some((p, MatchAt(pat, s, p).value))
    else SearchFrom(pat, s, p + 1)
  }

  /** The match found is the leftmost one: nothing matches between `p` and it, or anywhere after `p` when none is found. */
  lemma {:induction false} SearchFromLeftmost(pat: Pattern, s: string, p: nat, k: nat)
    requires p <= k < |s|
    requires SearchFrom(pat, s, p).None? || k < SearchFrom(pat, s, p).value.0
    ensures MatchAt(pat, s, k).None?
    decreases k - p
  {
    if k > p {
      SearchFromLeftmost(pat, s, p + 1, k);
    }
  }

  /** The leftmost match of `pat` in `s`. */
  function Search(pat: Pattern, s: string): Option<(nat, Hit)>
  {
    SearchFrom(pat, s, 0)
  }

  /** `s[p..]` with every match of `pat`, taken left to right without overlap, removed. */
  function SubFrom(pat: Pattern, s: string, p: nat): (r: string)
    requires p <= |s|
    ensures |r| <= |s| - p
    decreases |s| - p
  {
    if p == |s| then ""
    else match MatchAt(pat, s, p)
      case Some(h) =>
        SubFrom(pat, s, h.end)
      case None =>
        [s[p]] + SubFrom(pat, s, p + 1)
  }

  /** Every match of `pat` removed from `s`. */
  function Sub(pat: Pattern, s: string): (r: string)
    ensures |r| <= |s|
  {
    SubFrom(pat, s, 0)
  }

  /** Where nothing matches, removal changes nothing. */
  lemma {:induction false} SubFromNoMatch(pat: Pattern, s: string, p: nat)
    requires p <= |s| && SearchFrom(pat, s, p).None?
    ensures SubFrom(pat, s, p) == s[p..]
    decreases |s| - p
  {
    if p < |s| {
      assert MatchAt(pat, s, p).None?;
      SubFromNoMatch(pat, s, p + 1);
      assert s[p..] == [s[p]] + s[p + 1..];
    }
  }

  lemma SubNoMatch(pat: Pattern, s: string)
    requires Search(pat, s).None?
    ensures Sub(pat, s) == s
  {
    SubFromNoMatch(pat, s, 0);
  }

  /** Where something matches, removal shortens the text. */
  lemma {:induction false} SubFromShrinks(pat: Pattern, s: string, p: nat)
    requires p <= |s| && SearchFrom(pat, s, p).Some?
    ensures |SubFrom(pat, s, p)| < |s| - p
    decreases |s| - p
  {
    if MatchAt(pat, s, p).None? {
      SubFromShrinks(pat, s, p + 1);
    }
  }

  lemma SubShrinks(pat: Pattern, s: string)
    requires Search(pat, s).Some?
    ensures |Sub(pat, s)| < |s|
  {
    SubFromShrinks(pat, s, 0);
  }

  // ---------------------------------------------------------------------
  // The patterns
  // ---------------------------------------------------------------------

  const RespondedPatterns: seq<Pattern> := [Dated("RESPONDED"), Dated("Response received"), Dated("responded")]
  const DmPatterns: seq<Pattern> := [Dated("DM sent"), Dated("messaged")]
  const FollowedPatterns: seq<Pattern> := [Plain("Followed only"), Plain("followed only"), Plain("can only follow")]
  const WrongPatterns: seq<Pattern> := [WrongTwitter("Wrong Twitter"), WrongTwitter("wrong twitter"), Plain("Twitter wrong")]
  const FollowupPatterns: seq<Pattern> := [DateRequired("Intro sent"), FollowUpSent, FollowUpNumbered, DateRequired("Skipped")]

  /** The first pattern of `pats[i..]`, in order, that matches somewhere in `s`, and its leftmost match. */
  function FirstHitFrom(pats: seq<Pattern>, s: string, i: nat): (r: Option<(nat, Hit)>)
    requires i <= |pats|
    ensures r.Some? ==> (i <= r.value.0 < |pats| && Search(pats[r.value.0], s).Some? && Search(pats[r.value.0], s).value.1 == r.value.1
                         && forall j | i <= j < r.value.0 :: Search(pats[j], s).None?)
    ensures r.None? ==> forall j | i <= j < |pats| :: Search(pats[j], s).None?
    decreases |pats| - i
  {
    if i == |pats| then None
    else
      var m := Search(pats[i], s);
      if m.Some? then Some((i, m.value.1)) else FirstHitFrom(pats, s, i + 1)
  }

  /** The first pattern of `pats` that matches somewhere in `s`. */
  function FirstHit(pats: seq<Pattern>, s: string): Option<(nat, Hit)> {
    FirstHitFrom(pats, s, 0)
  }

  /** Loops over `pats` in order and stops at the first that matches. */
  method FindFirstHit(pats: seq<Pattern>, s: string) returns (r: Option<(nat, Hit)>)
    ensures r == FirstHit(pats, s)
  {
    var i := 0;
    while i < |pats|
      invariant 0 <= i <= |pats|
      invariant FirstHitFrom(pats, s, i) == FirstHit(pats, s)
    {
      var m := Search(pats[i], s);
      if m.Some? {
        return Some((i, m.value.1));
      }
      i := i + 1;
    }
    return None;
  }

  /** The patterns removed one after another, in order. */
  function SubAll(pats: seq<Pattern>, s: string): (r: string)
    ensures |r| <= |s|
  {
    if pats == [] then s else Sub(pats[|pats| - 1], SubAll(pats[..|pats| - 1], s))
  }

  // ---------------------------------------------------------------------
  // Parsing one notes cell
  // ---------------------------------------------------------------------

  datatype Parsed = Parsed(responded: string, twitterStatus: string, remainingNotes: string)

  /** Some ASCII letter or digit occurs in `s`. */
  predicate HasAlnum(s: string) {
    exists i | 0 <= i < |s| :: IsAsciiAlnum(s[i])
  }

  /**
   * The clean-up of the remaining notes: runs of ';' and whitespace become one
   * space, the ends are trimmed, whitespace runs are collapsed and trimmed
   * again, and text without a letter or digit is dropped.
   */
  function Clean(t: string): (r: string)
    ensures ';' !in r && SingleSpaced(r) && Strip(r) == r
    ensures r == "" || HasAlnum(r)
  {
    var a := Strip(Collapse(t, true));
    var b := Strip(Collapse(a, false));
    CleanSecondPass(t);
    StripSingleSpaced(Collapse(t, true));
    StripProps(Collapse(t, true));
    StripTrimmed(a);
    if b != "" && !HasAlnum(b) then "" else b
  }

  /** The second whitespace pass of the clean-up never changes anything. */
  lemma CleanSecondPass(t: string)
    ensures Strip(Collapse(Strip(Collapse(t, true)), false)) == Strip(Collapse(t, true))
  {
    var a := Strip(Collapse(t, true));
    StripSingleSpaced(Collapse(t, true));
    CollapseSingleSpaced(a);
    StripTrimmed(a);
  }

  /** The captured date, or "yes" when the match captured none. */
  function DateOrYes(h: Hit): (r: string)
    ensures r == "yes" || (h.group.Some? && r == h.group.value)
  {
    if h.group.Some? && h.group.value != "" then h.group.value else "yes"
  }

  /** No pattern of `pats` matches anywhere in `notes`. */
  predicate NoneMatch(pats: seq<Pattern>, notes: string)
  {
    forall j | 0 <= j < |pats| :: Search(pats[j], notes).None?
  }

  /**
   * The responded value and the notes left after its pattern is removed:
   * a value exactly when some responded pattern matches, the date it
   * captured or "yes".
   */
  function RespondedPart(notes: string): (r: (string, string))
    ensures r.0 == "" <==> NoneMatch(RespondedPatterns, notes)
    ensures r.0 != "" ==> r.0 == "yes" || IsDateText(r.0)
    ensures r.0 == "" ==> r.1 == notes
  {
    match FirstHit(RespondedPatterns, notes)
    case None => ("", notes)
    case Some((i, h)) => (DateOrYes(h), Sub(RespondedPatterns[i], notes))
  }

  /**
   * The Twitter status and the notes left after its pattern is removed:
   * "messaged" before "followed" before "wrong". Patterns are searched for in
   * the original `notes` and removed from `rem`.
   */
  function TwitterPart(notes: string, rem: string): (r: (string, string))
    ensures r.0 == "messaged" <==> !NoneMatch(DmPatterns, notes)
    ensures r.0 == "followed" <==> NoneMatch(DmPatterns, notes) && !NoneMatch(FollowedPatterns, notes)
    ensures r.0 == "wrong" <==>
              NoneMatch(DmPatterns, notes) && NoneMatch(FollowedPatterns, notes) && !NoneMatch(WrongPatterns, notes)
    ensures r.0 == "" <==>
              NoneMatch(DmPatterns, notes) && NoneMatch(FollowedPatterns, notes) && NoneMatch(WrongPatterns, notes)
    ensures r.0 == "" ==> r.1 == rem
  {
    match FirstHit(DmPatterns, notes)
    case Some((i, _)) => ("messaged", Sub(DmPatterns[i], rem))
    case None =>
      match FirstHit(FollowedPatterns, notes)
      case Some((i, _)) => ("followed", Sub(FollowedPatterns[i], rem))
      case None =>
        match FirstHit(WrongPatterns, notes)
        case Some((i, _)) => ("wrong", Sub(WrongPatterns[i], rem))
        case None => ("", rem)
  }

  /** What one notes cell parses to. */
  function ParseNotesSpec(notes: string): Parsed {
    if notes == "" then Parsed("", "", "")
    else
      var rp := RespondedPart(notes);
      var tp := TwitterPart(notes, rp.1);
      Parsed(rp.0, tp.0, Clean(SubAll(FollowupPatterns, tp.1)))
  }

  /** The remaining notes are trimmed, single-spaced, free of ';', and either empty or hold a letter or digit. */
  lemma ParseRemaining(notes: string)
    ensures var t := ParseNotesSpec(notes).remainingNotes;
      ';' !in t && SingleSpaced(t) && Strip(t) == t && (t == "" || HasAlnum(t))
  {
    if notes != "" {
      var rp := RespondedPart(notes);
      var tp := TwitterPart(notes, rp.1);
      assert ParseNotesSpec(notes).remainingNotes == Clean(SubAll(FollowupPatterns, tp.1));
    }
  }

  /** A responded value exactly when some responded pattern matches: the captured date, or "yes". */
  lemma ParseResponded(notes: string)
    requires notes != ""
    ensures ParseNotesSpec(notes).responded == "" <==> NoneMatch(RespondedPatterns, notes)
    ensures ParseNotesSpec(notes).responded != "" ==>
              ParseNotesSpec(notes).responded == "yes" || IsDateText(ParseNotesSpec(notes).responded)
  {
    var rp := RespondedPart(notes);
    assert ParseNotesSpec(notes).responded == rp.0;
  }

  /** The Twitter status is one of four values, by the precedence "messaged", "followed", "wrong". */
  lemma ParseTwitter(notes: string)
    ensures ParseNotesSpec(notes).twitterStatus in {"", "messaged", "followed", "wrong"}
    ensures notes != "" ==> var t := ParseNotesSpec(notes).twitterStatus;
      (t == "messaged" <==> !NoneMatch(DmPatterns, notes))
      && (t == "followed" <==> NoneMatch(DmPatterns, notes) && !NoneMatch(FollowedPatterns, notes))
      && (t == "wrong" <==>
            NoneMatch(DmPatterns, notes) && NoneMatch(FollowedPatterns, notes) && !NoneMatch(WrongPatterns, notes))
  {
    if notes != "" {
      var rp := RespondedPart(notes);
      var tp := TwitterPart(notes, rp.1);
      assert ParseNotesSpec(notes).twitterStatus == tp.0;
    }
  }

  /** A date directly after the follow-up number is found by giving back the number's last digit. */
  lemma FollowUpNumberedExample()
    ensures MatchAt(FollowUpNumbered, "Follow-up 23/5", 0) == Some(Hit(14, None))
  {
  }

  /** Without a number, "Follow-up" and a date are not a numbered follow-up, so they stay in the notes. */
  lemma FollowUpNoNumberExample()
    ensures MatchAt(FollowUpNumbered, "Follow-up  3/14", 0).None?
  {
  }

  /** The responded pattern captures the date after it, with the year's four digits. */
  lemma RespondedExample()
    ensures MatchAt(Dated("responded"), "responded 3/14/2024!", 0) == Some(Hit(19, Some("3/14/2024")))
  {
    var s := "responded 3/14/2024!";
    assert DateEnd(s, 10) == Some(19);
    assert s[10..19] == "3/14/2024";
  }

  /** Removing patterns none of which matches changes nothing. */
  lemma {:induction false} SubAllNoMatch(pats: seq<Pattern>, s: string)
    requires NoneMatch(pats, s)
    ensures SubAll(pats, s) == s
    decreases |pats|
  {
    if pats != [] {
      var init := pats[..|pats| - 1];
      assert NoneMatch(init, s) by {
        forall j | 0 <= j < |init| ensures Search(init[j], s).None? { assert init[j] == pats[j]; }
      }
      SubAllNoMatch(init, s);
      SubNoMatch(pats[|pats| - 1], s);
    }
  }

  /** Text that is already clean is left as it is. */
  lemma CleanFixed(t: string)
    requires ';' !in t && SingleSpaced(t) && Strip(t) == t && (t == "" || HasAlnum(t))
    ensures Clean(t) == t
  {
    SemicolonFreeCollapse(t);
    CollapseSingleSpaced(t);
  }

  /** Clean notes that no pattern touches come back unchanged, with nothing extracted. */
  lemma CleanNotesUnchanged(notes: string)
    requires NoneMatch(RespondedPatterns, notes) && NoneMatch(DmPatterns, notes)
    requires NoneMatch(FollowedPatterns, notes) && NoneMatch(WrongPatterns, notes)
    requires NoneMatch(FollowupPatterns, notes)
    requires ';' !in notes && SingleSpaced(notes) && Strip(notes) == notes && (notes == "" || HasAlnum(notes))
    ensures ParseNotesSpec(notes) == Parsed("", "", notes)
  {
    if notes != "" {
      SubAllNoMatch(FollowupPatterns, notes);
      CleanFixed(notes);
    }
  }

  /** Without ';' the two collapses agree. */
  lemma {:induction false} SemicolonFreeCollapse(s: string)
    requires ';' !in s
    ensures Collapse(s, true) == Collapse(s, false)
    decreases |s|
  {
    if s != [] {
      if IsSpace(s[0]) {
        RunEndNoSemicolon(s, 0);
        var j := RunEnd(s, 0, true);
        SemicolonFreeCollapse(s[j..]);
      } else {
        SemicolonFreeCollapse(s[1..]);
      }
    }
  }

  lemma {:induction false} RunEndNoSemicolon(s: string, i: nat)
    requires i <= |s| && ';' !in s
    ensures RunEnd(s, i, true) == RunEnd(s, i, false)
    decreases |s| - i
  {
    if i < |s| { RunEndNoSemicolon(s, i + 1); }
  }

  /** The responded phase: the first responded pattern found in the notes, removed from them. */
  method RespondedStep(notes: string) returns (responded: string, remaining: string)
    ensures (responded, remaining) == RespondedPart(notes)
  {
    responded, remaining := "", notes;
    var hit := FindFirstHit(RespondedPatterns, notes);
    if hit.Some? {
      responded := DateOrYes(hit.value.1);
      remaining := Sub(RespondedPatterns[hit.value.0], remaining);
    }
  }

  /** The Twitter phase: each pattern list is tried only while no status has been found. */
  method TwitterStep(notes: string, rem: string) returns (status: string, remaining: string)
    ensures (status, remaining) == TwitterPart(notes, rem)
  {
    status, remaining := "", rem;
    var hit := FindFirstHit(DmPatterns, notes);
    if hit.Some? {
      status := "messaged";
      remaining := Sub(DmPatterns[hit.value.0], remaining);
    }
    if status == "" {
      hit := FindFirstHit(FollowedPatterns, notes);
      if hit.Some? {
        status := "followed";
        remaining := Sub(FollowedPatterns[hit.value.0], remaining);
      }
    }
    if status == "" {
      hit := FindFirstHit(WrongPatterns, notes);
      if hit.Some? {
        status := "wrong";
        remaining := Sub(WrongPatterns[hit.value.0], remaining);
      }
    }
  }

  /** Removes the follow-up tracking patterns, one after another. */
  method RemoveFollowups(t: string) returns (remaining: string)
    ensures remaining == SubAll(FollowupPatterns, t)
  {
    remaining := t;
    for i := 0 to |FollowupPatterns|
      invariant remaining == SubAll(FollowupPatterns[..i], t)
    {
      assert FollowupPatterns[..i + 1][..i] == FollowupPatterns[..i];
      remaining := Sub(FollowupPatterns[i], remaining);
    }
    assert FollowupPatterns[..|FollowupPatterns|] == FollowupPatterns;
  }

  /** The parse, phase by phase, as the migration runs it. */
  method ParseNotes(notes: string) returns (r: Parsed)
    ensures r == ParseNotesSpec(notes)
  {
    if notes == "" {
      return Parsed("", "", "");
    }
    var responded, remaining := RespondedStep(notes);
    var status;
    status, remaining := TwitterStep(notes, remaining);
    remaining := RemoveFollowups(remaining);
    remaining := Strip(Collapse(remaining, true));
    remaining := Strip(Collapse(remaining, false));
    if remaining != "" && !HasAlnum(remaining) {
      remaining := "";
    }
    return Parsed(responded, status, remaining);
  }

  // ---------------------------------------------------------------------
  // The change list
  // ---------------------------------------------------------------------

  /** One cell write: what it is for, its 1-based column, and the value. */
  datatype Change = Change(field: string, col: int, value: string)

  /** The changes for one row, under its 1-based sheet row number. */
  datatype RowChanges = RowChanges(rowNum: int, school: string, changes: seq<Change>)

  // 1-based columns of the tracking fields the migration fills.
  const RcRespondedCol := 17
  const OlRespondedCol := 18
  const RcTwitterCol := 19
  const OlTwitterCol := 20

  const ExpectedHeaders: seq<string> := [
    "RC Stage", "RC Next Contact", "OL Stage", "OL Next Contact", "RC Responded",
    "OL Responded", "RC Twitter Status", "OL Twitter Status", "RC Email Status", "OL Email Status"]

  /** Some header, stripped and lower-cased, equals `name` lower-cased. */
  predicate HeaderPresent(headers: seq<string>, name: string) {
    exists i | 0 <= i < |headers| :: Lower(Strip(headers[i])) == Lower(name)
  }

  /** The names of `expected`, in order, that no header carries, ignoring case and surrounding whitespace. */
  function Missing(expected: seq<string>, headers: seq<string>): (r: seq<string>)
    ensures forall h | h in r :: h in expected
    ensures forall h | h in expected :: h in r <==> !HeaderPresent(headers, h)
  {
    if expected == [] then []
    else
      var rest := Missing(expected[1..], headers);
      assert forall h | h in expected :: h == expected[0] || h in expected[1..];
      if HeaderPresent(headers, expected[0]) then rest else [expected[0]] + rest
  }

  /** The tracking headers the sheet lacks. */
  function MissingHeaders(headers: seq<string>): seq<string> {
    Missing(ExpectedHeaders, headers)
  }

  /** The 0-based columns the migration reads, each -1 when no header names it. */
  datatype Columns = Columns(school: int, rcNotes: int, olNotes: int)

  /** The first header, stripped and lower-cased, that contains the name; -1 when none does. */
  function FindCol(headers: seq<string>, name: string): (r: int)
    ensures -1 <= r < |headers|
    ensures r >= 0 ==> Contains(Lower(Strip(headers[r])), name)
    ensures forall j | 0 <= j < |headers| && (r == -1 || j < r) :: !Contains(Lower(Strip(headers[j])), name)
  {
    var r := EmailRules.FirstMatch(headers, [name]);
    assert forall j | 0 <= j < |headers| ::
        EmailRules.HeaderMatches(headers[j], [name]) <==> Contains(Lower(Strip(headers[j])), name) by {
      forall j | 0 <= j < |headers|
        ensures EmailRules.HeaderMatches(headers[j], [name]) <==> Contains(Lower(Strip(headers[j])), name)
      {
        LowerStripCommute(headers[j]);
        assert [name][0] == name;
      }
    }
    r
  }

  function ColumnsOf(headers: seq<string>): Columns {
    Columns(FindCol(headers, "school"), FindCol(headers, "rc notes"), FindCol(headers, "ol notes"))
  }

  /** The cell at a 0-based column, or "" when the column is absent or past the row's end. */
  function CellAt(row: seq<string>, col: int): (r: string)
    ensures 0 <= col < |row| ==> r == row[col]
    ensures !(0 <= col < |row|) ==> r == ""
  {
    if 0 <= col < |row| then row[col] else ""
  }

  /**
   * The changes a non-empty notes cell yields once parsed as `p`: its
   * responded value and its Twitter status when there is one, and the
   * cleaned notes, written back to the notes column, when they differ from
   * what was read.
   */
  function ChangesOf(notes: string, p: Parsed, side: string, respondedCol: int, twitterCol: int, notesCol: int): seq<Change> {
    (if p.responded != "" then [Change(side + " Responded", respondedCol, p.responded)] else [])
    + (if p.twitterStatus != "" then [Change(side + " Twitter Status", twitterCol, p.twitterStatus)] else [])
    + (if p.remainingNotes != notes then [Change(side + " Notes", notesCol, p.remainingNotes)] else [])
  }

  /** The changes of one notes cell; an empty cell yields none. */
  function NotesChanges(notes: string, side: string, respondedCol: int, twitterCol: int, notesCol: int): seq<Change> {
    if notes == "" then [] else ChangesOf(notes, ParseNotesSpec(notes), side, respondedCol, twitterCol, notesCol)
  }

  /**
   * At most three changes, at most one per field: a responded or Twitter
   * change carries the parsed value, which is never empty; a notes change
   * appears exactly when cleaning altered the notes, and writes the cleaned
   * text.
   */
  lemma ChangesOfProps(notes: string, p: Parsed, side: string, respondedCol: int, twitterCol: int, notesCol: int)
    ensures var r := ChangesOf(notes, p, side, respondedCol, twitterCol, notesCol);
      |r| <= 3
      && (forall c | c in r && c.field != side + " Notes" :: c.value != "")
      && (forall c | c in r && c.field == side + " Responded" :: c.col == respondedCol && c.value == p.responded)
      && (forall c | c in r && c.field == side + " Twitter Status" :: c.col == twitterCol && c.value == p.twitterStatus)
      && ((exists c | c in r :: c.field == side + " Notes") <==> p.remainingNotes != notes)
      && (forall c | c in r && c.field == side + " Notes" :: c.col == notesCol && c.value == p.remainingNotes)
      && (forall c | c in r :: c.field in {side + " Responded", side + " Twitter Status", side + " Notes"})
  {
    assert side + " Notes" != side + " Responded" by {
      assert (side + " Notes")[|side| + 1] == 'N';
    }
    assert side + " Notes" != side + " Twitter Status" by {
      assert (side + " Notes")[|side| + 1] == 'N';
    }
    assert side + " Responded" != side + " Twitter Status" by {
      assert (side + " Responded")[|side| + 1] == 'R';
    }
  }

  /** The changes of one row: its RC notes, then its OL notes; each notes change goes back to its own column. */
  function RowChangeList(row: seq<string>, cols: Columns): seq<Change> {
    NotesChanges(CellAt(row, cols.rcNotes), "RC", RcRespondedCol, RcTwitterCol, cols.rcNotes + 1)
      + NotesChanges(CellAt(row, cols.olNotes), "OL", OlRespondedCol, OlTwitterCol, cols.olNotes + 1)
  }

  /** The school shown for a row: its school cell, or "Row n". */
  function SchoolLabel(row: seq<string>, cols: Columns, rowNum: int): string {
    if 0 <= cols.school < |row| then row[cols.school] else "Row " + IntToString(rowNum)
  }

  /** The changes of each data row, in order. */
  function RowChangeLists(rows: seq<seq<string>>, cols: Columns): (r: seq<seq<Change>>)
    ensures |r| == |rows|
  {
    if rows == [] then [] else RowChangeLists(rows[..|rows| - 1], cols) + [RowChangeList(rows[|rows| - 1], cols)]
  }

  /**
   * The rows listed for the changes `changes[i]` of each data row `rows[i]`:
   * those with a change, in sheet order, where data row `i` is sheet row `i + 2`.
   */
  function Listed(rows: seq<seq<string>>, changes: seq<seq<Change>>, cols: Columns): seq<RowChanges>
    requires |changes| == |rows|
  {
    if rows == [] then []
    else
      var n := |rows| - 1;
      Listed(rows[..n], changes[..n], cols)
        + (if changes[n] == [] then [] else [RowChanges(n + 2, SchoolLabel(rows[n], cols, n + 2), changes[n])])
  }

  /** The migration's change list. */
  function ChangeList(rows: seq<seq<string>>, cols: Columns): seq<RowChanges> {
    Listed(rows, RowChangeLists(rows, cols), cols)
  }

  /** `e` lists data row `e.rowNum - 2` with its own changes, which are not empty, and its school label. */
  predicate ListedEntry(rows: seq<seq<string>>, changes: seq<seq<Change>>, cols: Columns, e: RowChanges)
    requires |changes| == |rows|
  {
    2 <= e.rowNum <= |rows| + 1 && changes[e.rowNum - 2] != [] && e.changes == changes[e.rowNum - 2]
    && e.school == SchoolLabel(rows[e.rowNum - 2], cols, e.rowNum)
  }

  /** Every listed entry is a changed row, with that row's changes and label. */
  lemma {:induction false} ListedEntries(rows: seq<seq<string>>, changes: seq<seq<Change>>, cols: Columns)
    requires |changes| == |rows|
    ensures forall e | e in Listed(rows, changes, cols) :: ListedEntry(rows, changes, cols, e)
    decreases |rows|
  {
    if rows != [] {
      var n := |rows| - 1;
      ListedEntries(rows[..n], changes[..n], cols);
      forall e | e in Listed(rows[..n], changes[..n], cols) ensures ListedEntry(rows, changes, cols, e) {
        assert ListedEntry(rows[..n], changes[..n], cols, e);
        assert rows[..n][e.rowNum - 2] == rows[e.rowNum - 2];
        assert changes[..n][e.rowNum - 2] == changes[e.rowNum - 2];
      }
    }
  }

  /** The row numbers of `cl` strictly increase. */
  predicate Increasing(cl: seq<RowChanges>) {
    forall k, l | 0 <= k < l < |cl| :: cl[k].rowNum < cl[l].rowNum
  }

  /** Entries are listed in strictly increasing row order. */
  lemma {:induction false} ListedOrdered(rows: seq<seq<string>>, changes: seq<seq<Change>>, cols: Columns)
    requires |changes| == |rows|
    ensures Increasing(Listed(rows, changes, cols))
    decreases |rows|
  {
    if rows != [] {
      var n := |rows| - 1;
      ListedOrdered(rows[..n], changes[..n], cols);
      ListedEntries(rows[..n], changes[..n], cols);
      var cl0 := Listed(rows[..n], changes[..n], cols);
      var cl := Listed(rows, changes, cols);
      assert cl[..|cl0|] == cl0;
      forall k, l | 0 <= k < l < |cl| ensures cl[k].rowNum < cl[l].rowNum {
        assert k < |cl0|;
        assert cl0[k] in cl0 && cl[k] == cl0[k];
        assert ListedEntry(rows[..n], changes[..n], cols, cl0[k]);
        assert cl[k].rowNum <= n + 1;
        if l < |cl0| {
          assert cl[l] == cl0[l];
        } else {
          assert cl == cl0 + [RowChanges(n + 2, SchoolLabel(rows[n], cols, n + 2), changes[n])];
        }
      }
    }
  }

  /** The sheet row numbers of a change list. */
  function RowNums(cl: seq<RowChanges>): set<int> {
    set k | 0 <= k < |cl| :: cl[k].rowNum
  }

  /** The sheet row numbers of the data rows with a change. */
  function ChangedRows(changes: seq<seq<Change>>): set<int> {
    set i | 0 <= i < |changes| && changes[i] != [] :: i + 2
  }

  /** A row is listed exactly when it has a change. */
  lemma {:induction false} ListedRows(rows: seq<seq<string>>, changes: seq<seq<Change>>, cols: Columns)
    requires |changes| == |rows|
    ensures RowNums(Listed(rows, changes, cols)) == ChangedRows(changes)
    decreases |rows|
  {
    if rows != [] {
      var n := |rows| - 1;
      ListedRows(rows[..n], changes[..n], cols);
      var cl0 := Listed(rows[..n], changes[..n], cols);
      var cl := Listed(rows, changes, cols);
      assert cl[..|cl0|] == cl0;
      assert RowNums(cl) == RowNums(cl0) + (if changes[n] == [] then {} else {n + 2}) by {
        forall x | x in RowNums(cl) ensures x in RowNums(cl0) + (if changes[n] == [] then {} else {n + 2}) {
          var k :| 0 <= k < |cl| && cl[k].rowNum == x;
          if k < |cl0| { assert cl0[k] == cl[k]; }
        }
        forall x | x in RowNums(cl0) ensures x in RowNums(cl) {
          var k :| 0 <= k < |cl0| && cl0[k].rowNum == x;
          assert cl[k] == cl0[k];
        }
        if changes[n] != [] { assert cl[|cl| - 1].rowNum == n + 2; }
      }
      assert ChangedRows(changes) == ChangedRows(changes[..n]) + (if changes[n] == [] then {} else {n + 2}) by {
        forall x | x in ChangedRows(changes[..n]) ensures x in ChangedRows(changes) {
          var i :| 0 <= i < n && changes[..n][i] != [] && x == i + 2;
          assert changes[i] != [];
        }
        forall x | x in ChangedRows(changes) ensures x in ChangedRows(changes[..n]) + (if changes[n] == [] then {} else {n + 2}) {
          var i :| 0 <= i <= n && changes[i] != [] && x == i + 2;
          if i < n { assert changes[..n][i] != []; }
        }
      }
    }
  }

  /** Walks the data rows and lists those with changes. */
  method CollectChanges(rows: seq<seq<string>>, cols: Columns) returns (changes: seq<RowChanges>)
    ensures changes == ChangeList(rows, cols)
  {
    changes := [];
    ghost var perRow: seq<seq<Change>> := [];
    for i := 0 to |rows|
      invariant perRow == RowChangeLists(rows[..i], cols)
      invariant changes == Listed(rows[..i], perRow, cols)
    {
      assert rows[..i + 1][..i] == rows[..i];
      var row := rows[i];
      var rowNum := i + 2;
      var rowChanges := RowChangeList(row, cols);
      ghost var before := perRow;
      perRow := perRow + [rowChanges];
      assert perRow[..i] == before;
      if rowChanges != [] {
        changes := changes + [RowChanges(rowNum, SchoolLabel(row, cols, rowNum), rowChanges)];
      }
    }
    assert rows[..|rows|] == rows;
  }

  /** One cell write: 1-based row and column, and the value. */
  datatype Write = Write(row: int, col: int, value: string)

  /** The writes of a change list, row by row and change by change. */
  function Writes(cl: seq<RowChanges>): seq<Write> {
    if cl == [] then []
    else
      var last := cl[|cl| - 1];
      Writes(cl[..|cl| - 1])
        + seq(|last.changes|, j requires 0 <= j < |last.changes| => Write(last.rowNum, last.changes[j].col, last.changes[j].value))
  }

  /** Every write goes to a listed row, and there is one write per change. */
  lemma {:induction false} WritesRows(cl: seq<RowChanges>)
    ensures forall w | w in Writes(cl) :: exists k | 0 <= k < |cl| :: w.row == cl[k].rowNum
    decreases |cl|
  {
    if cl != [] {
      var init := cl[..|cl| - 1];
      WritesRows(init);
      var ws0 := Writes(init);
      forall w | w in Writes(cl) ensures exists k | 0 <= k < |cl| :: w.row == cl[k].rowNum {
        if w in ws0 {
          var k :| 0 <= k < |init| && w.row == init[k].rowNum;
          assert w.row == cl[k].rowNum;
        } else {
          assert w.row == cl[|cl| - 1].rowNum;
        }
      }
    }
  }

  /** The writes that take effect: those whose attempt number is not in `failing`, counted from `from`. */
  function Applied(ws: seq<Write>, failing: set<nat>, from: nat): (r: seq<Write>)
    ensures |r| <= |ws|
    ensures (forall k | from <= k < from + |ws| :: k !in failing) ==> r == ws
  {
    if ws == [] then []
    else (if from in failing then [] else [ws[0]]) + Applied(ws[1..], failing, from + 1)
  }

  /** The worksheet as the migration sees it: the cell writes made to it, in order. */
  class CellLog {
    var writes: seq<Write>

    constructor ()
      ensures writes == []
    {
      writes := [];
    }

    /** A cell update that succeeded. */
    method Update(w: Write)
      modifies this
      ensures writes == old(writes) + [w]
    {
      writes := writes + [w];
    }
  }

  /** Attempts each write in order; attempt `k` fails when `k` is in `failing`. */
  method ApplyWrites(ws: seq<Write>, failing: set<nat>, log: CellLog) returns (ok: bool)
    modifies log
    ensures log.writes == old(log.writes) + Applied(ws, failing, 0)
    ensures ok <==> forall k | 0 <= k < |ws| :: k !in failing
  {
    var errors := 0;
    for k := 0 to |ws|
      invariant log.writes == old(log.writes) + Applied(ws[..k], failing, 0)
      invariant errors == 0 <==> forall j | 0 <= j < k :: j !in failing
    {
      AppliedSnoc(ws[..k], ws[k], failing, 0);
      assert ws[..k + 1] == ws[..k] + [ws[k]];
      if k in failing {
        errors := errors + 1;
      } else {
        log.Update(ws[k]);
      }
    }
    assert ws[..|ws|] == ws;
    return errors == 0;
  }

  /**
   * The migration run. `connected` is whether the sheet connection opened,
   * `data` is the sheet's rows (headers first), and write attempt `k` (from
   * 0) fails when `k` is in `failing`. A dry run writes nothing; a live run
   * with an expected header missing stops before its first write; otherwise
   * a live run attempts every change in order and succeeds when none fails.
   */
  method MigrateSheet(connected: bool, data: seq<seq<string>>, dryRun: bool, failing: set<nat>, log: CellLog)
    returns (ok: bool)
    modifies log
    ensures !connected || |data| < 2 ==> !ok && log.writes == old(log.writes)
    ensures dryRun ==> log.writes == old(log.writes) && (ok <==> connected && |data| >= 2)
    ensures connected && |data| >= 2 && !dryRun && MissingHeaders(data[0]) != [] ==> !ok && log.writes == old(log.writes)
    ensures connected && |data| >= 2 && !dryRun && MissingHeaders(data[0]) == [] ==>
      var ws := Writes(ChangeList(data[1..], ColumnsOf(data[0])));
      log.writes == old(log.writes) + Applied(ws, failing, 0)
      && (ok <==> forall k | 0 <= k < |ws| :: k !in failing)
  {
    if !connected || |data| < 2 {
      return false;
    }
    var headers := data[0];
    var missing := MissingHeaders(headers);
    if missing != [] && !dryRun {
      return false;
    }
    var cols := ColumnsOf(headers);
    var changes := CollectChanges(data[1..], cols);
    if dryRun {
      return true;
    }
    ok := ApplyWrites(Writes(changes), failing, log);
  }

  lemma {:induction false} AppliedSnoc(ws: seq<Write>, w: Write, failing: set<nat>, from: nat)
    ensures Applied(ws + [w], failing, from)
         == Applied(ws, failing, from) + (if from + |ws| in failing then [] else [w])
    decreases |ws|
  {
    if ws != [] {
      assert (ws + [w])[1..] == ws[1..] + [w];
      AppliedSnoc(ws[1..], w, failing, from + 1);
    }
  }
}
