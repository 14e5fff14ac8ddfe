/**
 * The Python `str` operations the outreach rules are written with, as
 * functions over `string` (a `seq<char>`), plus an Option type.
 */
module Text {

  datatype Option<+T> = None | Some(value: T)

  /** `str.isspace()` for one character: every character Python treats as whitespace. */
  predicate IsSpace(c: char) {
    var n := c as int;
    n == 0x20 || (0x09 <= n <= 0x0d) || (0x1c <= n <= 0x1f) || n == 0x85 || n == 0xa0
    || n == 0x1680 || (0x2000 <= n <= 0x200a) || n == 0x2028 || n == 0x2029
    || n == 0x202f || n == 0x205f || n == 0x3000
  }

  predicate NoSpace(s: string) {
    forall i | 0 <= i < |s| :: !IsSpace(s[i])
  }

  predicate AllSpace(s: string) {
    forall i | 0 <= i < |s| :: IsSpace(s[i])
  }

  /** The first index from `i` on that does not hold whitespace (`|s|` if none). */
  function SkipSpaces(s: string, i: nat): nat
    requires i <= |s|
    decreases |s| - i
  {
    if i < |s| && IsSpace(s[i]) then SkipSpaces(s, i + 1) else i
  }

  /** The end of `s[..j]` once its trailing whitespace is dropped. */
  function TrailingEnd(s: string, j: nat): nat
    requires j <= |s|
  {
    if j > 0 && IsSpace(s[j - 1]) then TrailingEnd(s, j - 1) else j
  }

  lemma {:induction false} SkipSpacesProps(s: string, i: nat)
    requires i <= |s|
    ensures i <= SkipSpaces(s, i) <= |s|
    ensures forall k | i <= k < SkipSpaces(s, i) :: IsSpace(s[k])
    ensures SkipSpaces(s, i) == |s| || !IsSpace(s[SkipSpaces(s, i)])
    decreases |s| - i
  {
    if i < |s| && IsSpace(s[i]) { SkipSpacesProps(s, i + 1); }
  }

  lemma {:induction false} TrailingEndProps(s: string, j: nat)
    requires j <= |s|
    ensures TrailingEnd(s, j) <= j
    ensures forall k | TrailingEnd(s, j) <= k < j :: IsSpace(s[k])
    ensures TrailingEnd(s, j) == 0 || !IsSpace(s[TrailingEnd(s, j) - 1])
  {
    if j > 0 && IsSpace(s[j - 1]) { TrailingEndProps(s, j - 1); }
  }

  /** `str.strip()`: drops the leading and the trailing whitespace. */
  function Strip(s: string): string {
    SkipSpacesProps(s, 0);
    TrailingEndProps(s, |s|);
    var a := SkipSpaces(s, 0);
    var b := TrailingEnd(s, |s|);
    if a < b then s[a..b] else ""
  }

  /** A blank string strips to "", any other keeps a non-space at both ends. */
  lemma StripProps(s: string)
    ensures Strip(s) == "" <==> AllSpace(s)
    ensures Strip(s) != "" ==> !IsSpace(Strip(s)[0]) && !IsSpace(Strip(s)[|Strip(s)| - 1])
  {
    SkipSpacesProps(s, 0);
    TrailingEndProps(s, |s|);
    var a, b := SkipSpaces(s, 0), TrailingEnd(s, |s|);
    if a < b {
      assert !IsSpace(s[a]);
    }
  }

  /** A string with no whitespace at either end strips to itself. */
  lemma StripTrimmed(s: string)
    requires s == "" || (!IsSpace(s[0]) && !IsSpace(s[|s| - 1]))
    ensures Strip(s) == s
  {
  }

  lemma StripNoSpace(s: string)
    requires NoSpace(s)
    ensures Strip(s) == s
  {
    if |s| > 0 {
      StripTrimmed(s);
    }
  }

  /** `s.strip().strip() == s.strip()`. */
  lemma StripIdempotent(s: string)
    ensures Strip(Strip(s)) == Strip(s)
  {
    StripProps(s);
    StripTrimmed(Strip(s));
  }

  /** ASCII letters, digits and `[a-zA-Z0-9]`. */
  predicate IsAsciiUpper(c: char) { 'A' <= c <= 'Z' }
  predicate IsAsciiLower(c: char) { 'a' <= c <= 'z' }
  predicate IsAsciiLetter(c: char) { IsAsciiUpper(c) || IsAsciiLower(c) }
  predicate IsAsciiDigit(c: char) { '0' <= c <= '9' }
  predicate IsAsciiAlnum(c: char) { IsAsciiLetter(c) || IsAsciiDigit(c) }

  function LowerChar(c: char): (r: char)
    ensures !IsAsciiUpper(r)
    ensures !IsAsciiUpper(c) ==> r == c
  {
    if IsAsciiUpper(c) then (c as int + 32) as char else c
  }

  /** `str.lower()` on the ASCII letters (other characters are kept). */
  function Lower(s: string): (r: string)
    ensures |r| == |s|
    ensures forall i | 0 <= i < |s| :: r[i] == LowerChar(s[i])
  {
    seq(|s|, i requires 0 <= i < |s| => LowerChar(s[i]))
  }

  lemma LowerIdempotent(s: string)
    ensures Lower(Lower(s)) == Lower(s)
  {
  }

  lemma LowerSpace(s: string)
    ensures forall i | 0 <= i < |s| :: IsSpace(Lower(s)[i]) <==> IsSpace(s[i])
  {
  }

  /** Case-insensitive equality of two strings, as `a.lower() == b.lower()`. */
  predicate EqualsIgnoreCase(a: string, b: string) {
    Lower(a) == Lower(b)
  }

  predicate StartsWith(s: string, prefix: string) {
    |prefix| <= |s| && s[..|prefix|] == prefix
  }

  /** `sub in s`. */
  predicate Contains(s: string, sub: string)
    decreases |s|
  {
    StartsWith(s, sub) || (|s| > 0 && Contains(s[1..], sub))
  }

  lemma {:induction false} ContainsAt(s: string, sub: string, k: nat)
    requires k + |sub| <= |s| && s[k..k + |sub|] == sub
    ensures Contains(s, sub)
    decreases k
  {
    if k > 0 {
      assert s[1..][k - 1..k - 1 + |sub|] == s[k..k + |sub|];
      ContainsAt(s[1..], sub, k - 1);
    }
  }

  lemma {:induction false} ContainsWitness(s: string, sub: string) returns (k: nat)
    requires Contains(s, sub)
    ensures k + |sub| <= |s| && s[k..k + |sub|] == sub
    decreases |s|
  {
    if StartsWith(s, sub) {
      k := 0;
    } else {
      var j := ContainsWitness(s[1..], sub);
      k := j + 1;
      assert s[k..k + |sub|] == s[1..][j..j + |sub|];
    }
  }

  /** Every character of the result is a character of the input. */
  lemma ContainsChar(s: string, c: char)
    ensures Contains(s, [c]) <==> c in s
  {
    if Contains(s, [c]) {
      var k := ContainsWitness(s, [c]);
      assert s[k] == c;
    }
    if c in s {
      var k :| 0 <= k < |s| && s[k] == c;
      assert s[k..k + 1] == [c];
      ContainsAt(s, [c], k);
    }
  }

  /** No string contains a longer one. */
  lemma {:induction false} ContainsLonger(s: string, sub: string)
    requires |s| < |sub|
    ensures !Contains(s, sub)
    decreases |s|
  {
    if |s| > 0 {
      ContainsLonger(s[1..], sub);
    }
  }

  /** `str.replace(old, new)` for a non-empty `old`: left-to-right, non-overlapping. */
  function Replace(s: string, token: string, repl: string): (r: string)
    requires |token| > 0
    decreases |s|
  {
    if |s| < |token| then s
    else if s[..|token|] == token then repl + Replace(s[|token|..], token, repl)
    else [s[0]] + Replace(s[1..], token, repl)
  }

  /** Replacing a token that does not occur leaves the string as it was. */
  lemma {:induction false} ReplaceAbsent(s: string, token: string, repl: string)
    requires |token| > 0 && !Contains(s, token)
    ensures Replace(s, token, repl) == s
    decreases |s|
  {
    if |s| >= |token| {
      assert !StartsWith(s, token);
      ReplaceAbsent(s[1..], token, repl);
      assert [s[0]] + s[1..] == s;
    }
  }

  /** `s.split(sep)[0]`: the text before the first `sep` (all of it when there is none). */
  function BeforeFirst(s: string, sep: char): (r: string)
    ensures |r| <= |s| && r == s[..|r|]
    ensures sep !in r
    ensures |r| < |s| ==> s[|r|] == sep
  {
    if |s| == 0 || s[0] == sep then [] else [s[0]] + BeforeFirst(s[1..], sep)
  }

  /** `s.replace(c, '')` for one character. */
  function RemoveChar(s: string, c: char): (r: string)
    ensures c !in r
    ensures forall i | 0 <= i < |r| :: r[i] in s
  {
    if |s| == 0 then []
    else if s[0] == c then RemoveChar(s[1..], c)
    else [s[0]] + RemoveChar(s[1..], c)
  }

  /** `s.count(c)` for one character. */
  function CountChar(s: string, c: char): (n: nat)
    ensures n <= |s|
    ensures n == 0 <==> c !in s
  {
    if |s| == 0 then 0 else (if s[0] == c then 1 else 0) + CountChar(s[1..], c)
  }

  /** `s.isdigit()` on ASCII digits: non-empty and digits only. */
  predicate IsDigits(s: string) {
    |s| > 0 && forall i | 0 <= i < |s| :: IsAsciiDigit(s[i])
  }

  function DigitValue(c: char): (d: nat)
    requires IsAsciiDigit(c)
    ensures d < 10
  {
    c as int - '0' as int
  }

  function DigitChar(d: nat): (c: char)
    requires d < 10
    ensures IsAsciiDigit(c) && DigitValue(c) == d
  {
    ('0' as int + d) as char
  }

  /** The number a string of ASCII digits denotes. */
  function DigitsValue(s: string): nat
    requires forall i | 0 <= i < |s| :: IsAsciiDigit(s[i])
  {
    if |s| == 0 then 0 else DigitsValue(s[..|s| - 1]) * 10 + DigitValue(s[|s| - 1])
  }

  /** `str(n)` for a natural number. */
  function NatToString(n: nat): (s: string)
    ensures IsDigits(s)
  {
    if n < 10 then [DigitChar(n)] else NatToString(n / 10) + [DigitChar(n % 10)]
  }

  lemma {:induction false} NatToStringValue(n: nat)
    ensures DigitsValue(NatToString(n)) == n
  {
    if n >= 10 {
      var s := NatToString(n);
      assert s[..|s| - 1] == NatToString(n / 10);
      NatToStringValue(n / 10);
    }
  }

  /** `str(i)` for an integer. */
  function IntToString(i: int): (s: string)
    ensures |s| > 0 && NoSpace(s)
  {
    if i < 0 then "-" + NatToString(-i) else NatToString(i)
  }

  /** `int(s)`: surrounding whitespace, an optional sign, then ASCII digits. */
  function ParseInt(s: string): (r: Option<int>)
    ensures r.Some? ==> Strip(s) != ""
  {
    ParseSigned(Strip(s))
  }

  /** An optional sign followed by ASCII digits, with nothing around them. */
  function ParseSigned(t: string): (r: Option<int>)
    ensures r.Some? ==> t != ""
  {
    if IsDigits(t) then Some(DigitsValue(t))
    else if |t| > 1 && (t[0] == '-' || t[0] == '+') && IsDigits(t[1..]) then
      Some(if t[0] == '-' then -(DigitsValue(t[1..]) as int) else DigitsValue(t[1..]))
    else None
  }

  /** `int(str(i)) == i`. */
  lemma IntToStringRoundTrip(i: int)
    ensures ParseInt(IntToString(i)) == Some(i)
  {
    if i < 0 {
      NegativeRoundTrip(-i);
    } else {
      var d := NatToString(i);
      StripNoSpace(d);
      NatToStringValue(i);
    }
  }

  lemma NegativeRoundTrip(n: nat)
    requires n > 0
    ensures ParseInt("-" + NatToString(n)) == Some(-(n as int))
  {
    var d := NatToString(n);
    var s := "-" + d;
    assert NoSpace(s) by {
      forall k | 0 <= k < |s| ensures !IsSpace(s[k]) {
        if k > 0 { assert s[k] == d[k - 1]; }
      }
    }
    ParseIntNoSpace(s);
    NegativeDigits(n);
  }

  lemma NegativeDigits(n: nat)
    ensures ParseSigned("-" + NatToString(n)) == Some(-(n as int))
  {
    var d := NatToString(n);
    var s := "-" + d;
    NatToStringValue(n);
    assert s[1..] == d;
    assert !IsDigits(s) by { assert !IsAsciiDigit(s[0]); }
  }

  lemma ParseIntNoSpace(s: string)
    requires NoSpace(s)
    ensures ParseInt(s) == ParseSigned(s)
  {
    StripNoSpace(s);
  }

  /** The last word of a string with at least one non-space, as `name.split()[-1]`. */
  function LastWord(s: string): (r: string)
    requires !AllSpace(s)
    ensures |r| > 0 && NoSpace(r)
  {
    TrailingEndProps(s, |s|);
    var e := TrailingEnd(s, |s|);
    LastRun(s[..e])
  }

  /** The longest suffix without whitespace. */
  function LastRun(t: string): (r: string)
    ensures |r| <= |t| && r == t[|t| - |r|..] && NoSpace(r)
    ensures |t| > 0 && !IsSpace(t[|t| - 1]) ==> |r| > 0
    ensures |r| < |t| ==> IsSpace(t[|t| - |r| - 1])
  {
    if |t| == 0 || IsSpace(t[|t| - 1]) then []
    else LastRun(t[..|t| - 1]) + [t[|t| - 1]]
  }

  /** `s.lstrip(c)` for one character: every leading `c` removed. */
  function LStrip(s: string, c: char): (r: string)
    ensures |r| <= |s|
    ensures r == [] || r[0] != c
  {
    if |s| > 0 && s[0] == c then LStrip(s[1..], c) else s
  }

  /** What `LStrip` removes is a run of `c` at the front, and it keeps the rest. */
  lemma {:induction false} LStripSuffix(s: string, c: char)
    ensures var r := LStrip(s, c);
      r == s[|s| - |r|..] && forall i | 0 <= i < |s| - |r| :: s[i] == c
  {
    if |s| > 0 && s[0] == c {
      LStripSuffix(s[1..], c);
      var r := LStrip(s, c);
      assert s[1..][|s| - 1 - |r|..] == s[|s| - |r|..];
      forall i | 0 <= i < |s| - |r|
        ensures s[i] == c
      {
        if i > 0 {
          assert s[1..][i - 1] == s[i];
        }
      }
    }
  }

  // ---------------------------------------------------------------------
  // Whitespace runs and string order
  // ---------------------------------------------------------------------

  /** What `Strip` returns is a slice of its argument. */
  lemma StripSlice(s: string) returns (a: nat, b: nat)
    ensures a <= b <= |s| && Strip(s) == s[a..b]
  {
    SkipSpacesProps(s, 0);
    TrailingEndProps(s, |s|);
    var x, y := SkipSpaces(s, 0), TrailingEnd(s, |s|);
    if x < y { a, b := x, y; } else { a, b := 0, 0; }
  }

  /** Lower-casing, then stripping, gives a string lower-casing leaves alone. */
  lemma StripLowered(s: string)
    ensures Lower(Strip(Lower(s))) == Strip(Lower(s))
  {
    var a, b := StripSlice(Lower(s));
  }

  /** A character of a run `re.sub` replaces: whitespace (`\\s`), and ';' too for `[;\\s]`. */
  predicate RunChar(c: char, semi: bool) {
    IsSpace(c) || (semi && c == ';')
  }

  /** The end of the run of run characters starting at `i`. */
  function RunEnd(s: string, i: nat, semi: bool): (j: nat)
    requires i <= |s|
    ensures i <= j <= |s| && (j == |s| || !RunChar(s[j], semi))
    ensures forall k | i <= k < j :: RunChar(s[k], semi)
    decreases |s| - i
  {
    if i < |s| && RunChar(s[i], semi) then RunEnd(s, i + 1, semi) else i
  }

  /** Every whitespace character is a plain space, and no two whitespace characters are adjacent. */
  predicate SingleSpaced(s: string) {
    forall i | 0 <= i < |s| && IsSpace(s[i]) :: s[i] == ' ' && (i + 1 == |s| || !IsSpace(s[i + 1]))
  }

  /**
   * `re.sub(r'\\s+', ' ', s)`, or `re.sub(r'[;\\s]+', ' ', s)` when `semi`:
   * each maximal run becomes one space.
   */
  function Collapse(s: string, semi: bool): (r: string)
    ensures |r| <= |s| && (r == [] <==> s == [])
    ensures |s| > 0 ==> r[0] == (if RunChar(s[0], semi) then ' ' else s[0])
    ensures SingleSpaced(r)
    ensures semi ==> ';' !in r
    decreases |s|
  {
    if s == [] then []
    else if RunChar(s[0], semi) then
      var j := RunEnd(s, 0, semi);
      " " + Collapse(s[j..], semi)
    else [s[0]] + Collapse(s[1..], semi)
  }

  /** A slice of a single-spaced string is single-spaced. */
  lemma SingleSpacedSlice(s: string, a: nat, b: nat)
    requires a <= b <= |s| && SingleSpaced(s)
    ensures SingleSpaced(s[a..b])
  {
    var t := s[a..b];
    forall i | 0 <= i < |t| && IsSpace(t[i]) ensures t[i] == ' ' && (i + 1 == |t| || !IsSpace(t[i + 1])) {
      assert t[i] == s[a + i];
      if i + 1 < |t| { assert t[i + 1] == s[a + i + 1]; }
    }
  }

  /** Stripping a single-spaced string leaves it single-spaced, with no space at either end. */
  lemma StripSingleSpaced(s: string)
    requires SingleSpaced(s)
    ensures SingleSpaced(Strip(s))
    ensures Strip(s) == [] || (!IsSpace(Strip(s)[0]) && !IsSpace(Strip(s)[|Strip(s)| - 1]))
    ensures forall c | c in Strip(s) :: c in s
  {
    var a, b := StripSlice(s);
    SingleSpacedSlice(s, a, b);
    StripProps(s);
    forall c | c in Strip(s) ensures c in s {
      var i :| 0 <= i < |Strip(s)| && Strip(s)[i] == c;
      assert s[a + i] == c;
    }
  }

  /** Collapsing the whitespace of a single-spaced string changes nothing. */
  lemma {:induction false} CollapseSingleSpaced(s: string)
    requires SingleSpaced(s)
    ensures Collapse(s, false) == s
    decreases |s|
  {
    if s != [] {
      SingleSpacedSlice(s, 1, |s|);
      CollapseSingleSpaced(s[1..]);
      if IsSpace(s[0]) {
        assert RunEnd(s, 0, false) == 1;
      }
    }
  }

  /** Python's `a < b` on strings: code point by code point, a proper prefix first. */
  predicate StrLt(a: string, b: string)
    decreases |a|
  {
    if a == [] then b != []
    else b != [] && (a[0] < b[0] || (a[0] == b[0] && StrLt(a[1..], b[1..])))
  }

  lemma {:induction false} StrLtIrreflexive(a: string)
    ensures !StrLt(a, a)
    decreases |a|
  {
    if a != [] { StrLtIrreflexive(a[1..]); }
  }

  /** Two strings compare one way, the other, or are equal. */
  lemma {:induction false} StrLtTotal(a: string, b: string)
    ensures StrLt(a, b) || a == b || StrLt(b, a)
    decreases |a|
  {
    if a != [] && b != [] && a[0] == b[0] {
      StrLtTotal(a[1..], b[1..]);
      if a[1..] == b[1..] {
        assert a == [a[0]] + a[1..] && b == [b[0]] + b[1..];
      }
    }
  }

  lemma {:induction false} StrLtTransitive(a: string, b: string, c: string)
    requires StrLt(a, b) && StrLt(b, c)
    ensures StrLt(a, c)
    decreases |a|
  {
    if a != [] && a[0] == b[0] && b[0] == c[0] {
      StrLtTransitive(a[1..], b[1..], c[1..]);
    }
  }

  lemma {:induction false} SkipSpacesLower(s: string, i: nat)
    requires i <= |s|
    ensures SkipSpaces(Lower(s), i) == SkipSpaces(s, i)
    decreases |s| - i
  {
    if i < |s| { SkipSpacesLower(s, i + 1); }
  }

  lemma {:induction false} TrailingEndLower(s: string, j: nat)
    requires j <= |s|
    ensures TrailingEnd(Lower(s), j) == TrailingEnd(s, j)
  {
    if j > 0 { TrailingEndLower(s, j - 1); }
  }

  /** Lower-casing keeps whitespace where it is, so it commutes with stripping. */
  lemma LowerStripCommute(s: string)
    ensures Lower(Strip(s)) == Strip(Lower(s))
  {
    SkipSpacesLower(s, 0);
    TrailingEndLower(s, |s|);
    SkipSpacesProps(s, 0);
    TrailingEndProps(s, |s|);
    var a, b := SkipSpaces(s, 0), TrailingEnd(s, |s|);
    if a < b {
      assert Lower(s[a..b]) == Lower(s)[a..b];
    }
  }
}
