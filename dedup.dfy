/**
 * The school de-duplication script: data rows are grouped by their
 * normalised school name, one row of each group is kept, and once the
 * operator confirms, the others are deleted from the sheet, highest row
 * first.
 *
 * The sheet is a sequence of rows, header row first, so data row `i` is
 * sheet row `i + 2`.
 *
 * Rows are ranked by `Rank`, the corrected ranking listed under Findings in
 * the README: as written, the sort key (scripts/deduplicate_schools.py:150)
 * raises on a duplicate whose contacted cell is not an integer, which stops
 * the script before anything is deleted (`SortKeyAsWritten`,
 * `DateContactedRaises`).
 */
module Dedup {
  import opened Text

  // ---------------------------------------------------------------------
  // Row facts
  // ---------------------------------------------------------------------

  /** A cell that is empty once stripped. */
  predicate Blank(cell: string) {
    Strip(cell) == ""
  }

  /** The number of cells that are not blank. */
  function CountNonEmpty(row: seq<string>): (n: nat)
    ensures n <= |row|
  {
    if row == [] then 0
    else (if Blank(row[0]) then 0 else 1) + CountNonEmpty(row[1..])
  }

  /** The count reaches the row's length exactly when no cell is blank, and is zero exactly when all are. */
  lemma {:induction false} CountNonEmptyExtremes(row: seq<string>)
    ensures CountNonEmpty(row) == |row| <==> forall i | 0 <= i < |row| :: !Blank(row[i])
    ensures CountNonEmpty(row) == 0 <==> forall i | 0 <= i < |row| :: Blank(row[i])
  {
    if row != [] {
      CountNonEmptyExtremes(row[1..]);
      assert forall i | 1 <= i < |row| :: row[i] == row[1..][i - 1];
    }
  }

  /** The two contacted columns. */
  datatype Side = Rc | Ol

  /** Header `h` names `side`'s contacted column; a header naming the RC column is never taken for the OL one. */
  predicate NamesSide(h: string, side: Side) {
    match side
    case Rc => Contains(Lower(h), "rc contacted")
    case Ol => !Contains(Lower(h), "rc contacted") && Contains(Lower(h), "ol contacted")
  }

  /** The last of the first `n` headers that names `side`'s column. */
  function LastNaming(headers: seq<string>, side: Side, n: nat): (r: Option<nat>)
    requires n <= |headers|
    ensures r.Some? ==> (r.value < n && NamesSide(headers[r.value], side)
                         && forall j | r.value < j < n :: !NamesSide(headers[j], side))
    ensures r.None? ==> forall j | 0 <= j < n :: !NamesSide(headers[j], side)
  {
    if n == 0 then None
    else if NamesSide(headers[n - 1], side) then Some(n - 1)
    else LastNaming(headers, side, n - 1)
  }

  /** The column of `side`'s contacted date: the last header naming it. */
  function ContactedCol(headers: seq<string>, side: Side): Option<nat> {
    LastNaming(headers, side, |headers|)
  }

  /** Scans the headers once; a later matching header replaces an earlier one. */
  method FindContactedCols(headers: seq<string>) returns (rc: Option<nat>, ol: Option<nat>)
    ensures rc == ContactedCol(headers, Rc) && ol == ContactedCol(headers, Ol)
  {
    rc, ol := None, None;
    for i := 0 to |headers|
      invariant rc == LastNaming(headers, Rc, i) && ol == LastNaming(headers, Ol, i)
    {
      var lowered := Lower(headers[i]);
      if Contains(lowered, "rc contacted") {
        rc := Some(i);
      } else if Contains(lowered, "ol contacted") {
        ol := Some(i);
      }
    }
  }

  /** The cell at `col` is present and not blank. */
  predicate FilledAt(row: seq<string>, col: Option<nat>) {
    col.Some? && col.value < |row| && Strip(row[col.value]) != ""
  }

  // ---------------------------------------------------------------------
  // The contacted check, as written and as intended
  // ---------------------------------------------------------------------

  /** The Python values the contacted check can return: `False` or a string. */
  datatype PyValue = PyFalse | PyStr(text: string)

  predicate Truthy(v: PyValue) {
    v.PyStr? && v.text != ""
  }

  /** A contacted cell, stripped, or `False` when its column is absent or past the row's end. */
  function ContactedCell(row: seq<string>, col: Option<nat>): (v: PyValue)
    ensures Truthy(v) <==> FilledAt(row, col)
  {
    if col.Some? && col.value < |row| then PyStr(Strip(row[col.value])) else PyFalse
  }

  /**
   * What the contacted check returns as written: the RC cell's value when it
   * is truthy, and the OL cell's value otherwise. That is a string whenever
   * the OL column exists, and not a boolean.
   */
  function ContactedAsWritten(row: seq<string>, headers: seq<string>): (v: PyValue)
    ensures Truthy(v) <==> FilledAt(row, ContactedCol(headers, Rc)) || FilledAt(row, ContactedCol(headers, Ol))
    ensures v.PyStr? ==> FilledAt(row, ContactedCol(headers, Rc)) || ContactedCol(headers, Ol).Some?
  {
    var rc := ContactedCell(row, ContactedCol(headers, Rc));
    if Truthy(rc) then rc else ContactedCell(row, ContactedCol(headers, Ol))
  }

  /** The script's sort key for a row, or `None` where computing it raises because `int` rejects the string. */
  function SortKeyAsWritten(v: PyValue, count: nat): (r: Option<(int, int)>)
    ensures r.Some? <==> v.PyFalse? || ParseInt(v.text).Some?
    ensures r.Some? ==> r.value.1 == -(count as int)
  {
    var fewer: int := -(count as int);
    match v
    case PyFalse => Some((0, fewer))
    case PyStr(t) =>
      match ParseInt(t)
      case Some(n) => Some((-n, fewer))
      case None => None
  }

  /** The school column of the example below. */
  lemma ExampleSchoolCol()
    ensures SchoolCol(["School", "RC Contacted"]) == Some(0)
  {
    var h := "School";
    assert Lower(h) == "school";
    ContainsAt(Lower(h), "school", 0);
  }

  /** The contacted columns of the example below: only an RC one. */
  lemma ExampleContactedCols()
    ensures ContactedCol(["School", "RC Contacted"], Rc) == Some(1)
    ensures ContactedCol(["School", "RC Contacted"], Ol) == None
  {
    var h0, h1 := "School", "RC Contacted";
    assert Lower(h0) == "school";
    assert Lower(h1) == "rc contacted";
    ContainsAt(Lower(h1), "rc contacted", 0);
    ContainsLonger(Lower(h0), "ol contacted");
    ContainsLonger(Lower(h0), "rc contacted");
  }

  /**
   * Two rows of the same school, the first with a date in its RC contacted
   * cell: the contacted check returns that date, and the sort key cannot be
   * computed for it, so the script stops before it deletes anything.
   */
  lemma DateContactedRaises()
    ensures var headers := ["School", "RC Contacted"];
      var rows := [["A", "3/14"], ["a", ""]];
      SchoolCol(headers) == Some(0) && SchoolName(rows[0], 0) == "a" && SchoolName(rows[1], 0) == "a"
      && ContactedAsWritten(rows[0], headers) == PyStr("3/14")
      && SortKeyAsWritten(ContactedAsWritten(rows[0], headers), CountNonEmpty(rows[0])).None?
      && HasContacted(rows[0], headers) && !HasContacted(rows[1], headers)
  {
    ExampleSchoolCol();
    ExampleContactedCols();
    assert Strip("A") == "A" && Strip("a") == "a" && Strip("3/14") == "3/14" && Strip("") == "" by {
      StripNoSpace("A");
      StripNoSpace("a");
      StripNoSpace("3/14");
      StripNoSpace("");
    }
    assert Lower("A") == "a";
    ContactedTruthiness(["a", ""], ["School", "RC Contacted"]);
    assert ParseInt("3/14").None? by {
      assert !IsDigits("3/14") by { assert !IsAsciiDigit("3/14"[1]); }
    }
  }

  /** Whether a row has been contacted, as the script intends: its RC or OL contacted cell is not blank. */
  predicate HasContacted(row: seq<string>, headers: seq<string>) {
    FilledAt(row, ContactedCol(headers, Rc)) || FilledAt(row, ContactedCol(headers, Ol))
  }

  /** The intended check is the truth value of what the script's check returns. */
  lemma ContactedTruthiness(row: seq<string>, headers: seq<string>)
    ensures HasContacted(row, headers) <==> Truthy(ContactedAsWritten(row, headers))
    ensures ContactedAsWritten(row, headers).PyStr? && HasContacted(row, headers) ==>
              ContactedAsWritten(row, headers).text != ""
  {
  }

  /** The contacted check, columns found by scanning the headers. */
  method HasContactedData(row: seq<string>, headers: seq<string>) returns (b: bool)
    ensures b == HasContacted(row, headers)
  {
    var rc, ol := FindContactedCols(headers);
    var hasRc := rc.Some? && rc.value < |row| && Strip(row[rc.value]) != "";
    var hasOl := ol.Some? && ol.value < |row| && Strip(row[ol.value]) != "";
    b := hasRc || hasOl;
  }

  // ---------------------------------------------------------------------
  // Grouping and the kept row
  // ---------------------------------------------------------------------

  predicate IsSchoolHeader(h: string) {
    Contains(Lower(h), "school")
  }

  /** The first header containing "school", ignoring case. */
  function SchoolCol(headers: seq<string>): (r: Option<nat>)
    ensures r.Some? ==> (r.value < |headers| && IsSchoolHeader(headers[r.value])
                         && forall j | 0 <= j < r.value :: !IsSchoolHeader(headers[j]))
    ensures r.None? ==> forall j | 0 <= j < |headers| :: !IsSchoolHeader(headers[j])
  {
    if headers == [] then None
    else if IsSchoolHeader(headers[0]) then Some(0)
    else
      match SchoolCol(headers[1..])
      case None => None
      case Some(c) => Some(c + 1)
  }

  /** Scans the headers and stops at the first school header. */
  method FindSchoolCol(headers: seq<string>) returns (col: Option<nat>)
    ensures col == SchoolCol(headers)
  {
    for i := 0 to |headers|
      invariant SchoolCol(headers) == (match SchoolCol(headers[i..]) case None => None case Some(c) => Some(c + i))
    {
      assert headers[i..][1..] == headers[i + 1..];
      if IsSchoolHeader(headers[i]) {
        return Some(i);
      }
    }
    assert headers[|headers|..] == [];
    return None;
  }

  /** The normalised school of a row: its school cell stripped and lower-cased, or "" past the row's end. */
  function SchoolName(row: seq<string>, col: nat): string {
    if col < |row| then Lower(Strip(row[col])) else ""
  }

  /** The normalised names of the data rows. */
  function DataNames(rows: seq<seq<string>>, col: nat): (r: seq<string>)
    ensures |r| == |rows|
  {
    if rows == [] then [] else DataNames(rows[..|rows| - 1], col) + [SchoolName(rows[|rows| - 1], col)]
  }

  /** How much a row is worth keeping: contacted first, then its number of non-blank cells. */
  function Rank(row: seq<string>, headers: seq<string>): (int, int) {
    (if HasContacted(row, headers) then 1 else 0, CountNonEmpty(row))
  }

  /** The ranks of the data rows. */
  function DataRanks(rows: seq<seq<string>>, headers: seq<string>): (r: seq<(int, int)>)
    ensures |r| == |rows|
  {
    if rows == [] then [] else DataRanks(rows[..|rows| - 1], headers) + [Rank(rows[|rows| - 1], headers)]
  }

  /** Rank `a` is preferred to rank `b`: compared on being contacted, then on the count. */
  predicate Outranks(a: (int, int), b: (int, int)) {
    a.0 > b.0 || (a.0 == b.0 && a.1 > b.1)
  }

  /**
   * The row kept among the first `n` rows named `name`, or `None` when there
   * is none: the last that outranks every earlier row of the name.
   */
  function BestIn(names: seq<string>, ranks: seq<(int, int)>, name: string, n: nat): (r: Option<nat>)
    requires n <= |names| == |ranks|
    ensures r.Some? ==> r.value < n && names[r.value] == name
    ensures r.None? ==> forall j | 0 <= j < n :: names[j] != name
  {
    if n == 0 then None
    else
      var b := BestIn(names, ranks, name, n - 1);
      if names[n - 1] == name && (b.None? || Outranks(ranks[n - 1], ranks[b.value])) then Some(n - 1)
      else b
  }

  /**
   * The kept row is the head of the group's stable sort: no row of the group
   * outranks it, and it outranks every earlier row of the group.
   */
  lemma {:induction false} BestInIsBest(names: seq<string>, ranks: seq<(int, int)>, name: string, n: nat)
    requires n <= |names| == |ranks|
    ensures var r := BestIn(names, ranks, name, n);
      r.Some? ==> (forall j | 0 <= j < n && names[j] == name :: !Outranks(ranks[j], ranks[r.value]))
                  && (forall j | 0 <= j < r.value && names[j] == name :: Outranks(ranks[r.value], ranks[j]))
  {
    if n > 0 {
      BestInIsBest(names, ranks, name, n - 1);
    }
  }

  /** Row `i` is the one its group keeps. */
  predicate IsKept(names: seq<string>, ranks: seq<(int, int)>, i: nat)
    requires |names| == |ranks|
  {
    i < |names| && names[i] != "" && BestIn(names, ranks, names[i], |names|) == Some(i)
  }

  /** The rows with a name, which are the ones grouped. */
  function Named(names: seq<string>): set<nat> {
    set i: nat | i < |names| && names[i] != ""
  }

  /** The distinct non-blank names: one per group. */
  function Groups(names: seq<string>): set<string> {
    set i | i in Named(names) :: names[i]
  }

  /** The kept rows. */
  function Kept(names: seq<string>, ranks: seq<(int, int)>): set<nat>
    requires |names| == |ranks|
  {
    set i: nat | i < |names| && IsKept(names, ranks, i)
  }

  /** The rows deleted: every named row that is not its group's kept row. */
  function Doomed(names: seq<string>, ranks: seq<(int, int)>): set<nat>
    requires |names| == |ranks|
  {
    set i: nat | i < |names| && names[i] != "" && !IsKept(names, ranks, i)
  }

  /** The sheet rows deleted: data row `i` is sheet row `i + 2`, after the header. */
  function Plan(names: seq<string>, ranks: seq<(int, int)>): set<int>
    requires |names| == |ranks|
  {
    set i | i in Doomed(names, ranks) :: i + 2
  }

  // ---------------------------------------------------------------------
  // What the plan keeps and deletes
  // ---------------------------------------------------------------------

  /** Every group keeps exactly one row, which is never deleted, and deletes the rest. */
  lemma OneKeptPerGroup(names: seq<string>, ranks: seq<(int, int)>, name: string)
    requires |names| == |ranks|
    requires name in Groups(names)
    ensures exists k :: k in Kept(names, ranks) && names[k] == name
    ensures forall i, j | i in Kept(names, ranks) && j in Kept(names, ranks) && names[i] == names[j] :: i == j
    ensures forall i | i in Doomed(names, ranks) :: i !in Kept(names, ranks) && i + 2 in Plan(names, ranks)
    ensures forall i: nat | i < |names| && names[i] == name :: i in Kept(names, ranks) || i in Doomed(names, ranks)
  {
    var i :| i in Named(names) && names[i] == name;
    var k := BestIn(names, ranks, name, |names|).value;
    assert IsKept(names, ranks, k);
    assert k in Kept(names, ranks);
  }

  /** The row kept for a group outranks or ties every row of it, and outranks every earlier one. */
  lemma KeptIsBest(names: seq<string>, ranks: seq<(int, int)>, k: nat)
    requires |names| == |ranks|
    requires k in Kept(names, ranks)
    ensures forall j | j in Doomed(names, ranks) && names[j] == names[k] ::
              !Outranks(ranks[j], ranks[k]) && (j < k ==> Outranks(ranks[k], ranks[j]))
  {
    BestInIsBest(names, ranks, names[k], |names|);
  }

  /** The number of distinct images of an injective indexing. */
  lemma {:induction false} InjectiveImage(ks: set<nat>, names: seq<string>)
    requires forall i | i in ks :: i < |names|
    requires forall i, j | i in ks && j in ks && names[i] == names[j] :: i == j
    ensures |set i | i in ks :: names[i]| == |ks|
  {
    if ks != {} {
      var k :| k in ks;
      var rest := ks - {k};
      InjectiveImage(rest, names);
      assert (set i | i in ks :: names[i]) == (set i | i in rest :: names[i]) + {names[k]};
      assert names[k] !in (set i | i in rest :: names[i]);
    }
  }

  /** Shifting numbers keeps a set's size. */
  lemma {:induction false} ShiftSize(ks: set<nat>, d: nat)
    ensures |set i | i in ks :: i + d| == |ks|
  {
    if ks != {} {
      var k :| k in ks;
      var rest := ks - {k};
      ShiftSize(rest, d);
      var shifted, restShifted := set i | i in ks :: i + d, set i | i in rest :: i + d;
      forall x | x in shifted ensures x in restShifted + {k + d} {
        var i :| i in ks && x == i + d;
        if i != k {
          assert i in rest;
        }
      }
      assert shifted == restShifted + {k + d};
      assert k + d !in restShifted;
    }
  }

  /** The plan deletes, over all groups, the group's size less one: the named rows less one per group. */
  lemma PlanSize(names: seq<string>, ranks: seq<(int, int)>)
    requires |names| == |ranks|
    ensures |Plan(names, ranks)| == |Named(names)| - |Groups(names)|
  {
    var kept := Kept(names, ranks);
    var named := Named(names);
    InjectiveImage(kept, names);
    assert (set i | i in kept :: names[i]) == Groups(names) by {
      forall nm | nm in Groups(names) ensures nm in (set i | i in kept :: names[i]) {
        var i :| i in named && names[i] == nm;
        var k := BestIn(names, ranks, nm, |names|).value;
        assert k in kept;
      }
    }
    assert Doomed(names, ranks) == named - kept;
    assert kept <= named;
    assert named == (named - kept) + kept;
    ShiftSize(Doomed(names, ranks), 2);
  }

  // ---------------------------------------------------------------------
  // Deleting rows
  // ---------------------------------------------------------------------

  /** The rows `xs` less those whose row number is in `gone`, the first of `xs` being row `p`. */
  function KeepFrom<T>(xs: seq<T>, gone: set<int>, p: int): (r: seq<T>)
    ensures |r| <= |xs|
  {
    if xs == [] then []
    else KeepFrom(xs[..|xs| - 1], gone, p) + (if p + |xs| - 1 in gone then [] else [xs[|xs| - 1]])
  }

  /** The indices into `n` rows, from row `p` on, of the rows not in `gone`, in order. */
  function Positions(n: nat, gone: set<int>, p: int): (r: seq<nat>)
    ensures forall a | 0 <= a < |r| :: r[a] < n && p + r[a] !in gone
    ensures forall a, b | 0 <= a < b < |r| :: r[a] < r[b]
    ensures forall i | 0 <= i < n && p + i !in gone :: i in r
  {
    if n == 0 then []
    else Positions(n - 1, gone, p) + (if p + n - 1 in gone then [] else [n - 1])
  }

  /** What is kept is exactly the rows not in `gone`, in their original order. */
  lemma {:induction false} KeepFromPositions<T>(xs: seq<T>, gone: set<int>, p: int)
    ensures var pos := Positions(|xs|, gone, p);
      |KeepFrom(xs, gone, p)| == |pos| && forall a | 0 <= a < |pos| :: KeepFrom(xs, gone, p)[a] == xs[pos[a]]
  {
    if xs != [] {
      var init := xs[..|xs| - 1];
      KeepFromPositions(init, gone, p);
    }
  }

  /** Keeping splits at any point. */
  lemma {:induction false} KeepFromSplit<T>(xs: seq<T>, gone: set<int>, p: int, m: nat)
    requires m <= |xs|
    ensures KeepFrom(xs, gone, p) == KeepFrom(xs[..m], gone, p) + KeepFrom(xs[m..], gone, p + m)
  {
    if m == |xs| {
      assert xs[..m] == xs;
      assert xs[m..] == [];
    } else {
      var init := xs[..|xs| - 1];
      KeepFromSplit(init, gone, p, m);
      assert init[..m] == xs[..m];
      assert xs[m..][..|xs[m..]| - 1] == init[m..];
    }
  }

  /** Nothing of `gone` among the rows keeps them all. */
  lemma {:induction false} KeepFromUntouched<T>(xs: seq<T>, gone: set<int>, p: int)
    requires forall k | k in gone :: !(p <= k < p + |xs|)
    ensures KeepFrom(xs, gone, p) == xs
  {
    if xs != [] {
      KeepFromUntouched(xs[..|xs| - 1], gone, p);
    }
  }

  /** Before row `k` is deleted, the rows up to `k` are untouched. */
  lemma {:induction false} KeepFromBelow<T>(xs: seq<T>, gone: set<int>, k: int)
    requires 1 <= k <= |xs|
    requires forall g | g in gone :: g > k
    ensures KeepFrom(xs, gone, 1) == xs[..k] + KeepFrom(xs[k..], gone, k + 1)
  {
    var init := xs[..|xs| - 1];
    if |xs| == k {
      KeepFromUntouched(xs, gone, 1);
      assert xs[..k] == xs && xs[k..] == [];
    } else {
      KeepFromBelow(init, gone, k);
      var rest := xs[k..];
      assert rest[..|rest| - 1] == init[k..];
      assert init[..k] == xs[..k];
    }
  }

  /** Adding row `k` to the rows gone removes exactly the row at `k`. */
  lemma {:induction false} KeepFromWith<T>(xs: seq<T>, gone: set<int>, k: int)
    requires 1 <= k <= |xs|
    requires forall g | g in gone :: g > k
    ensures KeepFrom(xs, gone + {k}, 1) == xs[..k - 1] + KeepFrom(xs[k..], gone, k + 1)
  {
    var init := xs[..|xs| - 1];
    if |xs| == k {
      KeepFromUntouched(init, gone + {k}, 1);
      assert xs[..k - 1] == init;
    } else {
      KeepFromWith(init, gone, k);
      var rest := xs[k..];
      assert rest[..|rest| - 1] == init[k..];
      assert init[..k - 1] == xs[..k - 1];
    }
  }

  /**
   * Deleting row `k` after deleting only rows below it removes the row
   * originally numbered `k`: the rows above have not moved.
   */
  lemma KeepFromDelete<T>(xs: seq<T>, gone: set<int>, k: int)
    requires 1 <= k <= |xs|
    requires forall g | g in gone :: g > k
    ensures k <= |KeepFrom(xs, gone, 1)|
    ensures var ys := KeepFrom(xs, gone, 1); ys[..k - 1] + ys[k..] == KeepFrom(xs, gone + {k}, 1)
  {
    var ys := KeepFrom(xs, gone, 1);
    var rest := KeepFrom(xs[k..], gone, k + 1);
    KeepFromBelow(xs, gone, k);
    KeepFromWith(xs, gone, k);
    assert ys[..k - 1] == xs[..k - 1] && ys[k..] == rest;
  }

  /** A sheet as its list of rows, the header row first. */
  class Sheet {
    var rows: seq<seq<string>>

    constructor(initial: seq<seq<string>>)
      ensures rows == initial
    {
      rows := initial;
    }

    /** Deletes row `k`, counting from 1; the rows below it move up. */
    method DeleteRow(k: int)
      requires 1 <= k <= |rows|
      modifies this
      ensures rows == old(rows[..k - 1] + rows[k..])
    {
      rows := rows[..k - 1] + rows[k..];
    }
  }

  predicate Descending(xs: seq<int>) {
    forall i, j | 0 <= i < j < |xs| :: xs[i] > xs[j]
  }

  lemma DescendingSnoc(xs: seq<int>, x: int)
    requires Descending(xs)
    requires forall k | k in xs :: k > x
    ensures Descending(xs + [x])
  {
    forall i, j | 0 <= i < j < |xs| + 1 ensures (xs + [x])[i] > (xs + [x])[j] {
      if j == |xs| {
        assert xs[i] in xs;
      }
    }
  }

  /** The numbers in a list. */
  function Elems(xs: seq<int>): set<int> {
    set x | x in xs
  }

  /** Where the kept rows come from, when the first row is never deleted. */
  lemma KeepFromFirstStays<T>(xs: seq<T>, gone: set<int>)
    requires |xs| >= 1 && 1 !in gone
    ensures var after, pos := KeepFrom(xs, gone, 1), Positions(|xs|, gone, 1);
      |after| == |pos| && 1 <= |pos| && pos[0] == 0 && after[0] == xs[0]
      && forall a | 0 <= a < |pos| :: after[a] == xs[pos[a]]
  {
    KeepFromPositions(xs, gone, 1);
    var pos := Positions(|xs|, gone, 1);
    assert 0 in pos;
  }

  // ---------------------------------------------------------------------
  // The script
  // ---------------------------------------------------------------------

  /** Computes a data row's name and rank. */
  method RowFact(row: seq<string>, headers: seq<string>, col: nat) returns (name: string, rank: (int, int))
    ensures name == SchoolName(row, col) && rank == Rank(row, headers)
  {
    var contacted := HasContactedData(row, headers);
    name := SchoolName(row, col);
    rank := (if contacted then 1 else 0, CountNonEmpty(row));
  }

  /** Computes each data row's name and rank. */
  method RowFacts(rows: seq<seq<string>>, headers: seq<string>, col: nat)
    returns (names: seq<string>, ranks: seq<(int, int)>)
    ensures names == DataNames(rows, col) && ranks == DataRanks(rows, headers)
  {
    names, ranks := [], [];
    for i := 0 to |rows|
      invariant names == DataNames(rows[..i], col) && ranks == DataRanks(rows[..i], headers)
    {
      var name, rank := RowFact(rows[i], headers, col);
      assert rows[..i + 1][..i] == rows[..i];
      names, ranks := names + [name], ranks + [rank];
    }
    assert rows[..|rows|] == rows;
  }

  /** Groups the named rows by name, keeping for each name the row its group's sort puts first. */
  method ChooseKeepers(names: seq<string>, ranks: seq<(int, int)>) returns (best: map<string, nat>)
    requires |names| == |ranks|
    ensures forall nm | nm in best :: BestIn(names, ranks, nm, |names|) == Some(best[nm])
    ensures forall i | 0 <= i < |names| && names[i] != "" :: names[i] in best
  {
    best := map[];
    for i := 0 to |names|
      invariant "" !in best
      invariant forall nm | nm in best :: BestIn(names, ranks, nm, i) == Some(best[nm])
      invariant forall j | 0 <= j < i && names[j] != "" :: names[j] in best
    {
      var nm := names[i];
      ghost var before := best;
      if nm != "" && (nm !in best || Outranks(ranks[i], ranks[best[nm]])) {
        best := best[nm := i];
      }
      forall m | m in best ensures BestIn(names, ranks, m, i + 1) == Some(best[m]) {
        var b := BestIn(names, ranks, m, i);
        assert BestIn(names, ranks, m, i + 1)
            == if names[i] == m && (b.None? || Outranks(ranks[i], ranks[b.value])) then Some(i) else b;
        if m != nm {
          assert m in before && best[m] == before[m];
          assert BestIn(names, ranks, m, i + 1) == b;
        } else if m in before {
          assert b == Some(before[m]);
          if Outranks(ranks[i], ranks[before[m]]) {
            assert best[m] == i;
          } else {
            assert best[m] == before[m];
          }
        } else {
          assert b.None?;
          assert best[m] == i;
        }
      }
    }
  }

  /** Lists the sheet rows to delete from the bottom of the sheet up. */
  method PlanDeletions(names: seq<string>, ranks: seq<(int, int)>, best: map<string, nat>)
    returns (planned: seq<int>)
    requires |names| == |ranks|
    requires forall nm | nm in best :: BestIn(names, ranks, nm, |names|) == Some(best[nm])
    requires forall i | 0 <= i < |names| && names[i] != "" :: names[i] in best
    ensures Descending(planned)
    ensures Elems(planned) == Plan(names, ranks)
  {
    planned := [];
    var i := |names|;
    while i > 0
      invariant 0 <= i <= |names|
      invariant Descending(planned)
      invariant forall k | k in planned :: i + 2 <= k && k - 2 in Doomed(names, ranks)
      invariant forall j | j in Doomed(names, ranks) && j >= i :: j + 2 in planned
    {
      i := i - 1;
      if names[i] != "" && best[names[i]] != i {
        assert i in Doomed(names, ranks);
        DescendingSnoc(planned, i + 2);
        planned := planned + [i + 2];
      } else {
        assert i !in Doomed(names, ranks);
      }
    }
    forall k | k in Plan(names, ranks) ensures k in planned {
      var j :| j in Doomed(names, ranks) && k == j + 2;
    }
    forall k | k in planned ensures k in Plan(names, ranks) {
      var j: nat := k - 2;
      assert j in Doomed(names, ranks);
    }
  }

  /** Deletes the planned rows one at a time, highest first; a deletion that fails is skipped. */
  method DeleteAll(sheet: Sheet, planned: seq<int>, failing: set<int>)
    requires Descending(planned)
    requires forall k | k in planned :: 1 <= k <= |sheet.rows|
    modifies sheet
    ensures sheet.rows == KeepFrom(old(sheet.rows), Elems(planned) - failing, 1)
  {
    ghost var start := sheet.rows;
    assert Elems(planned[..0]) - failing == {};
    KeepFromUntouched(start, {}, 1);
    for n := 0 to |planned|
      invariant sheet.rows == KeepFrom(start, Elems(planned[..n]) - failing, 1)
    {
      var k := planned[n];
      ghost var done := Elems(planned[..n]) - failing;
      assert planned[..n + 1] == planned[..n] + [k];
      assert Elems(planned[..n + 1]) == Elems(planned[..n]) + {k};
      if k !in failing {
        assert k in planned;
        forall g | g in done ensures g > k {
          var m :| 0 <= m < n && planned[m] == g;
        }
        KeepFromDelete(start, done, k);
        sheet.DeleteRow(k);
        assert Elems(planned[..n + 1]) - failing == done + {k};
      } else {
        assert Elems(planned[..n + 1]) - failing == done;
      }
    }
    assert planned[..|planned|] == planned;
  }

  /**
   * The script on a sheet: it plans the deletions, asks for confirmation and
   * deletes the planned rows from the bottom up. `answer` is the operator's
   * reply and `failing` the rows whose deletion fails.
   */
  method Deduplicate(sheet: Sheet, answer: string, failing: set<int>) returns (planned: seq<int>)
    modifies sheet
    ensures |old(sheet.rows)| < 2 ==> planned == [] && sheet.rows == old(sheet.rows)
    ensures |old(sheet.rows)| >= 2 && SchoolCol(old(sheet.rows[0])).None? ==>
              planned == [] && sheet.rows == old(sheet.rows)
    ensures |old(sheet.rows)| >= 2 && SchoolCol(old(sheet.rows[0])).Some? ==>
              var plan := Plan(DataNames(old(sheet.rows[1..]), SchoolCol(old(sheet.rows[0])).value),
                               DataRanks(old(sheet.rows[1..]), old(sheet.rows[0])));
              Descending(planned) && Elems(planned) == plan
              && sheet.rows == if planned == [] || Lower(Strip(answer)) != "yes" then old(sheet.rows)
                               else KeepFrom(old(sheet.rows), plan - failing, 1)
  {
    planned := [];
    if |sheet.rows| < 2 {
      return;
    }
    var headers := sheet.rows[0];
    var rows := sheet.rows[1..];
    var col := FindSchoolCol(headers);
    if col.None? {
      return;
    }
    var names, ranks := RowFacts(rows, headers, col.value);
    var best := ChooseKeepers(names, ranks);
    planned := PlanDeletions(names, ranks, best);
    if planned == [] || Lower(Strip(answer)) != "yes" {
      return;
    }
    forall k | k in planned ensures 1 <= k <= |sheet.rows| {
      assert k in Plan(names, ranks);
    }
    DeleteAll(sheet, planned, failing);
  }

  /** Deleting data rows leaves the header row first. */
  lemma HeaderStays<T>(header: T, rows: seq<T>, gone: set<int>)
    requires 1 !in gone
    ensures KeepFrom([header] + rows, gone, 1) == [header] + KeepFrom(rows, gone, 2)
  {
    var sheet := [header] + rows;
    KeepFromSplit(sheet, gone, 1, 1);
    KeepFromUntouched(sheet[..1], gone, 1);
    assert sheet[..1] == [header] && sheet[1..] == rows;
  }

  /** Each data row's name is at its index. */
  lemma {:induction false} DataNamesAt(rows: seq<seq<string>>, col: nat)
    ensures forall i | 0 <= i < |rows| :: DataNames(rows, col)[i] == SchoolName(rows[i], col)
  {
    if rows != [] {
      DataNamesAt(rows[..|rows| - 1], col);
    }
  }

  /** The names of the rows kept are the names kept. */
  lemma KeepFromNames(rows: seq<seq<string>>, col: nat, gone: set<int>, p: int)
    ensures DataNames(KeepFrom(rows, gone, p), col) == KeepFrom(DataNames(rows, col), gone, p)
  {
    var names := DataNames(rows, col);
    var keptRows, keptNames := KeepFrom(rows, gone, p), KeepFrom(names, gone, p);
    KeepFromPositions(rows, gone, p);
    KeepFromPositions(names, gone, p);
    DataNamesAt(rows, col);
    DataNamesAt(keptRows, col);
  }

  /**
   * After the plan runs with no failure, no two remaining rows share a
   * non-blank name, and every group still has its row.
   */
  lemma NamesAfterDeletion(names: seq<string>, ranks: seq<(int, int)>)
    requires |names| == |ranks|
    ensures var after := KeepFrom(names, Plan(names, ranks), 2);
      (forall a, b | 0 <= a < b < |after| :: after[a] == "" || after[a] != after[b])
      && (forall nm | nm in Groups(names) :: nm in after)
  {
    var plan := Plan(names, ranks);
    var after := KeepFrom(names, plan, 2);
    var pos := Positions(|names|, plan, 2);
    KeepFromPositions(names, plan, 2);
    assert forall a | 0 <= a < |pos| :: pos[a] !in Doomed(names, ranks);
    forall a, b | 0 <= a < b < |after| && after[a] != ""
      ensures after[a] != after[b]
    {
      assert IsKept(names, ranks, pos[a]);
    }
    forall nm | nm in Groups(names) ensures nm in after {
      var i :| i in Named(names) && names[i] == nm;
      var k := BestIn(names, ranks, nm, |names|).value;
      assert IsKept(names, ranks, k);
      assert k !in Doomed(names, ranks);
      assert forall j | j in Doomed(names, ranks) :: j + 2 != 2 + k;
      assert 2 + k !in plan;
      assert k in pos;
      var a :| 0 <= a < |pos| && pos[a] == k;
      assert after[a] == nm;
    }
  }

  /** The sheet after the plan runs with no failure: the header row, then the data rows kept. */
  lemma SheetAfterDeletion(headers: seq<string>, rows: seq<seq<string>>, col: nat)
    ensures var plan := Plan(DataNames(rows, col), DataRanks(rows, headers));
      var after := KeepFrom([headers] + rows, plan, 1);
      after == [headers] + KeepFrom(rows, plan, 2)
      && DataNames(after[1..], col) == KeepFrom(DataNames(rows, col), plan, 2)
  {
    var plan := Plan(DataNames(rows, col), DataRanks(rows, headers));
    assert 1 !in plan;
    HeaderStays(headers, rows, plan);
    KeepFromNames(rows, col, plan, 2);
  }
}
