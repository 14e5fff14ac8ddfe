/**
 * `get_coaches_to_email`: reads the coach sheet row by row and lists the
 * coaches to e-mail, one entry per address. A row whose two coaches share
 * an address gives one "dual" entry; otherwise the OL coach and then the
 * recruiting coordinator are considered on their own.
 */
module CoachList {
  import opened Text
  import opened Dates
  import opened EmailRules

  /** The header positions `find_col` found (-1 for a missing column). */
  datatype Columns = Columns(
    school: int, olName: int, rcName: int, olEmail: int, rcEmail: int,
    olContacted: int, rcContacted: int, rcStage: int, rcNext: int, olStage: int, olNext: int,
    rcResponded: int, olResponded: int, rcEmailStatus: int, olEmailStatus: int)

  function ColumnsOf(headers: seq<string>): Columns {
    Columns(
      FirstMatch(headers, SchoolKeywords()), FirstMatch(headers, OlNameKeywords()),
      FirstMatch(headers, RcNameKeywords()), FirstMatch(headers, OlEmailKeywords()),
      FirstMatch(headers, RcEmailKeywords()), FirstMatch(headers, OlContactedKeywords()),
      FirstMatch(headers, RcContactedKeywords()), FirstMatch(headers, RcStageKeywords()),
      FirstMatch(headers, RcNextKeywords()), FirstMatch(headers, OlStageKeywords()),
      FirstMatch(headers, OlNextKeywords()), FirstMatch(headers, RcRespondedKeywords()),
      FirstMatch(headers, OlRespondedKeywords()), FirstMatch(headers, RcEmailStatusKeywords()),
      FirstMatch(headers, OlEmailStatusKeywords()))
  }

  datatype Role = OL | RC | Dual

  /**
   * One entry of the list. `contactedCol` is set for an OL or RC entry,
   * `olContactedCol`/`rcContactedCol` for a dual one (1-based sheet columns).
   */
  datatype Coach = Coach(
    email: string, name: string, lastName: string, school: string, role: Role,
    rowIdx: int, contactedCol: Option<int>, olContactedCol: Option<int>, rcContactedCol: Option<int>,
    isFollowup: bool, currentStage: nat)

  /** `row[col] if 0 <= col < len(row) else ''`. */
  function Cell(row: seq<string>, col: int): string {
    if 0 <= col < |row| then row[col] else ""
  }

  /** The 1-based column to stamp, `col + 1 if col >= 0 else None`. */
  function ContactedColumn(col: int): (r: Option<int>)
    ensures r.Some? <==> col >= 0
    ensures r.Some? ==> r.value >= 1
  {
    if col >= 0 then Some(col + 1) else None
  }

  /** `name.split()[-1] if name else 'Coach'`, for a stripped name. */
  function LastNameOf(name: string): (r: string)
    requires Strip(name) == name
    ensures r != ""
  {
    if name == "" then "Coach"
    else
      StripProps(name);
      LastWord(name)
  }

  /**
   * What the row loop reads from one row: the stripped school and names,
   * the cleaned addresses, and each role's classifier results.
   */
  datatype RowFacts = RowFacts(
    school: string, olName: string, rcName: string, olEmail: string, rcEmail: string,
    olContacted: bool, rcContacted: bool, olResponded: bool, rcResponded: bool,
    olBadEmail: bool, rcBadEmail: bool, olDue: bool, rcDue: bool, olStage: nat, rcStage: nat)

  /** The school and names are stripped, the addresses empty or valid. */
  predicate WellRead(f: RowFacts) {
    Strip(f.school) == f.school && Strip(f.olName) == f.olName && Strip(f.rcName) == f.rcName
    && (f.olEmail == "" || IsValidEmail(f.olEmail)) && (f.rcEmail == "" || IsValidEmail(f.rcEmail))
  }

  function ReadRow(row: seq<string>, cols: Columns, today: Date): (f: RowFacts)
    ensures WellRead(f)
  {
    StripIdempotent(Cell(row, cols.school));
    StripIdempotent(Cell(row, cols.olName));
    StripIdempotent(Cell(row, cols.rcName));
    RowFacts(
      Strip(Cell(row, cols.school)), Strip(Cell(row, cols.olName)), Strip(Cell(row, cols.rcName)),
      CleanEmail(Cell(row, cols.olEmail)), CleanEmail(Cell(row, cols.rcEmail)),
      IsContacted(Cell(row, cols.olContacted)), IsContacted(Cell(row, cols.rcContacted)),
      HasResponded(Cell(row, cols.olResponded)), HasResponded(Cell(row, cols.rcResponded)),
      HasBadEmail(Cell(row, cols.olEmailStatus)), HasBadEmail(Cell(row, cols.rcEmailStatus)),
      IsDueForFollowup(Cell(row, cols.olNext), today), IsDueForFollowup(Cell(row, cols.rcNext), today),
      StageOf(Cell(row, cols.olStage)), StageOf(Cell(row, cols.rcStage)))
  }

  /** Both roles share one non-empty address (`is_dual_role`). */
  predicate IsDual(f: RowFacts) {
    f.olEmail != "" && f.olEmail == f.rcEmail
  }

  /** The rule a non-dual role is e-mailed by: an address, no response, no bad mark, never contacted or due. */
  predicate OlWanted(f: RowFacts) {
    f.olEmail != "" && !(f.olResponded || f.olBadEmail) && (!f.olContacted || f.olDue)
  }

  predicate RcWanted(f: RowFacts) {
    f.rcEmail != "" && !(f.rcResponded || f.rcBadEmail) && (!f.rcContacted || f.rcDue)
  }

  /** The rule for a dual row: nobody responded, no bad mark, never contacted by either role or due for either. */
  predicate DualWanted(f: RowFacts) {
    !(f.rcResponded || f.olResponded) && !(f.rcBadEmail || f.olBadEmail)
    && ((!f.olContacted && !f.rcContacted) || f.olDue || f.rcDue)
  }

  /**
   * What every entry taken from a row satisfies: the row's school, a valid
   * address, and the last name taken from the entry's own (stripped) name.
   */
  predicate Common(c: Coach, f: RowFacts) {
    c.school == f.school && c.school != "" && c.email != "" && IsValidEmail(c.email)
    && Strip(c.name) == c.name && c.lastName == LastNameOf(c.name) && c.lastName != ""
  }

  /** The OL coach's entry of a non-dual row. */
  predicate OlEntry(c: Coach, f: RowFacts, cols: Columns) {
    !IsDual(f) && OlWanted(f) && c.email == f.olEmail && c.name == f.olName
    && c.isFollowup == f.olContacted && c.currentStage == f.olStage
    && c.contactedCol == ContactedColumn(cols.olContacted)
  }

  /** The recruiting coordinator's entry of a non-dual row. */
  predicate RcEntry(c: Coach, f: RowFacts, cols: Columns) {
    !IsDual(f) && RcWanted(f) && c.email == f.rcEmail && c.name == f.rcName
    && c.isFollowup == f.rcContacted && c.currentStage == f.rcStage
    && c.contactedCol == ContactedColumn(cols.rcContacted)
  }

  /** The one entry of a dual row: the OL name when there is one, the higher of the two stages. */
  predicate DualEntry(c: Coach, f: RowFacts, cols: Columns) {
    IsDual(f) && DualWanted(f) && c.email == f.olEmail
    && c.name == (if f.olName != "" then f.olName else f.rcName)
    && c.isFollowup == (f.olContacted || f.rcContacted)
    && c.currentStage >= f.olStage && c.currentStage >= f.rcStage
    && (c.currentStage == f.olStage || c.currentStage == f.rcStage)
    && c.olContactedCol == ContactedColumn(cols.olContacted)
    && c.rcContactedCol == ContactedColumn(cols.rcContacted)
  }

  /** What an entry taken from a row satisfies, role by role. */
  predicate Eligible(c: Coach, f: RowFacts, cols: Columns) {
    Common(c, f)
    && match c.role
       case OL => OlEntry(c, f, cols)
       case RC => RcEntry(c, f, cols)
       case Dual => DualEntry(c, f, cols)
  }

  /** The one entry of a dual row, when the dual rule selects it. */
  function DualCandidate(f: RowFacts, cols: Columns, rowIdx: int): (r: seq<Coach>)
    requires WellRead(f) && f.school != "" && IsDual(f)
    ensures |r| <= 1
    ensures forall c | c in r :: c.rowIdx == rowIdx && c.role == Dual && Common(c, f) && DualEntry(c, f, cols)
    ensures DualWanted(f) ==> |r| == 1
  {
    if DualWanted(f) then
      var name := if f.olName != "" then f.olName else f.rcName;
      var c := Coach(f.olEmail, name, LastNameOf(name), f.school, Dual, rowIdx, None,
                     ContactedColumn(cols.olContacted), ContactedColumn(cols.rcContacted),
                     f.olContacted || f.rcContacted, if f.olStage >= f.rcStage then f.olStage else f.rcStage);
      assert Common(c, f);
      assert DualEntry(c, f, cols);
      [c]
    else []
  }

  /** The OL coach's entry of a non-dual row, when the OL rule selects it. */
  function OlCandidate(f: RowFacts, cols: Columns, rowIdx: int): (r: seq<Coach>)
    requires WellRead(f) && f.school != "" && !IsDual(f)
    ensures |r| <= 1
    ensures forall c | c in r :: c.rowIdx == rowIdx && c.role == OL && Common(c, f) && OlEntry(c, f, cols)
    ensures OlWanted(f) ==> |r| == 1
  {
    if OlWanted(f) then
      [Coach(f.olEmail, f.olName, LastNameOf(f.olName), f.school, OL, rowIdx, ContactedColumn(cols.olContacted),
             None, None, f.olContacted, f.olStage)]
    else []
  }

  /** The recruiting coordinator's entry of a non-dual row, when the RC rule selects it. */
  function RcCandidate(f: RowFacts, cols: Columns, rowIdx: int): (r: seq<Coach>)
    requires WellRead(f) && f.school != "" && !IsDual(f)
    ensures |r| <= 1
    ensures forall c | c in r :: c.rowIdx == rowIdx && c.role == RC && Common(c, f) && RcEntry(c, f, cols)
    ensures RcWanted(f) ==> |r| == 1
  {
    if RcWanted(f) then
      [Coach(f.rcEmail, f.rcName, LastNameOf(f.rcName), f.school, RC, rowIdx, ContactedColumn(cols.rcContacted),
             None, None, f.rcContacted, f.rcStage)]
    else []
  }

  /** The entries one row proposes, in the order the loop considers them: dual, or OL then RC. */
  function Candidates(f: RowFacts, cols: Columns, rowIdx: int): (r: seq<Coach>)
    requires WellRead(f)
    ensures |r| <= 2
  {
    if f.school == "" then []
    else if IsDual(f) then DualCandidate(f, cols, rowIdx)
    else OlCandidate(f, cols, rowIdx) + RcCandidate(f, cols, rowIdx)
  }

  /** Every entry a row proposes carries that row's index and satisfies the rule of its role. */
  lemma CandidatesEligible(f: RowFacts, cols: Columns, rowIdx: int)
    requires WellRead(f)
    ensures forall c | c in Candidates(f, cols, rowIdx) :: c.rowIdx == rowIdx && Eligible(c, f, cols)
  {
    if f.school != "" && !IsDual(f) {
      var ol, rc := OlCandidate(f, cols, rowIdx), RcCandidate(f, cols, rowIdx);
      forall c: Coach | c in ol + rc ensures c.rowIdx == rowIdx && Eligible(c, f, cols) {
        if c in ol { assert c.role == OL; } else { assert c.role == RC; }
      }
    }
  }

  /** The addresses already listed (`seen_emails`). */
  function Emails(cs: seq<Coach>): set<string> {
    set c | c in cs :: c.email
  }

  /** No address appears twice. */
  predicate Distinct(cs: seq<Coach>) {
    forall i, j | 0 <= i < j < |cs| :: cs[i].email != cs[j].email
  }

  /** Appends each candidate whose address has not been listed yet. */
  function Admit(acc: seq<Coach>, cands: seq<Coach>): seq<Coach>
    decreases |cands|
  {
    if cands == [] then acc
    else if cands[0].email in Emails(acc) then Admit(acc, cands[1..])
    else Admit(acc + [cands[0]], cands[1..])
  }

  /** What the loop reads from every data row. */
  function FactsOf(rows: seq<seq<string>>, cols: Columns, today: Date): (fs: seq<RowFacts>)
    ensures |fs| == |rows|
    ensures forall k | 0 <= k < |rows| :: fs[k] == ReadRow(rows[k], cols, today)
  {
    seq(|rows|, k requires 0 <= k < |rows| => ReadRow(rows[k], cols, today))
  }

  /** The candidates of every data row; data row k is sheet row k + 2. */
  function CandLists(fs: seq<RowFacts>, cols: Columns): (ls: seq<seq<Coach>>)
    requires forall k | 0 <= k < |fs| :: WellRead(fs[k])
    ensures |ls| == |fs|
    ensures forall k | 0 <= k < |fs| :: ls[k] == Candidates(fs[k], cols, k + 2)
  {
    seq(|fs|, k requires 0 <= k < |fs| => Candidates(fs[k], cols, k + 2))
  }

  /** The list after admitting the candidates of each row in turn. */
  function Fold(ls: seq<seq<Coach>>): seq<Coach> {
    if ls == [] then [] else Admit(Fold(ls[..|ls| - 1]), ls[|ls| - 1])
  }

  function Build(rows: seq<seq<string>>, cols: Columns, today: Date): seq<Coach> {
    Fold(CandLists(FactsOf(rows, cols, today), cols))
  }

  /** Admitting keeps the list so far as a prefix and adds only candidates. */
  lemma {:induction false} AdmitExtends(acc: seq<Coach>, cands: seq<Coach>)
    ensures |acc| <= |Admit(acc, cands)| && Admit(acc, cands)[..|acc|] == acc
    ensures forall c | c in Admit(acc, cands)[|acc|..] :: c in cands
    decreases |cands|
  {
    if cands != [] {
      var x := cands[0];
      var next := if x.email in Emails(acc) then acc else acc + [x];
      AdmitExtends(next, cands[1..]);
      var r := Admit(acc, cands);
      assert r == Admit(next, cands[1..]);
      assert r[..|acc|] == next[..|next|][..|acc|];
      forall c | c in r[|acc|..] ensures c in cands {
        var k :| |acc| <= k < |r| && r[k] == c;
        if k >= |next| {
          assert c in r[|next|..];
        } else {
          assert c == x;
        }
      }
    }
  }

  /** Admitting never lists an address twice. */
  lemma {:induction false} AdmitDistinct(acc: seq<Coach>, cands: seq<Coach>)
    requires Distinct(acc)
    ensures Distinct(Admit(acc, cands))
    decreases |cands|
  {
    if cands != [] {
      var x := cands[0];
      if x.email !in Emails(acc) {
        forall i | 0 <= i < |acc| ensures acc[i].email != x.email {
          assert acc[i] in acc;
        }
        AdmitDistinct(acc + [x], cands[1..]);
      } else {
        AdmitDistinct(acc, cands[1..]);
      }
    }
  }

  /** After admitting, every candidate's address is listed. */
  lemma {:induction false} AdmitEmails(acc: seq<Coach>, cands: seq<Coach>)
    ensures Emails(Admit(acc, cands)) == Emails(acc) + set c | c in cands :: c.email
    decreases |cands|
  {
    if cands != [] {
      var x := cands[0];
      var next := if x.email in Emails(acc) then acc else acc + [x];
      AdmitEmails(next, cands[1..]);
      assert Emails(next) == Emails(acc) + {x.email};
      assert (set c | c in cands :: c.email) == {x.email} + set c | c in cands[1..] :: c.email;
    }
  }

  /** The folded list lists no address twice. */
  lemma {:induction false} FoldDistinct(ls: seq<seq<Coach>>)
    ensures Distinct(Fold(ls))
  {
    if ls != [] {
      FoldDistinct(ls[..|ls| - 1]);
      AdmitDistinct(Fold(ls[..|ls| - 1]), ls[|ls| - 1]);
    }
  }

  /** Each entry of the folded list is a candidate of some row; `k` is that row. */
  lemma {:induction false} FoldMember(ls: seq<seq<Coach>>, c: Coach) returns (k: nat)
    requires c in Fold(ls)
    ensures k < |ls| && c in ls[k]
  {
    var n := |ls|;
    assert n > 0;
    var init := ls[..n - 1];
    var prev := Fold(init);
    AdmitExtends(prev, ls[n - 1]);
    var b := Fold(ls);
    var i :| 0 <= i < |b| && b[i] == c;
    if i < |prev| {
      assert c == prev[i];
      k := FoldMember(init, c);
      assert ls[k] == init[k];
    } else {
      assert c in b[|prev|..];
      k := n - 1;
    }
  }

  /** Every candidate's address is listed in the folded list. */
  lemma {:induction false} FoldListed(ls: seq<seq<Coach>>)
    ensures forall k, x | 0 <= k < |ls| && x in ls[k] :: x.email in Emails(Fold(ls))
  {
    if ls != [] {
      var n := |ls|;
      var init := ls[..n - 1];
      FoldListed(init);
      AdmitEmails(Fold(init), ls[n - 1]);
      forall k, x | 0 <= k < n && x in ls[k] ensures x.email in Emails(Fold(ls)) {
        if k < n - 1 {
          assert x in init[k];
        }
      }
    }
  }

  /** Every entry of row k's candidates carries sheet row k + 2 and satisfies the rules of row k. */
  lemma CandListsEligible(fs: seq<RowFacts>, cols: Columns)
    requires forall j | 0 <= j < |fs| :: WellRead(fs[j])
    ensures forall k, c | 0 <= k < |fs| && c in CandLists(fs, cols)[k] :: c.rowIdx == k + 2 && Eligible(c, fs[k], cols)
  {
    forall k | 0 <= k < |fs| {
      CandidatesEligible(fs[k], cols, k + 2);
    }
  }

  /** The fold only lists entries of the lists, so whatever holds of those holds of the fold. */
  lemma FoldEligible(ls: seq<seq<Coach>>, fs: seq<RowFacts>, cols: Columns)
    requires |ls| == |fs|
    requires forall k, c | 0 <= k < |ls| && c in ls[k] :: c.rowIdx == k + 2 && Eligible(c, fs[k], cols)
    ensures forall c | c in Fold(ls) :: 2 <= c.rowIdx < |fs| + 2 && Eligible(c, fs[c.rowIdx - 2], cols)
  {
    forall c | c in Fold(ls)
      ensures 2 <= c.rowIdx < |fs| + 2 && Eligible(c, fs[c.rowIdx - 2], cols)
    {
      var k := FoldMember(ls, c);
    }
  }

  /** For any rows' facts, every entry of the fold satisfies the rules of its row, and no address is listed twice. */
  lemma FoldSound(fs: seq<RowFacts>, cols: Columns)
    requires forall k | 0 <= k < |fs| :: WellRead(fs[k])
    ensures Distinct(Fold(CandLists(fs, cols)))
    ensures forall c | c in Fold(CandLists(fs, cols)) :: 2 <= c.rowIdx < |fs| + 2 && Eligible(c, fs[c.rowIdx - 2], cols)
  {
    var ls := CandLists(fs, cols);
    FoldDistinct(ls);
    CandListsEligible(fs, cols);
    FoldEligible(ls, fs, cols);
  }

  /** Every listed entry satisfies the rules of its row, and no address is listed twice. */
  lemma BuildSound(rows: seq<seq<string>>, cols: Columns, today: Date)
    ensures Distinct(Build(rows, cols, today))
    ensures forall c | c in Build(rows, cols, today) ::
      2 <= c.rowIdx < |rows| + 2 && Eligible(c, FactsOf(rows, cols, today)[c.rowIdx - 2], cols)
  {
    FoldSound(FactsOf(rows, cols, today), cols);
  }


  /**
   * Every coach the rules select is listed: the OL coach and the recruiting
   * coordinator of a row with a school, each on their own rule, or the one
   * person of a dual row. (The entry for that address may come from an
   * earlier row.)
   */
  lemma SelectedCoachListed(rows: seq<seq<string>>, cols: Columns, today: Date, k: nat)
    requires k < |rows|
    requires FactsOf(rows, cols, today)[k].school != ""
    ensures var f := FactsOf(rows, cols, today)[k];
      var listed := Emails(Build(rows, cols, today));
      (IsDual(f) && DualWanted(f) ==> f.olEmail in listed)
      && (!IsDual(f) && OlWanted(f) ==> f.olEmail in listed)
      && (!IsDual(f) && RcWanted(f) ==> f.rcEmail in listed)
  {
    var fs := FactsOf(rows, cols, today);
    var ls := CandLists(fs, cols);
    FoldListed(ls);
    var f := fs[k];
    var cands := ls[k];
    if IsDual(f) {
      if DualWanted(f) {
        assert cands[0] in cands;
      }
    } else {
      if OlWanted(f) {
        assert cands[0] in cands;
      }
      if RcWanted(f) {
        assert cands[|cands| - 1] in cands;
      }
    }
  }

  /** The fifteen `find_col` calls. */
  method DetectColumns(headers: seq<string>) returns (cols: Columns)
    ensures cols == ColumnsOf(headers)
  {
    var school := FindCol(headers, SchoolKeywords());
    var olName := FindCol(headers, OlNameKeywords());
    var rcName := FindCol(headers, RcNameKeywords());
    var olEmail := FindCol(headers, OlEmailKeywords());
    var rcEmail := FindCol(headers, RcEmailKeywords());
    var olContacted := FindCol(headers, OlContactedKeywords());
    var rcContacted := FindCol(headers, RcContactedKeywords());
    var rcStage := FindCol(headers, RcStageKeywords());
    var rcNext := FindCol(headers, RcNextKeywords());
    var olStage := FindCol(headers, OlStageKeywords());
    var olNext := FindCol(headers, OlNextKeywords());
    var rcResponded := FindCol(headers, RcRespondedKeywords());
    var olResponded := FindCol(headers, OlRespondedKeywords());
    var rcEmailStatus := FindCol(headers, RcEmailStatusKeywords());
    var olEmailStatus := FindCol(headers, OlEmailStatusKeywords());
    cols := Columns(school, olName, rcName, olEmail, rcEmail, olContacted, rcContacted,
                    rcStage, rcNext, olStage, olNext, rcResponded, olResponded, rcEmailStatus, olEmailStatus);
  }

  /** The `seen_emails` check for one row's candidates. */
  method AdmitAll(coaches: seq<Coach>, seen: set<string>, cands: seq<Coach>)
    returns (coaches': seq<Coach>, seen': set<string>)
    requires seen == Emails(coaches)
    ensures coaches' == Admit(coaches, cands) && seen' == Emails(coaches')
  {
    coaches', seen' := coaches, seen;
    var j := 0;
    while j < |cands|
      invariant 0 <= j <= |cands|
      invariant seen' == Emails(coaches')
      invariant Admit(coaches', cands[j..]) == Admit(coaches, cands)
    {
      assert cands[j..][1..] == cands[j + 1..];
      if cands[j].email !in seen' {
        seen' := seen' + {cands[j].email};
        coaches' := coaches' + [cands[j]];
      }
      j := j + 1;
    }
  }

  /** One pass of the row loop: row `i`'s candidates admitted after those of the rows before it. */
  method AdmitRow(coaches: seq<Coach>, seen: set<string>, ghost ls: seq<seq<Coach>>, i: nat, cands: seq<Coach>)
    returns (coaches': seq<Coach>, seen': set<string>)
    requires i < |ls| && cands == ls[i]
    requires coaches == Fold(ls[..i]) && seen == Emails(coaches)
    ensures coaches' == Fold(ls[..i + 1]) && seen' == Emails(coaches')
  {
    assert ls[..i + 1][..i] == ls[..i];
    coaches', seen' := AdmitAll(coaches, seen, cands);
  }

  /** `get_coaches_to_email`: column lookup, then the row loop with its `seen_emails` set. */
  method GetCoachesToEmail(sheetData: seq<seq<string>>, headers: seq<string>, today: Date)
    returns (coaches: seq<Coach>)
    ensures coaches == Build(sheetData, ColumnsOf(headers), today)
  {
    var cols := DetectColumns(headers);
    ghost var ls := CandLists(FactsOf(sheetData, cols, today), cols);
    coaches := [];
    var seen: set<string> := {};
    for i := 0 to |sheetData|
      invariant coaches == Fold(ls[..i]) && seen == Emails(coaches)
    {
      var f := ReadRow(sheetData[i], cols, today);
      coaches, seen := AdmitRow(coaches, seen, ls, i, Candidates(f, cols, i + 2));
    }
    assert ls[..|sheetData|] == ls;
  }
}
