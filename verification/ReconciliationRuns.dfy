// Running a stored reconciliation report against the ledger, any number of times.
module ReconciliationRuns {
  import opened Prelude
  import opened Reconciliation

  datatype ReportStatus = PENDING | MATCHED | UNMATCHED | RESOLVED

  predicate CanTransition(from: ReportStatus, to: ReportStatus) {
    match from
    case PENDING => to != PENDING
    case MATCHED => to == UNMATCHED || to == RESOLVED
    case UNMATCHED => to == MATCHED || to == RESOLVED
    case RESOLVED => false
  }

  // A stored statement line with the outcome of the last run, if any.
  datatype ReportLine = ReportLine(reference: nat, cents: int, status: MatchStatus, matched: Option<int>,
                                   difference: Option<int>)

  datatype Summary = Summary(exactCount: nat, amountDiffCount: nat,
                             missingInternal: seq<Line>, missingExternal: seq<Line>, externalTotal: int,
                                 internalTotal: int, netDifference: int)

  datatype ReportValue = ReportValue(status: ReportStatus, lines: seq<ReportLine>, summary: Option<Summary>)

  // A ledger row as the match sees it.
  datatype LedgerRow = LedgerRow(sourceId: Option<nat>, isDebit: bool, cents: int)

  function External(lines: seq<ReportLine>): (ls: seq<Line>)
    ensures |ls| == |lines|
  {
    seq(|lines|, k requires 0 <= k < |lines| => Line(lines[k].reference, lines[k].cents))
  }

  // The debit legs that name a source, as lines.
  function DebitLines(rows: seq<LedgerRow>): seq<Line> {
    if rows == [] then []
    else
      var row := rows[|rows| - 1];
      DebitLines(rows[..|rows| - 1])
      + if row.sourceId.Some? && row.isDebit then [Line(row.sourceId.value, row.cents)] else []
  }

  // ---------------------------------------------------------------------------
  // What a run should leave
  // ---------------------------------------------------------------------------

  datatype LineOutcome = LineOutcome(status: MatchStatus, matched: Option<int>, difference: int)

  // The outcome of a reference the statement has.
  function OutcomeFor(e: seq<Line>, i: seq<Line>, r: nat): LineOutcome {
    if r in RefsOf(i) then
      LineOutcome(ClassifyMatch(SumOf(e, r), SumOf(i, r)), Some(SumOf(i, r)), SumOf(e, r) - SumOf(i, r))
    else LineOutcome(UnmatchedLine, None, SumOf(e, r))
  }

  function WithOutcome(line: ReportLine, o: LineOutcome): ReportLine {
    line.(status := o.status, matched := o.matched, difference := Some(o.difference))
  }

  function UpdatedLines(lines: seq<ReportLine>, e: seq<Line>, i: seq<Line>): (ls: seq<ReportLine>)
    ensures |ls| == |lines|
  {
    seq(|lines|, k requires 0 <= k < |lines| => WithOutcome(lines[k], OutcomeFor(e, i, lines[k].reference)))
  }

  function CountOf(matches: seq<Match>, status: MatchStatus): nat {
    if matches == [] then 0
    else CountOf(matches[..|matches| - 1], status) + if matches[|matches| - 1].status == status then 1 else 0
  }

  function SummaryOf(o: Outcome): Summary {
    Summary(CountOf(o.matches, Exact), CountOf(o.matches, AmountDiff), o.missingInternal, o.missingExternal,
            o.externalTotal, o.internalTotal, o.netDifference)
  }

  ghost function RunOn(report: ReportValue, rows: seq<LedgerRow>): ReportValue {
    var e, i := External(report.lines), DebitLines(rows);
    var o := Reconciled(e, i);
    ReportValue(if IsClean(o) then MATCHED else UNMATCHED, UpdatedLines(report.lines, e, i), Some(SummaryOf(o)))
  }

  // ---------------------------------------------------------------------------
  // Running
  // ---------------------------------------------------------------------------

  lemma DebitLinesSnoc(rows: seq<LedgerRow>, k: nat)
    requires k < |rows|
    ensures DebitLines(rows[..k + 1])
            == if rows[k].sourceId.Some? && rows[k].isDebit
               then DebitLines(rows[..k]) + [Line(rows[k].sourceId.value, rows[k].cents)]
               else DebitLines(rows[..k])
  {
    assert rows[..k + 1][..k] == rows[..k];
    assert DebitLines(rows[..k]) + [] == DebitLines(rows[..k]);
  }

  lemma ByRefSnoc(m: map<nat, int>, lines: seq<Line>, line: Line)
    requires IsByRef(m, lines)
    ensures IsByRef(m[line.reference := (if line.reference in m then m[line.reference] else 0) + line.cents],
                    lines + [line])
  {
    RefsSnoc(lines, line);
    assert (lines + [line])[..|lines|] == lines;
    if line.reference !in m { AbsentSumsToZero(lines, line.reference); }
  }

  lemma ListedSumsAreSame(byRef: map<nat, int>, lines: seq<Line>, all: seq<Line>)
    requires IsByRef(byRef, all) && RefsOf(lines) == byRef.Keys
    requires forall r :: SumOf(lines, r) == if r in byRef then byRef[r] else 0
    ensures SameSums(lines, all)
  {
    forall r: nat
      ensures SumOf(lines, r) == SumOf(all, r)
    {
      if r !in byRef { AbsentSumsToZero(all, r); }
    }
  }

  // The ledger side, one line per source.
  method BuildInternalLines(rows: seq<LedgerRow>) returns (lines: seq<Line>)
    ensures SameSums(lines, DebitLines(rows))
  {
    var bySource: map<nat, int> := map[];
    ghost var seen: seq<Line> := [];
    for k := 0 to |rows|
      invariant seen == DebitLines(rows[..k]) && IsByRef(bySource, seen)
    {
      var row := rows[k];
      DebitLinesSnoc(rows, k);
      if row.sourceId.Some? && row.isDebit {
        var reference := row.sourceId.value;
        ByRefSnoc(bySource, seen, Line(reference, row.cents));
        seen := seen + [Line(reference, row.cents)];
        bySource := bySource[reference := (if reference in bySource then bySource[reference] else 0) + row.cents];
      }
    }
    assert rows[..|rows|] == rows;
    lines := LinesOf(bySource);
    ListedSumsAreSame(bySource, lines, DebitLines(rows));
  }

  method LinesOf(byRef: map<nat, int>) returns (lines: seq<Line>)
    ensures RefsOf(lines) == byRef.Keys
    ensures forall r :: SumOf(lines, r) == if r in byRef then byRef[r] else 0
  {
    lines := [];
    var rest := byRef.Keys;
    while rest != {}
      invariant rest <= byRef.Keys && RefsOf(lines) == byRef.Keys - rest
      invariant forall r :: SumOf(lines, r) == if r in byRef && r !in rest then byRef[r] else 0
      decreases |rest|
    {
      var r :| r in rest;
      RefsSnoc(lines, Line(r, byRef[r]));
      assert (lines + [Line(r, byRef[r])])[..|lines|] == lines;
      lines := lines + [Line(r, byRef[r])];
      rest := rest - {r};
    }
  }

  // A table of outcomes for some of the statement's references.
  ghost predicate Records(table: map<nat, LineOutcome>, e: seq<Line>, i: seq<Line>, refs: set<nat>) {
    table.Keys == refs && forall r :: r in refs ==> table[r] == OutcomeFor(e, i, r)
  }

  function SetOf(refs: seq<nat>): set<nat> {
    set k | 0 <= k < |refs| :: refs[k]
  }

  lemma SetOfSnoc(refs: seq<nat>, k: nat)
    requires k < |refs|
    ensures SetOf(refs[..k + 1]) == SetOf(refs[..k]) + {refs[k]}
  {
    forall r | r in SetOf(refs[..k]) + {refs[k]}
      ensures r in SetOf(refs[..k + 1])
    {
      if r == refs[k] {
        assert refs[..k + 1][k] == r;
      } else {
        var j :| 0 <= j < k && refs[..k][j] == r;
        assert refs[..k + 1][j] == r;
      }
    }
  }

  lemma ListedSet(refs: seq<nat>, s: set<nat>)
    requires Lists(refs, s)
    ensures SetOf(refs) == s
  {
  }

  method RecordMatches(matches: seq<Match>, ghost e: seq<Line>, ghost i: seq<Line>)
    returns (table: map<nat, LineOutcome>)
    requires forall k :: 0 <= k < |matches| ==>
               matches[k] == MatchOf(e, i, matches[k].reference) && matches[k].reference in RefsOf(i)
    ensures Records(table, e, i, SetOf(MatchRefs(matches)))
  {
    table := map[];
    ghost var refs := MatchRefs(matches);
    for k := 0 to |matches|
      invariant Records(table, e, i, SetOf(refs[..k]))
    {
      var m := matches[k];
      SetOfSnoc(refs, k);
      table := table[m.reference := LineOutcome(m.status, Some(m.internalCents), m.difference)];
    }
    assert refs[..|refs|] == refs;
  }

  method RecordMissing(known: map<nat, LineOutcome>, lines: seq<Line>, ghost e: seq<Line>, ghost i: seq<Line>,
                       ghost refs: set<nat>)
    returns (table: map<nat, LineOutcome>)
    requires Records(known, e, i, refs)
    requires forall k :: 0 <= k < |lines| ==>
               lines[k].cents == SumOf(e, lines[k].reference) && lines[k].reference !in RefsOf(i)
    ensures Records(table, e, i, refs + SetOf(LineRefs(lines)))
  {
    table := known;
    ghost var missing := LineRefs(lines);
    for k := 0 to |lines|
      invariant Records(table, e, i, refs + SetOf(missing[..k]))
    {
      var l := lines[k];
      SetOfSnoc(missing, k);
      table := table[l.reference := LineOutcome(UnmatchedLine, None, l.cents)];
    }
    assert missing[..|missing|] == missing;
  }

  // Matches first, then the references the ledger lacks: together every reference of the statement.
  method OutcomeByRef(ghost e: seq<Line>, ghost i: seq<Line>, o: Outcome) returns (table: map<nat, LineOutcome>)
    requires o == Reconciled(e, i)
    ensures Records(table, e, i, RefsOf(e))
  {
    Partition(e, i);
    ListedSet(MatchRefs(o.matches), RefsOf(e) * RefsOf(i));
    ListedSet(LineRefs(o.missingInternal), RefsOf(e) - RefsOf(i));
    OutcomesAreListed(e, i, o);
    table := RecordMatches(o.matches, e, i);
    table := RecordMissing(table, o.missingInternal, e, i, RefsOf(e) * RefsOf(i));
    assert RefsOf(e) * RefsOf(i) + (RefsOf(e) - RefsOf(i)) == RefsOf(e);
  }

  lemma OutcomesAreListed(e: seq<Line>, i: seq<Line>, o: Outcome)
    requires o == Reconciled(e, i)
    ensures forall k :: 0 <= k < |o.matches| ==>
              o.matches[k] == MatchOf(e, i, o.matches[k].reference) && o.matches[k].reference in RefsOf(i)
    ensures forall k :: 0 <= k < |o.missingInternal| ==>
              o.missingInternal[k].cents == SumOf(e, o.missingInternal[k].reference)
              && o.missingInternal[k].reference !in RefsOf(i)
  {
    Partition(e, i);
    forall k | 0 <= k < |o.matches|
      ensures o.matches[k] == MatchOf(e, i, o.matches[k].reference) && o.matches[k].reference in RefsOf(i)
    {
      assert o.matches[k] in o.matches && MatchRefs(o.matches)[k] in MatchRefs(o.matches);
    }
    forall k | 0 <= k < |o.missingInternal|
      ensures o.missingInternal[k].cents == SumOf(e, o.missingInternal[k].reference)
      ensures o.missingInternal[k].reference !in RefsOf(i)
    {
      assert o.missingInternal[k] in o.missingInternal && LineRefs(o.missingInternal)[k] in LineRefs(o.missingInternal);
    }
  }

  method Count(matches: seq<Match>, status: MatchStatus) returns (n: nat)
    ensures n == CountOf(matches, status)
  {
    n := 0;
    for k := 0 to |matches|
      invariant n == CountOf(matches[..k], status)
    {
      assert matches[..k + 1][..k] == matches[..k];
      if matches[k].status == status { n := n + 1; }
    }
    assert matches[..|matches|] == matches;
  }

  method Summarise(o: Outcome) returns (s: Summary)
    ensures s == SummaryOf(o)
  {
    var exact := Count(o.matches, Exact);
    var different := Count(o.matches, AmountDiff);
    s := Summary(exact, different, o.missingInternal, o.missingExternal, o.externalTotal, o.internalTotal,
                 o.netDifference);
  }

  // The match of a statement with the ledger, and the outcome of each of its references.
  method MatchAgainst(external: seq<Line>, rows: seq<LedgerRow>) returns (o: Outcome, table: map<nat, LineOutcome>)
    ensures o == Reconciled(external, DebitLines(rows))
    ensures Records(table, external, DebitLines(rows), RefsOf(external))
  {
    var internal := BuildInternalLines(rows);
    OnlySumsMatter(external, external, internal, DebitLines(rows));
    o := Reconcile(external, internal);
    table := OutcomeByRef(external, DebitLines(rows), o);
  }

  class Report {
    var status: ReportStatus
    var lines: seq<ReportLine>
    var summary: Option<Summary>

    constructor (statement: seq<Line>)
      ensures status == PENDING && External(lines) == statement && summary == None
    {
      status := PENDING;
      lines := seq(|statement|, k requires 0 <= k < |statement| =>
                     ReportLine(statement[k].reference, statement[k].cents, UnmatchedLine, None, None));
      summary := None;
    }

    function Value(): ReportValue
      reads this
    {
      ReportValue(status, lines, summary)
    }

    // Reclassifies every line and flips the report between MATCHED and UNMATCHED. It is refused
    // exactly for a resolved report.
    method RunAgainst(rows: seq<LedgerRow>) returns (r: Result<(), Error>)
      modifies this
      ensures r.Ok? <==> old(status) != RESOLVED
      ensures r.Ok? ==> Value() == RunOn(old(Value()), rows)
      ensures r.Err? ==> Value() == old(Value()) && r.error == IllegalTransition
    {
      var o, table := MatchAgainst(External(lines), rows);
      var next := if IsClean(o) then MATCHED else UNMATCHED;
      if status != next && !CanTransition(status, next) { return Err(IllegalTransition); }
      var summed := Summarise(o);
      UpdateLines(table, External(lines), DebitLines(rows));
      status := next;
      summary := Some(summed);
      r := Ok(());
    }

    // Writes each line's outcome; a line whose reference has none would be skipped, and none is.
    method UpdateLines(table: map<nat, LineOutcome>, ghost e: seq<Line>, ghost i: seq<Line>)
      requires e == External(lines) && Records(table, e, i, RefsOf(e))
      modifies this`lines
      ensures lines == UpdatedLines(old(lines), e, i)
    {
      ghost var before := lines;
      for k := 0 to |lines|
        invariant |lines| == |before| && lines[k..] == before[k..]
        invariant lines[..k] == UpdatedLines(before, e, i)[..k]
      {
        var line := lines[k];
        assert line == lines[k..][0] == before[k];
        assert External(before)[k].reference == line.reference;
        if line.reference in table {
          lines := lines[k := WithOutcome(line, table[line.reference])];
        }
        assert lines[k] == UpdatedLines(before, e, i)[k];
        assert lines[k + 1..] == before[k + 1..];
      }
    }

    method Resolve() returns (r: Result<(), Error>)
      modifies this`status
      ensures r.Ok? <==> old(status) != RESOLVED
      ensures status == RESOLVED
    {
      if !CanTransition(status, RESOLVED) { return Err(IllegalTransition); }
      status := RESOLVED;
      r := Ok(());
    }
  }

  // ---------------------------------------------------------------------------
  // What runs do
  // ---------------------------------------------------------------------------

  lemma UpdatesKeepStatement(lines: seq<ReportLine>, e: seq<Line>, i: seq<Line>)
    ensures External(UpdatedLines(lines, e, i)) == External(lines)
    ensures UpdatedLines(UpdatedLines(lines, e, i), e, i) == UpdatedLines(lines, e, i)
  {
  }

  // Running again on an unchanged ledger leaves the report exactly as it is.
  lemma RerunChangesNothing(report: ReportValue, rows: seq<LedgerRow>)
    ensures RunOn(RunOn(report, rows), rows) == RunOn(report, rows)
  {
    UpdatesKeepStatement(report.lines, External(report.lines), DebitLines(rows));
  }

  // Only the statement matters, never what earlier runs left behind.
  lemma RunsForgetTheirPast(a: ReportValue, b: ReportValue, rows: seq<LedgerRow>)
    requires External(a.lines) == External(b.lines)
    ensures RunOn(a, rows) == RunOn(b, rows)
  {
    forall k | 0 <= k < |a.lines|
      ensures a.lines[k].reference == b.lines[k].reference && a.lines[k].cents == b.lines[k].cents
    {
      assert External(a.lines)[k] == External(b.lines)[k];
    }
  }

  lemma ExactLine(lines: seq<ReportLine>, i: seq<Line>, k: nat)
    requires k < |lines|
    ensures var e := External(lines);
            && e[k].reference in RefsOf(e)
            && (UpdatedLines(lines, e, i)[k].status == Exact
                <==> e[k].reference in RefsOf(i) && SumOf(e, e[k].reference) == SumOf(i, e[k].reference))
  {
  }

  lemma SameSumsMeansExactLines(lines: seq<ReportLine>, i: seq<Line>)
    requires SameSums(External(lines), i)
    ensures forall k :: 0 <= k < |lines| ==> UpdatedLines(lines, External(lines), i)[k].status == Exact
  {
    forall k | 0 <= k < |lines|
      ensures UpdatedLines(lines, External(lines), i)[k].status == Exact
    {
      ExactLine(lines, i, k);
    }
  }

  lemma ExactLinesMeanSameSums(lines: seq<ReportLine>, i: seq<Line>, r: nat)
    requires forall k :: 0 <= k < |lines| ==> UpdatedLines(lines, External(lines), i)[k].status == Exact
    requires RefsOf(i) <= RefsOf(External(lines))
    ensures r in RefsOf(External(lines)) <==> r in RefsOf(i)
    ensures SumOf(External(lines), r) == SumOf(i, r)
  {
    var e := External(lines);
    if r in RefsOf(e) {
      var k :| 0 <= k < |e| && e[k].reference == r;
      ExactLine(lines, i, k);
    } else {
      AbsentSumsToZero(e, r);
      AbsentSumsToZero(i, r);
    }
  }

  // A report is MATCHED exactly when each of its lines is EXACT and the ledger names no source the
  // statement lacks.
  lemma MatchedExactlyWhen(report: ReportValue, rows: seq<LedgerRow>)
    ensures var after := RunOn(report, rows);
            after.status == MATCHED
            <==> (forall k :: 0 <= k < |report.lines| ==> after.lines[k].status == Exact)
                 && RefsOf(DebitLines(rows)) <= RefsOf(External(report.lines))
  {
    var e, i := External(report.lines), DebitLines(rows);
    CleanExactlyWhen(e, i);
    if SameSums(e, i) {
      SameSumsMeansExactLines(report.lines, i);
    } else if (forall k :: 0 <= k < |report.lines| ==> UpdatedLines(report.lines, e, i)[k].status == Exact)
           && RefsOf(i) <= RefsOf(e) {
      forall r: nat
        ensures r in RefsOf(e) <==> r in RefsOf(i)
        ensures SumOf(e, r) == SumOf(i, r)
      {
        ExactLinesMeanSameSums(report.lines, i, r);
      }
    }
  }

  // Each line of the statement keeps its reference and amount, and is given what the ledger has booked under
  // its reference, by how much the statement's total for the reference exceeds that, and the verdict.
  predicate Classified(line: ReportLine, after: ReportLine, stated: int, booked: int, isBooked: bool) {
    && after.reference == line.reference && after.cents == line.cents
    && (after.status == UnmatchedLine <==> !isBooked) && (after.status == Exact <==> isBooked && stated == booked)
    && after.matched == (if isBooked then Some(booked) else None) && after.difference == Some(stated - booked)
  }

  lemma LinesAreClassified(report: ReportValue, rows: seq<LedgerRow>, k: nat)
    requires k < |report.lines|
    ensures var e, i, r := External(report.lines), DebitLines(rows), report.lines[k].reference;
            Classified(report.lines[k], RunOn(report, rows).lines[k], SumOf(e, r), SumOf(i, r), r in RefsOf(i))
  {
    OutcomeClassifies(report.lines[k], External(report.lines), DebitLines(rows));
  }

  lemma OutcomeClassifies(line: ReportLine, e: seq<Line>, i: seq<Line>)
    ensures var r := line.reference;
            Classified(line, WithOutcome(line, OutcomeFor(e, i, r)), SumOf(e, r), SumOf(i, r), r in RefsOf(i))
  {
    if line.reference !in RefsOf(i) { AbsentSumsToZero(i, line.reference); }
  }

  // The references both sides name, with the same total or not.
  function Shared(e: seq<Line>, i: seq<Line>, same: bool): set<nat> {
    set r | r in RefsOf(e) && r in RefsOf(i) && (SumOf(e, r) == SumOf(i, r)) == same
  }

  // The summary counts the references both sides agree on and those they differ on, and gives the totals of
  // the statement and of the booked debits.
  lemma SummaryMeaning(report: ReportValue, rows: seq<LedgerRow>)
    ensures RunOn(report, rows).summary.Some?
    ensures var e, i, summary := External(report.lines), DebitLines(rows), RunOn(report, rows).summary.value;
            && summary.exactCount == |Shared(e, i, true)| && summary.amountDiffCount == |Shared(e, i, false)|
            && summary.externalTotal == SumAll(e) && summary.internalTotal == SumAll(i)
            && summary.netDifference == SumAll(e) - SumAll(i)
            && Lists(LineRefs(summary.missingInternal), RefsOf(e) - RefsOf(i))
            && Lists(LineRefs(summary.missingExternal), RefsOf(i) - RefsOf(e))
  {
    var e, i := External(report.lines), DebitLines(rows);
    var o := Reconciled(e, i);
    Partition(e, i);
    CountIsCardinality(o.matches, Exact);
    CountIsCardinality(o.matches, AmountDiff);
    SharedIsCounted(e, i, true);
    SharedIsCounted(e, i, false);
  }

  // The references matched with a status.
  function RefsWith(matches: seq<Match>, status: MatchStatus): set<nat> {
    set k | 0 <= k < |matches| && matches[k].status == status :: matches[k].reference
  }

  lemma {:induction false} CountIsCardinality(matches: seq<Match>, status: MatchStatus)
    requires Ascending(MatchRefs(matches))
    ensures CountOf(matches, status) == |RefsWith(matches, status)|
  {
    if matches != [] {
      var n := |matches| - 1;
      assert MatchRefs(matches[..n]) == MatchRefs(matches)[..n];
      CountIsCardinality(matches[..n], status);
      RefsWithSnoc(matches, status);
    }
  }

  lemma RefsWithSnoc(matches: seq<Match>, status: MatchStatus)
    requires matches != [] && Ascending(MatchRefs(matches))
    ensures var n := |matches| - 1;
            |RefsWith(matches, status)|
            == |RefsWith(matches[..n], status)| + if matches[n].status == status then 1 else 0
  {
    var n := |matches| - 1;
    forall k | 0 <= k < n
      ensures matches[..n][k].reference < matches[n].reference
    {
      assert MatchRefs(matches)[k] < MatchRefs(matches)[n];
    }
    var before, last := RefsWith(matches[..n], status), matches[n].reference;
    assert last !in before;
    if matches[n].status == status {
      assert RefsWith(matches, status) == before + {last} by { RefsWithSplit(matches, status); }
    } else {
      assert RefsWith(matches, status) == before by { RefsWithSplit(matches, status); }
    }
  }

  lemma RefsWithSplit(matches: seq<Match>, status: MatchStatus)
    requires matches != []
    ensures var n := |matches| - 1;
            forall r :: r in RefsWith(matches, status)
                        <==> r in RefsWith(matches[..n], status)
                             || (matches[n].status == status && matches[n].reference == r)
  {
    var n := |matches| - 1;
    forall r | r in RefsWith(matches, status)
      ensures r in RefsWith(matches[..n], status) || (matches[n].status == status && matches[n].reference == r)
    {
      var k :| 0 <= k < |matches| && matches[k].status == status && matches[k].reference == r;
      assert k < n ==> matches[..n][k] == matches[k];
    }
    forall r | r in RefsWith(matches[..n], status)
      ensures r in RefsWith(matches, status)
    {
      var k :| 0 <= k < n && matches[..n][k].status == status && matches[..n][k].reference == r;
      assert matches[k] == matches[..n][k];
    }
  }

  lemma SharedIsCounted(e: seq<Line>, i: seq<Line>, same: bool)
    ensures RefsWith(Reconciled(e, i).matches, if same then Exact else AmountDiff) == Shared(e, i, same)
  {
    var matches := Reconciled(e, i).matches;
    Partition(e, i);
    forall r: nat
      ensures r in RefsWith(matches, if same then Exact else AmountDiff) <==> r in Shared(e, i, same)
    {
      SharedHere(e, i, same, r);
    }
  }

  lemma SharedHere(e: seq<Line>, i: seq<Line>, same: bool, r: nat)
    ensures r in RefsWith(Reconciled(e, i).matches, if same then Exact else AmountDiff) <==> r in Shared(e, i, same)
  {
    var matches := Reconciled(e, i).matches;
    Partition(e, i);
    if r in RefsOf(e) * RefsOf(i) {
      assert r in MatchRefs(matches);
      var k :| 0 <= k < |matches| && MatchRefs(matches)[k] == r;
      assert matches[k] in matches;
      forall j | 0 <= j < |matches| && matches[j].reference == r
        ensures matches[j] == matches[k]
      {
        assert matches[j] in matches;
      }
    } else {
      forall j | 0 <= j < |matches|
        ensures matches[j].reference != r
      {
        assert MatchRefs(matches)[j] in MatchRefs(matches);
      }
    }
  }
}
