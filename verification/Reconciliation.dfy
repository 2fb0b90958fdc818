// Reconciliation: matching a provider's statement against the ledger, reference by reference.
// References are numbers here; only their order and equality matter.
module Reconciliation {
  import opened Prelude

  datatype Line = Line(reference: nat, cents: int)

  datatype MatchStatus = UnmatchedLine | Exact | AmountDiff

  datatype Match = Match(reference: nat, status: MatchStatus, externalCents: int, internalCents: int, difference: int)

  datatype Outcome = Outcome(matches: seq<Match>, missingInternal: seq<Line>, missingExternal: seq<Line>,
                             externalTotal: int, internalTotal: int, netDifference: int)

  // ---------------------------------------------------------------------------
  // Sums per reference
  // ---------------------------------------------------------------------------

  function SumOf(lines: seq<Line>, r: nat): int {
    if lines == [] then 0
    else
      var last := lines[|lines| - 1];
      SumOf(lines[..|lines| - 1], r) + if last.reference == r then last.cents else 0
  }

  function SumAll(lines: seq<Line>): int {
    if lines == [] then 0 else SumAll(lines[..|lines| - 1]) + lines[|lines| - 1].cents
  }

  function RefsOf(lines: seq<Line>): set<nat> {
    set i | 0 <= i < |lines| :: lines[i].reference
  }

  // The sums of a list of references.
  function SumOver(lines: seq<Line>, refs: seq<nat>): int {
    if refs == [] then 0 else SumOver(lines, refs[..|refs| - 1]) + SumOf(lines, refs[|refs| - 1])
  }

  predicate Ascending(refs: seq<nat>) {
    forall i, j :: 0 <= i < j < |refs| ==> refs[i] < refs[j]
  }

  // `refs` is the set `s` in ascending order.
  ghost predicate Lists(refs: seq<nat>, s: set<nat>) {
    Ascending(refs) && forall r: nat :: r in refs <==> r in s
  }

  function InsertRef(refs: seq<nat>, r: nat): seq<nat> {
    if refs == [] || refs[|refs| - 1] < r then refs + [r]
    else InsertRef(refs[..|refs| - 1], r) + [refs[|refs| - 1]]
  }

  lemma AscendingSnoc(refs: seq<nat>, x: nat)
    requires Ascending(refs) && forall y :: y in refs ==> y < x
    ensures Ascending(refs + [x])
    ensures forall y: nat :: y in refs + [x] <==> y == x || y in refs
  {
    assert forall i :: 0 <= i < |refs| ==> refs[i] in refs;
  }

  lemma {:induction false} InsertKeepsOrder(refs: seq<nat>, r: nat)
    requires Ascending(refs) && r !in refs
    ensures Ascending(InsertRef(refs, r))
    ensures forall x: nat :: x in InsertRef(refs, r) <==> x == r || x in refs
  {
    if refs == [] || refs[|refs| - 1] < r {
      AscendingSnoc(refs, r);
    } else {
      var n := |refs| - 1;
      assert refs == refs[..n] + [refs[n]] && refs[n] in refs;
      InsertKeepsOrder(refs[..n], r);
      AscendingSnoc(InsertRef(refs[..n], r), refs[n]);
    }
  }

  ghost function SortedRefs(s: set<nat>): (refs: seq<nat>)
    ensures Lists(refs, s)
  {
    if s == {} then []
    else
      var r :| r in s;
      var rest := SortedRefs(s - {r});
      InsertKeepsOrder(rest, r);
      InsertRef(rest, r)
  }

  lemma {:induction false} ListLength(refs: seq<nat>, s: set<nat>)
    requires Lists(refs, s)
    ensures |refs| == |s|
  {
    if refs == [] {
      assert s == {};
    } else {
      LastOut(refs, s);
      ListLength(refs[..|refs| - 1], s - {refs[|refs| - 1]});
      assert refs[|refs| - 1] in s;
    }
  }

  // There is only one ascending list of a set.
  lemma {:induction false} ListIsUnique(a: seq<nat>, b: seq<nat>, s: set<nat>)
    requires Lists(a, s) && Lists(b, s)
    ensures a == b
  {
    ListLength(a, s);
    ListLength(b, s);
    if a != [] {
      var n := |a| - 1;
      assert a[n] in s && b[n] in s;
      assert a[n] in b && b[n] in a;
      LastOut(a, s);
      LastOut(b, s);
      ListIsUnique(a[..n], b[..n], s - {a[n]});
    }
  }

  lemma LastOut(a: seq<nat>, s: set<nat>)
    requires a != [] && Lists(a, s)
    ensures Lists(a[..|a| - 1], s - {a[|a| - 1]})
  {
    assert a == a[..|a| - 1] + [a[|a| - 1]];
  }

  // ---------------------------------------------------------------------------
  // The outcome
  // ---------------------------------------------------------------------------

  function ClassifyMatch(externalCents: int, internalCents: int): MatchStatus {
    if externalCents == internalCents then Exact else AmountDiff
  }

  function MatchOf(external: seq<Line>, internal: seq<Line>, r: nat): Match {
    var e, i := SumOf(external, r), SumOf(internal, r);
    Match(r, ClassifyMatch(e, i), e, i, e - i)
  }

  function Matched(external: seq<Line>, internal: seq<Line>, refs: seq<nat>): seq<Match> {
    if refs == [] then []
    else
      var r := refs[|refs| - 1];
      Matched(external, internal, refs[..|refs| - 1])
      + if r in RefsOf(external) && r in RefsOf(internal) then [MatchOf(external, internal, r)] else []
  }

  // The references of one side that the other side lacks, with their sums.
  function Missing(present: seq<Line>, absent: seq<Line>, refs: seq<nat>): seq<Line> {
    if refs == [] then []
    else
      var r := refs[|refs| - 1];
      Missing(present, absent, refs[..|refs| - 1])
      + if r in RefsOf(present) && r !in RefsOf(absent) then [Line(r, SumOf(present, r))] else []
  }

  // What a reconciliation should find: three ascending lists, and the totals of the raw input.
  ghost function Reconciled(external: seq<Line>, internal: seq<Line>): Outcome {
    var refs := SortedRefs(RefsOf(external) + RefsOf(internal));
    Outcome(Matched(external, internal, refs), Missing(external, internal, refs), Missing(internal, external, refs),
            SumAll(external), SumAll(internal), SumAll(external) - SumAll(internal))
  }

  predicate IsClean(o: Outcome) {
    && o.missingInternal == [] && o.missingExternal == []
    && forall i :: 0 <= i < |o.matches| ==> o.matches[i].status == Exact
  }

  // ---------------------------------------------------------------------------
  // The algorithm
  // ---------------------------------------------------------------------------

  ghost predicate IsByRef(m: map<nat, int>, lines: seq<Line>) {
    m.Keys == RefsOf(lines) && forall r :: r in m ==> m[r] == SumOf(lines, r)
  }

  lemma RefsSnoc(lines: seq<Line>, line: Line)
    ensures RefsOf(lines + [line]) == RefsOf(lines) + {line.reference}
  {
    var more := lines + [line];
    assert more[|lines|] == line;
    assert forall i :: 0 <= i < |lines| ==> more[i] == lines[i];
    forall r | r in RefsOf(lines)
      ensures r in RefsOf(more)
    {
      var i :| 0 <= i < |lines| && lines[i].reference == r;
      assert more[i].reference == r;
    }
  }

  lemma {:induction false} AbsentSumsToZero(lines: seq<Line>, r: nat)
    requires r !in RefsOf(lines)
    ensures SumOf(lines, r) == 0
  {
    if lines != [] {
      var n := |lines| - 1;
      assert lines == lines[..n] + [lines[n]];
      RefsSnoc(lines[..n], lines[n]);
      AbsentSumsToZero(lines[..n], r);
    }
  }

  method ByRef(lines: seq<Line>) returns (byRef: map<nat, int>)
    ensures IsByRef(byRef, lines)
  {
    byRef := map[];
    for k := 0 to |lines|
      invariant IsByRef(byRef, lines[..k])
    {
      var line := lines[k];
      assert lines[..k + 1] == lines[..k] + [line] && lines[..k + 1][..k] == lines[..k];
      RefsSnoc(lines[..k], line);
      if line.reference !in byRef { AbsentSumsToZero(lines[..k], line.reference); }
      byRef := byRef[line.reference := (if line.reference in byRef then byRef[line.reference] else 0) + line.cents];
    }
    assert lines[..|lines|] == lines;
  }

  method SortRefs(s: set<nat>) returns (refs: seq<nat>)
    ensures refs == SortedRefs(s)
  {
    refs := [];
    var rest := s;
    while rest != {}
      invariant rest <= s && Lists(refs, s - rest)
      decreases |rest|
    {
      var r :| r in rest;
      InsertKeepsOrder(refs, r);
      refs := InsertRef(refs, r);
      rest := rest - {r};
    }
    ListIsUnique(refs, SortedRefs(s), s);
  }

  // What one more reference with the given sums, absent on a side without one, adds to an outcome.
  function Classified(o: Outcome, r: nat, external: Option<int>, internal: Option<int>): Outcome {
    match (external, internal)
    case (Some(e), Some(i)) =>
      o.(matches := o.matches + [Match(r, ClassifyMatch(e, i), e, i, e - i)],
         externalTotal := o.externalTotal + e, internalTotal := o.internalTotal + i)
    case (Some(e), None) =>
      o.(missingInternal := o.missingInternal + [Line(r, e)], externalTotal := o.externalTotal + e)
    case (None, Some(i)) =>
      o.(missingExternal := o.missingExternal + [Line(r, i)], internalTotal := o.internalTotal + i)
    case (None, None) => o
  }

  function Lookup(m: map<nat, int>, r: nat): Option<int> {
    if r in m then Some(m[r]) else None
  }

  // The lists and running totals over some references, before the net is taken.
  function Tally(external: seq<Line>, internal: seq<Line>, refs: seq<nat>): Outcome {
    Outcome(Matched(external, internal, refs), Missing(external, internal, refs), Missing(internal, external, refs),
            SumOver(external, refs), SumOver(internal, refs), 0)
  }

  lemma TallyStep(external: seq<Line>, internal: seq<Line>, e: map<nat, int>, i: map<nat, int>, refs: seq<nat>, k: nat)
    requires k < |refs| && IsByRef(e, external) && IsByRef(i, internal)
    ensures Tally(external, internal, refs[..k + 1])
            == Classified(Tally(external, internal, refs[..k]), refs[k], Lookup(e, refs[k]), Lookup(i, refs[k]))
  {
    var r := refs[k];
    assert refs[..k + 1][..k] == refs[..k];
    assert r in e <==> r in RefsOf(external);
    assert r in i <==> r in RefsOf(internal);
    if r !in RefsOf(external) { AbsentSumsToZero(external, r); }
    if r !in RefsOf(internal) { AbsentSumsToZero(internal, r); }
  }

  // Aggregate both sides, then classify reference by reference; the totals come out of the maps.
  method Reconcile(external: seq<Line>, internal: seq<Line>) returns (o: Outcome)
    ensures o == Reconciled(external, internal)
  {
    var externalByRef := ByRef(external);
    var internalByRef := ByRef(internal);
    var refs := SortRefs(externalByRef.Keys + internalByRef.Keys);
    o := Outcome([], [], [], 0, 0, 0);
    for k := 0 to |refs|
      invariant o == Tally(external, internal, refs[..k])
    {
      TallyStep(external, internal, externalByRef, internalByRef, refs, k);
      o := Classified(o, refs[k], Lookup(externalByRef, refs[k]), Lookup(internalByRef, refs[k]));
    }
    assert refs[..|refs|] == refs;
    SumOverIsAll(external, refs);
    SumOverIsAll(internal, refs);
    o := o.(netDifference := o.externalTotal - o.internalTotal);
  }

  lemma {:induction false} SumOverSnoc(lines: seq<Line>, line: Line, refs: seq<nat>)
    requires Ascending(refs)
    ensures SumOver(lines + [line], refs) == SumOver(lines, refs) + if line.reference in refs then line.cents else 0
  {
    if refs != [] {
      var n := |refs| - 1;
      assert refs == refs[..n] + [refs[n]];
      assert (lines + [line])[..|lines|] == lines;
      SumOverSnoc(lines, line, refs[..n]);
      assert refs[n] !in refs[..n];
    }
  }

  lemma {:induction false} SumOverNothing(refs: seq<nat>)
    ensures SumOver([], refs) == 0
  {
    if refs != [] { SumOverNothing(refs[..|refs| - 1]); }
  }

  // Summing per reference loses nothing.
  lemma {:induction false} SumOverIsAll(lines: seq<Line>, refs: seq<nat>)
    requires Ascending(refs) && forall r :: r in RefsOf(lines) ==> r in refs
    ensures SumOver(lines, refs) == SumAll(lines)
  {
    if lines == [] {
      SumOverNothing(refs);
    } else {
      var n := |lines| - 1;
      assert lines == lines[..n] + [lines[n]];
      RefsSnoc(lines[..n], lines[n]);
      SumOverIsAll(lines[..n], refs);
      SumOverSnoc(lines[..n], lines[n], refs);
    }
  }

  // ---------------------------------------------------------------------------
  // What the outcome says
  // ---------------------------------------------------------------------------

  function MatchRefs(matches: seq<Match>): seq<nat> {
    seq(|matches|, i requires 0 <= i < |matches| => matches[i].reference)
  }

  function LineRefs(lines: seq<Line>): seq<nat> {
    seq(|lines|, i requires 0 <= i < |lines| => lines[i].reference)
  }

  lemma MatchRefsSnoc(matches: seq<Match>, m: Match)
    ensures MatchRefs(matches + [m]) == MatchRefs(matches) + [m.reference]
  {
  }

  lemma LineRefsSnoc(lines: seq<Line>, l: Line)
    ensures LineRefs(lines + [l]) == LineRefs(lines) + [l.reference]
  {
  }

  lemma {:induction false} MatchedLists(external: seq<Line>, internal: seq<Line>, refs: seq<nat>, s: set<nat>)
    requires Lists(refs, s)
    ensures Lists(MatchRefs(Matched(external, internal, refs)), s * RefsOf(external) * RefsOf(internal))
    ensures forall m :: m in Matched(external, internal, refs) ==> m == MatchOf(external, internal, m.reference)
  {
    if refs != [] {
      var n := |refs| - 1;
      LastOut(refs, s);
      var before := Matched(external, internal, refs[..n]);
      MatchedLists(external, internal, refs[..n], s - {refs[n]});
      assert refs[n] in s;
      if refs[n] in RefsOf(external) && refs[n] in RefsOf(internal) {
        MatchRefsSnoc(before, MatchOf(external, internal, refs[n]));
        BelowLast(refs, MatchRefs(before), s);
        AscendingSnoc(MatchRefs(before), refs[n]);
      } else {
        assert before + [] == before;
      }
    }
  }

  lemma BelowLast(refs: seq<nat>, chosen: seq<nat>, s: set<nat>)
    requires refs != [] && Lists(refs, s)
    requires forall r :: r in chosen ==> r in s - {refs[|refs| - 1]}
    ensures forall r :: r in chosen ==> r < refs[|refs| - 1]
  {
  }

  lemma {:induction false} MissingLists(present: seq<Line>, absent: seq<Line>, refs: seq<nat>, s: set<nat>)
    requires Lists(refs, s)
    ensures Lists(LineRefs(Missing(present, absent, refs)), s * RefsOf(present) - RefsOf(absent))
    ensures forall l :: l in Missing(present, absent, refs) ==> l.cents == SumOf(present, l.reference)
  {
    if refs != [] {
      var n := |refs| - 1;
      LastOut(refs, s);
      var before := Missing(present, absent, refs[..n]);
      MissingLists(present, absent, refs[..n], s - {refs[n]});
      assert refs[n] in s;
      if refs[n] in RefsOf(present) && refs[n] !in RefsOf(absent) {
        LineRefsSnoc(before, Line(refs[n], SumOf(present, refs[n])));
        BelowLast(refs, LineRefs(before), s);
        AscendingSnoc(LineRefs(before), refs[n]);
      } else {
        assert before + [] == before;
      }
    }
  }

  // The three lists partition the references: each reference of either side is in exactly one of
  // them, once and in order, with its sums.
  lemma Partition(external: seq<Line>, internal: seq<Line>)
    ensures var o, e, i := Reconciled(external, internal), RefsOf(external), RefsOf(internal);
            && Lists(MatchRefs(o.matches), e * i)
            && Lists(LineRefs(o.missingInternal), e - i)
            && Lists(LineRefs(o.missingExternal), i - e)
            && (forall m :: m in o.matches ==>
                  && m.externalCents == SumOf(external, m.reference) && m.internalCents == SumOf(internal, m.reference)
                  && m.difference == m.externalCents - m.internalCents
                  && m.status == if m.externalCents == m.internalCents then Exact else AmountDiff)
            && (forall l :: l in o.missingInternal ==> l.cents == SumOf(external, l.reference))
            && (forall l :: l in o.missingExternal ==> l.cents == SumOf(internal, l.reference))
  {
    var e, i := RefsOf(external), RefsOf(internal);
    var s := e + i;
    MatchedLists(external, internal, SortedRefs(s), s);
    MissingLists(external, internal, SortedRefs(s), s);
    MissingLists(internal, external, SortedRefs(s), s);
    assert s * e * i == e * i && s * e - i == e - i && s * i - e == i - e;
  }

  function Differences(matches: seq<Match>): int {
    if matches == [] then 0 else Differences(matches[..|matches| - 1]) + matches[|matches| - 1].difference
  }

  lemma DifferencesSnoc(matches: seq<Match>, m: Match)
    ensures Differences(matches + [m]) == Differences(matches) + m.difference
    ensures Differences(matches + []) == Differences(matches)
  {
    assert (matches + [m])[..|matches|] == matches && matches + [] == matches;
  }

  lemma SumAllSnoc(lines: seq<Line>, l: Line)
    ensures SumAll(lines + [l]) == SumAll(lines) + l.cents
    ensures SumAll(lines + []) == SumAll(lines)
  {
    assert (lines + [l])[..|lines|] == lines && lines + [] == lines;
  }

  lemma {:induction false} NetOver(external: seq<Line>, internal: seq<Line>, refs: seq<nat>)
    ensures SumOver(external, refs) - SumOver(internal, refs)
            == Differences(Matched(external, internal, refs)) + SumAll(Missing(external, internal, refs))
               - SumAll(Missing(internal, external, refs))
  {
    if refs != [] {
      var n := |refs| - 1;
      var r := refs[n];
      NetOver(external, internal, refs[..n]);
      DifferencesSnoc(Matched(external, internal, refs[..n]), MatchOf(external, internal, r));
      SumAllSnoc(Missing(external, internal, refs[..n]), Line(r, SumOf(external, r)));
      SumAllSnoc(Missing(internal, external, refs[..n]), Line(r, SumOf(internal, r)));
      if r !in RefsOf(external) { AbsentSumsToZero(external, r); }
      if r !in RefsOf(internal) { AbsentSumsToZero(internal, r); }
    }
  }

  // The net difference is exactly explained by the three lists.
  lemma NetIsExplained(external: seq<Line>, internal: seq<Line>)
    ensures var o := Reconciled(external, internal);
            o.netDifference == Differences(o.matches) + SumAll(o.missingInternal) - SumAll(o.missingExternal)
  {
    var refs := SortedRefs(RefsOf(external) + RefsOf(internal));
    NetOver(external, internal, refs);
    SumOverIsAll(external, refs);
    SumOverIsAll(internal, refs);
  }

  // Two inputs with the same references and the same sum for each.
  ghost predicate SameSums(a: seq<Line>, b: seq<Line>) {
    RefsOf(a) == RefsOf(b) && forall r :: SumOf(a, r) == SumOf(b, r)
  }

  lemma {:induction false} OnlySumsOver(e: seq<Line>, e': seq<Line>, i: seq<Line>, i': seq<Line>, refs: seq<nat>)
    requires SameSums(e, e') && SameSums(i, i')
    ensures Matched(e, i, refs) == Matched(e', i', refs)
    ensures Missing(e, i, refs) == Missing(e', i', refs) && Missing(i, e, refs) == Missing(i', e', refs)
    ensures SumOver(e, refs) == SumOver(e', refs) && SumOver(i, refs) == SumOver(i', refs)
  {
    if refs != [] { OnlySumsOver(e, e', i, i', refs[..|refs| - 1]); }
  }

  // The outcome depends on nothing but the sums per reference.
  lemma OnlySumsMatter(e: seq<Line>, e': seq<Line>, i: seq<Line>, i': seq<Line>)
    requires SameSums(e, e') && SameSums(i, i')
    ensures Reconciled(e, i) == Reconciled(e', i')
  {
    var refs := SortedRefs(RefsOf(e) + RefsOf(i));
    OnlySumsOver(e, e', i, i', refs);
    SumOverIsAll(e, refs);
    SumOverIsAll(e', refs);
    SumOverIsAll(i, refs);
    SumOverIsAll(i', refs);
  }

  lemma {:induction false} SumOfConcat(a: seq<Line>, b: seq<Line>, r: nat)
    ensures SumOf(a + b, r) == SumOf(a, r) + SumOf(b, r)
  {
    if b == [] {
      assert a + b == a;
    } else {
      assert (a + b)[..|a + b| - 1] == a + b[..|b| - 1];
      SumOfConcat(a, b[..|b| - 1], r);
    }
  }

  lemma SameRest(rest: seq<Line>, last: Line, before: seq<Line>, after: seq<Line>)
    requires multiset(rest + [last]) == multiset(before + [last] + after)
    ensures multiset(rest) == multiset(before + after)
  {
    assert multiset(rest) == multiset(rest + [last]) - multiset{last};
    assert multiset(before + after) == multiset(before + [last] + after) - multiset{last};
  }

  lemma {:induction false} SumOfPermuted(a: seq<Line>, b: seq<Line>, r: nat)
    requires multiset(a) == multiset(b)
    ensures SumOf(a, r) == SumOf(b, r)
  {
    if a == [] {
      assert |b| == |multiset(b)|;
    } else {
      var n, last := |a| - 1, a[|a| - 1];
      assert a == a[..n] + [last];
      assert last in multiset(b);
      var k :| 0 <= k < |b| && b[k] == last;
      var before, after := b[..k], b[k + 1..];
      assert b == before + [last] + after;
      SameRest(a[..n], last, before, after);
      SumOfPermuted(a[..n], before + after, r);
      SumWithout(before, last, after, r);
    }
  }

  lemma SumWithout(before: seq<Line>, line: Line, after: seq<Line>, r: nat)
    ensures SumOf(before + [line] + after, r) == SumOf(before + after, r)
            + if line.reference == r then line.cents else 0
  {
    SumOfConcat(before, after, r);
    SumOfConcat(before + [line], after, r);
    assert (before + [line])[..|before|] == before;
  }

  lemma RefsPermuted(a: seq<Line>, b: seq<Line>)
    requires multiset(a) == multiset(b)
    ensures RefsOf(a) <= RefsOf(b)
  {
    forall r | r in RefsOf(a)
      ensures r in RefsOf(b)
    {
      var i :| 0 <= i < |a| && a[i].reference == r;
      assert a[i] in multiset(b);
      var k :| 0 <= k < |b| && b[k] == a[i];
    }
  }

  // Reordering either side changes nothing.
  lemma OrderDoesNotMatter(e: seq<Line>, e': seq<Line>, i: seq<Line>, i': seq<Line>)
    requires multiset(e) == multiset(e') && multiset(i) == multiset(i')
    ensures Reconciled(e, i) == Reconciled(e', i')
  {
    forall r: nat
      ensures SumOf(e, r) == SumOf(e', r) && SumOf(i, r) == SumOf(i', r)
    {
      SumOfPermuted(e, e', r);
      SumOfPermuted(i, i', r);
    }
    RefsPermuted(e, e');
    RefsPermuted(e', e);
    RefsPermuted(i, i');
    RefsPermuted(i', i);
    OnlySumsMatter(e, e', i, i');
  }

  function Swapped(m: Match): Match {
    Match(m.reference, m.status, m.internalCents, m.externalCents, -m.difference)
  }

  function SwapMatches(matches: seq<Match>): seq<Match> {
    if matches == [] then [] else SwapMatches(matches[..|matches| - 1]) + [Swapped(matches[|matches| - 1])]
  }

  lemma {:induction false} SwapOver(external: seq<Line>, internal: seq<Line>, refs: seq<nat>)
    ensures Matched(internal, external, refs) == SwapMatches(Matched(external, internal, refs))
  {
    if refs != [] {
      SwapOver(external, internal, refs[..|refs| - 1]);
      SwapStep(external, internal, refs);
    }
  }

  lemma SwapStep(external: seq<Line>, internal: seq<Line>, refs: seq<nat>)
    requires refs != []
    requires var before := refs[..|refs| - 1];
             Matched(internal, external, before) == SwapMatches(Matched(external, internal, before))
    ensures Matched(internal, external, refs) == SwapMatches(Matched(external, internal, refs))
  {
    var r := refs[|refs| - 1];
    MatchedSnoc(external, internal, refs);
    MatchedSnoc(internal, external, refs);
    SwapSnoc(Matched(external, internal, refs[..|refs| - 1]), MatchOf(external, internal, r));
    assert Swapped(MatchOf(external, internal, r)) == MatchOf(internal, external, r);
  }

  lemma MatchedSnoc(external: seq<Line>, internal: seq<Line>, refs: seq<nat>)
    requires refs != []
    ensures var r, before := refs[|refs| - 1], Matched(external, internal, refs[..|refs| - 1]);
            Matched(external, internal, refs)
            == if r in RefsOf(external) && r in RefsOf(internal) then before + [MatchOf(external, internal, r)]
               else before
  {
    var before := Matched(external, internal, refs[..|refs| - 1]);
    assert before + [] == before;
  }

  lemma SwapSnoc(matches: seq<Match>, m: Match)
    ensures SwapMatches(matches + [m]) == SwapMatches(matches) + [Swapped(m)]
  {
    assert (matches + [m])[..|matches|] == matches;
  }

  // Swapping the sides swaps the roles and turns every sign.
  lemma Antisymmetric(external: seq<Line>, internal: seq<Line>)
    ensures var o := Reconciled(external, internal);
            Reconciled(internal, external)
            == Outcome(SwapMatches(o.matches), o.missingExternal, o.missingInternal,
                       o.internalTotal, o.externalTotal, -o.netDifference)
  {
    assert RefsOf(external) + RefsOf(internal) == RefsOf(internal) + RefsOf(external);
    SwapOver(external, internal, SortedRefs(RefsOf(external) + RefsOf(internal)));
  }

  lemma CleanMeansSameSums(external: seq<Line>, internal: seq<Line>, r: nat)
    requires IsClean(Reconciled(external, internal))
    ensures r in RefsOf(external) <==> r in RefsOf(internal)
    ensures SumOf(external, r) == SumOf(internal, r)
  {
    var o := Reconciled(external, internal);
    Partition(external, internal);
    assert r !in LineRefs(o.missingInternal) && r !in LineRefs(o.missingExternal);
    if r in RefsOf(external) {
      assert r in MatchRefs(o.matches);
      var k :| 0 <= k < |o.matches| && o.matches[k].reference == r;
      assert o.matches[k] in o.matches;
    } else {
      AbsentSumsToZero(external, r);
      AbsentSumsToZero(internal, r);
    }
  }

  lemma SameSumsMeansClean(external: seq<Line>, internal: seq<Line>)
    requires SameSums(external, internal)
    ensures IsClean(Reconciled(external, internal))
  {
    var o := Reconciled(external, internal);
    Partition(external, internal);
    forall k | 0 <= k < |o.matches|
      ensures o.matches[k].status == Exact
    {
      assert o.matches[k] in o.matches;
    }
    ListLength(LineRefs(o.missingInternal), RefsOf(external) - RefsOf(internal));
    ListLength(LineRefs(o.missingExternal), RefsOf(internal) - RefsOf(external));
  }

  // Clean means that both sides have the same references with the same sums.
  lemma CleanExactlyWhen(external: seq<Line>, internal: seq<Line>)
    ensures IsClean(Reconciled(external, internal)) <==> SameSums(external, internal)
  {
    if IsClean(Reconciled(external, internal)) {
      forall r: nat
        ensures r in RefsOf(external) <==> r in RefsOf(internal)
        ensures SumOf(external, r) == SumOf(internal, r)
      {
        CleanMeansSameSums(external, internal, r);
      }
    }
    if SameSums(external, internal) { SameSumsMeansClean(external, internal); }
  }
}
