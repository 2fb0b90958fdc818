// The split sub-ledger: each party's tagged RESERVE and AVAILABLE balances against its split rows.
module SplitLedger {
  import opened Prelude
  import opened Money
  import opened Ledger
  import opened Books
  import opened FxSettlement
  import Shares

  function SplitSum(rows: seq<SplitRow>, party: PartyId, c: Currency, status: SplitStatus): int {
    if rows == [] then 0
    else
      var r := rows[|rows| - 1];
      SplitSum(rows[..|rows| - 1], party, c, status)
      + if r.party == party && r.currency == c && r.status == status then r.amount else 0
  }

  // For each party and currency, the party's RESERVE is the sum of its held splits and its AVAILABLE
  // the sum of its settled ones; no split has been released twice, and none before it is settled.
  ghost predicate SplitInv(s: State) {
    && (forall p: PartyId, c: Currency ::
          Total(PartyBalanceOf(RESERVE, c, p), s.entries) == SplitSum(s.splits, p, c, Held))
    && (forall p: PartyId, c: Currency ::
          Total(PartyBalanceOf(AVAILABLE, c, p), s.entries) == SplitSum(s.splits, p, c, Settled))
    && (forall k: nat :: 0 <= Total(ReleasesOf(k), s.entries) <= 1)
    && (forall k: nat :: k >= |s.splits| || s.splits[k].status == Held ==> Total(ReleasesOf(k), s.entries) == 0)
    && (forall k :: 0 <= k < |s.splits| ==> 0 <= s.splits[k].amount)
  }

  predicate NoPartyLegs(p: Posting) {
    && p.debit.party == None && p.credit.party == None
    && p.debit.category != RESERVE_RELEASE && p.credit.category != RESERVE_RELEASE
  }

  // Untagged postings keep the invariant.
  lemma SplitFrame(s: State, s': State, ps: seq<Posting>)
    requires SplitInv(s) && s'.splits == s.splits
    requires s'.entries == PostAll(s.entries, ps) && forall p :: p in ps ==> NoPartyLegs(p)
    ensures SplitInv(s')
  {
    forall a: Account, c: Currency, p: PartyId
      ensures Total(PartyBalanceOf(a, c, p), s'.entries) == Total(PartyBalanceOf(a, c, p), s.entries)
    {
      Untouched(PartyBalanceOf(a, c, p), s.entries, ps);
    }
    forall k: nat
      ensures Total(ReleasesOf(k), s'.entries) == Total(ReleasesOf(k), s.entries)
    {
      Untouched(ReleasesOf(k), s.entries, ps);
    }
  }

  lemma {:induction false} SplitSumConcat(a: seq<SplitRow>, b: seq<SplitRow>, p: PartyId, c: Currency, st: SplitStatus)
    ensures SplitSum(a + b, p, c, st) == SplitSum(a, p, c, st) + SplitSum(b, p, c, st)
  {
    if b == [] {
      assert a + b == a;
    } else {
      var n := |b| - 1;
      assert (a + b)[..|a + b| - 1] == a + b[..n];
      SplitSumConcat(a, b[..n], p, c, st);
    }
  }

  // The share moves put on a party exactly what the rows written beside them record.
  lemma {:induction false} MovesMatchRows(o: SplitOrder, st: SplitStatus, shares: seq<Shares.ShareSpec>,
                                          amounts: seq<int>, a: Account, c: Currency, p: PartyId)
    requires |amounts| == |shares|
    ensures Effects(PartyBalanceOf(a, c, p), ShareMoves(o, shares, amounts))
            == if o.to == a then SplitSum(ShareRows(o.currency, st, shares, amounts), p, c, st) else 0
    ensures forall other :: other != st ==> SplitSum(ShareRows(o.currency, st, shares, amounts), p, c, other) == 0
  {
    if shares != [] {
      var n := |shares| - 1;
      MovesMatchRows(o, st, shares[..n], amounts[..n], a, c, p);
      var moves := ShareMoves(o, shares[..n], amounts[..n]);
      var rows := ShareRows(o.currency, st, shares[..n], amounts[..n]);
      var row := SplitRow(shares[n].party, amounts[n], o.currency, st);
      EffectsConcat(PartyBalanceOf(a, c, p), moves, [ShareMove(o, shares[n].party, amounts[n])]);
      EffectsOfOne(PartyBalanceOf(a, c, p), ShareMove(o, shares[n].party, amounts[n]));
      assert (rows + [row])[..|rows|] == rows;
    }
  }

  lemma {:induction false} MovesReleaseNothing(o: SplitOrder, shares: seq<Shares.ShareSpec>, amounts: seq<int>, k: nat)
    requires |amounts| == |shares|
    ensures Effects(ReleasesOf(k), ShareMoves(o, shares, amounts)) == 0
  {
    if shares != [] {
      var n := |shares| - 1;
      MovesReleaseNothing(o, shares[..n], amounts[..n], k);
      EffectsConcat(ReleasesOf(k), ShareMoves(o, shares[..n], amounts[..n]),
                    [ShareMove(o, shares[n].party, amounts[n])]);
      EffectsOfOne(ReleasesOf(k), ShareMove(o, shares[n].party, amounts[n]));
    }
  }

  lemma {:induction false} RowsShape(c: Currency, st: SplitStatus, shares: seq<Shares.ShareSpec>, amounts: seq<int>)
    requires |amounts| == |shares| && forall i :: 0 <= i < |amounts| ==> 0 <= amounts[i]
    ensures var rows := ShareRows(c, st, shares, amounts);
            |rows| == |shares| && forall i :: 0 <= i < |rows| ==> 0 <= rows[i].amount && rows[i].status == st
  {
    if shares != [] { RowsShape(c, st, shares[..|shares| - 1], amounts[..|shares| - 1]); }
  }

  // Share moves, with any untagged postings before and after them, together with their rows.
  lemma SharesKeepSplits(s: State, s': State, o: SplitOrder, st: SplitStatus, shares: seq<Shares.ShareSpec>,
                         amounts: seq<int>, before: seq<Posting>, after: seq<Posting>)
    requires SplitInv(s)
    requires |amounts| == |shares| && forall i :: 0 <= i < |amounts| ==> 0 <= amounts[i]
    requires (o.to == RESERVE && st == Held) || (o.to == AVAILABLE && st == Settled)
    requires forall p :: p in before + after ==> NoPartyLegs(p)
    requires s'.entries == PostAll(s.entries, before + ShareMoves(o, shares, amounts) + after)
    requires s'.splits == s.splits + ShareRows(o.currency, st, shares, amounts)
    ensures SplitInv(s')
  {
    var moves, rows := ShareMoves(o, shares, amounts), ShareRows(o.currency, st, shares, amounts);
    RowsShape(o.currency, st, shares, amounts);
    forall p: PartyId, c: Currency, a: Account
      ensures Total(PartyBalanceOf(a, c, p), s'.entries)
              == Total(PartyBalanceOf(a, c, p), s.entries) + if o.to == a then SplitSum(rows, p, c, st) else 0
    {
      AroundMoves(PartyBalanceOf(a, c, p), s.entries, before, moves, after);
      MovesMatchRows(o, st, shares, amounts, a, c, p);
    }
    forall p: PartyId, c: Currency, x: SplitStatus
      ensures SplitSum(s'.splits, p, c, x) == SplitSum(s.splits, p, c, x)
              + if x == st then SplitSum(rows, p, c, st) else 0
    {
      SplitSumConcat(s.splits, rows, p, c, x);
      MovesMatchRows(o, st, shares, amounts, o.to, c, p);
    }
    forall k: nat
      ensures Total(ReleasesOf(k), s'.entries) == Total(ReleasesOf(k), s.entries)
    {
      AroundMoves(ReleasesOf(k), s.entries, before, moves, after);
      MovesReleaseNothing(o, shares, amounts, k);
    }
  }

  lemma AroundMoves(q: Query, es: seq<Entry>, before: seq<Posting>, moves: seq<Posting>, after: seq<Posting>)
    requires forall p :: p in before + after ==> Effect(q, p) == 0
    ensures Total(q, PostAll(es, before + moves + after)) == Total(q, es) + Effects(q, moves)
  {
    PostAllConcat(es, before + moves, after);
    PostAllConcat(es, before, moves);
    Untouched(q, es, before);
    PostAllEffect(q, PostAll(es, before), moves);
    Untouched(q, PostAll(es, before + moves), after);
  }

  lemma SplitAmountsNonNegative(cents: int, shares: seq<Shares.ShareSpec>)
    requires Shares.Split(cents, shares).Ok?
    ensures forall i :: 0 <= i < |shares| ==> 0 <= Shares.Split(cents, shares).value.shares[i]
  {
    Shares.BeneficiaryBounds(cents, shares);
    forall i | 0 <= i < |shares|
      ensures 0 <= Shares.Split(cents, shares).value.shares[i]
    {
      Shares.SharesNonNegative(Shares.Beneficiary(cents, shares), shares, i);
    }
  }

  lemma ExecuteKeepsSplits(s: State, source: Source, cents: int, c: Currency, trigger: Trigger,
                           shares: seq<Shares.ShareSpec>, held: bool)
    requires SplitInv(s)
    ensures SplitInv(After(s, ExecuteSplit(s, source, cents, c, trigger, shares, held)))
  {
    var tx := ExecuteSplit(s, source, cents, c, trigger, shares, held);
    if tx.Commit? {
      var r, o := Shares.Split(cents, shares).value, OrderFor(source, c, trigger, held);
      SplitAmountsNonNegative(cents, shares);
      assert [] + ShareMoves(o, shares, r.shares) + PlatformMove(o, trigger, r.platform)
          == SplitPostings(o, trigger, shares, r);
      SharesKeepSplits(s, tx.state, o, if held then Held else Settled, shares, r.shares, [],
                       PlatformMove(o, trigger, r.platform));
    }
  }

  lemma {:induction false} SplitSumUpdate(rows: seq<SplitRow>, id: nat, status: SplitStatus, p: PartyId, c: Currency,
                                          x: SplitStatus)
    requires id < |rows|
    ensures SplitSum(rows[id := rows[id].(status := status)], p, c, x)
            == SplitSum(rows, p, c, x)
               + (if rows[id].party == p && rows[id].currency == c && status == x then rows[id].amount else 0)
               - (if rows[id].party == p && rows[id].currency == c && rows[id].status == x then rows[id].amount else 0)
  {
    var n := |rows| - 1;
    var after := rows[id := rows[id].(status := status)];
    if id == n {
      assert after[..n] == rows[..n];
    } else {
      assert after[..n] == rows[..n][id := rows[id].(status := status)];
      SplitSumUpdate(rows[..n], id, status, p, c, x);
    }
  }

  lemma ReleaseKeepsSplits(s: State, id: nat)
    requires SplitInv(s)
    ensures SplitInv(After(s, ReleaseSplit(s, id)))
  {
    var tx := ReleaseSplit(s, id);
    if tx.Commit? {
      var s', row := tx.state, s.splits[id];
      var move := ReleaseMove(id, row);
      forall p: PartyId, c: Currency, x: SplitStatus
        ensures SplitSum(s'.splits, p, c, x)
                == SplitSum(s.splits, p, c, x)
                   + if row.party != p || row.currency != c then 0
                     else if x == Settled then row.amount else if x == Held then -row.amount else 0
      {
        SplitSumUpdate(s.splits, id, Settled, p, c, x);
      }
      forall p: PartyId, c: Currency, a: Account
        ensures Total(PartyBalanceOf(a, c, p), s'.entries)
                == Total(PartyBalanceOf(a, c, p), s.entries)
                   + if row.party != p || row.currency != c then 0
                     else if a == AVAILABLE then row.amount else if a == RESERVE then -row.amount else 0
      {
        PostEffect(PartyBalanceOf(a, c, p), s.entries, move);
      }
      forall k: nat
        ensures Total(ReleasesOf(k), s'.entries) == Total(ReleasesOf(k), s.entries) + if k == id then 1 else 0
      {
        PostEffect(ReleasesOf(k), s.entries, move);
      }
    }
  }

  // A release commits exactly when the row is still held, so a second one always aborts.
  lemma ReleasedAtMostOnce(s: State, id: nat)
    ensures ReleaseSplit(s, id).Commit? <==> id < |s.splits| && s.splits[id].status == Held
    ensures ReleaseSplit(s, id).Commit? ==> ReleaseSplit(ReleaseSplit(s, id).state, id) == Abort(IllegalTransition)
  {
  }
}
