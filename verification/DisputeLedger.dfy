// Disputes against the ledger: what chargebacks took out and what is left as a receivable.
module DisputeLedger {
  import opened Prelude
  import opened Money
  import opened Ledger
  import opened Reversals
  import opened FxSettlement
  import opened Books

  function RecoverySum(recoveries: seq<Recovery>, d: nat): int {
    if recoveries == [] then 0
    else
      var r := recoveries[|recoveries| - 1];
      RecoverySum(recoveries[..|recoveries| - 1], d) + if r.dispute == d then r.amount else 0
  }

  // Receivables are of lost disputes, positive, at most one each.
  ghost predicate RecoveriesOfLost(s: State) {
    && (forall k :: 0 <= k < |s.recoveries| ==>
          && s.recoveries[k].dispute < |s.disputes|
          && s.disputes[s.recoveries[k].dispute].status == Lost
          && s.recoveries[k].amount > 0)
    && (forall j, k :: 0 <= j < k < |s.recoveries| ==> s.recoveries[j].dispute != s.recoveries[k].dispute)
  }

  // A lost dispute's amount is exactly what its chargebacks credited to CASH plus its receivable; any
  // other dispute has neither.
  ghost predicate DisputeInv(s: State) {
    && (forall d :: 0 <= d < |s.disputes| ==>
          Total(ClawedFor(d), s.entries) + RecoverySum(s.recoveries, d)
          == if s.disputes[d].status == Lost then s.disputes[d].amount else 0)
    && (forall d :: |s.disputes| <= d ==> Total(ClawedFor(d), s.entries) == 0)
    && RecoveriesOfLost(s)
  }

  predicate NoChargebackLegs(p: Posting) {
    p.debit.category != CHARGEBACK && p.credit.category != CHARGEBACK
  }

  // Postings that are not chargebacks keep the invariant.
  lemma DisputeFrame(s: State, s': State, ps: seq<Posting>)
    requires DisputeInv(s) && s'.disputes == s.disputes && s'.recoveries == s.recoveries
    requires s'.entries == PostAll(s.entries, ps) && forall p :: p in ps ==> NoChargebackLegs(p)
    ensures DisputeInv(s')
  {
    forall d: nat
      ensures Total(ClawedFor(d), s'.entries) == Total(ClawedFor(d), s.entries)
    {
      Untouched(ClawedFor(d), s.entries, ps);
    }
  }

  lemma {:induction false} NoRecoveryYet(recoveries: seq<Recovery>, d: nat)
    requires forall k :: 0 <= k < |recoveries| ==> recoveries[k].dispute != d
    ensures RecoverySum(recoveries, d) == 0
  {
    if recoveries != [] { NoRecoveryYet(recoveries[..|recoveries| - 1], d); }
  }

  lemma CreateKeepsDisputes(s: State, providerId: nat, amount: int, c: Currency)
    requires DisputeInv(s)
    ensures DisputeInv(After(s, CreateDispute(s, providerId, amount, c)))
  {
    NoRecoveryYet(s.recoveries, |s.disputes|);
  }

  lemma WonKeepsDisputes(s: State, id: nat)
    requires DisputeInv(s)
    ensures DisputeInv(After(s, ResolveWon(s, id)))
  {
  }

  // What a clawback does to any query: one term for each account it draws on.
  lemma ClawbackEffects(q: Query, id: nat, c: Currency, a: Allocation)
    ensures Effects(q, ClawbackPostings(id, c, a))
            == (if a.fromAvailable > 0
                then Effect(q, Move(AVAILABLE, CASH, a.fromAvailable, CHARGEBACK, c, FromDispute(id))) else 0)
               + (if a.fromReserve > 0
                  then Effect(q, Move(RESERVE, CASH, a.fromReserve, CHARGEBACK, c, FromDispute(id))) else 0)
  {
    var ps, rs := Clawback(id, AVAILABLE, a.fromAvailable, c), Clawback(id, RESERVE, a.fromReserve, c);
    EffectsConcat(q, ps, rs);
    if ps != [] { EffectsOfOne(q, ps[0]); }
    if rs != [] { EffectsOfOne(q, rs[0]); }
  }

  lemma ClawedTotals(s: State, id: nat, a: Allocation, d: nat)
    requires id < |s.disputes| && 0 <= a.fromAvailable && 0 <= a.fromReserve
    ensures Total(ClawedFor(d), ClawedBack(s, id, a).entries)
            == Total(ClawedFor(d), s.entries) + if d == id then a.fromAvailable + a.fromReserve else 0
  {
    var c := s.disputes[id].currency;
    PostAllEffect(ClawedFor(d), s.entries, ClawbackPostings(id, c, a));
    ClawbackEffects(ClawedFor(d), id, c, a);
    ClawedByOne(id, AVAILABLE, a.fromAvailable, c, d);
    ClawedByOne(id, RESERVE, a.fromReserve, c, d);
  }

  lemma ClawedByOne(id: nat, from: Account, amount: int, c: Currency, d: nat)
    requires from != CASH
    ensures Effect(ClawedFor(d), Move(from, CASH, amount, CHARGEBACK, c, FromDispute(id)))
            == if d == id then amount else 0
  {
  }

  lemma RecoveryTotals(s: State, id: nat, a: Allocation, d: nat)
    requires id < |s.disputes| && 0 <= a.uncovered
    ensures RecoverySum(ClawedBack(s, id, a).recoveries, d)
            == RecoverySum(s.recoveries, d) + if d == id then a.uncovered else 0
  {
    var after := ClawedBack(s, id, a).recoveries;
    if a.uncovered > 0 { assert after[..|s.recoveries|] == s.recoveries; } else { assert after == s.recoveries; }
  }

  // Only lost disputes have receivables.
  lemma NoRecoveryOfOpen(s: State, id: nat)
    requires DisputeInv(s) && id < |s.disputes| && s.disputes[id].status != Lost
    ensures forall k :: 0 <= k < |s.recoveries| ==> s.recoveries[k].dispute != id
    ensures RecoverySum(s.recoveries, id) == 0
  {
    forall k | 0 <= k < |s.recoveries|
      ensures s.recoveries[k].dispute != id
    {
      assert s.disputes[s.recoveries[k].dispute].status == Lost;
    }
    NoRecoveryYet(s.recoveries, id);
  }

  lemma ClawbackKeepsRecoveries(s: State, id: nat, a: Allocation)
    requires DisputeInv(s) && id < |s.disputes| && s.disputes[id].status != Lost && 0 <= a.uncovered
    ensures RecoveriesOfLost(ClawedBack(s, id, a))
  {
    NoRecoveryOfOpen(s, id);
  }

  lemma ClawbackKeepsSums(s: State, id: nat, a: Allocation, d: nat)
    requires DisputeInv(s) && id < |s.disputes| && s.disputes[id].status != Lost
    requires a.fromAvailable + a.fromReserve + a.uncovered == s.disputes[id].amount
    requires 0 <= a.fromAvailable && 0 <= a.fromReserve && 0 <= a.uncovered
    ensures var t := ClawedBack(s, id, a);
            && (d < |s.disputes| ==>
                  Total(ClawedFor(d), t.entries) + RecoverySum(t.recoveries, d)
                  == if t.disputes[d].status == Lost then t.disputes[d].amount else 0)
            && (|s.disputes| <= d ==> Total(ClawedFor(d), t.entries) == 0)
  {
    ClawedTotals(s, id, a, d);
    RecoveryTotals(s, id, a, d);
    NoRecoveryOfOpen(s, id);
  }

  lemma ClawbackKeepsDisputes(s: State, id: nat, a: Allocation)
    requires DisputeInv(s) && id < |s.disputes| && s.disputes[id].status != Lost
    requires a.fromAvailable + a.fromReserve + a.uncovered == s.disputes[id].amount
    requires 0 <= a.fromAvailable && 0 <= a.fromReserve && 0 <= a.uncovered
    ensures DisputeInv(ClawedBack(s, id, a))
  {
    forall d: nat { ClawbackKeepsSums(s, id, a, d); }
    ClawbackKeepsRecoveries(s, id, a);
  }

  lemma LostKeepsDisputes(s: State, id: nat, policy: FundingPolicy)
    requires DisputeInv(s)
    ensures DisputeInv(After(s, ResolveLost(s, id, policy)))
  {
    if ResolveLost(s, id, policy).Commit? {
      ClawbackKeepsDisputes(s, id, LossAllocation(s, id, policy).value);
    }
  }

  // A dispute resolves once: after any committed resolve, every further resolve aborts.
  lemma ResolvedAtMostOnce(s: State, id: nat, policy: FundingPolicy, later: FundingPolicy)
    ensures ResolveLost(s, id, policy).Commit? ==>
              var t := ResolveLost(s, id, policy).state;
              ResolveLost(t, id, later) == Abort(IllegalTransition) && ResolveWon(t, id) == Abort(IllegalTransition)
    ensures ResolveWon(s, id).Commit? ==>
              var t := ResolveWon(s, id).state;
              ResolveLost(t, id, later) == Abort(IllegalTransition) && ResolveWon(t, id) == Abort(IllegalTransition)
  {
  }

  // What a clawback moves on each account of the dispute's currency.
  lemma ClawbackMoves(s: State, id: nat, a: Allocation)
    requires id < |s.disputes| && 0 <= a.fromAvailable && 0 <= a.fromReserve
    ensures var t, c := ClawedBack(s, id, a), s.disputes[id].currency;
            && Total(BalanceOf(AVAILABLE, c), t.entries) == Total(BalanceOf(AVAILABLE, c), s.entries) - a.fromAvailable
            && Total(BalanceOf(RESERVE, c), t.entries) == Total(BalanceOf(RESERVE, c), s.entries) - a.fromReserve
            && Total(BalanceOf(CASH, c), t.entries)
               == Total(BalanceOf(CASH, c), s.entries) + a.fromAvailable + a.fromReserve
            && Total(ClawedFor(id), t.entries) == Total(ClawedFor(id), s.entries) + a.fromAvailable + a.fromReserve
  {
    var c := s.disputes[id].currency;
    ClawbackMovesOne(s, id, a, BalanceOf(AVAILABLE, c));
    ClawbackMovesOne(s, id, a, BalanceOf(RESERVE, c));
    ClawbackMovesOne(s, id, a, BalanceOf(CASH, c));
    ClawbackMovesOne(s, id, a, ClawedFor(id));
  }

  lemma ClawbackMovesOne(s: State, id: nat, a: Allocation, q: Query)
    requires id < |s.disputes|
    ensures var c := s.disputes[id].currency;
            Total(q, ClawedBack(s, id, a).entries) == Total(q, s.entries)
            + (if a.fromAvailable > 0
               then Effect(q, Move(AVAILABLE, CASH, a.fromAvailable, CHARGEBACK, c, FromDispute(id))) else 0)
            + (if a.fromReserve > 0 then Effect(q, Move(RESERVE, CASH, a.fromReserve, CHARGEBACK, c, FromDispute(id)))
               else 0)
  {
    var c := s.disputes[id].currency;
    PostAllEffect(q, s.entries, ClawbackPostings(id, c, a));
    ClawbackEffects(q, id, c, a);
  }

  // What a loss does, policy by policy, to the balances it finds.
  //   NET_FROM_AVAILABLE takes what AVAILABLE has and leaves RESERVE alone;
  //   DEBIT_RESERVE takes what RESERVE has, then what AVAILABLE has;
  //   INVOICE_TENANT moves nothing;
  //   ALLOW_NEGATIVE takes it all from AVAILABLE.
  predicate LeavesBalances(policy: FundingPolicy, gross: int, available: int, reserve: int, available': int,
                           reserve': int)
  {
    match policy
    case NetFromAvailable => reserve' == reserve && available' == Max(0, available - gross)
    case DebitReserve =>
      reserve' == Max(0, reserve - gross) && available' == Max(0, available - Max(0, gross - reserve))
    case InvoiceTenant => reserve' == reserve && available' == available
    case AllowNegative => reserve' == reserve && available' == available - gross
  }

  lemma LossByPolicy(s: State, id: nat, policy: FundingPolicy, t: State)
    requires ResolveLost(s, id, policy) == Commit(t, ())
    ensures var d := s.disputes[id];
            var available, reserve := BalanceOf(AVAILABLE, d.currency), BalanceOf(RESERVE, d.currency);
            LeavesBalances(policy, d.amount, Total(available, s.entries), Total(reserve, s.entries),
                           Total(available, t.entries), Total(reserve, t.entries))
  {
    var d := s.disputes[id];
    var a := LossAllocation(s, id, policy).value;
    ClawbackMoves(s, id, a);
    PolicyLeaves(policy, d.amount, Total(BalanceOf(AVAILABLE, d.currency), s.entries),
                 Total(BalanceOf(RESERVE, d.currency), s.entries), a);
  }

  lemma PolicyLeaves(policy: FundingPolicy, gross: int, available: int, reserve: int, a: Allocation)
    requires FundReversal(policy, gross, available, reserve) == Ok(a)
    ensures LeavesBalances(policy, gross, available, reserve, available - a.fromAvailable, reserve - a.fromReserve)
  {
  }

  // What neither account gives is left as one receivable of the dispute, if anything is.
  lemma LossLeavesTheReceivable(s: State, id: nat, policy: FundingPolicy, t: State)
    requires ResolveLost(s, id, policy) == Commit(t, ())
    ensures var d := s.disputes[id];
            var available, reserve := BalanceOf(AVAILABLE, d.currency), BalanceOf(RESERVE, d.currency);
            var given := Total(available, s.entries) - Total(available, t.entries)
                         + Total(reserve, s.entries) - Total(reserve, t.entries);
            && t.recoveries
               == s.recoveries + (if given < d.amount then [Recovery(id, d.amount - given, d.currency)] else [])
            && t.disputes == s.disputes[id := d.(status := Lost)]
  {
    ClawbackMoves(s, id, LossAllocation(s, id, policy).value);
  }

  // A dispute can be won exactly while it is open; that moves nothing.
  lemma WinCommitsExactlyWhen(s: State, id: nat)
    ensures ResolveWon(s, id).Commit? <==> id < |s.disputes| && s.disputes[id].status == Open
    ensures ResolveWon(s, id).Commit? ==>
              ResolveWon(s, id).state == s.(disputes := s.disputes[id := s.disputes[id].(status := Won)])
  {
  }

  // A dispute can be lost exactly while it is open, of a non-negative amount, and neither AVAILABLE nor
  // RESERVE is overdrawn, whatever the policy: after a loss that has overdrawn AVAILABLE every further
  // loss in that currency is refused.
  lemma LossCommitsExactlyWhen(s: State, id: nat, policy: FundingPolicy)
    ensures ResolveLost(s, id, policy).Commit?
            <==> && id < |s.disputes| && s.disputes[id].status == Open && 0 <= s.disputes[id].amount
                 && 0 <= Total(BalanceOf(AVAILABLE, s.disputes[id].currency), s.entries)
                 && 0 <= Total(BalanceOf(RESERVE, s.disputes[id].currency), s.entries)
  {
  }

  // The allocation is decided on balances read before the transaction. On whatever balances it then
  // meets, the clawback overdraws an account exactly when it was decided on more than is there.
  lemma LateLossOverdrawsExactlyWhen(s: State, id: nat, policy: FundingPolicy, available: int, reserve: int)
    requires DisputeInv(s) && id < |s.disputes| && s.disputes[id].status == Open
    requires FundReversal(policy, s.disputes[id].amount, available, reserve).Ok?
    ensures var c, a := s.disputes[id].currency, FundReversal(policy, s.disputes[id].amount, available, reserve).value;
            var t := ClawedBack(s, id, a);
            && DisputeInv(t)
            && (Total(BalanceOf(AVAILABLE, c), t.entries) < 0
                <==> Total(BalanceOf(AVAILABLE, c), s.entries) < a.fromAvailable)
            && (Total(BalanceOf(RESERVE, c), t.entries) < 0
                <==> Total(BalanceOf(RESERVE, c), s.entries) < a.fromReserve)
  {
    var a := FundReversal(policy, s.disputes[id].amount, available, reserve).value;
    ClawbackKeepsDisputes(s, id, a);
    ClawbackMoves(s, id, a);
  }

  // A committed loss leaves RESERVE non-negative, and AVAILABLE negative exactly when the policy is
  // ALLOW_NEGATIVE and the dispute exceeds the balance it found. CASH gets back what was clawed.
  lemma LossFunding(s: State, id: nat, policy: FundingPolicy)
    requires ResolveLost(s, id, policy).Commit?
    ensures var t, d := ResolveLost(s, id, policy).state, s.disputes[id];
            && 0 <= Total(BalanceOf(RESERVE, d.currency), t.entries)
            && (Total(BalanceOf(AVAILABLE, d.currency), t.entries) < 0
                <==> policy == AllowNegative && d.amount > Total(BalanceOf(AVAILABLE, d.currency), s.entries))
            && Total(BalanceOf(CASH, d.currency), t.entries) - Total(BalanceOf(CASH, d.currency), s.entries)
               == Total(ClawedFor(id), t.entries) - Total(ClawedFor(id), s.entries)
  {
    ClawbackMoves(s, id, LossAllocation(s, id, policy).value);
  }
}
