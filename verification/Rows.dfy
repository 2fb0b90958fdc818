// The rows of every table but the ledger over whole runs: what is written once, and what may change.
module Rows {
  import opened Prelude
  import opened Money
  import opened Ledger
  import opened FxSettlement
  import opened Reversals
  import opened Books
  import opened Runs

  // The terms of a payout are fixed, and once it is paid, failed or cancelled so is its status.
  predicate PayoutKept(p: Payout, q: Payout) {
    q.(status := p.status) == p && (p.status !in OPEN ==> q == p)
  }

  predicate PayoutsKept(p: seq<Payout>, q: seq<Payout>) {
    |p| <= |q| && forall i :: 0 <= i < |p| ==> PayoutKept(p[i], q[i])
  }

  // Only its balance changes.
  predicate WalletsKept(p: seq<Wallet>, q: seq<Wallet>) {
    |p| <= |q| && forall i :: 0 <= i < |p| ==> q[i].(balance := p[i].balance) == p[i]
  }

  // A beneficiary's row changes when it is released, and then no more.
  predicate SplitKept(p: SplitRow, q: SplitRow) {
    q.(status := p.status) == p && (p.status != Held ==> q == p)
  }

  predicate SplitsKept(p: seq<SplitRow>, q: seq<SplitRow>) {
    |p| <= |q| && forall i :: 0 <= i < |p| ==> SplitKept(p[i], q[i])
  }

  // A dispute changes when it is resolved, and then no more.
  predicate DisputeKept(p: Dispute, q: Dispute) {
    q.(status := p.status) == p && (p.status != Open ==> q == p)
  }

  predicate DisputesKept(p: seq<Dispute>, q: seq<Dispute>) {
    |p| <= |q| && forall i :: 0 <= i < |p| ==> DisputeKept(p[i], q[i])
  }

  // Wallet transactions and receivables are only ever added.
  predicate RowsKept(s: State, t: State) {
    && PayoutsKept(s.payouts, t.payouts) && WalletsKept(s.wallets, t.wallets) && SplitsKept(s.splits, t.splits)
    && DisputesKept(s.disputes, t.disputes) && s.walletTxs <= t.walletTxs && s.recoveries <= t.recoveries
  }

  lemma KeptTwice(s: State, t: State, u: State)
    requires RowsKept(s, t) && RowsKept(t, u)
    ensures RowsKept(s, u)
  {
    forall i | 0 <= i < |s.payouts|
      ensures PayoutKept(s.payouts[i], u.payouts[i])
    {
      assert PayoutKept(s.payouts[i], t.payouts[i]) && PayoutKept(t.payouts[i], u.payouts[i]);
    }
    forall i | 0 <= i < |s.splits|
      ensures SplitKept(s.splits[i], u.splits[i])
    {
      assert SplitKept(s.splits[i], t.splits[i]) && SplitKept(t.splits[i], u.splits[i]);
    }
    forall i | 0 <= i < |s.disputes|
      ensures DisputeKept(s.disputes[i], u.disputes[i])
    {
      assert DisputeKept(s.disputes[i], t.disputes[i]) && DisputeKept(t.disputes[i], u.disputes[i]);
    }
  }

  lemma PayoutStepKeepsRows(s: State, op: Op)
    requires IsPayoutOp(op)
    ensures RowsKept(s, Step(s, op))
  {
  }

  lemma WalletStepKeepsRows(s: State, op: Op)
    requires IsWalletOp(op)
    ensures RowsKept(s, Step(s, op))
  {
  }

  lemma DisputeStepKeepsRows(s: State, op: Op)
    requires IsDisputeOp(op)
    ensures RowsKept(s, Step(s, op))
  {
  }

  lemma SplitStepKeepsRows(s: State, op: Op)
    requires !IsPayoutOp(op) && !IsWalletOp(op) && !IsDisputeOp(op)
    ensures RowsKept(s, Step(s, op))
  {
  }

  lemma StepKeepsRows(s: State, op: Op)
    ensures RowsKept(s, Step(s, op))
  {
    if IsPayoutOp(op) {
      PayoutStepKeepsRows(s, op);
    } else if IsWalletOp(op) {
      WalletStepKeepsRows(s, op);
    } else if IsDisputeOp(op) {
      DisputeStepKeepsRows(s, op);
    } else {
      SplitStepKeepsRows(s, op);
    }
  }

  // Over any run from any state: no row disappears or changes its terms, and what is final stays so.
  lemma {:induction false} RunKeepsRows(s: State, ops: seq<Op>)
    ensures RowsKept(s, Run(s, ops))
  {
    if ops != [] {
      var n := |ops| - 1;
      RunKeepsRows(s, ops[..n]);
      StepKeepsRows(Run(s, ops[..n]), ops[n]);
      KeptTwice(s, Run(s, ops[..n]), Run(s, ops));
    }
  }
}
