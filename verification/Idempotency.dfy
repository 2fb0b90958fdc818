// What identifies a payout, a wallet and a dispute is stored with it, is never changed, and makes every
// later creation under the same identity find it again.
module Idempotency {
  import opened Prelude
  import opened Money
  import opened Ledger
  import opened FxSettlement
  import opened Reversals
  import opened Books
  import opened Runs
  import opened Rows

  // ---------------------------------------------------------------------------
  // Identities
  // ---------------------------------------------------------------------------

  function Keys(payouts: seq<Payout>): seq<nat> {
    seq(|payouts|, i requires 0 <= i < |payouts| => payouts[i].key)
  }

  function Owners(wallets: seq<Wallet>): seq<nat> {
    seq(|wallets|, i requires 0 <= i < |wallets| => wallets[i].owner)
  }

  function Providers(disputes: seq<Dispute>): seq<nat> {
    seq(|disputes|, i requires 0 <= i < |disputes| => disputes[i].providerId)
  }

  predicate Distinct(ids: seq<nat>) {
    forall i, j :: 0 <= i < j < |ids| ==> ids[i] != ids[j]
  }

  // No two payouts share a key, no two wallets an owner, no two disputes a provider id.
  predicate Identified(s: State) {
    Distinct(Keys(s.payouts)) && Distinct(Owners(s.wallets)) && Distinct(Providers(s.disputes))
  }

  lemma OneMoreKey(s: State, key: nat, c: Currency, rates: Rates)
    requires CreatePayout(s, key, c, rates).Commit? && PayoutByKey(s.payouts, key).None?
    ensures Keys(CreatePayout(s, key, c, rates).state.payouts) == Keys(s.payouts) + [key]
    ensures key !in Keys(s.payouts)
  {
  }

  lemma StatusKeepsKeys(payouts: seq<Payout>, id: nat, status: PayoutStatus)
    requires id < |payouts|
    ensures Keys(WithStatus(payouts, id, status)) == Keys(payouts)
  {
  }

  lemma PayoutStepKeepsKeys(s: State, op: Op)
    requires Distinct(Keys(s.payouts)) && IsPayoutOp(op)
    ensures Distinct(Keys(Step(s, op).payouts))
    ensures Step(s, op).wallets == s.wallets && Step(s, op).disputes == s.disputes
  {
    match op
    case DoCreatePayout(key, c, rates) =>
      if CreatePayout(s, key, c, rates).Commit? && PayoutByKey(s.payouts, key).None? { OneMoreKey(s, key, c, rates); }
    case DoCancelPayout(id) => if id < |s.payouts| { StatusKeepsKeys(s.payouts, id, Cancelled); }
    case DoMarkPayoutFailed(id) => if id < |s.payouts| { StatusKeepsKeys(s.payouts, id, Failed); }
    case DoMarkPayoutPaid(id) => if id < |s.payouts| { StatusKeepsKeys(s.payouts, id, Paid); }
    case DoAdvancePayout(id, to) => if id < |s.payouts| { StatusKeepsKeys(s.payouts, id, to); }
  }

  lemma OneMoreOwner(s: State, owner: nat, c: Currency)
    requires WalletByOwner(s.wallets, owner).None?
    ensures Owners(After(s, CreateWallet(s, owner, c)).wallets) == Owners(s.wallets) + [owner]
    ensures owner !in Owners(s.wallets)
  {
  }

  lemma BalanceKeepsOwners(wallets: seq<Wallet>, w: nat, balance: int)
    requires w < |wallets|
    ensures Owners(wallets[w := wallets[w].(balance := balance)]) == Owners(wallets)
  {
  }

  // A wallet operation other than creation writes one balance at most.
  lemma MovementStep(s: State, op: Op) returns (w: nat, balance: int)
    requires IsWalletOp(op) && !op.DoCreateWallet?
    ensures var t := Step(s, op);
            || t.wallets == s.wallets
            || (w < |s.wallets| && t.wallets == s.wallets[w := s.wallets[w].(balance := balance)])
  {
    w := op.w;
    balance := if w < |Step(s, op).wallets| then Step(s, op).wallets[w].balance else 0;
  }

  lemma WalletStepKeepsOwners(s: State, op: Op)
    requires Distinct(Owners(s.wallets)) && IsWalletOp(op)
    ensures Distinct(Owners(Step(s, op).wallets))
  {
    if op.DoCreateWallet? {
      if WalletByOwner(s.wallets, op.owner).None? { OneMoreOwner(s, op.owner, op.c); }
    } else {
      var w, balance := MovementStep(s, op);
      if w < |s.wallets| { BalanceKeepsOwners(s.wallets, w, balance); }
    }
  }

  lemma WalletStepLeavesOthers(s: State, op: Op)
    requires IsWalletOp(op)
    ensures Step(s, op).payouts == s.payouts && Step(s, op).disputes == s.disputes
  {
  }

  lemma OneMoreProvider(s: State, providerId: nat, amount: int, c: Currency)
    requires DisputeByProvider(s.disputes, providerId).None?
    ensures Providers(After(s, CreateDispute(s, providerId, amount, c)).disputes)
            == Providers(s.disputes) + [providerId]
    ensures providerId !in Providers(s.disputes)
  {
  }

  lemma ResolutionKeepsProviders(s: State, op: Op)
    requires op.DoResolveWon? || op.DoResolveLost?
    ensures Providers(Step(s, op).disputes) == Providers(s.disputes)
  {
  }

  lemma OtherStepKeepsProviders(s: State, op: Op)
    requires Distinct(Providers(s.disputes)) && !IsPayoutOp(op) && !IsWalletOp(op)
    ensures Distinct(Providers(Step(s, op).disputes))
    ensures Step(s, op).payouts == s.payouts && Step(s, op).wallets == s.wallets
  {
    if op.DoCreateDispute? {
      if DisputeByProvider(s.disputes, op.providerId).None? { OneMoreProvider(s, op.providerId, op.amount, op.c); }
    } else if op.DoResolveWon? || op.DoResolveLost? {
      ResolutionKeepsProviders(s, op);
    }
  }

  lemma StepKeepsIdentities(s: State, op: Op)
    requires Identified(s)
    ensures Identified(Step(s, op))
  {
    if IsPayoutOp(op) {
      PayoutStepKeepsKeys(s, op);
    } else if IsWalletOp(op) {
      WalletStepKeepsOwners(s, op);
      WalletStepLeavesOthers(s, op);
    } else {
      OtherStepKeepsProviders(s, op);
    }
  }

  lemma {:induction false} RunKeepsIdentities(s: State, ops: seq<Op>)
    requires Identified(s)
    ensures Identified(Run(s, ops))
  {
    if ops != [] {
      RunKeepsIdentities(s, ops[..|ops| - 1]);
      StepKeepsIdentities(Run(s, ops[..|ops| - 1]), ops[|ops| - 1]);
    }
  }

  // In every reachable state no two payouts share a key, no two wallets an owner, no two disputes a
  // provider id.
  lemma AlwaysIdentified(ops: seq<Op>)
    ensures Identified(Run(EMPTY, ops))
  {
    RunKeepsIdentities(EMPTY, ops);
  }

  // ---------------------------------------------------------------------------
  // Replays
  // ---------------------------------------------------------------------------

  // A payout is created under its key in the currency asked for, as a draft of a positive amount. After
  // any run from there its terms are the same, and creating it again under its key finds it and leaves
  // everything alone, whatever the currency and the rates of the replay.
  lemma PayoutIsCreatedOnce(before: seq<Op>, key: nat, c: Currency, rates: Rates, t: State, id: nat,
                            ops: seq<Op>, again: Currency, later: Rates)
    requires CreatePayout(Run(EMPTY, before), key, c, rates) == Commit(t, id)
    ensures id < |t.payouts| && t.payouts[id].key == key
    ensures PayoutByKey(Run(EMPTY, before).payouts, key).None? ==>
              var amount := t.payouts[id].amount;
              0 < amount && t.payouts == Run(EMPTY, before).payouts + [Payout(key, amount, c, Draft)]
    ensures id < |Run(t, ops).payouts| && PayoutKept(t.payouts[id], Run(t, ops).payouts[id])
    ensures CreatePayout(Run(t, ops), key, again, later) == Commit(Run(t, ops), id)
  {
    var s := Run(EMPTY, before);
    AlwaysIdentified(before);
    StepKeepsIdentities(s, DoCreatePayout(key, c, rates));
    KeyIsStored(s, key, c, rates);
    RunKeepsIdentities(t, ops);
    RunKeepsRows(t, ops);
    KeyIsFound(Run(t, ops).payouts, key, id);
  }

  lemma KeyIsStored(s: State, key: nat, c: Currency, rates: Rates)
    requires CreatePayout(s, key, c, rates).Commit?
    ensures var t, id := CreatePayout(s, key, c, rates).state, CreatePayout(s, key, c, rates).value;
            && t == Step(s, DoCreatePayout(key, c, rates)) && id < |t.payouts| && t.payouts[id].key == key
            && (PayoutByKey(s.payouts, key).None? ==>
                  0 < t.payouts[id].amount && t.payouts == s.payouts + [Payout(key, t.payouts[id].amount, c, Draft)])
  {
  }

  lemma KeyIsFound(payouts: seq<Payout>, key: nat, id: nat)
    requires Distinct(Keys(payouts)) && id < |payouts| && payouts[id].key == key
    ensures PayoutByKey(payouts, key) == Some(id)
  {
    var r := PayoutByKey(payouts, key);
    assert Keys(payouts)[id] == key;
    assert r.Some? ==> Keys(payouts)[r.value] == key;
  }

  // So is a wallet under its owner: empty, active and in the currency asked for.
  lemma WalletIsCreatedOnce(before: seq<Op>, owner: nat, c: Currency, t: State, w: nat, ops: seq<Op>, again: Currency)
    requires CreateWallet(Run(EMPTY, before), owner, c) == Commit(t, w)
    ensures w < |t.wallets| && t.wallets[w].owner == owner
    ensures WalletByOwner(Run(EMPTY, before).wallets, owner).None? ==>
              t == Run(EMPTY, before).(wallets := Run(EMPTY, before).wallets + [Wallet(owner, c, 0, Active)])
    ensures w < |Run(t, ops).wallets| && Run(t, ops).wallets[w].(balance := t.wallets[w].balance) == t.wallets[w]
    ensures CreateWallet(Run(t, ops), owner, again) == Commit(Run(t, ops), w)
  {
    var s := Run(EMPTY, before);
    AlwaysIdentified(before);
    StepKeepsIdentities(s, DoCreateWallet(owner, c));
    OwnerIsStored(s, owner, c);
    RunKeepsIdentities(t, ops);
    RunKeepsRows(t, ops);
    OwnerIsFound(Run(t, ops).wallets, owner, w);
  }

  lemma OwnerIsStored(s: State, owner: nat, c: Currency)
    ensures CreateWallet(s, owner, c).Commit?
    ensures var t, w := CreateWallet(s, owner, c).state, CreateWallet(s, owner, c).value;
            && t == Step(s, DoCreateWallet(owner, c)) && w < |t.wallets| && t.wallets[w].owner == owner
            && t == if WalletByOwner(s.wallets, owner).Some? then s
                    else s.(wallets := s.wallets + [Wallet(owner, c, 0, Active)])
  {
  }

  lemma OwnerIsFound(wallets: seq<Wallet>, owner: nat, w: nat)
    requires Distinct(Owners(wallets)) && w < |wallets| && wallets[w].owner == owner
    ensures WalletByOwner(wallets, owner) == Some(w)
  {
    var r := WalletByOwner(wallets, owner);
    assert Owners(wallets)[w] == owner;
    assert r.Some? ==> Owners(wallets)[r.value] == owner;
  }

  // And a dispute under its provider id, open and with the amount and currency of its first report,
  // whatever those of the replay.
  lemma DisputeIsCreatedOnce(before: seq<Op>, providerId: nat, amount: int, c: Currency, t: State, id: nat,
                             ops: seq<Op>, again: int, other: Currency)
    requires CreateDispute(Run(EMPTY, before), providerId, amount, c) == Commit(t, id)
    ensures id < |t.disputes| && t.disputes[id].providerId == providerId
    ensures DisputeByProvider(Run(EMPTY, before).disputes, providerId).None? ==>
              t == Run(EMPTY, before).(disputes := Run(EMPTY, before).disputes + [Dispute(providerId, amount, c, Open)])
    ensures id < |Run(t, ops).disputes| && DisputeKept(t.disputes[id], Run(t, ops).disputes[id])
    ensures CreateDispute(Run(t, ops), providerId, again, other) == Commit(Run(t, ops), id)
  {
    var s := Run(EMPTY, before);
    AlwaysIdentified(before);
    StepKeepsIdentities(s, DoCreateDispute(providerId, amount, c));
    ProviderIsStored(s, providerId, amount, c);
    RunKeepsIdentities(t, ops);
    RunKeepsRows(t, ops);
    ProviderIsFound(Run(t, ops).disputes, providerId, id);
  }

  lemma ProviderIsStored(s: State, providerId: nat, amount: int, c: Currency)
    ensures CreateDispute(s, providerId, amount, c).Commit?
    ensures var t, id := CreateDispute(s, providerId, amount, c).state, CreateDispute(s, providerId, amount, c).value;
            && t == Step(s, DoCreateDispute(providerId, amount, c))
            && id < |t.disputes| && t.disputes[id].providerId == providerId
            && t == if DisputeByProvider(s.disputes, providerId).Some? then s
                    else s.(disputes := s.disputes + [Dispute(providerId, amount, c, Open)])
  {
  }

  lemma ProviderIsFound(disputes: seq<Dispute>, providerId: nat, id: nat)
    requires Distinct(Providers(disputes)) && id < |disputes| && disputes[id].providerId == providerId
    ensures DisputeByProvider(disputes, providerId) == Some(id)
  {
    var r := DisputeByProvider(disputes, providerId);
    assert Providers(disputes)[id] == providerId;
    assert r.Some? ==> Providers(disputes)[r.value] == providerId;
  }
}
