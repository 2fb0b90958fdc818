// Settlement statements: the AVAILABLE account over a half-open period, with the period's debit
// volume by category. Entries are of one currency.
module Statements {
  import opened Prelude
  import opened Ledger

  datatype StatementEntry = StatementEntry(account: Account, direction: Direction, amount: int, category: Category,
                                           at: int)

  datatype Volume = Volume(amount: int, count: nat)

  // `items` has one line per category with a debit in the period.
  datatype Statement = Statement(opening: int, closing: int, net: int, items: map<Category, Volume>)

  function SignedAmount(e: StatementEntry): int {
    if e.direction == CREDIT then e.amount else -e.amount
  }

  // The AVAILABLE balance of everything before `t`.
  function BalanceBefore(entries: seq<StatementEntry>, t: int): int {
    if entries == [] then 0
    else
      var e := entries[|entries| - 1];
      BalanceBefore(entries[..|entries| - 1], t) + if e.account == AVAILABLE && e.at < t then SignedAmount(e) else 0
  }

  // What AVAILABLE moved by within the period.
  function MovedWithin(entries: seq<StatementEntry>, start: int, end: int): int {
    if entries == [] then 0
    else
      var e := entries[|entries| - 1];
      MovedWithin(entries[..|entries| - 1], start, end)
      + if e.account == AVAILABLE && start <= e.at < end then SignedAmount(e) else 0
  }

  predicate Counts(e: StatementEntry, start: int, end: int, c: Category) {
    start <= e.at < end && e.direction == DEBIT && e.category == c
  }

  // The debit volume of one category within the period, over every account.
  function VolumeOf(entries: seq<StatementEntry>, start: int, end: int, c: Category): Volume {
    if entries == [] then Volume(0, 0)
    else
      var e, before := entries[|entries| - 1], VolumeOf(entries[..|entries| - 1], start, end, c);
      if Counts(e, start, end, c) then Volume(before.amount + e.amount, before.count + 1) else before
  }

  ghost predicate ItemsAre(items: map<Category, Volume>, entries: seq<StatementEntry>, start: int, end: int) {
    forall c :: (c in items <==> VolumeOf(entries, start, end, c).count > 0)
                && (c in items ==> items[c] == VolumeOf(entries, start, end, c))
  }

  lemma {:induction false} NoCountNoAmount(entries: seq<StatementEntry>, start: int, end: int, c: Category)
    requires VolumeOf(entries, start, end, c).count == 0
    ensures VolumeOf(entries, start, end, c).amount == 0
  {
    if entries != [] { NoCountNoAmount(entries[..|entries| - 1], start, end, c); }
  }

  method BuildStatement(entries: seq<StatementEntry>, start: int, end: int) returns (r: Result<Statement, Error>)
    ensures r.Err? <==> start >= end
    ensures r.Ok? ==>
              && r.value.opening == BalanceBefore(entries, start) && r.value.closing == BalanceBefore(entries, end)
              && r.value.net == MovedWithin(entries, start, end)
              && ItemsAre(r.value.items, entries, start, end)
  {
    if start >= end { return Err(InvalidPeriod); }
    var opening, closing := 0, 0;
    var items: map<Category, Volume> := map[];
    for k := 0 to |entries|
      invariant opening == BalanceBefore(entries[..k], start) && closing == BalanceBefore(entries[..k], end)
      invariant ItemsAre(items, entries[..k], start, end)
    {
      var e := entries[k];
      assert entries[..k + 1][..k] == entries[..k];
      if e.account == AVAILABLE {
        if e.at < start { opening := opening + SignedAmount(e); }
        if e.at < end { closing := closing + SignedAmount(e); }
      }
      if start <= e.at < end && e.direction == DEBIT {
        if e.category !in items { NoCountNoAmount(entries[..k], start, end, e.category); }
        var current := if e.category in items then items[e.category] else Volume(0, 0);
        items := items[e.category := Volume(current.amount + e.amount, current.count + 1)];
      }
    }
    assert entries[..|entries|] == entries;
    NetIsTheWindow(entries, start, end);
    r := Ok(Statement(opening, closing, closing - opening, items));
  }

  // The difference of two running balances is what the period itself moved.
  lemma {:induction false} NetIsTheWindow(entries: seq<StatementEntry>, start: int, end: int)
    requires start <= end
    ensures BalanceBefore(entries, end) - BalanceBefore(entries, start) == MovedWithin(entries, start, end)
  {
    if entries != [] { NetIsTheWindow(entries[..|entries| - 1], start, end); }
  }

  // Cutting a period in two cuts its net and every category's volume in two.
  lemma {:induction false} AdjacentPeriodsAdd(entries: seq<StatementEntry>, start: int, middle: int, end: int,
                                              c: Category)
    requires start <= middle <= end
    ensures MovedWithin(entries, start, end) == MovedWithin(entries, start, middle) + MovedWithin(entries, middle, end)
    ensures var whole := VolumeOf(entries, start, end, c);
            var first, second := VolumeOf(entries, start, middle, c), VolumeOf(entries, middle, end, c);
            whole.amount == first.amount + second.amount && whole.count == first.count + second.count
  {
    if entries != [] { AdjacentPeriodsAdd(entries[..|entries| - 1], start, middle, end, c); }
  }

  // A period is half-open: what an entry adds to the statement of [start, end), wherever it falls. At its
  // start it counts, at its end it belongs to the next one; a credit of AVAILABLE raises its balance, a debit
  // lowers it, and a debit of any account counts once towards the volume of its category.
  lemma EntryCounts(entries: seq<StatementEntry>, e: StatementEntry, start: int, end: int, c: Category)
    ensures var signed := if e.account != AVAILABLE then 0 else match e.direction case CREDIT => e.amount
                                                                                  case DEBIT => -e.amount;
            && BalanceBefore(entries + [e], start)
               == BalanceBefore(entries, start) + (if e.at < start then signed else 0)
            && MovedWithin(entries + [e], start, end)
               == MovedWithin(entries, start, end) + (if start <= e.at && e.at < end then signed else 0)
    ensures var before, after := VolumeOf(entries, start, end, c), VolumeOf(entries + [e], start, end, c);
            after == if e.direction == DEBIT && e.category == c && start <= e.at && e.at < end
                     then Volume(before.amount + e.amount, before.count + 1) else before
  {
    assert (entries + [e])[..|entries|] == entries;
  }
}
