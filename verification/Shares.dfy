// Split arithmetic: the largest-remainder division of a total among beneficiaries, and the split of
// a source into beneficiary shares plus the platform's remainder.
//
// The exact quotients total * bps / totalBps are kept as integer quotient and remainder, so the
// source's comparison of fractions is the comparison of remainders.
module Shares {
  import opened Prelude
  import opened Money
  import opened Ledger

  datatype ShareSpec = ShareSpec(party: PartyId, bps: int)

  datatype SplitResult = SplitResult(shares: seq<int>, platform: int)

  function Sum(xs: seq<int>): int {
    if xs == [] then 0 else Sum(xs[..|xs| - 1]) + xs[|xs| - 1]
  }

  function TotalBps(shares: seq<ShareSpec>): int {
    if shares == [] then 0 else TotalBps(shares[..|shares| - 1]) + shares[|shares| - 1].bps
  }

  predicate ValidShares(shares: seq<ShareSpec>) {
    && shares != []
    && (forall i :: 0 <= i < |shares| ==> 0 < shares[i].bps <= BPS)
    && TotalBps(shares) <= BPS
  }

  lemma {:induction false} TotalBpsAtLeast(shares: seq<ShareSpec>)
    requires forall i :: 0 <= i < |shares| ==> 0 < shares[i].bps
    ensures |shares| <= TotalBps(shares)
  {
    if shares != [] { TotalBpsAtLeast(shares[..|shares| - 1]); }
  }

  // total * bps / base as integer quotient and remainder.
  function Quotient(total: int, bps: int, base: int): int
    requires 0 < base
  {
    total * bps / base
  }

  function Remainder(total: int, bps: int, base: int): (r: int)
    requires 0 < base
    ensures 0 <= r < base
  {
    total * bps % base
  }

  lemma QuotientAndRemainder(total: int, bps: int, base: int)
    requires 0 < base
    ensures total * bps == Quotient(total, bps, base) * base + Remainder(total, bps, base)
  {
  }

  function Floors(total: int, base: int, shares: seq<ShareSpec>): (fs: seq<int>)
    requires 0 < base
    ensures |fs| == |shares|
  {
    seq(|shares|, i requires 0 <= i < |shares| => Quotient(total, shares[i].bps, base))
  }

  function Remainders(total: int, base: int, shares: seq<ShareSpec>): (rs: seq<int>)
    requires 0 < base
    ensures |rs| == |shares|
    ensures forall i :: 0 <= i < |rs| ==> 0 <= rs[i] < base
  {
    seq(|shares|, i requires 0 <= i < |shares| => Remainder(total, shares[i].bps, base))
  }

  // The sort key: larger remainder first, then smaller party id.
  predicate Precedes(rems: seq<int>, shares: seq<ShareSpec>, i: nat, j: nat)
    requires |rems| == |shares| && i < |shares| && j < |shares|
  {
    rems[i] > rems[j] || (rems[i] == rems[j] && shares[i].party < shares[j].party)
  }

  predicate InRange(order: seq<nat>, n: nat) {
    forall p :: 0 <= p < |order| ==> order[p] < n
  }

  predicate Sorted(rems: seq<int>, shares: seq<ShareSpec>, order: seq<nat>)
    requires |rems| == |shares| && InRange(order, |shares|)
  {
    forall p, q :: 0 <= p < q < |order| ==> !Precedes(rems, shares, order[q], order[p])
  }

  predicate Distinct(order: seq<nat>) {
    forall p, q :: 0 <= p < q < |order| ==> order[p] != order[q]
  }

  function Insert(rems: seq<int>, shares: seq<ShareSpec>, i: nat, order: seq<nat>): (r: seq<nat>)
    requires |rems| == |shares| && i < |shares| && InRange(order, |shares|)
    ensures |r| == |order| + 1 && InRange(r, |shares|)
  {
    if order == [] then [i]
    else if Precedes(rems, shares, i, order[0]) then [i] + order
    else [order[0]] + Insert(rems, shares, i, order[1..])
  }

  // A share in front of a sorted list none of whose members precedes it.
  lemma PrependKeepsOrder(rems: seq<int>, shares: seq<ShareSpec>, first: nat, rest: seq<nat>)
    requires |rems| == |shares| && first < |shares| && InRange(rest, |shares|)
    requires Sorted(rems, shares, rest) && Distinct(rest)
    requires forall q :: 0 <= q < |rest| ==> rest[q] != first && !Precedes(rems, shares, rest[q], first)
    ensures InRange([first] + rest, |shares|)
    ensures Sorted(rems, shares, [first] + rest) && Distinct([first] + rest)
  {
    var r := [first] + rest;
    forall p, q | 0 <= p < q < |r|
      ensures r[p] != r[q] && !Precedes(rems, shares, r[q], r[p])
    {
      assert r[q] == rest[q - 1];
      if p > 0 { assert r[p] == rest[p - 1]; }
    }
  }

  lemma {:induction false} InsertKeepsOrder(rems: seq<int>, shares: seq<ShareSpec>, i: nat, order: seq<nat>)
    requires |rems| == |shares| && i < |shares| && InRange(order, |shares|)
    requires Sorted(rems, shares, order) && Distinct(order) && i !in order
    ensures var r := Insert(rems, shares, i, order);
            && Sorted(rems, shares, r) && Distinct(r)
            && (forall x :: x in r <==> x == i || x in order)
  {
    if order == [] || Precedes(rems, shares, i, order[0]) {
      forall q | 0 <= q < |order|
        ensures order[q] != i && !Precedes(rems, shares, order[q], i)
      {
        assert order[q] in order;
        assert q > 0 ==> !Precedes(rems, shares, order[q], order[0]);
      }
      PrependKeepsOrder(rems, shares, i, order);
    } else {
      InsertKeepsOrder(rems, shares, i, order[1..]);
      var rest := Insert(rems, shares, i, order[1..]);
      forall q | 0 <= q < |rest|
        ensures rest[q] != order[0] && !Precedes(rems, shares, rest[q], order[0])
      {
        assert rest[q] in rest;
        if rest[q] != i { NotBeforeFirst(rems, shares, order, rest[q]); }
      }
      PrependKeepsOrder(rems, shares, order[0], rest);
      assert order == [order[0]] + order[1..];
    }
  }

  lemma NotBeforeFirst(rems: seq<int>, shares: seq<ShareSpec>, order: seq<nat>, x: nat)
    requires |rems| == |shares| && InRange(order, |shares|) && Sorted(rems, shares, order) && Distinct(order)
    requires order != [] && x in order[1..]
    ensures x < |shares| && x != order[0] && !Precedes(rems, shares, x, order[0])
  {
    var k :| 0 <= k < |order[1..]| && order[1..][k] == x;
    assert order[k + 1] == x;
  }

  // A sorted list of the first n indices, each once.
  ghost predicate ListsInOrder(rems: seq<int>, shares: seq<ShareSpec>, order: seq<nat>, n: nat)
    requires |rems| == |shares| && InRange(order, |shares|)
  {
    Sorted(rems, shares, order) && Distinct(order) && forall x :: x in order <==> 0 <= x < n
  }

  lemma InsertNext(rems: seq<int>, shares: seq<ShareSpec>, i: nat, order: seq<nat>)
    requires |rems| == |shares| && i < |shares| && InRange(order, |shares|) && ListsInOrder(rems, shares, order, i)
    ensures ListsInOrder(rems, shares, Insert(rems, shares, i, order), i + 1)
  {
    InsertKeepsOrder(rems, shares, i, order);
  }

  // The stable sort of the first n share indices.
  function Order(rems: seq<int>, shares: seq<ShareSpec>, n: nat): (r: seq<nat>)
    requires |rems| == |shares| && n <= |shares|
    ensures |r| == n && InRange(r, |shares|)
  {
    if n == 0 then [] else Insert(rems, shares, n - 1, Order(rems, shares, n - 1))
  }

  lemma {:induction false} OrderLists(rems: seq<int>, shares: seq<ShareSpec>, n: nat)
    requires |rems| == |shares| && n <= |shares|
    ensures ListsInOrder(rems, shares, Order(rems, shares, n), n)
  {
    if n > 0 {
      OrderLists(rems, shares, n - 1);
      InsertNext(rems, shares, n - 1, Order(rems, shares, n - 1));
    }
  }

  lemma OrderIsSortedPermutation(rems: seq<int>, shares: seq<ShareSpec>, n: nat)
    requires |rems| == |shares| && n <= |shares|
    ensures var r := Order(rems, shares, n);
            Sorted(rems, shares, r) && Distinct(r) && forall x :: x in r <==> 0 <= x < n
  {
    OrderLists(rems, shares, n);
  }

  // One extra unit for every chosen index.
  function WithBonus(floors: seq<int>, chosen: seq<nat>): (xs: seq<int>)
    ensures |xs| == |floors|
    ensures forall i :: 0 <= i < |xs| ==> xs[i] == floors[i] + if i in chosen then 1 else 0
  {
    seq(|floors|, i requires 0 <= i < |floors| => floors[i] + if i in chosen then 1 else 0)
  }

  lemma {:induction false} SumUpdate(xs: seq<int>, i: nat, v: int)
    requires i < |xs|
    ensures Sum(xs[i := v]) == Sum(xs) - xs[i] + v
  {
    var n := |xs| - 1;
    if i == n {
      assert xs[i := v][..n] == xs[..n];
    } else {
      assert xs[i := v][..n] == xs[..n][i := v];
      SumUpdate(xs[..n], i, v);
    }
  }

  lemma BonusForOneMore(floors: seq<int>, rest: seq<nat>, last: nat)
    requires InRange(rest, |floors|) && last < |floors| && last !in rest
    ensures WithBonus(floors, rest + [last]) == WithBonus(floors, rest)[last := floors[last] + 1]
  {
  }

  lemma {:induction false} SumWithBonus(floors: seq<int>, chosen: seq<nat>)
    requires Distinct(chosen) && InRange(chosen, |floors|)
    ensures Sum(WithBonus(floors, chosen)) == Sum(floors) + |chosen|
  {
    if chosen == [] {
      assert WithBonus(floors, chosen) == floors;
    } else {
      var n := |chosen| - 1;
      var last, rest := chosen[n], chosen[..n];
      assert chosen == rest + [last];
      SumWithBonus(floors, rest);
      BonusForOneMore(floors, rest, last);
      SumUpdate(WithBonus(floors, rest), last, floors[last] + 1);
    }
  }

  // base * sum of floors + sum of remainders = total * sum of bps.
  lemma {:induction false} QuotientsAddUp(total: int, base: int, shares: seq<ShareSpec>)
    requires 0 < base
    ensures Sum(Floors(total, base, shares)) * base + Sum(Remainders(total, base, shares)) == total * TotalBps(shares)
  {
    if shares != [] {
      var n := |shares| - 1;
      QuotientsAddUp(total, base, shares[..n]);
      assert Floors(total, base, shares)[..n] == Floors(total, base, shares[..n]);
      assert Remainders(total, base, shares)[..n] == Remainders(total, base, shares[..n]);
      QuotientAndRemainder(total, shares[n].bps, base);
      Distribute(total, TotalBps(shares[..n]), shares[n].bps);
      Distribute(base, Sum(Floors(total, base, shares[..n])), Quotient(total, shares[n].bps, base));
    }
  }

  lemma Distribute(a: int, b: int, c: int)
    ensures a * (b + c) == a * b + a * c && (b + c) * a == b * a + c * a
  {
  }

  lemma {:induction false} SumBelow(rs: seq<int>, base: int)
    requires 0 < base && forall i :: 0 <= i < |rs| ==> 0 <= rs[i] < base
    ensures 0 <= Sum(rs)
    ensures rs != [] ==> Sum(rs) < |rs| * base
  {
    if rs != [] {
      SumBelow(rs[..|rs| - 1], base);
      Distribute(base, |rs| - 1, 1);
    }
  }

  lemma FactorBetween(k: int, base: int, n: int)
    requires 0 < base && 0 <= k * base < n * base
    ensures 0 <= k < n
  {
  }

  // How many units the floors leave over.
  function Leftover(total: int, shares: seq<ShareSpec>): int
    requires 0 < TotalBps(shares)
  {
    total - Sum(Floors(total, TotalBps(shares), shares))
  }

  lemma LeftTimes(total: int, floors: int, base: int, rest: int)
    requires total * base == floors * base + rest
    ensures (total - floors) * base == rest
  {
  }

  lemma LeftBetween(total: int, floors: int, base: int, rest: int, n: int)
    requires 0 < base && total * base == floors * base + rest && 0 <= rest < n * base
    ensures 0 <= total - floors < n && (total - floors) * base == rest
  {
    LeftTimes(total, floors, base, rest);
    FactorBetween(total - floors, base, n);
  }

  // There are fewer leftover units than shares: the bonus loop never wraps around.
  lemma LeftoverBounds(total: int, shares: seq<ShareSpec>)
    requires ValidShares(shares)
    ensures 0 < TotalBps(shares)
    ensures 0 <= Leftover(total, shares) < |shares|
    ensures Leftover(total, shares) * TotalBps(shares) == Sum(Remainders(total, TotalBps(shares), shares))
  {
    TotalBpsAtLeast(shares);
    var base := TotalBps(shares);
    var fs, rs := Floors(total, base, shares), Remainders(total, base, shares);
    QuotientsAddUp(total, base, shares);
    SumBelow(rs, base);
    LeftBetween(total, Sum(fs), base, Sum(rs), |shares|);
  }

  // The k indices first in the sort order, which get one unit more than their floor.
  function FirstInOrder(rems: seq<int>, shares: seq<ShareSpec>, k: nat): (chosen: seq<nat>)
    requires |rems| == |shares| && k <= |shares|
    ensures |chosen| == k && InRange(chosen, |shares|) && Distinct(chosen)
  {
    OrderIsSortedPermutation(rems, shares, |shares|);
    Order(rems, shares, |shares|)[..k]
  }

  function Chosen(total: int, shares: seq<ShareSpec>): (chosen: seq<nat>)
    requires ValidShares(shares)
    ensures 0 < TotalBps(shares) && |chosen| == Leftover(total, shares)
    ensures InRange(chosen, |shares|) && Distinct(chosen)
  {
    LeftoverBounds(total, shares);
    FirstInOrder(Remainders(total, TotalBps(shares), shares), shares, Leftover(total, shares))
  }

  lemma QuotientNonNegative(total: int, bps: int, base: int)
    requires 0 <= total && 0 <= bps && 0 < base
    ensures 0 <= Quotient(total, bps, base)
  {
    assert 0 <= total * bps;
  }

  function ComputeShares(total: int, shares: seq<ShareSpec>): (r: Result<seq<int>, Error>)
    ensures r.Ok? <==> 0 <= total && ValidShares(shares)
    ensures r.Ok? ==> |r.value| == |shares| && Sum(r.value) == total
  {
    if total < 0 || !ValidShares(shares) then Err(InvalidShares)
    else
      var chosen := Chosen(total, shares);
      var floors := Floors(total, TotalBps(shares), shares);
      SumWithBonus(floors, chosen);
      Ok(WithBonus(floors, chosen))
  }

  lemma SharesNonNegative(total: int, shares: seq<ShareSpec>, i: nat)
    requires 0 <= total && ValidShares(shares) && i < |shares|
    ensures 0 <= ComputeShares(total, shares).value[i]
  {
    LeftoverBounds(total, shares);
    QuotientNonNegative(total, shares[i].bps, TotalBps(shares));
  }

  // ---------------------------------------------------------------------------
  // What the allocation means
  // ---------------------------------------------------------------------------

  // total * bps - amount * totalBps: how far an amount is from its ideal, in units of 1 / totalBps.
  function Deviation(total: int, shares: seq<ShareSpec>, xs: seq<int>, i: nat): int
    requires |xs| == |shares| && i < |shares|
  {
    xs[i] * TotalBps(shares) - total * shares[i].bps
  }

  function SquaredDeviation(total: int, shares: seq<ShareSpec>, xs: seq<int>, n: nat): int
    requires |xs| == |shares| && n <= |shares|
  {
    if n == 0 then 0
    else
      SquaredDeviation(total, shares, xs, n - 1)
      + Deviation(total, shares, xs, n - 1) * Deviation(total, shares, xs, n - 1)
  }

  // The deviation of an allocated share: minus its remainder, plus one whole unit if chosen.
  lemma AllocatedDeviation(total: int, shares: seq<ShareSpec>, i: nat)
    requires 0 <= total && ValidShares(shares) && i < |shares|
    ensures 0 < TotalBps(shares)
    ensures Deviation(total, shares, ComputeShares(total, shares).value, i)
            == (if i in Chosen(total, shares) then TotalBps(shares) else 0)
               - Remainders(total, TotalBps(shares), shares)[i]
  {
    TotalBpsAtLeast(shares);
    AllocatedAmount(total, shares, i);
    AmountDeviation(total, shares[i].bps, TotalBps(shares), i in Chosen(total, shares),
                    ComputeShares(total, shares).value[i]);
  }

  lemma AmountDeviation(total: int, bps: int, base: int, chosen: bool, amount: int)
    requires 0 < base && amount == Quotient(total, bps, base) + if chosen then 1 else 0
    ensures amount * base - total * bps == (if chosen then base else 0) - Remainder(total, bps, base)
  {
    QuotientAndRemainder(total, bps, base);
    BonusDeviation(Quotient(total, bps, base), chosen, base, Remainder(total, bps, base), total * bps);
  }

  lemma BonusDeviation(floor: int, chosen: bool, base: int, remainder: int, exact: int)
    requires exact == floor * base + remainder
    ensures (floor + if chosen then 1 else 0) * base - exact == (if chosen then base else 0) - remainder
  {
  }

  lemma AllocatedAmount(total: int, shares: seq<ShareSpec>, i: nat)
    requires 0 <= total && ValidShares(shares) && i < |shares| && 0 < TotalBps(shares)
    ensures ComputeShares(total, shares).value[i]
            == Quotient(total, shares[i].bps, TotalBps(shares)) + if i in Chosen(total, shares) then 1 else 0
    ensures Remainders(total, TotalBps(shares), shares)[i] == Remainder(total, shares[i].bps, TotalBps(shares))
  {
  }

  lemma FirstHaveLargest(rems: seq<int>, shares: seq<ShareSpec>, k: nat, i: nat, j: nat)
    requires |rems| == |shares| && k <= |shares| && i < |shares| && j < |shares|
    requires i in FirstInOrder(rems, shares, k) && j !in FirstInOrder(rems, shares, k)
    ensures !Precedes(rems, shares, j, i)
  {
    var n := |shares|;
    OrderIsSortedPermutation(rems, shares, n);
    var order := Order(rems, shares, n);
    var p :| 0 <= p < k && order[p] == i;
    assert j in order;
    var q :| 0 <= q < n && order[q] == j;
    forall x | 0 <= x < k
      ensures order[x] in FirstInOrder(rems, shares, k)
    {
      assert FirstInOrder(rems, shares, k)[x] == order[x];
    }
    assert p < q;
  }

  // A chosen share's remainder is at least that of any share not chosen, ties going to the smaller
  // party id.
  lemma ChosenHaveLargestRemainders(total: int, shares: seq<ShareSpec>, i: nat, j: nat)
    requires ValidShares(shares) && i < |shares| && j < |shares|
    requires i in Chosen(total, shares) && j !in Chosen(total, shares)
    ensures 0 < TotalBps(shares)
    ensures var rems := Remainders(total, TotalBps(shares), shares);
            rems[i] > rems[j] || (rems[i] == rems[j] && shares[i].party <= shares[j].party)
  {
    LeftoverBounds(total, shares);
    FirstHaveLargest(Remainders(total, TotalBps(shares), shares), shares, Leftover(total, shares), i, j);
  }

  lemma {:induction false} SumOfChosen(rs: seq<int>, base: int, chosen: seq<nat>)
    requires 0 < base && forall i :: 0 <= i < |rs| ==> 0 <= rs[i] < base
    requires Distinct(chosen) && InRange(chosen, |rs|)
    requires forall i :: 0 <= i < |rs| && i !in chosen ==> rs[i] == 0
    ensures Sum(rs) <= |chosen| * (base - 1)
    decreases |chosen|
  {
    if chosen == [] {
      ZeroSum(rs);
    } else {
      var n := |chosen| - 1;
      var last, rest := chosen[n], chosen[..n];
      assert chosen == rest + [last];
      SumUpdate(rs, last, 0);
      SumOfChosen(rs[last := 0], base, rest);
      Distribute(base - 1, n, 1);
    }
  }

  lemma {:induction false} ZeroSum(xs: seq<int>)
    requires forall i :: 0 <= i < |xs| ==> xs[i] == 0
    ensures Sum(xs) == 0
  {
    if xs != [] { ZeroSum(xs[..|xs| - 1]); }
  }

  // Nobody whose ideal is already a whole number gets a bonus: were one chosen with remainder zero,
  // every share not chosen would have remainder zero too, and the chosen remainders alone are too
  // small to add up to the leftover.
  lemma ChosenHaveRemainder(total: int, shares: seq<ShareSpec>, i: nat)
    requires ValidShares(shares) && i < |shares|
    requires i in Chosen(total, shares)
    ensures 0 < TotalBps(shares) && 0 < Remainders(total, TotalBps(shares), shares)[i]
  {
    LeftoverBounds(total, shares);
    var base := TotalBps(shares);
    var rems, chosen := Remainders(total, base, shares), Chosen(total, shares);
    if rems[i] == 0 {
      forall j | 0 <= j < |rems| && j !in chosen
        ensures rems[j] == 0
      {
        ChosenHaveLargestRemainders(total, shares, i, j);
      }
      SumOfChosen(rems, base, chosen);
      Distribute(|chosen|, base, -1);
      assert false;
    }
  }

  // Every share is within strictly less than one unit of its ideal.
  lemma WithinOneUnit(total: int, shares: seq<ShareSpec>, i: nat)
    requires 0 <= total && ValidShares(shares) && i < |shares|
    ensures 0 < TotalBps(shares)
    ensures var d := Deviation(total, shares, ComputeShares(total, shares).value, i);
            -TotalBps(shares) < d < TotalBps(shares)
  {
    AllocatedDeviation(total, shares, i);
    if i in Chosen(total, shares) {
      ChosenHaveRemainder(total, shares, i);
    }
  }

  // No two shares can be improved by moving one unit between them.
  lemma DeviationsClose(total: int, shares: seq<ShareSpec>, i: nat, j: nat)
    requires 0 <= total && ValidShares(shares) && i < |shares| && j < |shares|
    ensures var xs := ComputeShares(total, shares).value;
            Deviation(total, shares, xs, i) - Deviation(total, shares, xs, j) <= TotalBps(shares)
  {
    AllocatedDeviation(total, shares, i);
    AllocatedDeviation(total, shares, j);
    if i in Chosen(total, shares) && j !in Chosen(total, shares) {
      ChosenHaveLargestRemainders(total, shares, i, j);
    }
  }

  lemma MostOverpaid(total: int, shares: seq<ShareSpec>, xs: seq<int>, n: nat) returns (m: nat)
    requires |xs| == |shares| && 0 < n <= |shares|
    ensures m < n
    ensures forall i :: 0 <= i < n ==> Deviation(total, shares, xs, i) <= Deviation(total, shares, xs, m)
  {
    m := 0;
    for i := 1 to n
      invariant m < i
      invariant forall j :: 0 <= j < i ==> Deviation(total, shares, xs, j) <= Deviation(total, shares, xs, m)
    {
      if Deviation(total, shares, xs, i) > Deviation(total, shares, xs, m) { m := i; }
    }
  }

  // Convexity of one share's squared deviation: against the common slope `slope` any other integer
  // amount costs at least base * slope per unit moved.
  lemma OneShareCost(base: int, d: int, delta: int, slope: int)
    requires 0 < base && 2 * d - base <= slope <= 2 * d + base
    ensures (d + delta * base) * (d + delta * base) >= d * d + base * slope * delta
  {
    var w := delta * base;
    SquareOfSum(d, w);
    if delta >= 1 {
      MulLeRight(1, delta, base);
      MulLe(w, slope, 2 * d + w);
    } else if delta <= -1 {
      MulLeRight(delta, -1, base);
      MulLe(-w, 2 * d + w, slope);
      Negate(w, slope);
      Negate(w, 2 * d + w);
    }
    Rearrange(delta, base, slope);
  }

  lemma SquareOfSum(d: int, w: int)
    ensures (d + w) * (d + w) == d * d + w * (2 * d + w)
  {
    Distribute(d + w, d, w);
    Distribute(d, d, w);
    Distribute(w, d, w);
    Distribute(w, 2 * d, w);
  }

  lemma Negate(w: int, a: int)
    ensures (-w) * a == -(w * a)
  {
  }

  lemma Rearrange(a: int, b: int, c: int)
    ensures (a * b) * c == b * c * a
  {
  }

  lemma MulLeRight(a: int, b: int, c: int)
    requires a <= b && 0 <= c
    ensures a * c <= b * c
  {
  }

  lemma {:induction false} PrefixCost(total: int, shares: seq<ShareSpec>, xs: seq<int>, ys: seq<int>, slope: int,
                                      n: nat)
    requires |xs| == |shares| == |ys| && n <= |shares| && 0 < TotalBps(shares)
    requires forall i :: 0 <= i < n ==>
               2 * Deviation(total, shares, xs, i) - TotalBps(shares) <= slope
               <= 2 * Deviation(total, shares, xs, i) + TotalBps(shares)
    ensures SquaredDeviation(total, shares, ys, n)
            >= SquaredDeviation(total, shares, xs, n) + TotalBps(shares) * slope * (Sum(ys[..n]) - Sum(xs[..n]))
  {
    if n > 0 {
      PrefixCost(total, shares, xs, ys, slope, n - 1);
      var base, d, delta := TotalBps(shares), Deviation(total, shares, xs, n - 1), ys[n - 1] - xs[n - 1];
      OneShareCost(base, d, delta, slope);
      Distribute(base, xs[n - 1], delta);
      assert Deviation(total, shares, ys, n - 1) == d + delta * base;
      assert xs[..n][..n - 1] == xs[..n - 1] && ys[..n][..n - 1] == ys[..n - 1];
      Distribute(base * slope, Sum(ys[..n - 1]) - Sum(xs[..n - 1]), delta);
    }
  }

  // Whatever leaves no improving move between two shares is least squares overall.
  lemma CloseDeviationsAreBest(total: int, shares: seq<ShareSpec>, xs: seq<int>, other: seq<int>)
    requires |xs| == |shares| == |other| && 0 < |shares| && 0 < TotalBps(shares) && Sum(xs) == Sum(other)
    requires forall i, j :: 0 <= i < |shares| && 0 <= j < |shares| ==>
               Deviation(total, shares, xs, i) - Deviation(total, shares, xs, j) <= TotalBps(shares)
    ensures SquaredDeviation(total, shares, xs, |shares|) <= SquaredDeviation(total, shares, other, |shares|)
  {
    var n := |shares|;
    var m := MostOverpaid(total, shares, xs, n);
    var slope := 2 * Deviation(total, shares, xs, m) - TotalBps(shares);
    forall i | 0 <= i < n
      ensures 2 * Deviation(total, shares, xs, i) - TotalBps(shares) <= slope
              <= 2 * Deviation(total, shares, xs, i) + TotalBps(shares)
    {
      assert Deviation(total, shares, xs, m) - Deviation(total, shares, xs, i) <= TotalBps(shares);
    }
    PrefixCost(total, shares, xs, other, slope, n);
    assert xs[..n] == xs && other[..n] == other;
    TimesZero(TotalBps(shares) * slope, Sum(other[..n]) - Sum(xs[..n]));
  }

  lemma TimesZero(a: int, b: int)
    requires b == 0
    ensures a * b == 0
  {
  }

  // Least squares: no integer allocation of the same total is closer to the ideal shares.
  lemma LeastSquares(total: int, shares: seq<ShareSpec>, other: seq<int>)
    requires 0 <= total && ValidShares(shares)
    requires |other| == |shares| && Sum(other) == total
    ensures SquaredDeviation(total, shares, ComputeShares(total, shares).value, |shares|)
            <= SquaredDeviation(total, shares, other, |shares|)
  {
    TotalBpsAtLeast(shares);
    var xs := ComputeShares(total, shares).value;
    forall i, j | 0 <= i < |shares| && 0 <= j < |shares|
      ensures Deviation(total, shares, xs, i) - Deviation(total, shares, xs, j) <= TotalBps(shares)
    {
      DeviationsClose(total, shares, i, j);
    }
    CloseDeviationsAreBest(total, shares, xs, other);
  }

  // ---------------------------------------------------------------------------
  // The bonus loop
  // ---------------------------------------------------------------------------

  lemma SmallIndex(i: nat, n: nat)
    requires i < n
    ensures i % n == i
  {
  }

  // The loop of the source: hand out `leftover` units one at a time through
  // order[index % order.length]; `floor` is the array of running amounts the sorted list aliases.
  method HandOut(floor: array<int>, order: seq<nat>, leftover: nat)
    requires InRange(order, floor.Length) && Distinct(order) && leftover < |order|
    modifies floor
    ensures floor[..] == WithBonus(old(floor[..]), order[..leftover])
  {
    ghost var floors := floor[..];
    var remaining := leftover;
    var index := 0;
    assert floor[..] == WithBonus(floors, order[..0]);
    while remaining > 0
      invariant 0 <= index && 0 <= remaining && remaining + index == leftover
      invariant floor[..] == WithBonus(floors, order[..index])
    {
      SmallIndex(index, |order|);
      var at := order[index % |order|];
      assert order[..index + 1] == order[..index] + [at];
      BonusForOneMore(floors, order[..index], at);
      floor[at] := floor[at] + 1;
      remaining := remaining - 1;
      index := index + 1;
    }
  }

  // Floors, one sort, the bonus loop: the executable form of `ComputeShares`.
  method ComputeSharesByLoop(total: int, shares: seq<ShareSpec>) returns (r: Result<seq<int>, Error>)
    ensures r == ComputeShares(total, shares)
  {
    if total < 0 { return Err(InvalidShares); }
    if !ValidShares(shares) { return Err(InvalidShares); }
    LeftoverBounds(total, shares);
    var floors, rems := Floors(total, TotalBps(shares), shares), Remainders(total, TotalBps(shares), shares);
    var floor := new int[|floors|](i requires 0 <= i < |floors| => floors[i]);
    assert floor[..] == floors;
    OrderIsSortedPermutation(rems, shares, |shares|);
    HandOut(floor, Order(rems, shares, |shares|), total - Sum(floors));
    r := Ok(floor[..]);
  }

  // ---------------------------------------------------------------------------
  // Splitting a source
  // ---------------------------------------------------------------------------

  function Beneficiary(source: int, shares: seq<ShareSpec>): int {
    RoundDiv(source * TotalBps(shares), BPS)
  }

  function Split(source: int, shares: seq<ShareSpec>): (r: Result<SplitResult, Error>)
    ensures r.Ok? <==> 0 <= source && ValidShares(shares)
    ensures r.Ok? ==> |r.value.shares| == |shares| && Sum(r.value.shares) + r.value.platform == source
    ensures r.Ok? ==> 0 <= r.value.platform
  {
    if source < 0 || !ValidShares(shares) then Err(InvalidShares)
    else
      BeneficiaryBounds(source, shares);
      var amounts := ComputeShares(Beneficiary(source, shares), shares).value;
      Ok(SplitResult(amounts, source - Sum(amounts)))
  }

  lemma BeneficiaryBounds(source: int, shares: seq<ShareSpec>)
    requires 0 <= source && ValidShares(shares)
    ensures 0 <= Beneficiary(source, shares) <= source
  {
    TotalBpsAtLeast(shares);
    MulLe(source, 0, TotalBps(shares));
    MulLe(source, TotalBps(shares), BPS);
  }

  // The beneficiaries together get the integer nearest to their basis points of the source.
  lemma BeneficiariesGetTheNearest(source: int, shares: seq<ShareSpec>)
    requires Split(source, shares).Ok?
    ensures Nearest(source - Split(source, shares).value.platform, source * TotalBps(shares), 10000)
  {
    BeneficiaryBounds(source, shares);
  }

  // Through both roundings each share is within 3/2 of a unit of source * bps / 10 000.
  lemma WithinThreeHalves(source: int, shares: seq<ShareSpec>, i: nat)
    requires 0 <= source && ValidShares(shares) && i < |shares|
    ensures var x := Split(source, shares).value.shares[i];
            -3 * BPS < 2 * (x * BPS - source * shares[i].bps) < 3 * BPS
  {
    BeneficiaryBounds(source, shares);
    TotalBpsAtLeast(shares);
    var t, base, b := Beneficiary(source, shares), TotalBps(shares), shares[i].bps;
    var x := Split(source, shares).value.shares[i];
    WithinOneUnit(t, shares, i);
    BpsAtMostTotal(shares, i);
    ThreeHalves(source, t, base, b, x);
  }

  lemma {:induction false} BpsAtMostTotal(shares: seq<ShareSpec>, i: nat)
    requires i < |shares| && forall j :: 0 <= j < |shares| ==> 0 < shares[j].bps
    ensures shares[i].bps <= TotalBps(shares)
  {
    var n := |shares| - 1;
    TotalBpsAtLeast(shares[..n]);
    if i < n { BpsAtMostTotal(shares[..n], i); }
  }

  // |x - t*b/base| < 1 and |t - s*base/BPS| <= 1/2 give |x - s*b/BPS| < 3/2 when b <= base.
  lemma ThreeHalves(s: int, t: int, base: int, b: int, x: int)
    requires 0 < b <= base
    requires -base < x * base - t * b < base
    requires -BPS <= 2 * (BPS * t - s * base) <= BPS
    ensures -3 * BPS < 2 * (x * BPS - s * b) < 3 * BPS
  {
    var u, v, w := x * base - t * b, 2 * (BPS * t - s * base), 2 * (x * BPS - s * b);
    BothRoundings(s, t, base, b, x);
    MulLeRight(v, BPS, b);
    MulLeRight(-BPS, v, b);
    assert -3 * BPS * base < w * base < 3 * BPS * base;
    StrictFactor(w, 3 * BPS, base);
    StrictFactor(-3 * BPS, w, base);
  }

  lemma BothRoundings(s: int, t: int, base: int, b: int, x: int)
    ensures 2 * (x * BPS - s * b) * base == 2 * BPS * (x * base - t * b) + 2 * (BPS * t - s * base) * b
  {
    assert (x * BPS) * base == BPS * (x * base);
    assert (s * b) * base == (s * base) * b;
    assert (BPS * t) * b == BPS * (t * b);
  }

  lemma StrictFactor(a: int, b: int, base: int)
    requires 0 < base && a * base < b * base
    ensures a < b
  {
  }

  lemma LargerQuotient(t: int, bi: int, bj: int, base: int)
    requires 0 <= t && 0 < base && bj < bi
    ensures Quotient(t, bj, base) <= Quotient(t, bi, base)
    ensures Quotient(t, bj, base) == Quotient(t, bi, base) && Remainder(t, bi, base) <= Remainder(t, bj, base)
            ==> Remainder(t, bj, base) == 0
  {
    var qi, qj, ri, rj := Quotient(t, bi, base), Quotient(t, bj, base), Remainder(t, bi, base), Remainder(t, bj, base);
    QuotientAndRemainder(t, bi, base);
    QuotientAndRemainder(t, bj, base);
    MulLe(t, bj, bi);
    Distribute(base, qi, 1);
    StrictFactor(qj, qi + 1, base);
    if qj == qi && ri <= rj {
      Distribute(t, bj, bi - bj);
      ZeroFactor(t, bi - bj);
      assert t * bj == 0;
    }
  }

  // A strictly larger share never receives less.
  lemma LargerShareNeverLess(source: int, shares: seq<ShareSpec>, i: nat, j: nat)
    requires 0 <= source && ValidShares(shares) && i < |shares| && j < |shares|
    requires shares[i].bps > shares[j].bps
    ensures Split(source, shares).value.shares[i] >= Split(source, shares).value.shares[j]
  {
    BeneficiaryBounds(source, shares);
    var t := Beneficiary(source, shares);
    LeftoverBounds(t, shares);
    LargerQuotient(t, shares[i].bps, shares[j].bps, TotalBps(shares));
    if j in Chosen(t, shares) && i !in Chosen(t, shares) {
      ChosenHaveLargestRemainders(t, shares, j, i);
      ChosenHaveRemainder(t, shares, j);
    }
  }

  // Of two equal shares the one of the smaller party id never receives less.
  lemma EqualShareOfSmallerId(source: int, shares: seq<ShareSpec>, i: nat, j: nat)
    requires 0 <= source && ValidShares(shares) && i < |shares| && j < |shares|
    requires shares[i].bps == shares[j].bps && shares[i].party < shares[j].party
    ensures Split(source, shares).value.shares[i] >= Split(source, shares).value.shares[j]
  {
    BeneficiaryBounds(source, shares);
    var t := Beneficiary(source, shares);
    LeftoverBounds(t, shares);
    AllocatedAmount(t, shares, i);
    AllocatedAmount(t, shares, j);
    if j in Chosen(t, shares) && i !in Chosen(t, shares) { ChosenHaveLargestRemainders(t, shares, j, i); }
  }

  lemma ZeroFactor(t: int, d: int)
    requires 0 < d && t * d == 0
    ensures t == 0
  {
  }
}
