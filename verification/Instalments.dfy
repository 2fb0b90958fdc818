// The instalment chain of one agreement: activations, one dunning ladder per instalment, and the
// merchant's cancellations, interleaved step by step. What reads the status first and writes it later
// is two steps, and any number of activations and cancellations can be between theirs.
module Instalments {
  import opened Prelude

  // ---------------------------------------------------------------------------
  // The dunning ladder
  // ---------------------------------------------------------------------------

  datatype LadderEnd = Succeeded(attempt: nat) | Skipped(attempt: nat) | Exhausted

  function UpTo(k: nat): seq<nat> {
    seq(k, i => i + 1)
  }

  // No attempt of the first k succeeded and no check before attempts 2..k stopped the ladder.
  predicate StillClimbing(succeeds: seq<bool>, stops: seq<bool>, k: nat)
    requires k <= |succeeds| == |stops|
  {
    (forall i :: 0 <= i < k ==> !succeeds[i]) && (forall i :: 1 <= i < k ==> !stops[i])
  }

  // `k` is the index of the first success, or the length when there is none.
  predicate FirstAt(succeeds: seq<bool>, k: nat) {
    k <= |succeeds| && (k < |succeeds| ==> succeeds[k]) && forall i :: 0 <= i < k ==> !succeeds[i]
  }

  // `succeeds[n - 1]` answers attempt n and `stops[n - 1]` the check before it. The attempts made are
  // 1..k without gaps, there is exactly one end, and every failed attempt but the very last one is
  // reported.
  method RunDunningLadder(maxAttempts: nat, succeeds: seq<bool>, stops: seq<bool>)
    returns (attempts: seq<nat>, failures: seq<nat>, end: LadderEnd)
    requires |succeeds| == |stops| == maxAttempts
    ensures attempts == UpTo(|attempts|) && |attempts| <= maxAttempts
    ensures end.Succeeded? ==>
              && 1 <= end.attempt == |attempts| && succeeds[end.attempt - 1]
              && StillClimbing(succeeds, stops, end.attempt - 1)
              && (end.attempt > 1 ==> !stops[end.attempt - 1])
              && failures == UpTo(end.attempt - 1)
    ensures end.Skipped? ==>
              && 2 <= end.attempt == |attempts| + 1 <= maxAttempts && stops[end.attempt - 1]
              && StillClimbing(succeeds, stops, end.attempt - 1)
              && failures == UpTo(end.attempt - 1)
    ensures end.Exhausted? ==>
              && |attempts| == maxAttempts && StillClimbing(succeeds, stops, maxAttempts)
              && failures == UpTo(if maxAttempts == 0 then 0 else maxAttempts - 1)
    ensures (forall i :: 1 <= i < maxAttempts ==> !stops[i]) ==>
              forall k: nat :: FirstAt(succeeds, k) ==>
                && end == (if k < maxAttempts then Succeeded(k + 1) else Exhausted)
                && |attempts| == if k < maxAttempts then k + 1 else maxAttempts
  {
    attempts, failures := [], [];
    for n := 1 to maxAttempts + 1
      invariant attempts == UpTo(n - 1)
      invariant failures == UpTo(if n <= maxAttempts then n - 1 else if maxAttempts == 0 then 0 else maxAttempts - 1)
      invariant StillClimbing(succeeds, stops, n - 1)
      invariant 1 < n <= maxAttempts ==> !stops[n - 1]
    {
      attempts := attempts + [n];
      if succeeds[n - 1] { return attempts, failures, Succeeded(n); }
      if n < maxAttempts {
        failures := failures + [n];
        if stops[n] { return attempts, failures, Skipped(n + 1); }
      }
    }
    end := Exhausted;
  }

  // ---------------------------------------------------------------------------
  // The chain as a state machine
  // ---------------------------------------------------------------------------

  const MAX_ATTEMPTS: nat := 4

  datatype Status = PENDING_CHECKOUT | ACTIVE | COMPLETED | DEFAULTED | CANCELLED

  datatype Charge = Charge(charged: bool, attempt: nat)

  // How the chain ended: everything paid, an instalment given up, or a job that found the agreement over.
  datatype Ending = PaidOff | GivenUp | Stopped

  // What is outstanding: a charge event in the queue; a ladder about to attempt, in a charge whose
  // status check has passed, or asleep before its next attempt; a success to book, or in a booking that
  // has seen the paid count and not yet written it; a default to book.
  datatype Phase =
    | Idle
    | Due(number: nat)
    | Trying(number: nat, attempt: nat)
    | Charging(number: nat, attempt: nat)
    | Waiting(number: nat, attempt: nat)
    | Paying(number: nat)
    | Booking(number: nat, seen: nat)
    | Giving(number: nat)
    | Ended(how: Ending)

  datatype Tried = Tried(attempt: nat, ok: bool)

  // `downs` counts the CHARGED rows of the down payment, `rows` are those of the later instalments.
  // In flight are `starts` activations and `cancels` cancellations that have read the status and not
  // yet written it, and `finishes` activations of a single instalment that have yet to complete it.
  // As history, `tries` holds every attempt and `booked` is the number of instalments ever booked.
  datatype Chain = Chain(status: Status, total: nat, paid: nat, downs: nat, rows: map<nat, Charge>, phase: Phase,
                         starts: nat, finishes: nat, cancels: nat, tries: map<nat, seq<Tried>>, booked: nat)

  datatype Event =
    | BeginActivate | WriteActivate | FinishActivate
    | Deliver | Ask(connected: bool) | Answer(charged: bool) | Check | ReadCount | Pay | MarkDefaulted
    | BeginCancel | WriteCancel

  predicate Terminal(s: Status) {
    s == COMPLETED || s == DEFAULTED || s == CANCELLED
  }

  predicate Cancellable(s: Status) {
    s == ACTIVE || s == PENDING_CHECKOUT
  }

  function TriesOf(tries: map<nat, seq<Tried>>, n: nat): seq<Tried> {
    if n in tries then tries[n] else []
  }

  function Opened(total: nat): Chain {
    Chain(PENDING_CHECKOUT, total, 0, 0, map[], Idle, 0, 0, 0, map[], 0)
  }

  // An activation's transaction. The charge event of instalment 2 has a fixed id, so only the first
  // activation's is delivered.
  function Activated(a: Chain): Chain
    requires a.starts > 0
  {
    var down := a.(status := ACTIVE, paid := 1, downs := a.downs + 1, starts := a.starts - 1,
                   booked := if a.downs == 0 then a.booked + 1 else a.booked);
    if a.total <= 1 then down.(finishes := a.finishes + 1)
    else if a.downs == 0 then down.(phase := Due(2))
    else down
  }

  function Failed(a: Chain, n: nat, k: nat): Chain {
    a.(tries := a.tries[n := TriesOf(a.tries, n) + [Tried(k, false)]],
       phase := if k < MAX_ATTEMPTS then Waiting(n, k + 1) else Giving(n))
  }

  function Answered(a: Chain, n: nat, k: nat, charged: bool): Chain {
    var told := a.(rows := a.rows[n := Charge(charged, k)]);
    if charged then told.(tries := a.tries[n := TriesOf(a.tries, n) + [Tried(k, true)]], phase := Paying(n))
    else Failed(told, n, k)
  }

  // A booking writes one more than it has seen, whatever the count has become.
  function Paid(a: Chain, n: nat, seen: nat): Chain {
    var told := a.(paid := seen + 1, booked := a.booked + 1);
    if seen + 1 >= a.total then told.(status := COMPLETED, phase := Ended(PaidOff))
    else told.(phase := Due(n + 1))
  }

  // An event that cannot happen next does nothing.
  function Next(a: Chain, e: Event): Chain {
    match (a.phase, e)
    case (_, BeginActivate) => if a.status == PENDING_CHECKOUT then a.(starts := a.starts + 1) else a
    case (_, WriteActivate) => if a.starts > 0 then Activated(a) else a
    case (_, FinishActivate) =>
      if a.finishes > 0 then a.(finishes := a.finishes - 1, status := COMPLETED, phase := Ended(PaidOff)) else a
    case (_, BeginCancel) => if Cancellable(a.status) then a.(cancels := a.cancels + 1) else a
    case (_, WriteCancel) => if a.cancels > 0 then a.(cancels := a.cancels - 1, status := CANCELLED) else a
    case (Due(n), Deliver) => a.(phase := if Terminal(a.status) then Ended(Stopped) else Trying(n, 1))
    case (Trying(n, k), Ask(connected)) =>
      if Terminal(a.status) || !connected then Failed(a, n, k) else a.(phase := Charging(n, k))
    case (Charging(n, k), Answer(charged)) => Answered(a, n, k, charged)
    case (Waiting(n, k), Check) => a.(phase := if a.status == CANCELLED then Ended(Stopped) else Trying(n, k))
    case (Paying(n), ReadCount) => a.(phase := Booking(n, a.paid))
    case (Booking(n, seen), Pay) => Paid(a, n, seen)
    case (Giving(n), MarkDefaulted) => a.(status := DEFAULTED, phase := Ended(GivenUp))
    case _ => a
  }

  function Run(a: Chain, events: seq<Event>): Chain {
    if events == [] then a else Next(Run(a, events[..|events| - 1]), events[|events| - 1])
  }

  // ---------------------------------------------------------------------------
  // What every run keeps
  // ---------------------------------------------------------------------------

  // Attempts 1, 2, 3, … in order, at most the maximum.
  predicate Contiguous(t: seq<Tried>) {
    |t| <= MAX_ATTEMPTS && forall i :: 0 <= i < |t| ==> t[i].attempt == i + 1
  }

  predicate AllFailed(t: seq<Tried>) {
    Contiguous(t) && forall i :: 0 <= i < |t| ==> !t[i].ok
  }

  predicate SucceededLast(t: seq<Tried>) {
    t != [] && Contiguous(t) && t[|t| - 1].ok && forall i :: 0 <= i < |t| - 1 ==> !t[i].ok
  }

  predicate FailedForGood(t: seq<Tried>) {
    AllFailed(t) && |t| == MAX_ATTEMPTS
  }

  function Unbooked(a: Chain): nat {
    if a.phase.Paying? || a.phase.Booking? then 1 else 0
  }

  // What the tries of the next instalment look like in each phase.
  predicate LadderAt(phase: Phase, next: nat, t: seq<Tried>) {
    match phase
    case Idle => t == []
    case Due(n) => n == next && t == []
    case Trying(n, k) => n == next && 1 <= k <= MAX_ATTEMPTS && AllFailed(t) && |t| == k - 1
    case Charging(n, k) => n == next && 1 <= k <= MAX_ATTEMPTS && AllFailed(t) && |t| == k - 1
    case Waiting(n, k) => n == next && 1 < k <= MAX_ATTEMPTS && AllFailed(t) && |t| == k - 1
    case Paying(n) => n == next && SucceededLast(t)
    case Booking(n, _) => n == next && SucceededLast(t)
    case Giving(n) => n == next && FailedForGood(t)
    case Ended(how) => AllFailed(t) && (how == GivenUp <==> FailedForGood(t))
  }

  predicate RowAt(a: Chain, n: nat) {
    (n in a.rows && a.rows[n].charged) <==> 2 <= n <= a.booked + Unbooked(a)
  }

  predicate TriesAt(a: Chain, n: nat) {
    if 2 <= n <= a.booked then SucceededLast(TriesOf(a.tries, n))
    else if n == a.booked + 1 then LadderAt(a.phase, n, TriesOf(a.tries, n))
    else TriesOf(a.tries, n) == []
  }

  // The instalments from the second on that are CHARGED, and whose ladders have succeeded, are those
  // booked and the one success not yet booked; the next one's ladder is as its phase says.
  ghost predicate LaddersInv(a: Chain) {
    && (forall n: nat :: RowAt(a, n))
    && (forall n: nat :: TriesAt(a, n))
    && LadderAt(a.phase, a.booked + 1, TriesOf(a.tries, a.booked + 1))
  }

  // Before the first activation nothing has happened; afterwards the paid count is within the term and
  // short of it while a ladder is outstanding. COMPLETED and DEFAULTED are only ever the chain's end.
  predicate StatusInv(a: Chain) {
    && 1 <= a.total
    && (a.status == PENDING_CHECKOUT ==> a.downs == 0)
    && (a.downs == 0 ==> Cancellable(a.status) || a.status == CANCELLED)
    && (a.downs == 0 ==> a.status != ACTIVE && a.phase == Idle && a.paid == a.booked == a.finishes == 0)
    && (a.downs > 0 ==> 1 <= a.paid <= a.total && a.paid <= a.booked && (a.phase == Idle ==> a.finishes > 0))
    && (a.phase != Idle && !a.phase.Ended? ==> a.paid < a.total)
    && (a.phase.Booking? ==> 1 <= a.phase.seen < a.total && a.phase.seen <= a.booked)
    && (a.finishes > 0 ==> a.total == 1) && (a.total == 1 ==> a.phase == Idle || a.phase == Ended(PaidOff))
    && (a.status == COMPLETED ==> a.phase == Ended(PaidOff))
    && (a.status == DEFAULTED ==> a.phase == Ended(GivenUp))
    && (a.phase == Ended(PaidOff) ==> a.total <= a.booked)
  }

  ghost predicate ChainInv(a: Chain) {
    LaddersInv(a) && StatusInv(a)
  }

  lemma StatusStep(a: Chain, e: Event)
    requires StatusInv(a)
    ensures StatusInv(Next(a, e))
  {
  }

  lemma OneMoreTry(t: seq<Tried>, ok: bool)
    requires AllFailed(t) && |t| < MAX_ATTEMPTS
    ensures var t' := t + [Tried(|t| + 1, ok)];
            if ok then SucceededLast(t') else AllFailed(t')
  {
  }

  lemma AnotherTry(a: Chain, n: nat, k: nat, charged: bool)
    ensures TriesOf(Failed(a, n, k).tries, n) == TriesOf(a.tries, n) + [Tried(k, false)]
    ensures TriesOf(Answered(a, n, k, charged).tries, n) == TriesOf(a.tries, n) + [Tried(k, charged)]
  {
  }

  lemma OtherTries(a: Chain, n: nat, k: nat, charged: bool, m: nat)
    requires m != n
    ensures TriesOf(Failed(a, n, k).tries, m) == TriesOf(Answered(a, n, k, charged).tries, m) == TriesOf(a.tries, m)
  {
  }

  lemma FailureKeepsLadders(a: Chain)
    requires LaddersInv(a) && a.phase.Trying?
    ensures LaddersInv(Failed(a, a.phase.number, a.phase.attempt))
  {
    var n, k := a.phase.number, a.phase.attempt;
    var b := Failed(a, n, k);
    AnotherTry(a, n, k, false);
    OneMoreTry(TriesOf(a.tries, n), false);
    forall m: nat
      ensures RowAt(b, m) && TriesAt(b, m)
    {
      assert RowAt(a, m) && TriesAt(a, m);
      if m != n { OtherTries(a, n, k, false, m); }
    }
  }

  lemma AskKeepsLadders(a: Chain, connected: bool)
    requires LaddersInv(a) && a.phase.Trying?
    ensures LaddersInv(Next(a, Ask(connected)))
  {
    if Terminal(a.status) || !connected {
      FailureKeepsLadders(a);
    } else {
      QuietStepKeepsLadders(a, Next(a, Ask(connected)));
    }
  }

  lemma AnswerKeepsLadders(a: Chain, charged: bool)
    requires LaddersInv(a) && a.phase.Charging? && 1 <= a.booked
    ensures LaddersInv(Answered(a, a.phase.number, a.phase.attempt, charged))
  {
    var n, k := a.phase.number, a.phase.attempt;
    var b := Answered(a, n, k, charged);
    AnotherTry(a, n, k, charged);
    OneMoreTry(TriesOf(a.tries, n), charged);
    forall m: nat
      ensures RowAt(b, m) && TriesAt(b, m)
    {
      assert RowAt(a, m) && TriesAt(a, m);
      if m != n { OtherTries(a, n, k, charged, m); }
    }
  }

  lemma PayKeepsLadders(a: Chain)
    requires LaddersInv(a) && a.phase.Booking? && 1 <= a.booked
    ensures LaddersInv(Paid(a, a.phase.number, a.phase.seen))
  {
    var b := Paid(a, a.phase.number, a.phase.seen);
    assert TriesAt(a, a.booked + 2);
    forall m: nat
      ensures RowAt(b, m) && TriesAt(b, m)
    {
      assert RowAt(a, m) && TriesAt(a, m);
    }
  }

  lemma ActivationKeepsLadders(a: Chain)
    requires ChainInv(a) && a.starts > 0
    ensures LaddersInv(Activated(a))
  {
    var b := Activated(a);
    assert TriesAt(a, 1) && TriesAt(a, 2);
    forall m: nat
      ensures RowAt(b, m) && TriesAt(b, m)
    {
      assert RowAt(a, m) && TriesAt(a, m);
    }
  }

  // A step that leaves the rows, the tries and the count alone need only keep the next ladder.
  lemma QuietStepKeepsLadders(a: Chain, b: Chain)
    requires LaddersInv(a) && b.rows == a.rows && b.tries == a.tries && b.booked == a.booked
             && Unbooked(b) == Unbooked(a)
    requires LadderAt(b.phase, b.booked + 1, TriesOf(b.tries, b.booked + 1))
    ensures LaddersInv(b)
  {
    forall m: nat
      ensures RowAt(b, m) && TriesAt(b, m)
    {
      assert RowAt(a, m) && TriesAt(a, m);
    }
  }

  lemma QuietStepKeepsNextLadder(a: Chain, e: Event)
    requires StatusInv(a)
             && e in {BeginActivate, FinishActivate, BeginCancel, WriteCancel, Deliver, Check, ReadCount, MarkDefaulted}
    requires LadderAt(a.phase, a.booked + 1, TriesOf(a.tries, a.booked + 1))
    ensures var b := Next(a, e);
            && b.rows == a.rows && b.tries == a.tries && b.booked == a.booked && Unbooked(b) == Unbooked(a)
            && LadderAt(b.phase, b.booked + 1, TriesOf(b.tries, b.booked + 1))
  {
  }

  lemma NextKeepsLadders(a: Chain, e: Event)
    requires ChainInv(a)
    ensures LaddersInv(Next(a, e))
  {
    if e.WriteActivate? || e.Ask? || e.Answer? || e.Pay? {
      WorkKeepsLadders(a, e);
    } else {
      QuietStepKeepsNextLadder(a, e);
      QuietStepKeepsLadders(a, Next(a, e));
    }
  }

  // The steps that write rows, tries or the count.
  lemma WorkKeepsLadders(a: Chain, e: Event)
    requires ChainInv(a) && (e.WriteActivate? || e.Ask? || e.Answer? || e.Pay?)
    ensures LaddersInv(Next(a, e))
  {
    match e
    case WriteActivate => if a.starts > 0 { ActivationKeepsLadders(a); }
    case Ask(connected) => if a.phase.Trying? { AskKeepsLadders(a, connected); }
    case Answer(charged) => if a.phase.Charging? { AnswerKeepsLadders(a, charged); }
    case Pay => if a.phase.Booking? { PayKeepsLadders(a); }
  }

  lemma NextKeepsChain(a: Chain, e: Event)
    requires ChainInv(a)
    ensures ChainInv(Next(a, e))
  {
    StatusStep(a, e);
    NextKeepsLadders(a, e);
  }

  lemma OpenedKeepsChain(total: nat)
    requires 1 <= total
    ensures ChainInv(Opened(total))
  {
    var a := Opened(total);
    forall n: nat
      ensures RowAt(a, n) && TriesAt(a, n)
    {
    }
  }

  lemma NextKeepsTotal(a: Chain, e: Event)
    ensures Next(a, e).total == a.total
  {
  }

  lemma {:induction false} RunKeepsChain(total: nat, events: seq<Event>)
    requires 1 <= total
    ensures ChainInv(Run(Opened(total), events))
    ensures Run(Opened(total), events).total == total
  {
    if events == [] {
      OpenedKeepsChain(total);
    } else {
      RunKeepsChain(total, events[..|events| - 1]);
      NextKeepsChain(Run(Opened(total), events[..|events| - 1]), events[|events| - 1]);
      NextKeepsTotal(Run(Opened(total), events[..|events| - 1]), events[|events| - 1]);
    }
  }

  // ---------------------------------------------------------------------------
  // Counting
  // ---------------------------------------------------------------------------

  // The instalments the customer has paid, by the rows of the charge table.
  function Collected(a: Chain): set<nat> {
    (if a.downs > 0 then {1} else {}) + set n | n in a.rows && a.rows[n].charged
  }

  function OneTo(k: nat): (s: set<nat>)
    ensures forall n: nat :: n in s <==> 1 <= n <= k
    ensures |s| == k
  {
    if k == 0 then {} else OneTo(k - 1) + {k}
  }

  // Over every interleaving: the instalments collected are the first so many, those booked and one
  // success not yet booked; the paid count never exceeds them or the term; what is outstanding is always
  // the next instalment; and every ladder's attempts are 1, 2, … without gaps, at most four, only the last of
  // which can have succeeded.
  lemma ChainAlwaysCounts(total: nat, events: seq<Event>)
    requires 1 <= total
    ensures var a := Run(Opened(total), events);
            && Collected(a) == OneTo(|Collected(a)|)
            && |Collected(a)| == a.booked + Unbooked(a)
            && a.paid <= a.booked && a.paid <= total
            && (a.phase != Idle && !a.phase.Ended? ==> a.phase.number == a.booked + 1)
            && (forall n: nat :: AllFailed(TriesOf(a.tries, n)) || SucceededLast(TriesOf(a.tries, n)))
  {
    RunKeepsChain(total, events);
    CollectedOneToBooked(Run(Opened(total), events));
    forall n: nat { TriesAreOrdered(Run(Opened(total), events), n); }
  }

  lemma CollectedOneToBooked(a: Chain)
    requires ChainInv(a)
    ensures Collected(a) == OneTo(a.booked + Unbooked(a))
  {
    forall n: nat
      ensures n in Collected(a) <==> 1 <= n <= a.booked + Unbooked(a)
    {
      assert RowAt(a, n);
    }
  }

  lemma TriesAreOrdered(a: Chain, n: nat)
    requires LaddersInv(a)
    ensures AllFailed(TriesOf(a.tries, n)) || SucceededLast(TriesOf(a.tries, n))
    ensures FailedForGood(TriesOf(a.tries, n)) ==> n == a.booked + 1
  {
    assert TriesAt(a, n);
  }

  // The chain has ended by giving up exactly when some instalment has failed all its attempts and the
  // default is booked; it is DEFAULTED only then, and COMPLETED only once all instalments are booked.
  lemma DefaultedExactlyWhen(total: nat, events: seq<Event>)
    requires 1 <= total
    ensures var a := Run(Opened(total), events);
            && (a.phase == Ended(GivenUp) <==> !a.phase.Giving? && exists n: nat :: FailedForGood(TriesOf(a.tries, n)))
            && (a.status == DEFAULTED ==> a.phase == Ended(GivenUp))
            && (a.status == COMPLETED ==> a.phase == Ended(PaidOff) && total <= |Collected(a)|)
  {
    RunKeepsChain(total, events);
    CollectedOneToBooked(Run(Opened(total), events));
    GivenUpExactlyWhen(Run(Opened(total), events));
  }

  lemma GivenUpExactlyWhen(a: Chain)
    requires LaddersInv(a)
    ensures a.phase == Ended(GivenUp) <==> !a.phase.Giving? && exists n: nat :: FailedForGood(TriesOf(a.tries, n))
  {
    if n: nat :| FailedForGood(TriesOf(a.tries, n)) {
      TriesAreOrdered(a, n);
    } else {
      assert !FailedForGood(TriesOf(a.tries, a.booked + 1));
    }
  }

  // An activation writes after a second instalment has been booked.
  predicate WritesLate(a: Chain, e: Event) {
    e == WriteActivate && a.starts > 0 && a.booked > 1
  }

  // The events up to where the outstanding booking reads the count.
  function UpToRead(a: Chain, events: seq<Event>): (r: seq<Event>)
    requires !a.phase.Booking? && Run(a, events).phase.Booking?
    ensures |r| < |events|
  {
    var before := events[..|events| - 1];
    if Run(a, before).phase.Booking? then UpToRead(a, before) else before
  }

  // A late write stands until a booking that has read the count before it is written: that one puts the
  // count back to what it was at its read.
  predicate LateWriteStands(a: Chain, events: seq<Event>)
    requires !a.phase.Booking?
    decreases |events|
  {
    events != []
    && var before, e := events[..|events| - 1], events[|events| - 1];
       WritesLate(Run(a, before), e)
       || LateWriteStands(a, if e == Pay && Run(a, before).phase.Booking? then UpToRead(a, before) else before)
  }

  // Between its read and its write a booking has seen the count of its read, and nothing is booked.
  lemma {:induction false} CountAtRead(total: nat, events: seq<Event>)
    requires 1 <= total && Run(Opened(total), events).phase.Booking?
    ensures var b, r := Run(Opened(total), events), Run(Opened(total), UpToRead(Opened(total), events));
            b.phase.seen == r.paid && b.booked == r.booked
  {
    var before := events[..|events| - 1];
    RunKeepsChain(total, before);
    ReadStep(Run(Opened(total), before), events[|events| - 1]);
    if Run(Opened(total), before).phase.Booking? { CountAtRead(total, before); }
  }

  lemma ReadStep(a: Chain, e: Event)
    requires StatusInv(a) && Next(a, e).phase.Booking?
    ensures Next(a, e).booked == a.booked
    ensures Next(a, e).phase.seen == if a.phase.Booking? then a.phase.seen else a.paid
  {
  }

  // What one step does to a count that is right or short.
  lemma ShortStep(a: Chain, e: Event)
    requires StatusInv(a)
    ensures var b := Next(a, e);
            b.paid < b.booked
            <==> WritesLate(a, e) || if e == Pay && a.phase.Booking? then a.phase.seen < a.booked else a.paid < a.booked
  {
  }

  lemma {:induction false} ShortExactlyWhen(total: nat, events: seq<Event>)
    requires 1 <= total
    ensures var a := Run(Opened(total), events);
            a.paid < a.booked <==> LateWriteStands(Opened(total), events)
    decreases |events|
  {
    var a := Opened(total);
    if events != [] {
      var before, e := events[..|events| - 1], events[|events| - 1];
      RunKeepsChain(total, before);
      ShortStep(Run(a, before), e);
      if e == Pay && Run(a, before).phase.Booking? {
        CountAtRead(total, before);
        ShortExactlyWhen(total, UpToRead(a, before));
      } else {
        ShortExactlyWhen(total, before);
      }
    }
  }

  // The paid count is the number of instalments collected, save a success not yet booked, exactly when
  // no late write stands.
  lemma PaidCountIsRightExactlyWhen(total: nat, events: seq<Event>)
    requires 1 <= total
    ensures var a := Run(Opened(total), events);
            |Collected(a)| == a.paid + Unbooked(a) <==> !LateWriteStands(Opened(total), events)
  {
    ChainAlwaysCounts(total, events);
    ShortExactlyWhen(total, events);
  }

  // ---------------------------------------------------------------------------
  // Activations one at a time
  // ---------------------------------------------------------------------------

  // No activation reads the status while another is between its read and its write.
  ghost predicate OneAtATime(total: nat, events: seq<Event>) {
    forall k :: 0 <= k < |events| && events[k] == BeginActivate ==> Run(Opened(total), events[..k]).starts == 0
  }

  predicate SerialInv(a: Chain) {
    && a.starts <= 1 && (a.starts == 1 ==> a.downs == 0) && a.downs <= 1
    && a.paid == a.booked && (a.phase.Booking? ==> a.phase.seen == a.paid)
    && (a.phase.Ended? ==> (a.phase.how == PaidOff <==> a.paid == a.total))
  }

  lemma SerialStep(a: Chain, e: Event)
    requires StatusInv(a) && SerialInv(a) && (e == BeginActivate ==> a.starts == 0)
    ensures SerialInv(Next(a, e))
  {
  }

  lemma {:induction false} RunKeepsSerial(total: nat, events: seq<Event>)
    requires 1 <= total && OneAtATime(total, events)
    ensures SerialInv(Run(Opened(total), events))
  {
    if events != [] {
      var n := |events| - 1;
      PrefixOneAtATime(total, events, n);
      RunKeepsSerial(total, events[..n]);
      RunKeepsChain(total, events[..n]);
      SerialStep(Run(Opened(total), events[..n]), events[n]);
    }
  }

  lemma PrefixOneAtATime(total: nat, events: seq<Event>, n: nat)
    requires n <= |events| && OneAtATime(total, events)
    ensures OneAtATime(total, events[..n])
  {
    forall k | 0 <= k < n && events[..n][k] == BeginActivate
      ensures Run(Opened(total), events[..n][..k]).starts == 0
    {
      assert events[..n][..k] == events[..k];
    }
  }

  // With activations one at a time nothing is lost from the count: the rows collected are the paid
  // count and one success not yet booked, never more than the term, with one down payment; and a chain
  // that has ended is paid off exactly when the paid count is the term.
  lemma SerialChainCounts(total: nat, events: seq<Event>)
    requires 1 <= total && OneAtATime(total, events)
    ensures var a := Run(Opened(total), events);
            && |Collected(a)| == a.paid + Unbooked(a) <= total && a.downs <= 1
            && (a.phase.Ended? ==> (a.phase.how == PaidOff <==> a.paid == total))
  {
    ChainAlwaysCounts(total, events);
    RunKeepsChain(total, events);
    RunKeepsSerial(total, events);
  }

  predicate NeverCancelled(a: Chain) {
    && a.cancels == 0 && a.status != CANCELLED
    && (a.phase.Ended? ==>
          a.phase.how != Stopped && a.status == if a.phase.how == PaidOff then COMPLETED else DEFAULTED)
  }

  lemma NeverCancelledStep(a: Chain, e: Event)
    requires StatusInv(a) && SerialInv(a) && NeverCancelled(a) && e != BeginCancel
    ensures NeverCancelled(Next(a, e))
  {
  }

  lemma {:induction false} NobodyCancelled(total: nat, events: seq<Event>)
    requires 1 <= total && OneAtATime(total, events) && BeginCancel !in events
    ensures NeverCancelled(Run(Opened(total), events))
  {
    if events != [] {
      var n := |events| - 1;
      assert events[n] in events;
      PrefixOneAtATime(total, events, n);
      NobodyCancelled(total, events[..n]);
      RunKeepsChain(total, events[..n]);
      RunKeepsSerial(total, events[..n]);
      NeverCancelledStep(Run(Opened(total), events[..n]), events[n]);
    }
  }

  // Without a cancellation and with activations one at a time, an activated agreement with nothing
  // outstanding has ended, COMPLETED with everything paid or DEFAULTED short of it.
  lemma EndsPaidOrDefaulted(total: nat, events: seq<Event>)
    requires 1 <= total && OneAtATime(total, events) && BeginCancel !in events
    requires var a := Run(Opened(total), events);
             a.downs > 0 && a.finishes == 0 && (a.phase == Idle || a.phase.Ended?)
    ensures var a := Run(Opened(total), events);
            (a.status == COMPLETED && a.paid == total) || (a.status == DEFAULTED && a.paid < total)
  {
    RunKeepsChain(total, events);
    RunKeepsSerial(total, events);
    NobodyCancelled(total, events);
  }

  // ---------------------------------------------------------------------------
  // Which statuses are final
  // ---------------------------------------------------------------------------

  // The status never changes again, whatever happens.
  ghost predicate StatusIsFinal(a: Chain) {
    forall future: seq<Event> :: Run(a, future).status == a.status
  }

  // A completion or default stays exactly when no activation and no cancellation has read the status
  // before it and not yet written.
  lemma EndIsFinalExactlyWhen(total: nat, events: seq<Event>)
    requires 1 <= total
    requires var s := Run(Opened(total), events).status; s == COMPLETED || s == DEFAULTED
    ensures var a := Run(Opened(total), events);
            StatusIsFinal(a) <==> a.starts == 0 && a.cancels == 0
  {
    RunKeepsChain(total, events);
    var a := Run(Opened(total), events);
    RunOne(a, WriteActivate);
    RunOne(a, WriteCancel);
    if a.starts == 0 && a.cancels == 0 {
      forall future: seq<Event> { EndStays(a, future); }
    }
  }

  predicate SafeEnd(a: Chain, s: Status) {
    (s == COMPLETED || s == DEFAULTED) && a.status == s && a.starts == 0 && a.cancels == 0
  }

  lemma {:induction false} EndStays(a: Chain, future: seq<Event>)
    requires ChainInv(a) && SafeEnd(a, a.status)
    ensures ChainInv(Run(a, future)) && SafeEnd(Run(a, future), a.status)
  {
    if future != [] {
      EndStays(a, future[..|future| - 1]);
      NextKeepsChain(Run(a, future[..|future| - 1]), future[|future| - 1]);
    }
  }

  // A cancellation is on its way to being lost: an activation has read the status before it, or the
  // ladder is past its last check of the status with the last payment or the last failure to come.
  predicate CanBeLost(a: Chain) {
    || a.starts > 0 || a.finishes > 0
    || (a.phase.Trying? && a.phase.attempt == MAX_ATTEMPTS)
    || (a.phase.Charging? && (a.phase.attempt == MAX_ATTEMPTS || a.paid + 1 >= a.total))
    || (a.phase.Paying? && a.paid + 1 >= a.total)
    || (a.phase.Booking? && a.phase.seen + 1 >= a.total)
    || a.phase.Giving?
  }

  // A cancellation stays exactly when nothing of that kind is in flight.
  lemma CancellationIsLostExactlyWhen(total: nat, events: seq<Event>)
    requires 1 <= total && Run(Opened(total), events).status == CANCELLED
    ensures var a := Run(Opened(total), events);
            !StatusIsFinal(a) <==> CanBeLost(a)
  {
    RunKeepsChain(total, events);
    var a := Run(Opened(total), events);
    if CanBeLost(a) {
      var future := Loses(a);
      assert Run(a, future).status != a.status;
    } else {
      forall future: seq<Event> { CancellationStays(a, future); }
    }
  }

  lemma CancelledStep(a: Chain, e: Event)
    requires StatusInv(a) && a.status == CANCELLED && !CanBeLost(a)
    requires a.phase.Waiting? || a.phase.Trying? || a.phase.Charging? ==> a.phase.attempt <= MAX_ATTEMPTS
    ensures Next(a, e).status == CANCELLED && !CanBeLost(Next(a, e))
  {
  }

  lemma {:induction false} CancellationStays(a: Chain, future: seq<Event>)
    requires ChainInv(a) && a.status == CANCELLED && !CanBeLost(a)
    ensures var b := Run(a, future);
            ChainInv(b) && b.status == CANCELLED && !CanBeLost(b)
  {
    if future != [] {
      var b := Run(a, future[..|future| - 1]);
      CancellationStays(a, future[..|future| - 1]);
      NextKeepsChain(b, future[|future| - 1]);
      CancelledStep(b, future[|future| - 1]);
    }
  }

  function LosingStep(a: Chain): Event {
    if a.starts > 0 then WriteActivate
    else if a.finishes > 0 then FinishActivate
    else match a.phase
      case Trying(_, _) => Ask(true)
      case Charging(_, k) => Answer(k != MAX_ATTEMPTS)
      case Paying(_) => ReadCount
      case Booking(_, _) => Pay
      case _ => MarkDefaulted
  }

  // How many such steps are to come after the next one.
  function StepsToLoss(phase: Phase): nat {
    match phase
    case Trying(_, _) => 2
    case Charging(_, _) => 2
    case Paying(_) => 1
    case _ => 0
  }

  lemma LosingStepLoses(a: Chain)
    requires StatusInv(a) && a.status == CANCELLED && CanBeLost(a)
    ensures var b := Next(a, LosingStep(a));
            b.status != CANCELLED || (CanBeLost(b) && StepsToLoss(b.phase) < StepsToLoss(a.phase))
  {
  }

  // What loses it.
  lemma {:induction false} Loses(a: Chain) returns (future: seq<Event>)
    requires ChainInv(a) && a.status == CANCELLED && CanBeLost(a)
    ensures Run(a, future).status != CANCELLED
    decreases StepsToLoss(a.phase)
  {
    var e := LosingStep(a);
    LosingStepLoses(a);
    NextKeepsChain(a, e);
    RunOne(a, e);
    future := [e];
    if Next(a, e).status == CANCELLED {
      var rest := Loses(Next(a, e));
      RunConcat(a, [e], rest);
      future := [e] + rest;
    }
  }

  lemma RunSnoc(a: Chain, events: seq<Event>, n: nat)
    requires n < |events|
    ensures Run(a, events[..n + 1]) == Next(Run(a, events[..n]), events[n])
  {
    assert events[..n + 1][..n] == events[..n];
  }

  lemma RunOne(a: Chain, e: Event)
    ensures Run(a, [e]) == Next(a, e)
  {
    assert [e][..0] == [];
  }

  lemma RunTwo(a: Chain, e: Event, f: Event)
    ensures Run(a, [e, f]) == Next(Next(a, e), f)
  {
    RunOne(a, e);
    assert [e, f][..1] == [e];
  }

  lemma RunThree(a: Chain, e: Event, f: Event, g: Event)
    ensures Run(a, [e, f, g]) == Next(Next(Next(a, e), f), g)
  {
    assert [e, f, g] == [e, f] + [g];
    RunConcat(a, [e, f], [g]);
    RunTwo(a, e, f);
    RunOne(Run(a, [e, f]), g);
  }

  lemma {:induction false} RunConcat(a: Chain, x: seq<Event>, y: seq<Event>)
    ensures Run(a, x + y) == Run(Run(a, x), y)
  {
    if y == [] {
      assert x + y == x;
    } else {
      assert (x + y)[..|x + y| - 1] == x + y[..|y| - 1];
      RunConcat(a, x, y[..|y| - 1]);
    }
  }

  // ---------------------------------------------------------------------------
  // Interleavings that go wrong
  // ---------------------------------------------------------------------------

  // One charge event up to the provider's yes, and its booking.
  const CHARGE: seq<Event> := [Deliver, Ask(true), Answer(true)]
  const BOOK: seq<Event> := [ReadCount, Pay]

  lemma ChargeSucceeds(a: Chain, n: nat)
    requires a.phase == Due(n) && a.status == ACTIVE
    ensures var b := Run(a, CHARGE);
            b == a.(phase := Paying(n), rows := a.rows[n := Charge(true, 1)],
                    tries := a.tries[n := TriesOf(a.tries, n) + [Tried(1, true)]])
  {
    RunThree(a, Deliver, Ask(true), Answer(true));
    ChargingSteps(a, n);
  }

  lemma ChargingSteps(a: Chain, n: nat)
    requires a.phase == Due(n) && a.status == ACTIVE
    ensures Next(Next(Next(a, Deliver), Ask(true)), Answer(true))
            == a.(phase := Paying(n), rows := a.rows[n := Charge(true, 1)],
                  tries := a.tries[n := TriesOf(a.tries, n) + [Tried(1, true)]])
  {
  }

  lemma BookingSucceeds(a: Chain, n: nat)
    requires a.phase == Paying(n)
    ensures Run(a, BOOK) == Paid(a, n, a.paid)
  {
    RunTwo(a, ReadCount, Pay);
    BookingSteps(a, n);
  }

  lemma BookingSteps(a: Chain, n: nat)
    requires a.phase == Paying(n)
    ensures Next(Next(a, ReadCount), Pay) == Paid(a, n, a.paid)
  {
  }

  lemma Activates(total: nat)
    requires 2 <= total
    ensures Run(Opened(total), [BeginActivate, WriteActivate])
            == Opened(total).(status := ACTIVE, paid := 1, booked := 1, downs := 1, phase := Due(2))
  {
    RunTwo(Opened(total), BeginActivate, WriteActivate);
  }

  // Cancelled between the last charge and its booking, an agreement ends COMPLETED.
  lemma CancellationCanBeLost()
    ensures var t := [BeginActivate, WriteActivate] + CHARGE + [BeginCancel, WriteCancel];
            Run(Opened(2), t).status == CANCELLED && Run(Opened(2), t + BOOK).status == COMPLETED
  {
    var charged := PaysTheSecond();
    RunConcat(Opened(2), charged, [BeginCancel, WriteCancel]);
    RunTwo(Run(Opened(2), charged), BeginCancel, WriteCancel);
    RunConcat(Opened(2), charged + [BeginCancel, WriteCancel], BOOK);
    BookingSucceeds(Run(Opened(2), charged + [BeginCancel, WriteCancel]), 2);
  }

  lemma PaysTheSecond() returns (t: seq<Event>)
    ensures t == [BeginActivate, WriteActivate] + CHARGE
    ensures var a := Run(Opened(2), t);
            a.status == ACTIVE && a.paid == 1 && a.total == 2 && a.phase == Paying(2) && a.cancels == 0
  {
    t := [BeginActivate, WriteActivate] + CHARGE;
    Activates(2);
    RunConcat(Opened(2), [BeginActivate, WriteActivate], CHARGE);
    ChargeSucceeds(Run(Opened(2), [BeginActivate, WriteActivate]), 2);
  }

  // Booked between a cancellation's read and its write, the last payment leaves a paid-off agreement
  // CANCELLED.
  lemma CompletionCanBeLost()
    ensures var t := [BeginActivate, WriteActivate] + CHARGE + [BeginCancel] + BOOK;
            && Run(Opened(2), t).status == COMPLETED
            && Run(Opened(2), t + [WriteCancel]).status == CANCELLED && Run(Opened(2), t + [WriteCancel]).paid == 2
  {
    var charged := PaysTheSecond();
    RunConcat(Opened(2), charged, [BeginCancel]);
    RunOne(Run(Opened(2), charged), BeginCancel);
    RunConcat(Opened(2), charged + [BeginCancel], BOOK);
    BookingSucceeds(Run(Opened(2), charged + [BeginCancel]), 2);
    RunConcat(Opened(2), charged + [BeginCancel] + BOOK, [WriteCancel]);
    RunOne(Run(Opened(2), charged + [BeginCancel] + BOOK), WriteCancel);
  }

  // Two activations read the status and one writes; then instalment 2 of three is charged and booked.
  const TWO_ACTIVATE: seq<Event> := [BeginActivate, BeginActivate, WriteActivate]
  const SECOND_BOOKED: seq<Event> := TWO_ACTIVATE + CHARGE + BOOK

  lemma TwoActivate()
    ensures Run(Opened(3), TWO_ACTIVATE)
            == Opened(3).(status := ACTIVE, paid := 1, booked := 1, downs := 1, starts := 1, phase := Due(2))
  {
    RunThree(Opened(3), BeginActivate, BeginActivate, WriteActivate);
  }

  // The chain at instalment n of three, its paid count, and one more activation to write.
  predicate At(a: Chain, n: nat, paid: nat, starts: nat) {
    && a.status == ACTIVE && a.total == 3 && a.phase == Due(n) && a.paid == paid && a.starts == starts
    && a.finishes == a.cancels == 0 && a.downs > 0
  }

  lemma SecondIsBooked()
    ensures At(Run(Opened(3), SECOND_BOOKED), 3, 2, 1)
  {
    TwoActivate();
    RunConcat(Opened(3), TWO_ACTIVATE, CHARGE);
    ChargeSucceeds(Run(Opened(3), TWO_ACTIVATE), 2);
    RunConcat(Opened(3), TWO_ACTIVATE + CHARGE, BOOK);
    BookingSucceeds(Run(Opened(3), TWO_ACTIVATE + CHARGE), 2);
  }

  // The second activation writes after instalment 2 is booked: the paid count falls back to one, and a
  // fourth instalment of three is collected.
  lemma OverlappingActivationsOvercharge()
    ensures |Collected(Run(Opened(3), SECOND_BOOKED + [WriteActivate] + (CHARGE + BOOK) + CHARGE))| == 4
  {
    var t1 := SECOND_BOOKED + [WriteActivate];
    var t2 := t1 + (CHARGE + BOOK);
    SecondActivationResets();
    OneMoreIsBooked(Run(Opened(3), t1), 3);
    RunConcat(Opened(3), t1, CHARGE + BOOK);
    RunConcat(Opened(3), t2, CHARGE);
    ChargeSucceeds(Run(Opened(3), t2), 4);
    ChainAlwaysCounts(3, t2 + CHARGE);
  }

  lemma SecondActivationResets()
    ensures At(Run(Opened(3), SECOND_BOOKED + [WriteActivate]), 3, 1, 0)
  {
    SecondIsBooked();
    RunConcat(Opened(3), SECOND_BOOKED, [WriteActivate]);
    RunOne(Run(Opened(3), SECOND_BOOKED), WriteActivate);
  }

  lemma OneMoreIsBooked(a: Chain, n: nat)
    requires At(a, n, 1, 0)
    ensures At(Run(a, CHARGE + BOOK), n + 1, 2, 0)
  {
    RunConcat(a, CHARGE, BOOK);
    ChargeSucceeds(a, n);
    BookingSucceeds(Run(a, CHARGE), n);
  }

  // Instalment 3 is charged and its booking has read the count of 2; now the second activation writes
  // and the agreement is cancelled.
  const LATE_CANCEL: seq<Event> := SECOND_BOOKED + CHARGE + [ReadCount] + [WriteActivate, BeginCancel, WriteCancel]

  // The booking's write overwrites the cancellation and puts the paid count right again.
  lemma BookingOutlivesCancellation()
    ensures var a, b := Run(Opened(3), LATE_CANCEL), Run(Opened(3), LATE_CANCEL + [Pay]);
            && a.status == CANCELLED && a.starts == a.finishes == 0 && a.paid == 1
            && b.status == COMPLETED && b.paid == 3 == |Collected(b)|
  {
    CancelledWhileBooking();
    LastBookingWrites(LATE_CANCEL);
    ChainAlwaysCounts(3, LATE_CANCEL + [Pay]);
  }

  lemma LastBookingWrites(t: seq<Event>)
    requires Run(Opened(3), t).total == 3 && Run(Opened(3), t).phase == Booking(3, 2)
    ensures var b := Run(Opened(3), t + [Pay]);
            b.status == COMPLETED && b.paid == b.booked == 3 && b.phase.Ended?
  {
    ChainAlwaysCounts(3, t);
    RunConcat(Opened(3), t, [Pay]);
    RunOne(Run(Opened(3), t), Pay);
  }

  lemma CancelledWhileBooking()
    ensures var a := Run(Opened(3), LATE_CANCEL);
            && a.status == CANCELLED && a.starts == a.finishes == 0
            && a.paid == 1 && a.total == 3 && a.phase == Booking(3, 2)
  {
    var read := SECOND_BOOKED + CHARGE + [ReadCount];
    ThirdIsRead();
    RunConcat(Opened(3), read, [WriteActivate, BeginCancel, WriteCancel]);
    RunThree(Run(Opened(3), read), WriteActivate, BeginCancel, WriteCancel);
  }

  lemma ThirdIsRead()
    ensures var a := Run(Opened(3), SECOND_BOOKED + CHARGE + [ReadCount]);
            && a.status == ACTIVE && a.starts == 1 && a.finishes == a.cancels == 0 && a.total == 3 && a.downs > 0
            && a.phase == Booking(3, 2)
  {
    SecondIsBooked();
    RunConcat(Opened(3), SECOND_BOOKED, CHARGE);
    ChargeSucceeds(Run(Opened(3), SECOND_BOOKED), 3);
    RunConcat(Opened(3), SECOND_BOOKED + CHARGE, [ReadCount]);
    RunOne(Run(Opened(3), SECOND_BOOKED + CHARGE), ReadCount);
  }
}
