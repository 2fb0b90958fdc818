// What one delivered charge event comes to when nothing else touches the agreement, and what a whole
// agreement comes to when its jobs run one after the other.
module InstalmentJobs {
  import opened Prelude
  import opened Instalments

  // ---------------------------------------------------------------------------
  // The steps of a job
  // ---------------------------------------------------------------------------

  // Booking the success or the default, whichever there is.
  const CONCLUSION: seq<Event> := [ReadCount, Pay, MarkDefaulted]

  // The steps of one charge event; those that are not the chain's next step do nothing.
  function JobSteps(connected: seq<bool>, charged: seq<bool>): (steps: seq<Event>)
    requires |connected| == |charged| == MAX_ATTEMPTS
    ensures |steps| == 3 * MAX_ATTEMPTS + 4
  {
    [Deliver] + LadderSteps(connected, charged) + CONCLUSION
  }

  function LadderSteps(connected: seq<bool>, charged: seq<bool>): (steps: seq<Event>)
    requires |connected| == |charged|
    ensures |steps| == 3 * |charged|
    ensures forall k :: 0 <= k < |charged| ==>
              && steps[3 * k] == Ask(connected[k]) && steps[3 * k + 1] == Answer(charged[k])
              && steps[3 * k + 2] == Check
  {
    if charged == [] then []
    else
      var n := |charged| - 1;
      LadderSteps(connected[..n], charged[..n]) + Rung(connected[n], charged[n])
  }

  // One attempt and the check before the next.
  function Rung(connected: bool, charged: bool): seq<Event> {
    [Ask(connected), Answer(charged), Check]
  }

  // ---------------------------------------------------------------------------
  // Up to the first success
  // ---------------------------------------------------------------------------

  // Attempt by attempt: the provider is configured and says that the charge went through.
  function Landed(connected: seq<bool>, charged: seq<bool>): (r: seq<bool>)
    requires |connected| == |charged|
  {
    seq(|charged|, i requires 0 <= i < |charged| => connected[i] && charged[i])
  }

  // Attempts 1 to k, all failed.
  function Failures(k: nat): seq<Tried> {
    seq(k, (i: nat) => Tried(i + 1, false))
  }

  // A declined charge is written to the instalment's row; an attempt without a provider writes nothing.
  function Declined(rows: map<nat, Charge>, n: nat, connected: seq<bool>, k: nat): map<nat, Charge>
    requires k <= |connected|
  {
    if k == 0 then rows
    else if connected[k - 1] then rows[n := Charge(false, k)]
    else Declined(rows, n, connected, k - 1)
  }

  // Instalment `n` is due on an active agreement and has not been tried.
  predicate Ready(a: Chain, n: nat) {
    a.status == ACTIVE && a.phase == Due(n) && TriesOf(a.tries, n) == []
  }

  // The job after k failed attempts, with the next one to make or the default to book.
  function Failing(a: Chain, n: nat, connected: seq<bool>, k: nat): Chain
    requires k <= |connected|
  {
    a.(tries := if k == 0 then a.tries else a.tries[n := Failures(k)], rows := Declined(a.rows, n, connected, k),
       phase := if k < MAX_ATTEMPTS then Trying(n, k + 1) else Giving(n))
  }

  lemma MoreFailures(k: nat)
    ensures Failures(k + 1) == Failures(k) + [Tried(k + 1, false)]
  {
  }

  lemma FailingTries(a: Chain, n: nat, connected: seq<bool>, k: nat)
    requires Ready(a, n) && k <= |connected|
    ensures TriesOf(Failing(a, n, connected, k).tries, n) == Failures(k)
  {
  }

  // One failed attempt and the check after it.
  lemma FailedRung(a: Chain, n: nat, connected: seq<bool>, k: nat, charged: bool)
    requires Ready(a, n) && k < |connected| && k < MAX_ATTEMPTS && !(connected[k] && charged)
    ensures Run(Failing(a, n, connected, k), Rung(connected[k], charged)) == Failing(a, n, connected, k + 1)
  {
    RunThree(Failing(a, n, connected, k), Ask(connected[k]), Answer(charged), Check);
    FailingTries(a, n, connected, k);
    MoreFailures(k);
    assert Failing(a, n, connected, k).status == ACTIVE;
    var told := a.tries[n := Failures(k)];
    assert told[n := Failures(k + 1)] == a.tries[n := Failures(k + 1)];
    DeclinedOnce(a.rows, n, connected, k, Charge(false, k + 1));
  }

  lemma {:induction false} DeclinedOnce(rows: map<nat, Charge>, n: nat, connected: seq<bool>, k: nat, row: Charge)
    requires k <= |connected|
    ensures Declined(rows, n, connected, k)[n := row] == rows[n := row]
  {
    if k > 0 { DeclinedOnce(rows, n, connected, k - 1, row); }
  }

  // The ladder's first k + 1 rungs are its first k and one more.
  lemma OneMoreRung(a: Chain, connected: seq<bool>, charged: seq<bool>, k: nat)
    requires |connected| == |charged| && k < |charged|
    ensures Run(a, LadderSteps(connected[..k + 1], charged[..k + 1]))
            == Run(Run(a, LadderSteps(connected[..k], charged[..k])), Rung(connected[k], charged[k]))
  {
    assert connected[..k + 1][..k] == connected[..k] && charged[..k + 1][..k] == charged[..k];
    RunConcat(a, LadderSteps(connected[..k], charged[..k]), Rung(connected[k], charged[k]));
  }

  lemma {:induction false} FailsUpTo(a: Chain, n: nat, connected: seq<bool>, charged: seq<bool>, k: nat)
    requires k <= |connected| == |charged| <= MAX_ATTEMPTS
    requires Ready(a, n) && forall i :: 0 <= i < k ==> !Landed(connected, charged)[i]
    ensures Run(Next(a, Deliver), LadderSteps(connected[..k], charged[..k])) == Failing(a, n, connected, k)
  {
    if k > 0 {
      FailsUpTo(a, n, connected, charged, k - 1);
      assert !Landed(connected, charged)[k - 1];
      OneMoreRung(Next(a, Deliver), connected, charged, k - 1);
      FailedRung(a, n, connected, k - 1, charged[k - 1]);
    }
  }

  // Instalment `n` charged at the attempt after k failed ones, with its success still to book.
  function Lands(a: Chain, n: nat, k: nat): Chain {
    a.(tries := a.tries[n := Failures(k) + [Tried(k + 1, true)]], rows := a.rows[n := Charge(true, k + 1)],
       phase := Paying(n))
  }

  lemma LandedRung(a: Chain, n: nat, connected: seq<bool>, k: nat)
    requires Ready(a, n) && k < |connected| && k < MAX_ATTEMPTS && connected[k]
    ensures Run(Failing(a, n, connected, k), Rung(true, true)) == Lands(a, n, k)
  {
    RunThree(Failing(a, n, connected, k), Ask(true), Answer(true), Check);
    var c := Failing(a, n, connected, k);
    FailingTries(a, n, connected, k);
    DeclinedOnce(a.rows, n, connected, k, Charge(true, k + 1));
    var now := Failures(k) + [Tried(k + 1, true)];
    assert c.tries[n := now] == a.tries[n := now];
  }

  lemma LandsAt(a: Chain, n: nat, connected: seq<bool>, charged: seq<bool>, k: nat)
    requires k < |connected| == |charged| <= MAX_ATTEMPTS
    requires Ready(a, n) && FirstAt(Landed(connected, charged), k)
    ensures Run(Next(a, Deliver), LadderSteps(connected[..k + 1], charged[..k + 1])) == Lands(a, n, k)
  {
    assert Landed(connected, charged)[k];
    FailsUpTo(a, n, connected, charged, k);
    OneMoreRung(Next(a, Deliver), connected, charged, k);
    LandedRung(a, n, connected, k);
  }

  // What remains of the ladder leaves a success to book alone.
  lemma {:induction false} RestIsIdle(a: Chain, connected: seq<bool>, charged: seq<bool>, k: nat, m: nat, b: Chain)
    requires k <= m <= |connected| == |charged| && b.phase.Paying?
    requires Run(a, LadderSteps(connected[..k], charged[..k])) == b
    ensures Run(a, LadderSteps(connected[..m], charged[..m])) == b
  {
    if k < m {
      RestIsIdle(a, connected, charged, k, m - 1, b);
      IdleOneMore(a, connected, charged, m - 1, b);
    }
  }

  lemma IdleOneMore(a: Chain, connected: seq<bool>, charged: seq<bool>, k: nat, b: Chain)
    requires k < |connected| == |charged| && b.phase.Paying?
    requires Run(a, LadderSteps(connected[..k], charged[..k])) == b
    ensures Run(a, LadderSteps(connected[..k + 1], charged[..k + 1])) == b
  {
    OneMoreRung(a, connected, charged, k);
    IdleRung(b, connected[k], charged[k]);
  }

  lemma IdleRung(b: Chain, connected: bool, charged: bool)
    requires b.phase.Paying?
    ensures Run(b, Rung(connected, charged)) == b
  {
    RunThree(b, Ask(connected), Answer(charged), Check);
  }

  // A job is the delivery, the ladder and the conclusion.
  lemma JobIsItsLadder(a: Chain, connected: seq<bool>, charged: seq<bool>, b: Chain)
    requires |connected| == |charged| == MAX_ATTEMPTS
    requires b == Run(Next(a, Deliver), LadderSteps(connected[..|connected|], charged[..|charged|]))
    ensures Run(a, JobSteps(connected, charged)) == Run(b, CONCLUSION)
  {
    assert connected[..|connected|] == connected && charged[..|charged|] == charged;
    var ladder := LadderSteps(connected, charged);
    RunConcat(a, [Deliver] + ladder, CONCLUSION);
    RunConcat(a, [Deliver], ladder);
    RunOne(a, Deliver);
  }

  // ---------------------------------------------------------------------------
  // What a job comes to
  // ---------------------------------------------------------------------------

  // Instalment `n` paid at the attempt after k failed ones, and booked.
  function Collects(a: Chain, n: nat, k: nat): Chain {
    var over := a.paid + 1 >= a.total;
    a.(tries := a.tries[n := Failures(k) + [Tried(k + 1, true)]], rows := a.rows[n := Charge(true, k + 1)],
       paid := a.paid + 1, booked := a.booked + 1, status := if over then COMPLETED else ACTIVE,
       phase := if over then Ended(PaidOff) else Due(n + 1))
  }

  // The job's outcome over what its attempts meet: with a first success after k failures the attempts are
  // those and it, the row is CHARGED at it, one more instalment is booked, and the agreement is COMPLETED
  // at its total or has the next instalment due; without one there are four failures, the row is that of
  // the last attempt that reached the provider, and the agreement is DEFAULTED.
  ghost predicate JobOutcome(a: Chain, n: nat, connected: seq<bool>, charged: seq<bool>, b: Chain)
    requires |connected| == |charged| == MAX_ATTEMPTS
  {
    && (forall k: nat :: FirstAt(Landed(connected, charged), k) && k < MAX_ATTEMPTS ==> b == Collects(a, n, k))
    && (FirstAt(Landed(connected, charged), MAX_ATTEMPTS) ==>
          && b == a.(tries := a.tries[n := Failures(MAX_ATTEMPTS)], rows := b.rows, status := DEFAULTED,
                     phase := Ended(GivenUp))
          && (forall j :: 0 <= j < MAX_ATTEMPTS && connected[j] && (forall i :: j < i < MAX_ATTEMPTS ==> !connected[i])
                ==> b.rows == a.rows[n := Charge(false, j + 1)])
          && ((forall i :: 0 <= i < MAX_ATTEMPTS ==> !connected[i]) ==> b.rows == a.rows))
  }

  lemma JobCollects(a: Chain, n: nat, connected: seq<bool>, charged: seq<bool>, k: nat)
    requires |connected| == |charged| == MAX_ATTEMPTS && k < MAX_ATTEMPTS
    requires Ready(a, n) && FirstAt(Landed(connected, charged), k)
    ensures Run(a, JobSteps(connected, charged)) == Collects(a, n, k)
  {
    LandsAt(a, n, connected, charged, k);
    RestIsIdle(Next(a, Deliver), connected, charged, k + 1, |connected|, Lands(a, n, k));
    JobIsItsLadder(a, connected, charged, Lands(a, n, k));
    LandedIsBooked(a, n, k);
  }

  lemma LandedIsBooked(a: Chain, n: nat, k: nat)
    requires a.status == ACTIVE
    ensures Run(Lands(a, n, k), CONCLUSION) == Collects(a, n, k)
  {
    RunThree(Lands(a, n, k), ReadCount, Pay, MarkDefaulted);
  }

  lemma GivenUpIsBooked(b: Chain, n: nat)
    requires b.phase == Giving(n)
    ensures Run(b, CONCLUSION) == b.(status := DEFAULTED, phase := Ended(GivenUp))
  {
    RunThree(b, ReadCount, Pay, MarkDefaulted);
  }

  lemma JobGivesUp(a: Chain, n: nat, connected: seq<bool>, charged: seq<bool>)
    requires |connected| == |charged| == MAX_ATTEMPTS
    requires Ready(a, n) && FirstAt(Landed(connected, charged), MAX_ATTEMPTS)
    ensures Run(a, JobSteps(connected, charged))
            == a.(tries := a.tries[n := Failures(MAX_ATTEMPTS)], rows := Declined(a.rows, n, connected, MAX_ATTEMPTS),
                  status := DEFAULTED, phase := Ended(GivenUp))
  {
    FailsUpTo(a, n, connected, charged, |connected|);
    JobIsItsLadder(a, connected, charged, Failing(a, n, connected, |connected|));
    GivenUpIsBooked(Failing(a, n, connected, |connected|), n);
  }

  lemma {:induction false} DeclinedAtLast(rows: map<nat, Charge>, n: nat, connected: seq<bool>, k: nat, j: nat)
    requires j < k <= |connected| && connected[j] && forall i :: j < i < k ==> !connected[i]
    ensures Declined(rows, n, connected, k) == rows[n := Charge(false, j + 1)]
  {
    if j < k - 1 { DeclinedAtLast(rows, n, connected, k - 1, j); }
  }

  lemma {:induction false} NeverDeclined(rows: map<nat, Charge>, n: nat, connected: seq<bool>, k: nat)
    requires k <= |connected| && forall i :: 0 <= i < k ==> !connected[i]
    ensures Declined(rows, n, connected, k) == rows
  {
    if k > 0 { NeverDeclined(rows, n, connected, k - 1); }
  }

  // A job on an active agreement, whatever its attempts meet.
  lemma JobMeaning(a: Chain, n: nat, connected: seq<bool>, charged: seq<bool>)
    requires |connected| == |charged| == MAX_ATTEMPTS && Ready(a, n)
    ensures JobOutcome(a, n, connected, charged, Run(a, JobSteps(connected, charged)))
  {
    var b := Run(a, JobSteps(connected, charged));
    forall k: nat | FirstAt(Landed(connected, charged), k) && k < MAX_ATTEMPTS
      ensures b == Collects(a, n, k)
    {
      JobCollects(a, n, connected, charged, k);
    }
    if FirstAt(Landed(connected, charged), MAX_ATTEMPTS) {
      JobGivesUp(a, n, connected, charged);
      forall j | 0 <= j < MAX_ATTEMPTS && connected[j] && (forall i :: j < i < MAX_ATTEMPTS ==> !connected[i])
        ensures b.rows == a.rows[n := Charge(false, j + 1)]
      {
        DeclinedAtLast(a.rows, n, connected, MAX_ATTEMPTS, j);
      }
      if forall i :: 0 <= i < MAX_ATTEMPTS ==> !connected[i] { NeverDeclined(a.rows, n, connected, MAX_ATTEMPTS); }
    }
  }

  // ---------------------------------------------------------------------------
  // Jobs of a cancelled agreement
  // ---------------------------------------------------------------------------

  // The steps of jobs and ladders, which a chain that has ended ignores.
  predicate IsJobStep(e: Event) {
    e.Deliver? || e.Ask? || e.Answer? || e.Check? || e.ReadCount? || e.Pay? || e.MarkDefaulted?
  }

  lemma {:induction false} EndedIsIdle(b: Chain, events: seq<Event>)
    requires b.phase.Ended? && forall i :: 0 <= i < |events| ==> IsJobStep(events[i])
    ensures Run(b, events) == b
  {
    if events != [] { EndedIsIdle(b, events[..|events| - 1]); }
  }

  lemma {:induction false} LadderIsJobSteps(connected: seq<bool>, charged: seq<bool>)
    requires |connected| == |charged|
    ensures forall i :: 0 <= i < |LadderSteps(connected, charged)| ==> IsJobStep(LadderSteps(connected, charged)[i])
  {
    if charged != [] { LadderIsJobSteps(connected[..|charged| - 1], charged[..|charged| - 1]); }
  }

  lemma JobIsJobSteps(connected: seq<bool>, charged: seq<bool>)
    requires |connected| == |charged| == MAX_ATTEMPTS
    ensures forall i :: 0 <= i < |JobSteps(connected, charged)| ==> IsJobStep(JobSteps(connected, charged)[i])
  {
    LadderIsJobSteps(connected, charged);
  }

  // Delivered to an agreement that is over, a charge event charges nothing.
  lemma JobOfAnOverAgreement(a: Chain, n: nat, connected: seq<bool>, charged: seq<bool>)
    requires |connected| == |charged| == MAX_ATTEMPTS && a.phase == Due(n) && Terminal(a.status)
    ensures Run(a, JobSteps(connected, charged)) == a.(phase := Ended(Stopped))
  {
    var steps := JobSteps(connected, charged);
    JobIsJobSteps(connected, charged);
    assert steps == [Deliver] + steps[1..];
    RunConcat(a, [Deliver], steps[1..]);
    RunOne(a, Deliver);
    EndedIsIdle(Next(a, Deliver), steps[1..]);
  }

  // Undisturbed, a cancellation ends an agreement that is active or waits for its checkout, and changes
  // nothing but the status; any other agreement it leaves alone.
  lemma CancellationMeaning(a: Chain)
    ensures a.status in {PENDING_CHECKOUT, ACTIVE} ==> Run(a, [BeginCancel, WriteCancel]) == a.(status := CANCELLED)
    ensures a.status !in {PENDING_CHECKOUT, ACTIVE} && a.cancels == 0 ==> Run(a, [BeginCancel, WriteCancel]) == a
  {
    RunTwo(a, BeginCancel, WriteCancel);
    CancellationSteps(a);
  }

  lemma CancellationSteps(a: Chain)
    ensures var b := Next(Next(a, BeginCancel), WriteCancel);
            && (a.status in {PENDING_CHECKOUT, ACTIVE} ==> b == a.(status := CANCELLED))
            && (a.status !in {PENDING_CHECKOUT, ACTIVE} && a.cancels == 0 ==> b == a)
  {
  }

  // A job up to its attempt k + 1, asleep before the check.
  function Asleep(connected: seq<bool>, charged: seq<bool>, k: nat): seq<Event>
    requires k < |connected| == |charged|
  {
    [Deliver] + LadderSteps(connected[..k], charged[..k]) + [Ask(connected[k]), Answer(charged[k])]
  }

  // Cancelled while the job sleeps after k + 1 failed attempts, an agreement stays cancelled: whatever job
  // steps follow the check, the next attempt is not made, and the job neither charges nor defaults.
  lemma CancelledAsleep(a: Chain, n: nat, connected: seq<bool>, charged: seq<bool>, k: nat, rest: seq<Event>)
    requires |connected| == |charged| == MAX_ATTEMPTS && k + 1 < MAX_ATTEMPTS
    requires Ready(a, n) && forall i :: 0 <= i <= k ==> !Landed(connected, charged)[i]
    requires forall i :: 0 <= i < |rest| ==> IsJobStep(rest[i])
    ensures Run(a, Asleep(connected, charged, k) + [BeginCancel, WriteCancel] + ([Check] + rest))
            == a.(tries := a.tries[n := Failures(k + 1)], rows := Declined(a.rows, n, connected, k + 1),
                  status := CANCELLED, phase := Ended(Stopped))
  {
    var asleep := Failing(a, n, connected, k + 1).(phase := Waiting(n, k + 2));
    FallsAsleep(a, n, connected, charged, k);
    CancellationMeaning(asleep);
    RunInThree(a, Asleep(connected, charged, k), [BeginCancel, WriteCancel], [Check] + rest);
    WakesCancelled(asleep.(status := CANCELLED), n, k, rest);
  }

  lemma RunInThree(a: Chain, x: seq<Event>, y: seq<Event>, z: seq<Event>)
    ensures Run(a, x + y + z) == Run(Run(Run(a, x), y), z)
  {
    RunConcat(a, x + y, z);
    RunConcat(a, x, y);
  }

  // After k + 1 failed attempts, before the check.
  lemma FallsAsleep(a: Chain, n: nat, connected: seq<bool>, charged: seq<bool>, k: nat)
    requires |connected| == |charged| == MAX_ATTEMPTS && k + 1 < MAX_ATTEMPTS
    requires Ready(a, n) && forall i :: 0 <= i <= k ==> !Landed(connected, charged)[i]
    ensures Run(a, Asleep(connected, charged, k)) == Failing(a, n, connected, k + 1).(phase := Waiting(n, k + 2))
  {
    var rungs := LadderSteps(connected[..k], charged[..k]);
    RunConcat(a, [Deliver] + rungs, [Ask(connected[k]), Answer(charged[k])]);
    RunConcat(a, [Deliver], rungs);
    RunOne(a, Deliver);
    FailsUpTo(a, n, connected, charged, k);
    assert !Landed(connected, charged)[k];
    FailedAttempt(a, n, connected, k, charged[k]);
  }

  lemma FailedAttempt(a: Chain, n: nat, connected: seq<bool>, k: nat, charged: bool)
    requires Ready(a, n) && k < |connected| && k + 1 < MAX_ATTEMPTS && !(connected[k] && charged)
    ensures Run(Failing(a, n, connected, k), [Ask(connected[k]), Answer(charged)])
            == Failing(a, n, connected, k + 1).(phase := Waiting(n, k + 2))
  {
    var c := Failing(a, n, connected, k);
    RunTwo(c, Ask(connected[k]), Answer(charged));
    FailedRung(a, n, connected, k, charged);
    RunThree(c, Ask(connected[k]), Answer(charged), Check);
  }

  lemma WakesCancelled(b: Chain, n: nat, k: nat, rest: seq<Event>)
    requires b.status == CANCELLED && b.phase == Waiting(n, k + 2)
    requires forall i :: 0 <= i < |rest| ==> IsJobStep(rest[i])
    ensures Run(b, [Check] + rest) == b.(phase := Ended(Stopped))
  {
    RunConcat(b, [Check], rest);
    RunOne(b, Check);
    EndedIsIdle(Next(b, Check), rest);
  }

  // Over for good, with no activation in flight and no charge under way.
  predicate Halted(a: Chain) {
    && (a.status == CANCELLED || a.status == DEFAULTED) && a.starts == a.finishes == 0
    && !a.phase.Charging? && !a.phase.Paying? && !a.phase.Booking?
  }

  // Whatever happens to it, an agreement cancelled with nothing under way is never charged again.
  lemma {:induction false} CancelledIsChargedNoMore(a: Chain, future: seq<Event>)
    requires Halted(a)
    ensures var b := Run(a, future);
            Halted(b) && b.rows == a.rows && b.paid == a.paid && b.downs == a.downs && Collected(b) == Collected(a)
  {
    if future != [] {
      CancelledIsChargedNoMore(a, future[..|future| - 1]);
      HaltedStep(Run(a, future[..|future| - 1]), future[|future| - 1]);
    }
  }

  lemma HaltedStep(a: Chain, e: Event)
    requires Halted(a)
    ensures var b := Next(a, e); Halted(b) && b.rows == a.rows && b.paid == a.paid && b.downs == a.downs
  {
  }

  // ---------------------------------------------------------------------------
  // A whole agreement
  // ---------------------------------------------------------------------------

  datatype Answers = Answers(connected: seq<bool>, charged: seq<bool>)

  type Job = j: Answers | |j.connected| == |j.charged| == MAX_ATTEMPTS
    witness Answers([false, false, false, false], [false, false, false, false])

  // One of the job's attempts goes through.
  ghost predicate Lucky(j: Job) {
    exists k :: 0 <= k < MAX_ATTEMPTS && j.connected[k] && j.charged[k]
  }

  // An activation and then the jobs, one after the other.
  function LifeSteps(jobs: seq<Job>): seq<Event> {
    if jobs == [] then [BeginActivate, WriteActivate, FinishActivate]
    else
      var n := |jobs| - 1;
      LifeSteps(jobs[..n]) + JobSteps(jobs[n].connected, jobs[n].charged)
  }

  function FirstLanded(landed: seq<bool>, n: nat): (k: nat)
    requires n <= |landed| && forall i :: 0 <= i < n ==> !landed[i]
    ensures FirstAt(landed, k)
    decreases |landed| - n
  {
    if n == |landed| || landed[n] then n else FirstLanded(landed, n + 1)
  }

  lemma FirstOf(j: Job) returns (k: nat)
    ensures FirstAt(Landed(j.connected, j.charged), k) && (k < MAX_ATTEMPTS <==> Lucky(j))
  {
    k := FirstLanded(Landed(j.connected, j.charged), 0);
    if k < MAX_ATTEMPTS { assert Landed(j.connected, j.charged)[k]; }
    forall i | 0 <= i < k
      ensures !(j.connected[i] && j.charged[i])
    {
      assert !Landed(j.connected, j.charged)[i];
    }
  }

  // Activated, and m more instalments collected.
  predicate Collecting(a: Chain, total: nat, m: nat) {
    && a.total == total && a.paid == a.booked == m + 1 && a.starts == a.finishes == 0
    && (if m + 1 >= total then a.status == COMPLETED && a.phase == Ended(PaidOff) else Ready(a, m + 2))
  }

  lemma {:induction false} AllLucky(total: nat, jobs: seq<Job>)
    requires (forall i :: 0 <= i < |jobs| ==> Lucky(jobs[i])) && 1 <= total && |jobs| < total
    ensures Collecting(Run(Opened(total), LifeSteps(jobs)), total, |jobs|)
  {
    if jobs == [] {
      RunThree(Opened(total), BeginActivate, WriteActivate, FinishActivate);
    } else {
      var m := |jobs| - 1;
      AllLucky(total, jobs[..m]);
      RunConcat(Opened(total), LifeSteps(jobs[..m]), JobSteps(jobs[m].connected, jobs[m].charged));
      RunKeepsChain(total, LifeSteps(jobs));
      OneMoreLucky(Run(Opened(total), LifeSteps(jobs[..m])), total, m, jobs[m]);
    }
  }

  lemma OneMoreLucky(a: Chain, total: nat, m: nat, j: Job)
    requires Lucky(j) && Collecting(a, total, m) && m + 1 < total
    requires LaddersInv(Run(a, JobSteps(j.connected, j.charged)))
    ensures Collecting(Run(a, JobSteps(j.connected, j.charged)), total, m + 1)
  {
    var k := FirstOf(j);
    JobCollects(a, m + 2, j.connected, j.charged, k);
  }

  // Jobs that all go through pay the agreement off, and every instalment is collected.
  lemma PaidOffByLuckyJobs(total: nat, jobs: seq<Job>)
    requires (forall i :: 0 <= i < |jobs| ==> Lucky(jobs[i])) && 1 <= total == |jobs| + 1
    ensures var a := Run(Opened(total), LifeSteps(jobs));
            a.status == COMPLETED && a.paid == total && Collected(a) == OneTo(total)
  {
    AllLucky(total, jobs);
    ChainAlwaysCounts(total, LifeSteps(jobs));
  }

  // The first job that exhausts its ladder defaults the agreement, whatever jobs come after it; what was
  // collected before stays.
  lemma DefaultedByTheFirstUnlucky(total: nat, jobs: seq<Job>, j: nat)
    requires j < |jobs| && j + 1 < total
    requires (forall i :: 0 <= i < j ==> Lucky(jobs[i])) && !Lucky(jobs[j])
    ensures var a := Run(Opened(total), LifeSteps(jobs));
            a.status == DEFAULTED && a.paid == j + 1 && Collected(a) == OneTo(j + 1)
  {
    DefaultedAt(total, jobs, j);
    ChainAlwaysCounts(total, LifeSteps(jobs));
  }

  lemma {:induction false} DefaultedAt(total: nat, jobs: seq<Job>, j: nat)
    requires j < |jobs| && j + 1 < total
    requires (forall i :: 0 <= i < j ==> Lucky(jobs[i])) && !Lucky(jobs[j])
    ensures var a := Run(Opened(total), LifeSteps(jobs));
            a.status == DEFAULTED && a.phase == Ended(GivenUp) && a.paid == a.booked == j + 1
  {
    var m := |jobs| - 1;
    var before := Run(Opened(total), LifeSteps(jobs[..m]));
    RunConcat(Opened(total), LifeSteps(jobs[..m]), JobSteps(jobs[m].connected, jobs[m].charged));
    if j == m {
      AllLucky(total, jobs[..m]);
      var k := FirstOf(jobs[m]);
      JobGivesUp(before, m + 2, jobs[m].connected, jobs[m].charged);
    } else {
      DefaultedAt(total, jobs[..m], j);
      JobIsJobSteps(jobs[m].connected, jobs[m].charged);
      EndedIsIdle(before, JobSteps(jobs[m].connected, jobs[m].charged));
    }
  }
}
