// One agreement's rows, updated step by step by the webhook, the charge job and the cancel route.
module Agreements {
  import opened Prelude
  import opened Instalments
  import opened InstalmentJobs

  class Agreement {
    var status: Status
    const total: nat
    var paid: nat
    var downs: nat
    var rows: map<nat, Charge>
    var phase: Phase
    ghost var starts: nat
    ghost var finishes: nat
    ghost var cancels: nat
    ghost var tries: map<nat, seq<Tried>>
    ghost var booked: nat

    constructor (total: nat)
      ensures Value() == Opened(total)
    {
      this.total, status, paid, downs, rows, phase := total, PENDING_CHECKOUT, 0, 0, map[], Idle;
      starts, finishes, cancels, tries, booked := 0, 0, 0, map[], 0;
    }

    ghost function Value(): Chain
      reads this
    {
      Chain(status, total, paid, downs, rows, phase, starts, finishes, cancels, tries, booked)
    }

    // The webhook of the down payment reads the status.
    method BeginActivation() returns (go: bool)
      modifies this
      ensures Value() == Next(old(Value()), BeginActivate)
      ensures go <==> old(status) == PENDING_CHECKOUT
    {
      go := status == PENDING_CHECKOUT;
      if go { starts := starts + 1; }
    }

    method WriteActivation()
      requires starts > 0
      modifies this
      ensures Value() == Next(old(Value()), WriteActivate)
    {
      var first := downs == 0;
      starts, booked := starts - 1, if first then booked + 1 else booked;
      status, paid, downs := ACTIVE, 1, downs + 1;
      if total <= 1 {
        finishes := finishes + 1;
      } else if first {
        phase := Due(2);
      }
      assert Value() == Activated(old(Value()));
    }

    method FinishActivation()
      requires finishes > 0
      modifies this
      ensures Value() == Next(old(Value()), FinishActivate)
    {
      finishes := finishes - 1;
      status, phase := COMPLETED, Ended(PaidOff);
    }

    // The whole activation, undisturbed: one that finds the agreement activated does nothing.
    method ActivateAgreement()
      requires starts == finishes == 0
      modifies this
      ensures Value() == Run(old(Value()), [BeginActivate, WriteActivate, FinishActivate])
      ensures starts == finishes == 0
    {
      RunThree(Value(), BeginActivate, WriteActivate, FinishActivate);
      var go := BeginActivation();
      if go {
        WriteActivation();
        if total <= 1 { FinishActivation(); }
      }
    }

    method StartLadder()
      modifies this
      ensures Value() == Next(old(Value()), Deliver)
    {
      if phase.Due? { phase := if Terminal(status) then Ended(Stopped) else Trying(phase.number, 1); }
    }

    // A charge begins with the agreement's status and the provider's configuration.
    method BeginCharge(connected: bool) returns (go: bool)
      requires phase.Trying?
      modifies this
      ensures Value() == Next(old(Value()), Ask(connected))
      ensures go <==> phase.Charging?
    {
      var n, k := phase.number, phase.attempt;
      go := !Terminal(status) && connected;
      if go { phase := Charging(n, k); } else { Fail(n, k); }
    }

    method RecordCharge(charged: bool)
      requires phase.Charging?
      modifies this
      ensures Value() == Next(old(Value()), Answer(charged))
    {
      var n, k := phase.number, phase.attempt;
      rows := rows[n := Charge(charged, k)];
      if charged {
        tries := tries[n := TriesOf(tries, n) + [Tried(k, true)]];
        phase := Paying(n);
      } else {
        Fail(n, k);
      }
    }

    method Fail(n: nat, k: nat)
      modifies this
      ensures Value() == Failed(old(Value()), n, k)
    {
      tries := tries[n := TriesOf(tries, n) + [Tried(k, false)]];
      phase := if k < MAX_ATTEMPTS then Waiting(n, k + 1) else Giving(n);
    }

    method CheckBeforeRetry()
      modifies this
      ensures Value() == Next(old(Value()), Check)
    {
      if phase.Waiting? {
        phase := if status == CANCELLED then Ended(Stopped) else Trying(phase.number, phase.attempt);
      }
    }

    // A success is booked in two steps: the count is read, and one more than that is written.
    method BeginBooking()
      modifies this
      ensures Value() == Next(old(Value()), ReadCount)
    {
      if phase.Paying? { phase := Booking(phase.number, paid); }
    }

    method WriteBooking()
      modifies this
      ensures Value() == Next(old(Value()), Pay)
    {
      if phase.Booking? {
        paid, booked := phase.seen + 1, booked + 1;
        if paid >= total { status, phase := COMPLETED, Ended(PaidOff); } else { phase := Due(phase.number + 1); }
      }
    }

    // Both, undisturbed.
    method OnInstallmentSuccess()
      requires phase.Paying?
      modifies this
      ensures Value() == Run(old(Value()), BOOK)
      ensures paid == old(paid) + 1 && (status == COMPLETED <==> old(status) == COMPLETED || paid >= total)
    {
      BookingSucceeds(Value(), phase.number);
      BeginBooking();
      WriteBooking();
    }

    method OnExhausted()
      modifies this
      ensures Value() == Next(old(Value()), MarkDefaulted)
    {
      if phase.Giving? { status, phase := DEFAULTED, Ended(GivenUp); }
    }

    // A cancellation reads the status, signals the run and writes without looking again.
    method BeginCancellation() returns (r: Result<(), Error>)
      modifies this
      ensures Value() == Next(old(Value()), BeginCancel)
      ensures r.Ok? <==> Cancellable(old(status))
    {
      if status != ACTIVE && status != PENDING_CHECKOUT { return Err(IllegalTransition); }
      cancels := cancels + 1;
      r := Ok(());
    }

    method WriteCancellation()
      requires cancels > 0
      modifies this
      ensures Value() == Next(old(Value()), WriteCancel)
    {
      cancels := cancels - 1;
      status := CANCELLED;
    }

    // One delivered charge event, undisturbed: the ladder's loop over what it meets.
    method RunJob(connected: seq<bool>, charged: seq<bool>)
      requires |connected| == |charged| == MAX_ATTEMPTS
      modifies this
      ensures Value() == Run(old(Value()), JobSteps(connected, charged))
      ensures forall n: nat | Ready(old(Value()), n) :: JobOutcome(old(Value()), n, connected, charged, Value())
    {
      ghost var a, steps := Value(), JobSteps(connected, charged);
      StartLadder();
      RunSnoc(a, steps, 0);
      for k := 0 to MAX_ATTEMPTS
        invariant Value() == Run(a, steps[..3 * k + 1])
      {
        RunSnoc(a, steps, 3 * k + 1);
        RunSnoc(a, steps, 3 * k + 2);
        RunSnoc(a, steps, 3 * k + 3);
        TryOnce(connected[k], charged[k]);
      }
      RunSnoc(a, steps, 3 * MAX_ATTEMPTS + 1);
      RunSnoc(a, steps, 3 * MAX_ATTEMPTS + 2);
      RunSnoc(a, steps, 3 * MAX_ATTEMPTS + 3);
      Conclude();
      assert steps[..|steps|] == steps;
      forall n: nat | Ready(a, n) { JobMeaning(a, n, connected, charged); }
    }

    // One rung of the ladder, when there is one left to climb.
    method TryOnce(connected: bool, charged: bool)
      modifies this
      ensures Value() == Next(Next(Next(old(Value()), Ask(connected)), Answer(charged)), Check)
    {
      if phase.Trying? { var _ := BeginCharge(connected); }
      if phase.Charging? { RecordCharge(charged); }
      CheckBeforeRetry();
    }

    method Conclude()
      modifies this
      ensures Value() == Next(Next(Next(old(Value()), ReadCount), Pay), MarkDefaulted)
    {
      BeginBooking();
      WriteBooking();
      OnExhausted();
    }
  }
}
