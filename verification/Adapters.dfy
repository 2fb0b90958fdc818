// What the adapters make of a provider's answer to a capture or a void, for the capture/void protocol.
module Adapters {
  import opened Prelude
  import L = IntentLock

  // The statuses Payzone VPS reports, by what the status map knows; any other is `UNKNOWN`.
  datatype VpsStatus =
    | AUTHORISED | AUTHORIZED | AUTHORIZATION | PREAUTHORIZED | PRE_AUTHORIZED
    | REDIRECTED | AUTHORIZE_PENDING | AUTHORIZATION_PENDING | CHALLENGE_REQUIRED
    | CHALLENGED | PENDING_3DS | THREE_DS_PENDING
    | CHARGED | CAPTURED | PAID | SETTLED | SETTLEMENT | COMPLETED
    | REFUSED | DECLINED | FAILED | ERROR
    | CANCELLED | CANCELED | AUTH_REVERSED | VOIDED
    | PENDING | IN_PROGRESS | PROCESSING | SETTLEMENT_PROCESSING
    | REFUNDED
    | UNKNOWN

  datatype StripeStatus =
    | Succeeded | RequiresAction | RequiresPaymentMethod | Processing | RequiresCapture | RequiresConfirmation
    | Canceled | Unlisted

  // NAPS has no captures; the demo adapter says yes to everything.
  datatype Answer = Vps(status: VpsStatus) | Stripe(intent: StripeStatus) | Naps | Demo

  function VpsMapped(s: VpsStatus): L.Status {
    match s
    case AUTHORISED | AUTHORIZED | AUTHORIZATION | PREAUTHORIZED | PRE_AUTHORIZED => L.AUTHORIZED
    case REDIRECTED | AUTHORIZE_PENDING | AUTHORIZATION_PENDING | CHALLENGE_REQUIRED => L.REQUIRES_ACTION
    case CHALLENGED | PENDING_3DS | THREE_DS_PENDING => L.REQUIRES_ACTION
    case CHARGED | CAPTURED | PAID | SETTLED | SETTLEMENT | COMPLETED => L.SUCCEEDED
    case REFUSED | DECLINED | FAILED | ERROR => L.FAILED
    case CANCELLED | CANCELED | AUTH_REVERSED | VOIDED => L.CANCELED
    case PENDING | IN_PROGRESS | PROCESSING | SETTLEMENT_PROCESSING => L.PROCESSING
    case REFUNDED => L.REFUNDED
    case UNKNOWN => L.PROCESSING
  }

  function StripeMapped(s: StripeStatus): L.Status {
    match s
    case Succeeded => L.SUCCEEDED
    case RequiresAction | RequiresPaymentMethod => L.REQUIRES_ACTION
    case Processing | RequiresConfirmation | Unlisted => L.PROCESSING
    case RequiresCapture => L.AUTHORIZED
    case Canceled => L.CANCELED
  }

  // The answers an adapter takes for a success.
  predicate Succeeds(action: L.Action, answer: Answer) {
    match answer
    case Vps(s) =>
      if action == L.Capture then s in {CHARGED, CAPTURED, PAID, SETTLED, SETTLEMENT, COMPLETED} else s == AUTH_REVERSED
    case Stripe(s) => if action == L.Capture then s == Succeeded else s == Canceled
    case Naps => false
    case Demo => true
  }

  function Mapped(answer: Answer): Option<L.Status> {
    match answer
    case Vps(s) => Some(VpsMapped(s))
    case Stripe(s) => Some(StripeMapped(s))
    case _ => None
  }

  // What the protocol sees of an answer. NAPS throws before it calls anyone; every other answer that is
  // not a success is a rejection, whether or not the provider carries the call out.
  function ReplyTo(action: L.Action, answer: Answer, happened: bool): L.Reply {
    if answer.Naps? then L.Threw(false)
    else if Succeeds(action, answer) then L.Accepted(Mapped(answer))
    else L.Rejected(happened)
  }

  // An answer that is taken for a rejection although the status map calls it in flight.
  predicate InFlight(action: L.Action, answer: Answer) {
    !Succeeds(action, answer) && Mapped(answer) == Some(L.PROCESSING)
  }

  // An answer that is taken for a rejection although the status map calls it done.
  predicate Misread(action: L.Action, answer: Answer) {
    && !Succeeds(action, answer)
    && Mapped(answer) == Some(match action case Capture => L.SUCCEEDED case Void => L.CANCELED)
  }

  // Those in flight, and those done, are these and no others: a void that Payzone VPS does not answer with
  // the one status the adapter looks for.
  lemma TakenForRejectionsExactlyWhen(action: L.Action, answer: Answer)
    ensures InFlight(action, answer)
            <==> match answer
                 case Vps(s) => s in {PENDING, IN_PROGRESS, PROCESSING, SETTLEMENT_PROCESSING, UNKNOWN}
                 case Stripe(s) => s in {Processing, RequiresConfirmation, Unlisted}
                 case _ => false
    ensures Misread(action, answer)
            <==> action == L.Void && answer in {Vps(CANCELLED), Vps(CANCELED), Vps(VOIDED)}
  {
  }

  // A call as the adapters make it. `late` says whether a call answered as in flight can be carried out
  // after all, `done` whether one answered as done can be; one answered otherwise, or never answered, is
  // carried out only as its reply says.
  ghost predicate Made(e: L.Event, late: bool, done: bool) {
    e.Call? && !e.reply.Threw? ==>
      exists action: L.Action, answer: Answer, happened: bool ::
        && e.reply == ReplyTo(action, answer, happened)
        && (happened ==> Succeeds(action, answer) || (late && InFlight(action, answer))
                         || (done && Misread(action, answer)))
  }

  ghost predicate MadeByAdapters(trace: seq<(nat, L.Event)>, late: bool, done: bool) {
    forall k :: 0 <= k < |trace| ==> Made(trace[k].1, late, done)
  }

  // With a success the adapters report SUCCEEDED, CANCELED or nothing.
  lemma SuccessIsFinal(action: L.Action, answer: Answer)
    requires Succeeds(action, answer)
    ensures Mapped(answer) in {None, Some(L.SUCCEEDED), Some(L.CANCELED)}
  {
  }

  lemma MadeIsReplyOf(e: L.Event)
    requires Made(e, false, false)
    ensures L.ReplyOf(L.Provider({L.SUCCEEDED, L.CANCELED}, false), e)
  {
    if e.Call? && !e.reply.Threw? {
      var action: L.Action, answer: Answer, happened: bool :|
        e.reply == ReplyTo(action, answer, happened) && (happened ==> Succeeds(action, answer));
      if Succeeds(action, answer) { SuccessIsFinal(action, answer); }
    }
  }

  lemma TwiceIsMade(first: nat, reply: L.Reply, second: Option<L.Status>, late: bool, done: bool)
    requires first < 2 && Made(L.Call(reply), late, done) && Made(L.Call(L.Accepted(second)), late, done)
    ensures MadeByAdapters(L.Twice(first, reply, second), late, done)
  {
    var trace := L.Twice(first, reply, second);
    forall k | 0 <= k < |trace|
      ensures Made(trace[k].1, late, done)
    {
      if trace[k].1.Call? { assert trace[k].1 in {L.Call(reply), L.Call(L.Accepted(second))}; }
    }
  }

  // The settlement is under way, the row is AUTHORIZED again, and a void goes through.
  lemma SettlementInFlightIsVoided(done: bool)
    ensures var trace := L.Twice(0, ReplyTo(L.Capture, Vps(SETTLEMENT_PROCESSING), true), Some(L.CANCELED));
            MadeByAdapters(trace, true, done) && L.Run(L.BOTH, trace).performed == [L.Capture, L.Void]
  {
    assert InFlight(L.Capture, Vps(SETTLEMENT_PROCESSING));
    assert L.Accepted(Some(L.CANCELED)) == ReplyTo(L.Void, Vps(AUTH_REVERSED), false);
    TwiceIsMade(0, ReplyTo(L.Capture, Vps(SETTLEMENT_PROCESSING), true), Some(L.CANCELED), true, done);
    L.RejectedThenOther(0, Some(L.CANCELED));
  }

  // The hold is released, the row is AUTHORIZED all the same, and a capture is made.
  lemma VoidedIsCaptured(late: bool)
    ensures var trace := L.Twice(1, ReplyTo(L.Void, Vps(VOIDED), true), Some(L.SUCCEEDED));
            MadeByAdapters(trace, late, true) && L.Run(L.BOTH, trace).performed == [L.Void, L.Capture]
  {
    assert Misread(L.Void, Vps(VOIDED));
    assert L.Accepted(Some(L.SUCCEEDED)) == ReplyTo(L.Capture, Vps(CHARGED), false);
    TwiceIsMade(1, ReplyTo(L.Void, Vps(VOIDED), true), Some(L.SUCCEEDED), late, true);
    L.RejectedThenOther(1, Some(L.SUCCEEDED));
  }

  // Exclusion holds for the deployed adapters exactly when no call is carried out that was answered as in
  // flight, or as done in a word the adapter does not look for.
  lemma DeployedAreExclusiveExactlyWhen(late: bool, done: bool)
    ensures (forall m: L.Machine, trace: seq<(nat, L.Event)> ::
               L.Fresh(m) && MadeByAdapters(trace, late, done) ==> L.Exclusive(L.Run(m, trace)))
            <==> !late && !done
  {
    if late {
      SettlementInFlightIsVoided(done);
    } else if done {
      VoidedIsCaptured(late);
    } else {
      forall m: L.Machine, trace: seq<(nat, L.Event)> | L.Fresh(m) && MadeByAdapters(trace, false, false)
        ensures L.Exclusive(L.Run(m, trace))
      {
        forall k | 0 <= k < |trace| { MadeIsReplyOf(trace[k].1); }
        L.RunKeepsLock(m, trace, L.Provider({L.SUCCEEDED, L.CANCELED}, false));
      }
    }
  }

  // The status maps, read backwards: which reported statuses make each status of the row.
  lemma VpsMappedExactlyWhen(s: VpsStatus)
    ensures VpsMapped(s) == L.AUTHORIZED
            <==> s in {AUTHORISED, AUTHORIZED, AUTHORIZATION, PREAUTHORIZED, PRE_AUTHORIZED}
    ensures VpsMapped(s) == L.REQUIRES_ACTION
            <==> s in {REDIRECTED, AUTHORIZE_PENDING, AUTHORIZATION_PENDING, CHALLENGE_REQUIRED, CHALLENGED,
                       PENDING_3DS, THREE_DS_PENDING}
    ensures VpsMapped(s) == L.SUCCEEDED <==> Succeeds(L.Capture, Vps(s))
    ensures VpsMapped(s) == L.FAILED <==> s in {REFUSED, DECLINED, FAILED, ERROR}
    ensures VpsMapped(s) == L.REFUNDED <==> s == REFUNDED
    ensures VpsMapped(s) == L.CANCELED <==> Succeeds(L.Void, Vps(s)) || Misread(L.Void, Vps(s))
    ensures VpsMapped(s) == L.PROCESSING <==> InFlight(L.Capture, Vps(s))
  {
  }

  lemma StripeMappedExactlyWhen(s: StripeStatus)
    ensures StripeMapped(s) == L.AUTHORIZED <==> s == RequiresCapture
    ensures StripeMapped(s) == L.REQUIRES_ACTION <==> s in {RequiresAction, RequiresPaymentMethod}
    ensures StripeMapped(s) == L.SUCCEEDED <==> Succeeds(L.Capture, Stripe(s))
    ensures StripeMapped(s) == L.CANCELED <==> Succeeds(L.Void, Stripe(s))
  {
  }
}
