// The capture/void protocol: any number of captures and voids of one payment intent, interleaved
// step by step, each step one database write or one provider call.
module IntentLock {
  import opened Prelude

  datatype Status = CREATED | REQUIRES_ACTION | AUTHORIZED | PROCESSING | SUCCEEDED | FAILED | CANCELED | REFUNDED

  datatype Action = Capture | Void

  // Where an action stands. `Recording` holds the status it is about to write.
  datatype Pc = Start | Locked | Calling | Reverting | Recording(status: Status) | Done

  datatype Actor = Actor(action: Action, pc: Pc)

  // The intent's row, the calls the provider carried out so far, and every action ever started.
  datatype Machine = Machine(status: Status, performed: seq<Action>, actors: seq<Actor>)

  // The provider's reply. A rejection or an exception leaves open whether the call is carried out.
  datatype Reply = Accepted(status: Option<Status>) | Rejected(happened: bool) | Threw(happened: bool)

  // What an action finds after locking: a provider reference, a provider configuration, an amount.
  datatype Found = Found(hasRef: bool, hasConfig: bool, hasAmount: bool)

  // An action can also die at any point, as a serverless process can.
  datatype Event = TryLock | Load(found: Found) | Call(reply: Reply) | Revert | Record | Crash

  // One step of actor `i`. An event that is not the actor's next step does nothing.
  function Next(m: Machine, i: nat, e: Event): Machine {
    if i >= |m.actors| then m
    else
      var a := m.actors[i];
      match (a.pc, e)
      case (Start, TryLock) =>
        if m.status == AUTHORIZED then m.(status := PROCESSING, actors := m.actors[i := a.(pc := Locked)])
        else m.(actors := m.actors[i := a.(pc := Done)])
      case (Locked, Load(f)) => m.(actors := m.actors[i := a.(pc := AfterLoad(a.action, f))])
      case (Calling, Call(Accepted(reported))) =>
        m.(performed := m.performed + [a.action],
           actors := m.actors[i := a.(pc := Recording(Reported(a.action, reported)))])
      case (Calling, Call(Rejected(happened))) =>
        m.(performed := m.performed + if happened then [a.action] else [], actors := m.actors[i := a.(pc := Reverting)])
      case (Calling, Call(Threw(happened))) =>
        m.(performed := m.performed + if happened then [a.action] else [], actors := m.actors[i := a.(pc := Done)])
      case (Reverting, Revert) => m.(status := AUTHORIZED, actors := m.actors[i := a.(pc := Done)])
      case (Recording(status), Record) => m.(status := status, actors := m.actors[i := a.(pc := Done)])
      case (_, Crash) => m.(actors := m.actors[i := a.(pc := Done)])
      case _ => m
  }

  // No reference: give the lock back. No configuration: fail with the lock held. No amount: only a
  // capture minds.
  function AfterLoad(action: Action, f: Found): Pc {
    if !f.hasRef then Reverting
    else if !f.hasConfig then Done
    else if action == Capture && !f.hasAmount then Reverting
    else Calling
  }

  function Reported(action: Action, reported: Option<Status>): Status {
    match reported
    case Some(status) => status
    case None => if action == Capture then SUCCEEDED else CANCELED
  }

  function Run(m: Machine, trace: seq<(nat, Event)>): Machine {
    if trace == [] then m
    else
      var (i, e) := trace[|trace| - 1];
      Next(Run(m, trace[..|trace| - 1]), i, e)
  }

  // Nobody has acted yet; the row may be in any status.
  predicate Fresh(m: Machine) {
    m.performed == [] && forall i :: 0 <= i < |m.actors| ==> m.actors[i].pc == Start
  }

  // Between taking the lock and the outcome.
  predicate Holding(pc: Pc) {
    pc.Locked? || pc.Calling? || pc.Reverting? || pc.Recording?
  }

  // What is known of a provider: the statuses it reports with a success, and whether it can reject a
  // call and carry it out all the same.
  datatype Provider = Provider(statuses: set<Status>, rejectsWhatItDoes: bool)

  // A reply can be taken at its word: a success does not put the row back up for grabs, and a
  // rejection means that nothing happened.
  predicate Decisive(p: Provider) {
    AUTHORIZED !in p.statuses && !p.rejectsWhatItDoes
  }

  predicate RepliesOf(p: Provider, trace: seq<(nat, Event)>) {
    forall k :: 0 <= k < |trace| ==> ReplyOf(p, trace[k].1)
  }

  predicate ReplyOf(p: Provider, e: Event) {
    e.Call? ==> match e.reply
      case Accepted(status) => status.Some? ==> status.value in p.statuses
      case Rejected(happened) => happened ==> p.rejectsWhatItDoes
      case Threw(_) => true
  }

  // At most one action holds the lock, and while one does the row says so; the provider acts at most
  // once, and from then on nobody is before a call and the row is never lockable again.
  ghost predicate LockInv(m: Machine) {
    && (forall i, j :: 0 <= i < j < |m.actors| ==> !(Holding(m.actors[i].pc) && Holding(m.actors[j].pc)))
    && (forall i :: 0 <= i < |m.actors| && Holding(m.actors[i].pc) ==> m.status == PROCESSING)
    && |m.performed| <= 1
    && (m.performed != [] ==>
          && m.status != AUTHORIZED
          && (forall i :: 0 <= i < |m.actors| && Holding(m.actors[i].pc) ==> m.actors[i].pc.Recording?))
    && (forall i :: 0 <= i < |m.actors| && m.actors[i].pc.Recording? ==>
          m.actors[i].pc.status != AUTHORIZED && m.performed == [m.actors[i].action])
  }

  lemma NextKeepsLock(m: Machine, i: nat, e: Event, p: Provider)
    requires LockInv(m) && ReplyOf(p, e) && Decisive(p)
    ensures LockInv(Next(m, i, e))
  {
    if i < |m.actors| {
      assert forall j :: 0 <= j < |m.actors| && j != i ==> Next(m, i, e).actors[j] == m.actors[j];
    }
  }

  lemma {:induction false} RunKeepsLock(m: Machine, trace: seq<(nat, Event)>, p: Provider)
    requires Fresh(m) && RepliesOf(p, trace) && Decisive(p)
    ensures LockInv(Run(m, trace))
  {
    if trace != [] {
      var n := |trace| - 1;
      RunKeepsLock(m, trace[..n], p);
      NextKeepsLock(Run(m, trace[..n]), trace[n].0, trace[n].1, p);
    }
  }

  // At most one action is between lock and outcome, the provider acts at most once, and so the intent
  // is never both captured and voided.
  ghost predicate Exclusive(m: Machine) {
    && (forall i, j :: 0 <= i < j < |m.actors| ==> !(Holding(m.actors[i].pc) && Holding(m.actors[j].pc)))
    && |m.performed| <= 1
    && !(Capture in m.performed && Void in m.performed)
  }

  // Exclusion over every run, for any number of actions, holds exactly when the provider's replies can
  // be taken at their word.
  lemma ExclusiveExactlyWhen(p: Provider)
    ensures (forall m: Machine, trace: seq<(nat, Event)> ::
               Fresh(m) && RepliesOf(p, trace) ==> Exclusive(Run(m, trace)))
            <==> Decisive(p)
  {
    if AUTHORIZED in p.statuses {
      CaptureThenVoid(p);
    } else if p.rejectsWhatItDoes {
      RejectedCaptureThenVoid(p);
    } else {
      forall m: Machine, trace: seq<(nat, Event)> | Fresh(m) && RepliesOf(p, trace)
        ensures Exclusive(Run(m, trace))
      {
        RunKeepsLock(m, trace, p);
      }
    }
  }

  lemma {:induction false} RunConcat(m: Machine, a: seq<(nat, Event)>, b: seq<(nat, Event)>)
    ensures Run(m, a + b) == Run(Run(m, a), b)
  {
    if b == [] {
      assert a + b == a;
    } else {
      var n := |b| - 1;
      assert (a + b)[..|a + b| - 1] == a + b[..n];
      RunConcat(m, a, b[..n]);
    }
  }

  lemma RunSnoc(m: Machine, trace: seq<(nat, Event)>, n: nat)
    requires n < |trace|
    ensures Run(m, trace[..n + 1]) == Next(Run(m, trace[..n]), trace[n].0, trace[n].1)
  {
    assert trace[..n + 1][..n] == trace[..n];
  }

  // The steps of one undisturbed action of actor `i`; those that are not its next step do nothing.
  function Solo(i: nat, found: Found, reply: Reply): seq<(nat, Event)> {
    [(i, TryLock), (i, Load(found)), (i, Call(reply)), (i, Revert), (i, Record)]
  }

  lemma SoloSteps(m: Machine, i: nat, found: Found, reply: Reply)
    ensures Run(m, Solo(i, found, reply))
            == Next(Next(Next(Next(Next(m, i, TryLock), i, Load(found)), i, Call(reply)), i, Revert), i, Record)
  {
    var t := Solo(i, found, reply);
    RunSnoc(m, t, 0);
    RunSnoc(m, t, 1);
    RunSnoc(m, t, 2);
    RunSnoc(m, t, 3);
    RunSnoc(m, t, 4);
    assert t[..5] == t && t[..0] == [];
  }

  // What one undisturbed action comes to. Unless the intent is AUTHORIZED it does nothing. Otherwise it calls
  // the provider if it finds a reference and a configuration and, for a capture, an amount; an accepted call
  // leaves the status reported with it, or else SUCCEEDED for a capture and CANCELED for a void; a rejection,
  // a missing reference or amount opens the row again; a missing configuration or a provider that throws
  // leaves it PROCESSING.
  lemma SoloMeaning(m: Machine, i: nat, found: Found, reply: Reply)
    requires i < |m.actors| && m.actors[i].pc == Start
    ensures var after, action := Run(m, Solo(i, found, reply)), m.actors[i].action;
            var called := found.hasRef && found.hasConfig && (action == Capture ==> found.hasAmount);
            && after.actors == m.actors[i := Actor(action, Done)]
            && (m.status != AUTHORIZED ==> after.status == m.status && after.performed == m.performed)
            && (m.status == AUTHORIZED ==>
                  && after.performed
                     == m.performed + (if called && (reply.Accepted? || reply.happened) then [action] else [])
                  && after.status
                     == if !called then if found.hasRef && !found.hasConfig then PROCESSING else AUTHORIZED
                        else match reply
                          case Accepted(Some(status)) => status
                          case Accepted(None) => (match action case Capture => SUCCEEDED case Void => CANCELED)
                          case Rejected(_) => AUTHORIZED
                          case Threw(_) => PROCESSING)
  {
    SoloSteps(m, i, found, reply);
  }

  lemma SoloSuccess(m: Machine, i: nat, reported: Option<Status>)
    requires i < |m.actors| && m.actors[i].pc == Start && m.status == AUTHORIZED
    ensures var a := m.actors[i];
            Run(m, Solo(i, Found(true, true, true), Accepted(reported)))
            == Machine(Reported(a.action, reported), m.performed + [a.action], m.actors[i := a.(pc := Done)])
  {
    SoloSteps(m, i, Found(true, true, true), Accepted(reported));
  }

  lemma SoloRejection(m: Machine, i: nat, happened: bool)
    requires i < |m.actors| && m.actors[i].pc == Start && m.status == AUTHORIZED
    ensures var a := m.actors[i];
            Run(m, Solo(i, Found(true, true, true), Rejected(happened)))
            == Machine(AUTHORIZED, m.performed + if happened then [a.action] else [], m.actors[i := a.(pc := Done)])
  {
    SoloSteps(m, i, Found(true, true, true), Rejected(happened));
  }

  // A capture and a void that nobody has started, of an intent up for grabs.
  const BOTH: Machine := Machine(AUTHORIZED, [], [Actor(Capture, Start), Actor(Void, Start)])

  // One of the two with the given reply, then the other, which is accepted.
  function Twice(first: nat, reply: Reply, second: Option<Status>): seq<(nat, Event)>
    requires first < 2
  {
    Solo(first, Found(true, true, true), reply) + Solo(1 - first, Found(true, true, true), Accepted(second))
  }

  // A capture reported as AUTHORIZED can be followed by a void.
  lemma CaptureThenVoid(p: Provider)
    requires AUTHORIZED in p.statuses
    ensures exists m: Machine, trace: seq<(nat, Event)> ::
              Fresh(m) && RepliesOf(p, trace) && Run(m, trace).performed == [Capture, Void]
  {
    var found, trace := Found(true, true, true), Twice(0, Accepted(Some(AUTHORIZED)), None);
    RunConcat(BOTH, Solo(0, found, Accepted(Some(AUTHORIZED))), Solo(1, found, Accepted(None)));
    SoloSuccess(BOTH, 0, Some(AUTHORIZED));
    SoloSuccess(Run(BOTH, Solo(0, found, Accepted(Some(AUTHORIZED)))), 1, None);
    assert RepliesOf(p, trace);
  }

  // So can a capture that is rejected and carried out all the same.
  lemma RejectedCaptureThenVoid(p: Provider)
    requires p.rejectsWhatItDoes
    ensures exists m: Machine, trace: seq<(nat, Event)> ::
              Fresh(m) && RepliesOf(p, trace) && Run(m, trace).performed == [Capture, Void]
  {
    RejectedThenOther(0, None);
    assert RepliesOf(p, Twice(0, Rejected(true), None));
  }

  // Whichever comes first: rejected and carried out all the same, it lets the other through.
  lemma RejectedThenOther(first: nat, second: Option<Status>)
    requires first < 2
    ensures Run(BOTH, Twice(first, Rejected(true), second)).performed
            == [BOTH.actors[first].action, BOTH.actors[1 - first].action]
  {
    var found := Found(true, true, true);
    RunConcat(BOTH, Solo(first, found, Rejected(true)), Solo(1 - first, found, Accepted(second)));
    SoloRejection(BOTH, first, true);
    SoloSuccess(Run(BOTH, Solo(first, found, Rejected(true))), 1 - first, second);
  }

  // Once the provider has acted the intent is settled for good: no later step makes it act again or
  // opens the row.
  lemma {:induction false} PerformedIsFinal(m: Machine, trace: seq<(nat, Event)>, p: Provider)
    requires LockInv(m) && m.performed != [] && RepliesOf(p, trace) && Decisive(p)
    ensures Run(m, trace).performed == m.performed && Run(m, trace).status != AUTHORIZED && LockInv(Run(m, trace))
  {
    if trace != [] {
      var n := |trace| - 1;
      PerformedIsFinal(m, trace[..n], p);
      NextKeepsLock(Run(m, trace[..n]), trace[n].0, trace[n].1, p);
    }
  }

  // PROCESSING with nobody holding the lock.
  predicate Wedged(m: Machine) {
    m.status == PROCESSING && forall i :: 0 <= i < |m.actors| ==> !Holding(m.actors[i].pc)
  }

  lemma WedgedStep(m: Machine, i: nat, e: Event)
    requires Wedged(m)
    ensures Wedged(Next(m, i, e)) && Next(m, i, e).performed == m.performed
  {
    if i < |m.actors| { assert !Holding(m.actors[i].pc); }
  }

  // A wedged intent stays wedged: no capture or void can move it again.
  lemma {:induction false} WedgedForever(m: Machine, trace: seq<(nat, Event)>)
    requires Wedged(m)
    ensures Wedged(Run(m, trace)) && Run(m, trace).performed == m.performed
  {
    if trace != [] {
      var n := |trace| - 1;
      WedgedForever(m, trace[..n]);
      WedgedStep(Run(m, trace[..n]), trace[n].0, trace[n].1);
    }
  }

  // Which steps wedge an intent: exactly those that end the lock holder without writing the row (a
  // missing configuration, an exception from the provider, a crash) and a success reported as
  // PROCESSING.
  lemma WedgesExactlyWhen(m: Machine, i: nat, e: Event)
    requires LockInv(m) && i < |m.actors| && Holding(m.actors[i].pc)
    ensures var pc := m.actors[i].pc;
            Wedged(Next(m, i, e))
            <==> || e.Crash?
                 || (pc.Locked? && e.Load? && e.found.hasRef && !e.found.hasConfig)
                 || (pc.Calling? && e.Call? && e.reply.Threw?)
                 || (pc.Recording? && e.Record? && pc.status == PROCESSING)
  {
    var m' := Next(m, i, e);
    assert forall j :: 0 <= j < |m.actors| && j != i ==> m'.actors[j] == m.actors[j] && !Holding(m.actors[j].pc);
    assert Holding(m'.actors[i].pc) ==> !Wedged(m');
  }

  // ---------------------------------------------------------------------------
  // One action, run from start to finish
  // ---------------------------------------------------------------------------

  // The payment intent's row, with the provider's side recorded beside it.
  class PaymentIntent {
    var status: Status
    ghost var performed: seq<Action>

    constructor (initial: Status)
      ensures status == initial && performed == []
    {
      status, performed := initial, [];
    }

    ghost function Seen(action: Action, pc: Pc): Machine
      reads this
    {
      Machine(status, performed, [Actor(action, pc)])
    }

    method RevertLock()
      modifies this`status
      ensures status == AUTHORIZED
    {
      status := AUTHORIZED;
    }

    // captureIntent and voidIntent on the facts they find and the reply they get.
    method Act(action: Action, found: Found, reply: Reply) returns (r: Result<Status, ActionError>)
      modifies this
      ensures Seen(action, Done) == Run(old(Seen(action, Start)), Solo(0, found, reply))
      ensures r.Ok? <==> old(status) == AUTHORIZED && AfterLoad(action, found) == Calling && reply.Accepted?
      ensures r.Ok? ==> status == r.value == Reported(action, reply.status) && performed == old(performed) + [action]
      ensures r.Err? && status == AUTHORIZED ==>
                performed == old(performed)
                    + if AfterLoad(action, found) == Calling && reply == Rejected(true) then [action] else []
      ensures r.Err? ==>
                r.error == if old(status) != AUTHORIZED then InvalidState
                           else if !found.hasRef then MissingProviderRef
                           else if !found.hasConfig then ProviderNotConfigured
                           else if action == Capture && !found.hasAmount then MissingAmount
                           else if reply.Rejected? then ProviderRejected
                           else ProviderUnreachable
    {
      SoloSteps(Seen(action, Start), 0, found, reply);
      if status != AUTHORIZED { return Err(InvalidState); }
      status := PROCESSING;
      if !found.hasRef {
        RevertLock();
        return Err(MissingProviderRef);
      }
      if !found.hasConfig { return Err(ProviderNotConfigured); }
      if action == Capture && !found.hasAmount {
        RevertLock();
        return Err(MissingAmount);
      }
      match reply
      case Threw(happened) =>
        performed := performed + if happened then [action] else [];
        r := Err(ProviderUnreachable);
      case Rejected(happened) =>
        performed := performed + if happened then [action] else [];
        RevertLock();
        r := Err(ProviderRejected);
      case Accepted(reported) =>
        performed := performed + [action];
        status := Reported(action, reported);
        r := Ok(status);
    }
  }

  datatype ActionError =
    InvalidState | MissingProviderRef | ProviderNotConfigured | MissingAmount | ProviderUnreachable | ProviderRejected
}
