/** The approval protocol as a state machine: a waiting run may learn its
    decision from a message, a poll or the expiry path, while other tasks and
    other processes decide, expire and recover rows. Every store operation,
    every change of the waiters and every message is a step of its own. */
module ApprovalProtocol {
  import opened Common
  import opened Approvals

  /** A call that needs approval, from the request to its execution. */
  datatype Phase =
    | Registered                       // waiter in place, no row yet
    | Waiting                          // row created
    | Woken(decided: Option<Outcome>)  // the wait ended
    | Left(decided: Option<Outcome>)   // waiter removed
    | Expiring                         // its row was expired if still pending
    | Returned(outcome: Outcome)
    | Executed                         // the tool ran
    | Aborted                          // a store operation failed

  datatype Request = Request(tenant: string, runId: RunId, phase: Phase)

  /** A decision in the store whose task has not woken the run yet. */
  datatype Wakeup = Wakeup(id: Id, outcome: Outcome)

  datatype State = State(
    tables: Tables,
    waiters: set<Id>,
    sent: map<Id, Outcome>,
    requests: map<Id, Request>,
    deciding: set<Wakeup>)

  datatype Step =
    | Register(id: Id, tenant: string, runId: RunId)
    | Create(id: Id, stored: bool)
    | HearMessage(id: Id)
    | HearNothing(id: Id)  // the deadline passed, or the sender is gone
    | Poll(id: Id)
    | Leave(id: Id)
    | Finish(id: Id)
    | Expire(id: Id, at: int, stored: bool)
    | ReadBack(id: Id, stored: bool)
    | Execute(id: Id)
    | Decide(id: Id, tenant: string, approve: bool, who: string, note: Option<string>, at: int)
    | Wake(wakeup: Wakeup)
    | DecideElsewhere(id: Id, tenant: string, approve: bool, who: string, note: Option<string>, at: int)
    | ExpireElsewhere(id: Id, at: int)
    | CreateElsewhere(id: Id, a: Approval)
    | Recover(prefix: string, me: Instance, stale: int, at: int)
    | OtherTables(runs: map<RunId, RunRow>, instances: map<Instance, int>)

  predicate Init(s: State) {
    s.waiters == {} && s.sent == map[] && s.requests == map[] && s.deciding == {}
  }

  function Moved(s: State, id: Id, phase: Phase): State
    requires id in s.requests
  {
    s.(requests := s.requests[id := s.requests[id].(phase := phase)])
  }

  predicate RequestStep(s: State, s': State, step: Step, id: Id, r: Request)
    requires id in s.requests && s.requests[id] == r
  {
    match step
    case Create(_, stored) =>
      && r.phase == Registered
      && (stored ==> id !in s.tables.approvals)
      && s' == if stored
               then Moved(s, id, Waiting).(tables := Created(s.tables, id, NewApproval(r.tenant, r.runId)))
               else Moved(s, id, Aborted).(waiters := s.waiters - {id})
    case HearMessage(_) => r.phase == Waiting && id in s.sent && s' == Moved(s, id, Woken(Some(s.sent[id])))
    case HearNothing(_) => r.phase == Waiting && s' == Moved(s, id, Woken(None))
    case Poll(_) =>
      var row := Read(s.tables, r.tenant, id);
      r.phase == Waiting &&
      s' == if row.Some? && OutcomeOf(row.value).Some? then Moved(s, id, Woken(OutcomeOf(row.value))) else s
    case Leave(_) =>
      r.phase.Woken? && s' == Moved(s, id, Left(r.phase.decided)).(waiters := s.waiters - {id})
    case Finish(_) =>
      r.phase.Left? && r.phase.decided.Some? && s' == Moved(s, id, Returned(r.phase.decided.value))
    case Expire(_, at, stored) =>
      && r.phase == Left(None)
      && s' == if stored then Moved(s, id, Expiring).(tables := ExpiredOne(s.tables, id, at)) else Moved(s, id, Aborted)
    case ReadBack(_, stored) =>
      && r.phase == Expiring
      && s' == Moved(s, id, if stored then Returned(OutcomeRead(s.tables, r.tenant, id)) else Aborted)
    case Execute(_) =>
      r.phase.Returned? && r.phase.outcome.ApprovedBy? && s' == Moved(s, id, Executed)
    case _ => false
  }

  ghost predicate NextStep(s: State, s': State, step: Step) {
    match step
    case Register(id, tenant, runId) =>
      && id !in s.requests && id !in s.tables.approvals && id !in s.sent
      && s' == s.(requests := s.requests[id := Request(tenant, runId, Registered)], waiters := s.waiters + {id})
    case Decide(id, tenant, approve, who, note, at) =>
      s' == s.(tables := Decided(s.tables, tenant, id, approve, who, note, at),
               deciding := if Decidable(s.tables, tenant, id)
                           then s.deciding + {Wakeup(id, SentOutcome(approve, who, note))} else s.deciding)
    case Wake(w) =>
      && w in s.deciding
      && s' == if w.id in s.waiters
               then s.(deciding := s.deciding - {w}, waiters := s.waiters - {w.id}, sent := s.sent[w.id := w.outcome])
               else s.(deciding := s.deciding - {w})
    case DecideElsewhere(id, tenant, approve, who, note, at) =>
      s' == s.(tables := Decided(s.tables, tenant, id, approve, who, note, at))
    case ExpireElsewhere(id, at) => s' == s.(tables := ExpiredOne(s.tables, id, at))
    case CreateElsewhere(id, a) =>
      id !in s.tables.approvals && id !in s.requests && a.status == Pending && s' == s.(tables := Created(s.tables, id, a))
    case Recover(prefix, me, stale, at) => s' == s.(tables := Recovered(s.tables, prefix, me, stale, at))
    case OtherTables(runs, instances) => s' == s.(tables := s.tables.(runs := runs, instances := instances))
    case _ =>
      step.id in s.requests && RequestStep(s, s', step, step.id, s.requests[step.id])
  }

  ghost predicate Next(s: State, s': State) {
    exists step :: NextStep(s, s', step)
  }

  ghost predicate Behaviour(trace: seq<State>) {
    && |trace| > 0 && Init(trace[0])
    && forall i :: 0 <= i < |trace| - 1 ==> Next(trace[i], trace[i + 1])
  }

  // ----- rows ----------------------------------------------------------------------------

  /** The row exists and its decision is `o`. */
  predicate Shows(t: Tables, id: Id, o: Outcome) {
    id in t.approvals && OutcomeOf(t.approvals[id]) == Some(o)
  }

  /** Rows are never lost, keep their tenant, and change only while pending. */
  ghost predicate RowsSettle(t: Tables, t': Tables) {
    forall i :: i in t.approvals ==>
      && i in t'.approvals && t'.approvals[i].tenant == t.approvals[i].tenant
      && (t.approvals[i].status != Pending ==> t'.approvals[i] == t.approvals[i])
  }

  lemma RecoverySettles(t: Tables, prefix: string, me: Instance, stale: int, at: int)
    ensures RowsSettle(t, Recovered(t, prefix, me, stale, at))
  {
    hide InterruptedIds, FailedIn;
  }

  lemma DecisionSettles(t: Tables, tenant: string, id: Id, approve: bool, who: string, note: Option<string>, at: int)
    ensures RowsSettle(t, Decided(t, tenant, id, approve, who, note, at))
  {
  }

  lemma ExpirySettles(t: Tables, id: Id, at: int)
    ensures RowsSettle(t, ExpiredOne(t, id, at))
  {
  }

  /** What a request's own step does to the rows. */
  lemma {:induction false} RequestSettlesRows(s: State, s': State, step: Step, id: Id)
    requires id in s.requests && RequestStep(s, s', step, id, s.requests[id])
    ensures RowsSettle(s.tables, s'.tables)
  {
    hide OutcomeOf, OutcomeRead, Read, ExpiredOne;
    if step.Expire? {
      ExpirySettles(s.tables, id, step.at);
    }
  }

  lemma {:induction false} StepsSettleRows(s: State, s': State, step: Step)
    requires NextStep(s, s', step)
    ensures RowsSettle(s.tables, s'.tables)
  {
    hide Recovered, Decided, ExpiredOne, Decidable, SentOutcome, RequestStep;
    if MovesRequest(step) {
      RequestSettlesRows(s, s', step, step.id);
      return;
    }
    match step
    case Recover(prefix, me, stale, at) => RecoverySettles(s.tables, prefix, me, stale, at);
    case Decide(id, tenant, approve, who, note, at) => DecisionSettles(s.tables, tenant, id, approve, who, note, at);
    case DecideElsewhere(id, tenant, approve, who, note, at) => DecisionSettles(s.tables, tenant, id, approve, who, note, at);
    case ExpireElsewhere(id, at) => ExpirySettles(s.tables, id, at);
    case _ =>
  }

  lemma RowsSettleTwice(a: Tables, b: Tables, c: Tables)
    requires RowsSettle(a, b) && RowsSettle(b, c)
    ensures RowsSettle(a, c)
  {
  }

  lemma RowsSettleAtOnce(t: Tables)
    ensures RowsSettle(t, t)
  {
  }

  lemma {:induction false} RowsSettleOverRun(trace: seq<State>, i: nat, j: nat)
    requires Behaviour(trace) && i <= j < |trace|
    ensures RowsSettle(trace[i].tables, trace[j].tables)
    decreases j
  {
    hide NextStep, RowsSettle;
    if i == j {
      RowsSettleAtOnce(trace[i].tables);
    } else {
      RowsSettleOverRun(trace, i, j - 1);
      assert Next(trace[j - 1], trace[j - 1 + 1]);
      var step :| NextStep(trace[j - 1], trace[j], step);
      StepsSettleRows(trace[j - 1], trace[j], step);
      RowsSettleTwice(trace[i].tables, trace[j - 1].tables, trace[j].tables);
    }
  }

  // ----- the invariant ---------------------------------------------------------------------

  /** What a request has heard is what its row says. */
  predicate RequestOk(t: Tables, id: Id, r: Request) {
    match r.phase
    case Registered => true
    case Aborted => true
    case Waiting => HasRow(t, id, r)
    case Woken(decided) => HasRow(t, id, r) && (decided.Some? ==> Shows(t, id, decided.value))
    case Left(decided) => HasRow(t, id, r) && (decided.Some? ==> Shows(t, id, decided.value))
    case Expiring => HasRow(t, id, r) && t.approvals[id].status != Pending
    case Returned(o) => HasRow(t, id, r) && Shows(t, id, o)
    case Executed => HasRow(t, id, r) && t.approvals[id].status == Approved
  }

  predicate HasRow(t: Tables, id: Id, r: Request) {
    id in t.approvals && t.approvals[id].tenant == r.tenant
  }

  ghost predicate Inv(s: State) {
    && (forall id :: id in s.requests ==> RequestOk(s.tables, id, s.requests[id]))
    && (forall id :: id in s.sent ==> Shows(s.tables, id, s.sent[id]))
    && (forall w :: w in s.deciding ==> Shows(s.tables, w.id, w.outcome))
  }

  lemma RequestOkLasts(t: Tables, t': Tables, id: Id, r: Request)
    requires RequestOk(t, id, r) && RowsSettle(t, t')
    ensures RequestOk(t', id, r)
  {
  }

  /** The request that moves hears only what its row says. */
  lemma RequestMoves(s: State, s': State, step: Step, id: Id)
    requires Inv(s) && id in s.requests && RequestStep(s, s', step, id, s.requests[id])
    ensures id in s'.requests && RequestOk(s'.tables, id, s'.requests[id])
    ensures forall other :: other != id ==>
      (other in s.requests <==> other in s'.requests) && (other in s.requests ==> s'.requests[other] == s.requests[other])
  {
  }

  /** Every other step leaves the requests alone, or adds a new one. */
  lemma RequestsPreserved(s: State, s': State, step: Step, id: Id)
    requires Inv(s) && NextStep(s, s', step) && RowsSettle(s.tables, s'.tables) && id in s'.requests
    ensures RequestOk(s'.tables, id, s'.requests[id])
  {
    if MovesRequest(step) {
      RequestMoves(s, s', step, step.id);
    }
    if id in s.requests && !(MovesRequest(step) && step.id == id) {
      RequestOkLasts(s.tables, s'.tables, id, s.requests[id]);
    }
  }

  predicate MovesRequest(step: Step) {
    step.Create? || step.HearMessage? || step.HearNothing? || step.Poll? || step.Leave? || step.Finish?
    || step.Expire? || step.ReadBack? || step.Execute?
  }

  /** Where a message comes from, and a wakeup. */
  lemma {:induction false} MessagesOf(s: State, s': State, step: Step)
    requires NextStep(s, s', step)
    ensures forall id :: id in s'.sent ==>
              (id in s.sent && s'.sent[id] == s.sent[id]) || Wakeup(id, s'.sent[id]) in s.deciding
    ensures forall w :: w in s'.deciding && w !in s.deciding ==> Shows(s'.tables, w.id, w.outcome)
  {
    hide Recovered, ExpiredOne, OutcomeRead, Read;
    if step.Decide? && Decidable(s.tables, step.tenant, step.id) {
      DecisionShows(s.tables, step.tenant, step.id, step.approve, step.who, step.note, step.at);
    }
    hide Decided, OutcomeOf, Shows;
  }

  lemma DecisionShows(t: Tables, tenant: string, id: Id, approve: bool, who: string, note: Option<string>, at: int)
    requires Decidable(t, tenant, id)
    ensures Shows(Decided(t, tenant, id, approve, who, note, at), id, SentOutcome(approve, who, note))
  {
  }

  lemma ShowsStays(t: Tables, t': Tables, id: Id, o: Outcome)
    requires Shows(t, id, o) && RowsSettle(t, t')
    ensures Shows(t', id, o)
  {
  }

  /** Messages sent and about to be sent agree with the rows. */
  lemma {:induction false} MessagesPreserved(s: State, s': State, step: Step)
    requires Inv(s) && NextStep(s, s', step) && RowsSettle(s.tables, s'.tables)
    ensures forall id :: id in s'.sent ==> Shows(s'.tables, id, s'.sent[id])
    ensures forall w :: w in s'.deciding ==> Shows(s'.tables, w.id, w.outcome)
  {
    hide NextStep, Shows, RowsSettle, RequestOk;
    MessagesOf(s, s', step);
    forall w | w in s'.deciding ensures Shows(s'.tables, w.id, w.outcome) {
      if w in s.deciding {
        ShowsStays(s.tables, s'.tables, w.id, w.outcome);
      }
    }
    forall id | id in s'.sent ensures Shows(s'.tables, id, s'.sent[id]) {
      if Wakeup(id, s'.sent[id]) in s.deciding {
        assert Shows(s.tables, Wakeup(id, s'.sent[id]).id, Wakeup(id, s'.sent[id]).outcome);
      }
      ShowsStays(s.tables, s'.tables, id, s'.sent[id]);
    }
  }

  lemma InvPreserved(s: State, s': State)
    requires Inv(s) && Next(s, s')
    ensures Inv(s')
  {
    var step :| NextStep(s, s', step);
    StepsSettleRows(s, s', step);
    MessagesPreserved(s, s', step);
    forall id | id in s'.requests
      ensures RequestOk(s'.tables, id, s'.requests[id])
    {
      RequestsPreserved(s, s', step, id);
    }
  }

  lemma {:induction false} InvHolds(trace: seq<State>, i: nat)
    requires Behaviour(trace) && i < |trace|
    ensures Inv(trace[i])
  {
    if i > 0 {
      InvHolds(trace, i - 1);
      assert Next(trace[i - 1], trace[i - 1 + 1]);
      InvPreserved(trace[i - 1], trace[i]);
    }
  }

  // ----- the properties ----------------------------------------------------------------------

  /** An approval leaves pending at most once: from then on its row never
      changes and is never lost. */
  lemma DecidedOnce(trace: seq<State>, i: nat, j: nat, id: Id)
    requires Behaviour(trace) && i <= j < |trace|
    requires id in trace[i].tables.approvals && trace[i].tables.approvals[id].status != Pending
    ensures id in trace[j].tables.approvals && trace[j].tables.approvals[id] == trace[i].tables.approvals[id]
  {
    RowsSettleOverRun(trace, i, j);
  }

  /** The outcome a request returns is the one stored, then and ever after. */
  lemma OutcomeIsStored(trace: seq<State>, i: nat, j: nat, id: Id)
    requires Behaviour(trace) && i <= j < |trace|
    requires id in trace[i].requests && trace[i].requests[id].phase.Returned?
    ensures Shows(trace[i].tables, id, trace[i].requests[id].phase.outcome)
    ensures Shows(trace[j].tables, id, trace[i].requests[id].phase.outcome)
  {
    InvHolds(trace, i);
    DecidedOnce(trace, i, j, id);
  }

  /** A step by which this tenant decides on an approval. */
  predicate Decides(step: Step, id: Id, tenant: string, approve: bool, who: string, note: Option<string>) {
    match step
    case Decide(i, t, ok, giver, n, _) => i == id && t == tenant && ok == approve && giver == who && n == note
    case DecideElsewhere(i, t, ok, giver, n, _) => i == id && t == tenant && ok == approve && giver == who && n == note
    case _ => false
  }

  predicate IsDecided(t: Tables, id: Id) {
    id in t.approvals && (t.approvals[id].status == Approved || t.approvals[id].status == Denied)
  }

  /** Whatever step leaves a row approved or denied that was not: its own tenant
      decided so, and the row keeps the verdict, who gave it and the note. */
  lemma {:induction false} DecidedByItsTenant(s: State, s': State, step: Step, id: Id)
    requires NextStep(s, s', step) && !IsDecided(s.tables, id) && IsDecided(s'.tables, id)
    ensures id in s.tables.approvals && s.tables.approvals[id].status == Pending
    ensures var row := s'.tables.approvals[id];
            && row.tenant == s.tables.approvals[id].tenant && row.decidedBy.Some?
            && Decides(step, id, row.tenant, row.status == Approved, row.decidedBy.value, row.note)
  {
    hide OutcomeOf, OutcomeRead, SentOutcome, Recovered;
    match step
    case Recover(prefix, me, stale, at) => RecoveryDecidesNothing(s.tables, prefix, me, stale, at, id);
    case _ =>
  }

  lemma {:induction false} RecoveryDecidesNothing(t: Tables, prefix: string, me: Instance, stale: int, at: int, id: Id)
    ensures IsDecided(Recovered(t, prefix, me, stale, at), id) ==> IsDecided(t, id)
  {
    hide InterruptedIds, FailedIn;
  }

  /** A row approved in a run that began without it was approved, in some step
      before, by its own tenant. */
  lemma {:induction false} DecisionOf(trace: seq<State>, j: nat, id: Id) returns (i: nat, step: Step)
    requires Behaviour(trace) && j < |trace| && !IsDecided(trace[0].tables, id) && IsDecided(trace[j].tables, id)
    ensures i < j && NextStep(trace[i], trace[i + 1], step)
    ensures var row := trace[j].tables.approvals[id];
            row.decidedBy.Some? && Decides(step, id, row.tenant, row.status == Approved, row.decidedBy.value, row.note)
  {
    hide NextStep, Decides;
    assert Next(trace[j - 1], trace[j - 1 + 1]);
    if IsDecided(trace[j - 1].tables, id) {
      i, step := DecisionOf(trace, j - 1, id);
      DecidedOnce(trace, j - 1, j, id);
    } else {
      i := j - 1;
      step :| NextStep(trace[j - 1], trace[j], step);
      DecidedByItsTenant(trace[j - 1], trace[j], step, id);
    }
  }

  /** A request's row is made after the run began. */
  lemma {:induction false} RequestsAreNew(trace: seq<State>, j: nat, id: Id)
    requires Behaviour(trace) && j < |trace| && id in trace[j].requests
    ensures id !in trace[0].tables.approvals
  {
    hide NextStep;
    if j > 0 && id in trace[j - 1].requests {
      RequestsAreNew(trace, j - 1, id);
    } else if j > 0 {
      assert Next(trace[j - 1], trace[j - 1 + 1]);
      var step :| NextStep(trace[j - 1], trace[j], step);
      OnlyRegisteringAdds(trace[j - 1], trace[j], step, id);
      RowsSettleOverRun(trace, 0, j - 1);
    }
  }

  lemma {:induction false} OnlyRegisteringAdds(s: State, s': State, step: Step, id: Id)
    requires NextStep(s, s', step) && id in s'.requests && id !in s.requests
    ensures id !in s.tables.approvals
  {
  }

  /** A call that needed approval executes only after a step in which a person of
      its own tenant approved it. */
  lemma {:induction false} ExecutedOnlyIfItsTenantApproved(trace: seq<State>, j: nat, id: Id) returns (i: nat, step: Step)
    requires Behaviour(trace) && j < |trace| && id in trace[j].requests && trace[j].requests[id].phase == Executed
    ensures i < j && NextStep(trace[i], trace[i + 1], step)
    ensures id in trace[j].tables.approvals
    ensures var row := trace[j].tables.approvals[id];
            && row.decidedBy.Some?
            && Decides(step, id, trace[j].requests[id].tenant, true, row.decidedBy.value, row.note)
  {
    hide NextStep, Decides;
    InvHolds(trace, j);
    RequestsAreNew(trace, j, id);
    i, step := DecisionOf(trace, j, id);
  }

  /** A call that needed approval executes only with an approved row, and the
      row stays approved. */
  lemma ExecutedOnlyIfApproved(trace: seq<State>, i: nat, j: nat, id: Id)
    requires Behaviour(trace) && i <= j < |trace|
    requires id in trace[i].requests && trace[i].requests[id].phase == Executed
    ensures id in trace[j].tables.approvals && trace[j].tables.approvals[id].status == Approved
  {
    InvHolds(trace, i);
    DecidedOnce(trace, i, j, id);
  }

  /** Some task says that the decision is `o`: it was sent, is about to be sent,
      was heard, or was returned. */
  predicate Says(s: State, id: Id, o: Outcome) {
    || (id in s.sent && s.sent[id] == o)
    || Wakeup(id, o) in s.deciding
    || (id in s.requests && s.requests[id].phase.Woken? && s.requests[id].phase.decided == Some(o))
    || (id in s.requests && s.requests[id].phase.Left? && s.requests[id].phase.decided == Some(o))
    || (id in s.requests && s.requests[id].phase == Returned(o))
  }

  /** At any two moments, whatever is sent, about to be sent, heard or returned
      for one approval is the same outcome, and the one its row keeps. */
  lemma {:induction false} AllHearTheSame(trace: seq<State>, i: nat, j: nat, id: Id, a: Outcome, b: Outcome)
    requires Behaviour(trace) && i <= j < |trace| && Says(trace[i], id, a) && Says(trace[j], id, b)
    ensures a == b && Shows(trace[j].tables, id, b)
  {
    hide Behaviour, OutcomeOf, NextStep;
    InvHolds(trace, i);
    InvHolds(trace, j);
    SaidIsShown(trace[i], id, a);
    SaidIsShown(trace[j], id, b);
    RowsSettleOverRun(trace, i, j);
    ShowsStays(trace[i].tables, trace[j].tables, id, a);
  }

  lemma {:induction false} SaidIsShown(s: State, id: Id, o: Outcome)
    requires Inv(s) && Says(s, id, o)
    ensures Shows(s.tables, id, o)
  {
    if Wakeup(id, o) in s.deciding {
      assert Shows(s.tables, Wakeup(id, o).id, Wakeup(id, o).outcome);
    }
    hide Shows, HasRow;
  }
}
