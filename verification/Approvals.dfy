/** Approval rows in the store (src/store/memory.rs, src/store/sqlite.rs) and
    the queue of waiting runs (src/approvals.rs). */
module Approvals {
  import opened Common

  type Id = string
  type RunId = string
  type Instance = string

  datatype Status = Pending | Approved | Denied | Expired

  /** A stored request for approval. Tool, arguments and reason never change
      and are left out. */
  datatype Approval = Approval(
    tenant: string,
    runId: RunId,
    status: Status,
    decidedBy: Option<string>,
    note: Option<string>,
    decidedAt: Option<int>)

  datatype RunStatus = Queued | Running | WaitingApproval | Succeeded | Failed

  datatype RunRow = RunRow(source: string, status: RunStatus, instance: Option<Instance>)

  datatype Outcome =
    | ApprovedBy(who: string)
    | DeniedBy(who: string, note: Option<string>)
    | TimedOut

  datatype Tables = Tables(runs: map<RunId, RunRow>, approvals: map<Id, Approval>, instances: map<Instance, int>)

  function OutcomeOf(a: Approval): Option<Outcome> {
    var who := a.decidedBy.GetOr("unknown");
    match a.status
    case Pending => None
    case Approved => Some(ApprovedBy(who))
    case Denied => Some(DeniedBy(who, a.note))
    case Expired => Some(TimedOut)
  }

  // ----- the effect of each store operation -----------------------------------------

  function NewApproval(tenant: string, runId: RunId): Approval {
    Approval(tenant, runId, Pending, None, None, None)
  }

  /** The run goes on, if it was waiting. */
  function Resumed(runs: map<RunId, RunRow>, runId: RunId): map<RunId, RunRow> {
    if runId in runs && runs[runId].status == WaitingApproval then runs[runId := runs[runId].(status := Running)] else runs
  }

  function Created(t: Tables, id: Id, a: Approval): Tables {
    t.(runs := if a.runId in t.runs then t.runs[a.runId := t.runs[a.runId].(status := WaitingApproval)] else t.runs,
       approvals := t.approvals[id := a])
  }

  function Verdict(a: Approval, approve: bool, who: string, note: Option<string>, at: int): Approval {
    a.(status := if approve then Approved else Denied, decidedBy := Some(who), note := note, decidedAt := Some(at))
  }

  predicate Decidable(t: Tables, tenant: string, id: Id) {
    id in t.approvals && t.approvals[id].tenant == tenant && t.approvals[id].status == Pending
  }

  function Decided(t: Tables, tenant: string, id: Id, approve: bool, who: string, note: Option<string>, at: int): Tables {
    if !Decidable(t, tenant, id) then t
    else
      var a := Verdict(t.approvals[id], approve, who, note, at);
      t.(approvals := t.approvals[id := a], runs := Resumed(t.runs, a.runId))
  }

  function ExpiredRow(a: Approval, at: int): Approval {
    if a.status == Pending then a.(status := Expired, decidedAt := Some(at)) else a
  }

  function ExpiredOne(t: Tables, id: Id, at: int): Tables {
    if id in t.approvals then t.(approvals := t.approvals[id := ExpiredRow(t.approvals[id], at)]) else t
  }

  function Read(t: Tables, tenant: string, id: Id): Option<Approval> {
    if id in t.approvals && t.approvals[id].tenant == tenant then Some(t.approvals[id]) else None
  }

  /** Runs of this kind left unfinished by a process that is gone. */
  predicate Interrupted(t: Tables, run: RunRow, prefix: string, me: Instance, stale: int) {
    && run.status in {Queued, Running, WaitingApproval}
    && prefix <= run.source
    && (run.instance.Some? ==>
          && run.instance.value != me
          && !(run.instance.value in t.instances && t.instances[run.instance.value] >= stale))
  }

  function InterruptedIds(t: Tables, prefix: string, me: Instance, stale: int): set<RunId> {
    set r | r in t.runs && Interrupted(t, t.runs[r], prefix, me, stale)
  }

  function FailedIn(runs: map<RunId, RunRow>, ids: set<RunId>): map<RunId, RunRow> {
    map r | r in runs :: if r in ids then runs[r].(status := Failed) else runs[r]
  }

  function ExpiredIn(approvals: map<Id, Approval>, ids: set<RunId>, at: int): map<Id, Approval> {
    map i | i in approvals :: if approvals[i].runId in ids then ExpiredRow(approvals[i], at) else approvals[i]
  }

  function Recovered(t: Tables, prefix: string, me: Instance, stale: int, at: int): Tables {
    var ids := InterruptedIds(t, prefix, me, stale);
    Tables(FailedIn(t.runs, ids), ExpiredIn(t.approvals, ids, at),
           map i | i in t.instances && (t.instances[i] >= stale || i == me) :: t.instances[i])
  }

  // ----- the store, changed in place --------------------------------------------------

  class Store {
    var runs: map<RunId, RunRow>
    var approvals: map<Id, Approval>
    var instances: map<Instance, int>

    function State(): Tables
      reads this
    {
      Tables(runs, approvals, instances)
    }

    constructor ()
      ensures State() == Tables(map[], map[], map[])
    {
      runs, approvals, instances := map[], map[], map[];
    }

    method CreateApproval(id: Id, a: Approval)
      modifies this
      ensures State() == Created(old(State()), id, a)
      ensures approvals == old(approvals)[id := a] && runs.Keys == old(runs).Keys
      ensures forall r :: r in runs ==>
                runs[r] == if r == a.runId then old(runs)[r].(status := WaitingApproval) else old(runs)[r]
    {
      if a.runId in runs {
        runs := runs[a.runId := runs[a.runId].(status := WaitingApproval)];
      }
      approvals := approvals[id := a];
    }

    method DecideApproval(tenant: string, id: Id, approve: bool, who: string, note: Option<string>, at: int)
      returns (decided: Option<Approval>)
      modifies this
      ensures State() == Decided(old(State()), tenant, id, approve, who, note, at)
      ensures decided.Some? <==>
                id in old(approvals) && old(approvals)[id].tenant == tenant && old(approvals)[id].status == Pending
      ensures decided.Some? ==> decided.value == approvals[id]
    {
      if id !in approvals { return None; }
      var a := approvals[id];
      if a.tenant != tenant || a.status != Pending { return None; }
      a := a.(status := if approve then Approved else Denied, decidedBy := Some(who), note := note, decidedAt := Some(at));
      approvals := approvals[id := a];
      if a.runId in runs && runs[a.runId].status == WaitingApproval {
        runs := runs[a.runId := runs[a.runId].(status := Running)];
      }
      decided := Some(a);
    }

    method ExpireApproval(id: Id, at: int)
      modifies this
      ensures State() == ExpiredOne(old(State()), id, at)
      ensures approvals == if id in old(approvals) && old(approvals)[id].status == Pending
                           then old(approvals)[id := old(approvals)[id].(status := Expired, decidedAt := Some(at))]
                           else old(approvals)
    {
      if id in approvals && approvals[id].status == Pending {
        approvals := approvals[id := approvals[id].(status := Expired, decidedAt := Some(at))];
      }
    }

    method GetApproval(tenant: string, id: Id) returns (a: Option<Approval>)
      ensures a == Read(State(), tenant, id)
      ensures a.Some? <==> id in approvals && approvals[id].tenant == tenant
      ensures a.Some? ==> a.value == approvals[id]
    {
      a := if id in approvals && approvals[id].tenant == tenant then Some(approvals[id]) else None;
    }

    /** At startup: close what a process that is gone left unfinished. */
    method RecoverInterrupted(prefix: string, me: Instance, stale: int, at: int) returns (closed: nat)
      modifies this
      ensures State() == Recovered(old(State()), prefix, me, stale, at)
      ensures closed == |InterruptedIds(old(State()), prefix, me, stale)|
    {
      hide Interrupted, ExpiredIn, FailedIn, InterruptedIds;
      var ids := InterruptedIds(State(), prefix, me, stale);
      closed := |ids|;
      runs := FailedIn(runs, ids);
      var todo := ids;
      ExpiredInNone(approvals, at);
      assert ids - todo == {};
      while todo != {}
        invariant todo <= ids
        invariant runs == FailedIn(old(runs), ids) && instances == old(instances)
        invariant approvals == ExpiredIn(old(approvals), ids - todo, at)
        decreases todo
      {
        var id :| id in todo;
        approvals := ExpiredIn(approvals, {id}, at);
        ExpiredInTwice(old(approvals), ids - todo, id, at);
        assert ids - (todo - {id}) == ids - todo + {id};
        todo := todo - {id};
      }
      assert ids - todo == ids;
      instances := map i | i in instances && !(instances[i] < stale && i != me) :: instances[i];
    }
  }

  lemma ExpiredInNone(approvals: map<Id, Approval>, at: int)
    ensures ExpiredIn(approvals, {}, at) == approvals
  {
  }

  lemma ExpiredInTwice(approvals: map<Id, Approval>, ids: set<RunId>, id: RunId, at: int)
    ensures ExpiredIn(ExpiredIn(approvals, ids, at), {id}, at) == ExpiredIn(approvals, ids + {id}, at)
  {
  }

  // ----- the queue of waiting runs ------------------------------------------------------

  /** What wakes a waiting run; a poll shows the row it read, if it could. */
  datatype Wake =
    | Message(outcome: Outcome)
    | SenderGone
    | DeadlinePassed
    | PollTick(row: Option<Approval>)

  /** Whether this ends the wait, and with which outcome heard. */
  function Heard(w: Wake): Option<Option<Outcome>> {
    match w
    case Message(o) => Some(Some(o))
    case SenderGone => Some(None)
    case DeadlinePassed => Some(None)
    case PollTick(Some(a)) => if OutcomeOf(a).Some? then Some(OutcomeOf(a)) else None
    case PollTick(None) => None
  }

  class ApprovalQueue {
    const store: Store
    /** Runs waiting for a message, by approval. */
    var waiters: set<Id>
    /** Messages sent to them. */
    var sent: map<Id, Outcome>

    constructor (store: Store)
      ensures this.store == store && waiters == {} && sent == map[]
    {
      this.store := store;
      waiters, sent := {}, map[];
    }

    /** The waiting loop: over the wakes in order, until one ends it. */
    method Await(wakes: seq<Wake>) returns (ended: bool, decided: Option<Outcome>)
      ensures ended <==> exists i :: 0 <= i < |wakes| && Heard(wakes[i]).Some?
      ensures ended ==> exists i :: 0 <= i < |wakes| && Heard(wakes[i]) == Some(decided)
                          && forall j :: 0 <= j < i ==> Heard(wakes[j]) == None
    {
      ended, decided := false, None;
      for i := 0 to |wakes|
        invariant !ended && forall j :: 0 <= j < i ==> Heard(wakes[j]) == None
      {
        match wakes[i]
        case Message(o) => return true, Some(o);
        case SenderGone => return true, None;
        case DeadlinePassed => return true, None;
        case PollTick(row) =>
          if row.Some? && OutcomeOf(row.value).Some? { return true, OutcomeOf(row.value); }
      }
    }

    /** After the wait: a decision heard, or the row itself once expired. */
    method Conclude(tenant: string, id: Id, decided: Option<Outcome>, at: int) returns (outcome: Outcome)
      modifies this, store
      ensures waiters == old(waiters) - {id} && sent == old(sent)
      ensures decided.Some? ==> outcome == decided.value && store.State() == old(store.State())
      ensures decided == None ==> store.State() == ExpiredOne(old(store.State()), id, at)
      ensures decided == None ==> outcome == OutcomeRead(store.State(), tenant, id)
    {
      waiters := waiters - {id};
      if decided.Some? { return decided.value; }
      store.ExpireApproval(id, at);
      var row := store.GetApproval(tenant, id);
      outcome := if row.Some? then OutcomeOf(row.value).GetOr(TimedOut) else TimedOut;
    }

    /** Record a decision and wake the waiting run. */
    method Decide(tenant: string, id: Id, approve: bool, who: string, note: Option<string>, at: int)
      returns (decided: Option<Approval>)
      modifies this, store
      ensures store.State() == Decided(old(store.State()), tenant, id, approve, who, note, at)
      ensures decided.Some? <==> (
                && id in old(store.approvals)
                && old(store.approvals)[id].tenant == tenant && old(store.approvals)[id].status == Pending)
      ensures decided.Some? && id in old(waiters) ==>
        waiters == old(waiters) - {id} && sent == old(sent)[id := SentOutcome(approve, who, note)]
      ensures !(decided.Some? && id in old(waiters)) ==> waiters == old(waiters) && sent == old(sent)
    {
      decided := store.DecideApproval(tenant, id, approve, who, note, at);
      if decided.Some? && id in waiters {
        waiters := waiters - {id};
        sent := sent[id := if approve then ApprovedBy(who) else DeniedBy(who, note)];
      }
    }
  }

  /** Whose decision counts: nobody but the row's own tenant changes anything, and
      only while it is pending; then exactly that row gets the verdict, with who
      gave it and the note, and its run goes on if it was waiting. */
  lemma {:induction false} OwnTenantDecides(
    t: Tables, tenant: string, id: Id, approve: bool, who: string, note: Option<string>, at: int)
    ensures var t' := Decided(t, tenant, id, approve, who, note, at);
            if id in t.approvals && t.approvals[id].tenant == tenant && t.approvals[id].status == Pending then
              && t'.approvals == t.approvals[id := Approval(tenant, t.approvals[id].runId,
                                   if approve then Approved else Denied, Some(who), note, Some(at))]
              && t'.runs.Keys == t.runs.Keys && t'.instances == t.instances
              && forall r :: r in t.runs ==>
                   t'.runs[r] == if r == t.approvals[id].runId && t.runs[r].status == WaitingApproval
                                 then t.runs[r].(status := Running) else t.runs[r]
            else t' == t
  {
  }

  /** What a row tells a waiting run: nothing while pending, then its own verdict,
      who gave it and the note; an expired row tells that nobody decided. */
  lemma {:induction false} OutcomeExactly(a: Approval)
    ensures OutcomeOf(a) == None <==> a.status == Pending
    ensures forall who :: OutcomeOf(a) == Some(ApprovedBy(who)) <==>
              a.status == Approved && who == (if a.decidedBy.Some? then a.decidedBy.value else "unknown")
    ensures forall who, note :: OutcomeOf(a) == Some(DeniedBy(who, note)) <==>
              a.status == Denied && note == a.note && who == (if a.decidedBy.Some? then a.decidedBy.value else "unknown")
    ensures OutcomeOf(a) == Some(TimedOut) <==> a.status == Expired
  {
  }

  /** A decision, a lost sender and the deadline end the wait, and so does a poll
      that shows a row no longer pending; nothing else does, and only a decision
      or such a row is an outcome. */
  lemma {:induction false} WhatEndsTheWait(w: Wake)
    ensures Heard(w).Some? <==>
            w.Message? || w.SenderGone? || w.DeadlinePassed? || (w.row.Some? && w.row.value.status != Pending)
    ensures w.Message? ==> Heard(w) == Some(Some(w.outcome))
    ensures w.SenderGone? || w.DeadlinePassed? ==> Heard(w) == Some(None)
    ensures w.PollTick? && Heard(w).Some? ==> Heard(w).value.Some? && Heard(w).value == OutcomeOf(w.row.value)
  {
  }

  function SentOutcome(approve: bool, who: string, note: Option<string>): Outcome {
    if approve then ApprovedBy(who) else DeniedBy(who, note)
  }

  function OutcomeRead(t: Tables, tenant: string, id: Id): Outcome {
    var row := Read(t, tenant, id);
    if row.Some? then OutcomeOf(row.value).GetOr(TimedOut) else TimedOut
  }

  // ----- recovery ------------------------------------------------------------------------

  /** Unfinished, of this kind, and of no process that may still be at it: no
      process written on it, or one that is not this one and was not seen since. */
  predicate Abandoned(t: Tables, run: RunRow, prefix: string, me: Instance, stale: int) {
    && run.status != Succeeded && run.status != Failed
    && |prefix| <= |run.source| && run.source[..|prefix|] == prefix
    && match run.instance
       case None => true
       case Some(i) => i != me && (i in t.instances ==> t.instances[i] < stale)
  }

  /** Recovery closes exactly the unfinished runs of this kind whose process is
      gone, expires exactly their pending approvals, and touches nothing of a
      process that is this one or was seen since `stale`. */
  lemma RecoveryClosesOnlyTheGone(t: Tables, prefix: string, me: Instance, stale: int, at: int)
    ensures var t' := Recovered(t, prefix, me, stale, at);
      && t'.runs.Keys == t.runs.Keys && t'.approvals.Keys == t.approvals.Keys
      && (forall r :: r in t.runs ==>
            t'.runs[r] == if Abandoned(t, t.runs[r], prefix, me, stale) then t.runs[r].(status := Failed) else t.runs[r])
      && (forall i :: i in t.approvals ==>
            t'.approvals[i] == if t.approvals[i].status == Pending && t.approvals[i].runId in t.runs
                                  && Abandoned(t, t.runs[t.approvals[i].runId], prefix, me, stale)
                               then t.approvals[i].(status := Expired, decidedAt := Some(at)) else t.approvals[i])
      && (forall i :: i in t'.instances <==> i in t.instances && (i == me || t.instances[i] >= stale))
      && (forall r :: r in t.runs && t.runs[r].instance.Some?
            && (t.runs[r].instance.value == me
                || (t.runs[r].instance.value in t.instances && t.instances[t.runs[r].instance.value] >= stale))
            ==> t'.runs[r] == t.runs[r])
  {
  }

  /** A second recovery at the same moment finds nothing left to close. */
  lemma RecoveryIsIdempotent(t: Tables, prefix: string, me: Instance, stale: int, at: int)
    ensures var once := Recovered(t, prefix, me, stale, at);
            InterruptedIds(once, prefix, me, stale) == {} && Recovered(once, prefix, me, stale, at) == once
  {
    var once := Recovered(t, prefix, me, stale, at);
    assert InterruptedIds(once, prefix, me, stale) == {};
    assert FailedIn(once.runs, {}) == once.runs && ExpiredIn(once.approvals, {}, at) == once.approvals;
  }
}
