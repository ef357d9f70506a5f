/** The reservation protocol of src/service.rs as a state machine: one process,
    any number of tenants and requests, every shared read and write a step of
    its own. One request at a time holds the gate; recording and dropping go on
    without it. */
module LimitProtocol {
  import opened Common
  import opened Limits
  import Calendar

  type Id = nat

  /** A slot held by a request, and whether its work is in the store yet. */
  datatype Reservation = Reservation(key: Key, recorded: bool)

  /** What the request holding the gate has read so far, in the order it reads. */
  datatype Stage =
    | Entered
    | CallsRead(modelCalls: nat)
    | RunsRead(calls: nat)
    | PendingRead(calls: nat, pending: nat)
    | ClockRead(calls: nat, pending: nat, day: int, month: int)
    | MonthRead(calls: nat, pending: nat, day: int, month: int, m: Usage)
    | DayRead(calls: nat, pending: nat, day: int, month: int, m: Usage, d: Usage)

  datatype Check = Check(key: Key, stage: Stage)

  datatype State = State(
    now: int,
    inFlight: InFlight,
    gate: Option<Check>,
    held: map<Id, Reservation>,
    log: seq<Entry>)

  type Limited = map<Tenant, TenantLimits>

  datatype Step =
    | Tick(later: int)
    | Enter(key: Key)
    | ReadCalls
    | ReadRuns
    | ReadPending
    | ReadClock
    | ReadMonth
    | ReadDay
    | Admit(id: Id)
    | Leave                       // refused, failed or cancelled
    | AdmitFree(id: Id, key: Key) // a tenant without limits skips the gate
    | Record(id: Id, entry: Entry)
    | Release(id: Id)

  predicate Init(s: State) {
    s.inFlight == map[] && s.gate == None && s.held == map[] && s.log == []
  }

  predicate AtGate(s: State, s': State, stage: Stage) {
    s.gate.Some? && s' == s.(gate := Some(s.gate.value.(stage := stage)))
  }

  ghost predicate NextStep(limits: Limited, s: State, s': State, step: Step) {
    match step
    case Tick(later) => s.now <= later && s' == s.(now := later)
    case Enter(key) =>
      s.gate == None && key.tenant in limits && s' == s.(gate := Some(Check(key, Entered)))
    case Leave => s.gate.Some? && s' == s.(gate := None)
    case AdmitFree(id, key) =>
      key.tenant !in limits && id !in s.held && s' == Admitted(s, id, key)
    case Record(id, entry) =>
      && id in s.held && !s.held[id].recorded
      && entry.key == s.held[id].key && entry.at == s.now
      && s' == s.(held := s.held[id := s.held[id].(recorded := true)], log := s.log + [entry])
    case Release(id) =>
      id in s.held && s' == s.(held := s.held - {id}, inFlight := Dropped(s.inFlight, s.held[id].key))
    case _ =>
      s.gate.Some? && GateStep(limits, s, s', step, s.gate.value.key, s.gate.value.stage)
  }

  function Admitted(s: State, id: Id, key: Key): State {
    s.(held := s.held[id := Reservation(key, false)], inFlight := Reserved(s.inFlight, key))
  }

  ghost predicate GateStep(limits: Limited, s: State, s': State, step: Step, key: Key, g: Stage)
    requires s.gate == Some(Check(key, g))
  {
    match step
    case ReadCalls =>
      g.Entered? && AtGate(s, s', CallsRead(Pending(s.inFlight, Key(key.tenant, ModelCall))))
    case ReadRuns =>
      g.CallsRead? && AtGate(s, s', RunsRead(g.modelCalls + Pending(s.inFlight, Key(key.tenant, Run))))
    case ReadPending =>
      g.RunsRead? && AtGate(s, s', PendingRead(g.calls, Pending(s.inFlight, key)))
    case ReadClock =>
      && g.PendingRead?
      && AtGate(s, s', ClockRead(g.calls, g.pending, Calendar.DayStart(s.now), Calendar.MonthStart(s.now)))
    case ReadMonth =>
      && g.ClockRead?
      && AtGate(s, s', MonthRead(g.calls, g.pending, g.day, g.month, UsageSince(s.log, key.tenant, g.month)))
    case ReadDay =>
      && g.MonthRead? && key.tenant in limits && MonthAllows(limits[key.tenant], key.what, g.m, g.calls)
      && AtGate(s, s', DayRead(g.calls, g.pending, g.day, g.month, g.m, UsageSince(s.log, key.tenant, g.day)))
    case Admit(id) =>
      && g.DayRead? && key.tenant in limits && DayAllows(limits[key.tenant], key.what, g.d, g.pending)
      && id !in s.held && s' == Admitted(s, id, key).(gate := None)
    case _ => false
  }

  ghost predicate Next(limits: Limited, s: State, s': State) {
    exists step :: NextStep(limits, s, s', step)
  }

  ghost predicate Behaviour(limits: Limited, trace: seq<State>) {
    && |trace| > 0 && Init(trace[0])
    && forall i :: 0 <= i < |trace| - 1 ==> Next(limits, trace[i], trace[i + 1])
  }

  // ----- counting reservations ---------------------------------------------------

  ghost function HeldIds(held: map<Id, Reservation>, key: Key): set<Id> {
    set i | i in held && held[i].key == key
  }

  /** Reserved and not yet in the store. */
  ghost function LiveIds(held: map<Id, Reservation>, key: Key): set<Id> {
    set i | i in held && held[i].key == key && !held[i].recorded
  }

  ghost function Live(s: State, key: Key): nat {
    |LiveIds(s.held, key)|
  }

  /** Work of this kind recorded since `since`, or reserved and not yet recorded. */
  ghost function Load(s: State, key: Key, since: int): nat {
    Recorded(s.log, key, since) + Live(s, key)
  }

  /** Model calls of the tenant recorded since `since` or under way, runs about
      to make their first call included. */
  ghost function CallLoad(s: State, tenant: Tenant, since: int): nat {
    Load(s, Key(tenant, ModelCall), since) + Live(s, Key(tenant, Run))
  }

  // ----- the invariant -------------------------------------------------------------

  /** Every in-flight count is the number of reservations held on its key. */
  ghost predicate CountsExact(s: State) {
    && (forall key :: Pending(s.inFlight, key) == |HeldIds(s.held, key)|)
    && (forall key :: key in s.inFlight ==> s.inFlight[key] > 0)
  }

  /** No tenant is over its limit on runs or its limit on fetches, counting what
      is reserved. */
  ghost predicate DailySafe(limits: Limited, s: State) {
    forall t :: t in limits ==> DayKept(limits[t], t, s)
  }

  ghost predicate DayKept(l: TenantLimits, t: Tenant, s: State) {
    && (l.maxRunsPerDay.Some? ==> Load(s, Key(t, Run), Calendar.DayStart(s.now)) <= l.maxRunsPerDay.value)
    && (l.maxFetchesPerDay.Some? ==> Load(s, Key(t, Fetch), Calendar.DayStart(s.now)) <= l.maxFetchesPerDay.value)
  }

  /** What the gate's holder has read still bounds what it read about. */
  ghost predicate GateInv(s: State) {
    s.gate.Some? ==>
      var key, g := s.gate.value.key, s.gate.value.stage;
      var t := key.tenant;
      match g
      case Entered => true
      case CallsRead(modelCalls) => Live(s, Key(t, ModelCall)) <= modelCalls
      case RunsRead(calls) => LiveCalls(s, t) <= calls
      case PendingRead(calls, pending) => LiveCalls(s, t) <= calls && Live(s, key) <= pending
      case ClockRead(calls, pending, day, month) =>
        LiveCalls(s, t) <= calls && Live(s, key) <= pending && Started(s, day, month)
      case MonthRead(calls, pending, day, month, m) =>
        CallLoad(s, t, month) <= m.llmCalls + calls && Live(s, key) <= pending && Started(s, day, month)
      case DayRead(calls, pending, day, month, m, d) =>
        && CallLoad(s, t, month) <= m.llmCalls + calls && Started(s, day, month)
        && (key.what != ModelCall ==> Load(s, key, day) <= pending + UsedToday(d, key.what))
  }

  ghost function LiveCalls(s: State, tenant: Tenant): nat {
    Live(s, Key(tenant, ModelCall)) + Live(s, Key(tenant, Run))
  }

  predicate Started(s: State, day: int, month: int) {
    day <= Calendar.DayStart(s.now) && month <= Calendar.MonthStart(s.now)
  }

  predicate GateLimited(limits: Limited, s: State) {
    s.gate.Some? ==> s.gate.value.key.tenant in limits
  }

  ghost predicate Inv(limits: Limited, s: State) {
    CountsExact(s) && DailySafe(limits, s) && GateLimited(limits, s) && GateInv(s)
  }

  // ----- what each step does to the counts -------------------------------------------

  predicate Admits(s: State, step: Step, key: Key) {
    match step
    case Admit(_) => s.gate.Some? && s.gate.value.key == key
    case AdmitFree(_, k) => k == key
    case _ => false
  }

  lemma LoadAfterRecord(s: State, id: Id, entry: Entry, key: Key, since: int)
    requires id in s.held && !s.held[id].recorded && entry.key == s.held[id].key
    ensures var s' := s.(held := s.held[id := s.held[id].(recorded := true)], log := s.log + [entry]);
            Load(s', key, since) <= Load(s, key, since) && Live(s', key) <= Live(s, key)
  {
    RecordedAppend(s.log, entry, key, since);
    var after := s.held[id := s.held[id].(recorded := true)];
    if entry.key == key {
      assert id in LiveIds(s.held, key);
      assert LiveIds(after, key) == LiveIds(s.held, key) - {id};
    } else {
      assert LiveIds(after, key) == LiveIds(s.held, key);
    }
  }

  /** A step that does not admit work on `key` never raises its load. */
  lemma LoadNeverGrows(limits: Limited, s: State, s': State, step: Step, key: Key, since: int)
    requires NextStep(limits, s, s', step) && !Admits(s, step, key)
    ensures Load(s', key, since) <= Load(s, key, since) && Live(s', key) <= Live(s, key)
  {
    match step
    case Record(id, entry) => LoadAfterRecord(s, id, entry, key, since);
    case Release(id) => SubsetSize(LiveIds(s'.held, key), LiveIds(s.held, key));
    case Admit(id) => assert LiveIds(s'.held, key) == LiveIds(s.held, key);
    case AdmitFree(id, k) => assert LiveIds(s'.held, key) == LiveIds(s.held, key);
    case _ =>
  }

  lemma LoadAfterAdmission(s: State, id: Id, key: Key, since: int)
    requires id !in s.held
    ensures Load(Admitted(s, id, key), key, since) == Load(s, key, since) + 1
    ensures Live(Admitted(s, id, key), key) == Live(s, key) + 1
  {
    assert LiveIds(Admitted(s, id, key).held, key) == LiveIds(s.held, key) + {id};
  }

  lemma LiveWithinPending(s: State, key: Key)
    requires CountsExact(s)
    ensures Live(s, key) <= Pending(s.inFlight, key)
  {
    SubsetSize(LiveIds(s.held, key), HeldIds(s.held, key));
  }

  lemma HeldAfterRelease(s: State, id: Id, key: Key)
    requires id in s.held && Pending(s.inFlight, key) == |HeldIds(s.held, key)|
    ensures Pending(Dropped(s.inFlight, s.held[id].key), key) == |HeldIds(s.held - {id}, key)|
  {
    var before, after := HeldIds(s.held, key), HeldIds(s.held - {id}, key);
    if s.held[id].key == key {
      assert id in before && after == before - {id};
    } else {
      assert after == before;
    }
  }

  lemma HeldAfterRecord(s: State, id: Id, key: Key)
    requires id in s.held
    ensures HeldIds(s.held[id := s.held[id].(recorded := true)], key) == HeldIds(s.held, key)
  {
  }

  predicate ChangesTable(step: Step) { step.Record? || step.Release? || step.Admit? || step.AdmitFree? }

  lemma {:induction false} TableKept(limits: Limited, s: State, s': State, step: Step)
    requires NextStep(limits, s, s', step) && !ChangesTable(step)
    ensures s'.held == s.held && s'.inFlight == s.inFlight
  {
    hide UsageSince, MonthAllows, DayAllows, Calendar.DayStart, Calendar.MonthStart, Pending;
  }

  /** What a step does to the reservations on one key. */
  lemma {:induction false} HeldAfter(limits: Limited, s: State, s': State, step: Step, key: Key)
    requires NextStep(limits, s, s', step)
    requires Pending(s.inFlight, key) == |HeldIds(s.held, key)|
    ensures Pending(s'.inFlight, key) == |HeldIds(s'.held, key)|
  {
    if !ChangesTable(step) {
      TableKept(limits, s, s', step);
    } else {
      hide HeldIds, Dropped, MonthAllows, DayAllows;
      match step
      case Record(id, _) => HeldAfterRecord(s, id, key);
      case Release(id) => HeldAfterRelease(s, id, key);
      case Admit(id) => HeldAfterAdmission(s, id, s.gate.value.key, key);
      case AdmitFree(id, k) => HeldAfterAdmission(s, id, k, key);
    }
  }

  lemma {:induction false} TableStaysPositive(limits: Limited, s: State, s': State, step: Step, key: Key)
    requires NextStep(limits, s, s', step)
    requires key in s.inFlight ==> s.inFlight[key] > 0
    ensures key in s'.inFlight ==> s'.inFlight[key] > 0
  {
  }

  lemma {:induction false} CountsPreserved(limits: Limited, s: State, s': State, step: Step)
    requires CountsExact(s) && NextStep(limits, s, s', step)
    ensures CountsExact(s')
  {
    hide NextStep, Pending, HeldIds;
    forall key ensures Pending(s'.inFlight, key) == |HeldIds(s'.held, key)| {
      HeldAfter(limits, s, s', step, key);
    }
    forall key | key in s'.inFlight ensures s'.inFlight[key] > 0 {
      TableStaysPositive(limits, s, s', step, key);
    }
  }

  lemma HeldAfterAdmission(s: State, id: Id, k: Key, key: Key)
    requires id !in s.held
    ensures |HeldIds(Admitted(s, id, k).held, key)| == |HeldIds(s.held, key)| + (if k == key then 1 else 0)
  {
    var after := HeldIds(Admitted(s, id, k).held, key);
    assert after == if k == key then HeldIds(s.held, key) + {id} else HeldIds(s.held, key);
  }

  /** Steps of other requests keep what the holder has read a bound. */
  lemma GateUndisturbed(limits: Limited, s: State, s': State, step: Step)
    requires GateInv(s) && NextStep(limits, s, s', step) && s.gate.Some? && s'.gate == s.gate
    requires GateLimited(limits, s)
    ensures GateInv(s')
  {
    var key, g := s.gate.value.key, s.gate.value.stage;
    var calls, runs := Key(key.tenant, ModelCall), Key(key.tenant, Run);
    LoadNeverGrows(limits, s, s', step, calls, if g.MonthRead? || g.DayRead? then g.month else 0);
    LoadNeverGrows(limits, s, s', step, runs, 0);
    LoadNeverGrows(limits, s, s', step, key, if g.DayRead? then g.day else 0);
    if step.Tick? {
      Calendar.StartsAreMonotone(s.now, s'.now);
    }
  }

  /** What the holder reads next is such a bound. */
  lemma GateAdvances(limits: Limited, s: State, s': State, step: Step)
    requires CountsExact(s) && GateInv(s) && NextStep(limits, s, s', step)
    requires s.gate.Some? && s'.gate.Some? && s'.gate != s.gate
    ensures GateInv(s')
  {
    var key := s.gate.value.key;
    LiveWithinPending(s, Key(key.tenant, ModelCall));
    LiveWithinPending(s, Key(key.tenant, Run));
    LiveWithinPending(s, key);
    hide CountsExact, Live, Recorded, Pending, Calendar.DayStart, Calendar.MonthStart, MonthAllows, DayAllows;
    if step.ReadMonth? || step.ReadDay? {
      Calendar.StartsAreMonotone(s.now, s.now);
    }
  }

  lemma GatePreserved(limits: Limited, s: State, s': State, step: Step)
    requires Inv(limits, s) && NextStep(limits, s, s', step)
    ensures GateInv(s') && GateLimited(limits, s')
  {
    if s.gate.Some? && s'.gate == s.gate {
      GateUndisturbed(limits, s, s', step);
    } else if s.gate.Some? && s'.gate.Some? {
      GateAdvances(limits, s, s', step);
    }
  }

  /** An admission under a limit leaves room for itself. */
  lemma {:induction false} LoadAfterStep(limits: Limited, s: State, s': State, step: Step, key: Key, max: nat)
    requires Inv(limits, s) && NextStep(limits, s, s', step) && key.tenant in limits
    requires DailyLimit(limits[key.tenant], key.what) == Some(max) && Load(s, key, Calendar.DayStart(s.now)) <= max
    ensures Load(s', key, Calendar.DayStart(s'.now)) <= max
  {
    var today := Calendar.DayStart(s.now);
    if Admits(s, step, key) {
      var g := s.gate.value.stage;
      LoadAfterAdmission(s, step.id, key, today);
      RecordedLater(s.log, key, g.day, today);
    } else {
      LoadNeverGrows(limits, s, s', step, key, today);
      if step.Tick? {
        Calendar.StartsAreMonotone(s.now, s'.now);
        RecordedLater(s.log, key, today, Calendar.DayStart(s'.now));
      }
    }
  }

  lemma {:induction false} DailyPreserved(limits: Limited, s: State, s': State, step: Step)
    requires Inv(limits, s) && NextStep(limits, s, s', step)
    ensures DailySafe(limits, s')
  {
    hide NextStep, CountsExact, GateInv, GateLimited, Load, Calendar.DayStart;
    forall t | t in limits ensures DayKept(limits[t], t, s') {
      assert DayKept(limits[t], t, s);
      if limits[t].maxRunsPerDay.Some? {
        LoadAfterStep(limits, s, s', step, Key(t, Run), limits[t].maxRunsPerDay.value);
      }
      if limits[t].maxFetchesPerDay.Some? {
        LoadAfterStep(limits, s, s', step, Key(t, Fetch), limits[t].maxFetchesPerDay.value);
      }
    }
  }

  lemma InvPreserved(limits: Limited, s: State, s': State)
    requires Inv(limits, s) && Next(limits, s, s')
    ensures Inv(limits, s')
  {
    var step :| NextStep(limits, s, s', step);
    CountsPreserved(limits, s, s', step);
    GatePreserved(limits, s, s', step);
    DailyPreserved(limits, s, s', step);
  }

  lemma InitInv(limits: Limited, s: State)
    requires Init(s)
    ensures Inv(limits, s)
  {
    forall key
      ensures HeldIds(s.held, key) == {} && LiveIds(s.held, key) == {}
    {
    }
  }

  /** In every interleaving, at every moment: the runs (or fetches) recorded
      today plus those reserved and not yet recorded are within the tenant's
      daily limit, and every in-flight count is exactly the number of
      reservations held on its key. */
  lemma {:induction false} DailyLimitsHold(limits: Limited, trace: seq<State>, i: nat)
    requires Behaviour(limits, trace) && i < |trace|
    ensures Inv(limits, trace[i]) && CountsExact(trace[i])
    ensures forall t :: t in limits ==> DayKept(limits[t], t, trace[i])
  {
    if i == 0 {
      InitInv(limits, trace[0]);
    } else {
      DailyLimitsHold(limits, trace, i - 1);
      InvPreserved(limits, trace[i - 1], trace[i]);
    }
  }

  // ----- why the order of the reads matters --------------------------------------------

  /** A check of a run with its reads the other way round: the day's usage as
      it was in `read`, then the table, then the slot. */
  predicate SwappedAdmission(limits: Limited, read: State, s: State, s': State, id: Id, key: Key) {
    && key.tenant in limits && key.what == Run && id !in s.held
    && DayAllows(limits[key.tenant], Run, UsageSince(read.log, key.tenant, Calendar.DayStart(read.now)), Pending(s.inFlight, key))
    && s' == Admitted(s, id, key)
  }

  lemma {:induction false} LoneRunLeaves(limits: Limited, s: State, s1: State, s2: State, id: Id, e: Entry)
    requires CountsExact(s) && NextStep(limits, s, s1, Record(id, e)) && NextStep(limits, s1, s2, Release(id))
    requires forall i :: i in s.held && s.held[i].key == e.key ==> i == id
    requires e.at >= Calendar.DayStart(s.now)
    ensures Pending(s2.inFlight, e.key) == 0 && s2.now == s.now && s2.held == s.held - {id}
    ensures Load(s2, e.key, Calendar.DayStart(s.now)) == Load(s, e.key, Calendar.DayStart(s.now))
    ensures Live(s, e.key) == 1
  {
    hide CountsExact, Calendar.DayStart, GateStep;
    var today := Calendar.DayStart(s.now);
    CountsPreserved(limits, s, s1, Record(id, e));
    CountsPreserved(limits, s1, s2, Release(id));
    assert HeldIds(s2.held, e.key) == {} && LiveIds(s2.held, e.key) == {} && LiveIds(s.held, e.key) == {id};
    RecordedAppend(s.log, e, e.key, today);
    NoneHeldIsNone(s2, e.key);
  }

  lemma {:induction false} NoneHeldIsNone(s: State, key: Key)
    requires HeldIds(s.held, key) == {}
    ensures CountsExact(s) ==> Pending(s.inFlight, key) == 0
  {
  }

  /** Had the store been read before the table, the only run under way, recorded
      and dropped in between, would be seen by neither read: with the day full
      the check still passes, and the day goes over its limit. */
  lemma {:induction false} OppositeReadOrderMissesWork(
    limits: Limited, s: State, s1: State, s2: State, id: Id, e: Entry, other: Id)
    requires Inv(limits, s) && NextStep(limits, s, s1, Record(id, e)) && NextStep(limits, s1, s2, Release(id))
    requires e.key.what == Run && e.key.tenant in limits && limits[e.key.tenant].maxRunsPerDay.Some?
    requires Load(s, e.key, Calendar.DayStart(s.now)) == limits[e.key.tenant].maxRunsPerDay.value
    requires forall i :: i in s.held && s.held[i].key == e.key ==> i == id
    requires other !in s2.held
    ensures var s3 := Admitted(s2, other, e.key);
            && SwappedAdmission(limits, s, s2, s3, other, e.key) && !DayKept(limits[e.key.tenant], e.key.tenant, s3)
            && Load(s3, e.key, Calendar.DayStart(s3.now)) == limits[e.key.tenant].maxRunsPerDay.value + 1
  {
    Calendar.StartsAreMonotone(s.now, s.now);
    LoneRunLeaves(limits, s, s1, s2, id, e);
    hide NextStep, Inv, Calendar.DayStart, Live;
    LoadAfterAdmission(s2, other, e.key, Calendar.DayStart(s.now));
  }

  // ----- the code without interference is a run of the machine --------------------------

  ghost predicate Steps(limits: Limited, run: seq<State>) {
    forall i :: 0 <= i < |run| - 1 ==> Next(limits, run[i], run[i + 1])
  }

  lemma StepsExtend(limits: Limited, run: seq<State>, s: State, step: Step)
    requires |run| > 0 && Steps(limits, run) && NextStep(limits, run[|run| - 1], s, step)
    ensures Steps(limits, run + [s])
  {
    var longer := run + [s];
    forall i | 0 <= i < |longer| - 1
      ensures Next(limits, longer[i], longer[i + 1])
    {
      if i < |run| - 1 {
        assert Next(limits, run[i], run[i + 1]);
      }
    }
  }

  /** No time passes and nothing is recorded. */
  ghost predicate NothingElse(s: State, run: seq<State>) {
    forall i :: 0 <= i < |run| ==> run[i].now == s.now && run[i].log == s.log
  }

  /** The reads of one check, up to the month's usage. */
  lemma UninterruptedReads(limits: Limited, s: State, key: Key) returns (run: seq<State>)
    requires s.gate == None && key.tenant in limits
    ensures |run| > 1 && run[0] == s && Steps(limits, run) && NothingElse(s, run)
    ensures var day, month := Calendar.DayStart(s.now), Calendar.MonthStart(s.now);
            run[|run| - 1] == s.(gate := Some(Check(key,
              MonthRead(PendingCalls(s.inFlight, key.tenant), Pending(s.inFlight, key), day, month,
                        UsageSince(s.log, key.tenant, month)))))
  {
    var t := key.tenant;
    var calls, pending := PendingCalls(s.inFlight, t), Pending(s.inFlight, key);
    var day, month := Calendar.DayStart(s.now), Calendar.MonthStart(s.now);
    var stages := [Entered, CallsRead(Pending(s.inFlight, Key(t, ModelCall))), RunsRead(calls),
                   PendingRead(calls, pending), ClockRead(calls, pending, day, month),
                   MonthRead(calls, pending, day, month, UsageSince(s.log, t, month))];
    var steps := [Enter(key), ReadCalls, ReadRuns, ReadPending, ReadClock, ReadMonth];
    run := [s];
    for i := 0 to 6
      invariant |run| == i + 1 && run[0] == s && Steps(limits, run) && NothingElse(s, run)
      invariant run[i] == if i == 0 then s else s.(gate := Some(Check(key, stages[i - 1])))
    {
      var next := s.(gate := Some(Check(key, stages[i])));
      StepsExtend(limits, run, next, steps[i]);
      run := run + [next];
    }
  }

  /** With nothing in between, the machine admits what the sequential check
      admits, and ends in the same table. */
  lemma UninterruptedCheck(limits: Limited, s: State, key: Key, id: Id) returns (run: seq<State>)
    requires s.gate == None && key.tenant in limits && id !in s.held
    ensures |run| > 1 && run[0] == s && Steps(limits, run) && NothingElse(s, run)
    ensures run[|run| - 1] ==
      if Admissible(limits[key.tenant], key, s.log, s.now, Pending(s.inFlight, key), PendingCalls(s.inFlight, key.tenant))
      then Admitted(s, id, key) else s
  {
    run := UninterruptedReads(limits, s, key);
    var l, g := limits[key.tenant], run[|run| - 1].gate.value.stage;
    if MonthAllows(l, key.what, g.m, g.calls) {
      var d := UsageSince(s.log, key.tenant, g.day);
      var read := s.(gate := Some(Check(key, DayRead(g.calls, g.pending, g.day, g.month, g.m, d))));
      StepsExtend(limits, run, read, ReadDay);
      run := run + [read];
      if DayAllows(l, key.what, d, g.pending) {
        StepsExtend(limits, run, Admitted(s, id, key), Admit(id));
        run := run + [Admitted(s, id, key)];
        return;
      }
    }
    StepsExtend(limits, run, s, Leave);
    run := run + [s];
  }
}
