/** The monthly budgets of src/service.rs, in tokens and in cost, over runs of
    the reservation protocol. */
module MonthlyBudget {
  import opened Common
  import opened Limits
  import opened LimitProtocol
  import Calendar

  /** What a monthly limit counts. */
  datatype Measure = InTokens | InCost

  function Amount(e: Entry, m: Measure): real {
    if m.InTokens? then (e.inputTokens + e.outputTokens) as real else e.cost
  }

  function Spent(u: Usage, m: Measure): real {
    if m.InTokens? then (u.inputTokens + u.outputTokens) as real else u.cost
  }

  function MonthLimit(l: TenantLimits, m: Measure): Option<real> {
    match m
    case InTokens => if l.maxTokensPerMonth.Some? then Some(l.maxTokensPerMonth.value as real) else None
    case InCost => l.maxCostPerMonth
  }

  /** Every model call the tenant recorded this month came to `each`. */
  ghost predicate Uniform(log: seq<Entry>, tenant: Tenant, month: int, m: Measure, each: real) {
    forall i :: 0 <= i < |log| && Since(log[i], Key(tenant, ModelCall), month) ==> Amount(log[i], m) == each
  }

  function Times(each: real, n: int): real { each * n as real }

  lemma TimesOneMore(each: real, n: int)
    ensures Times(each, n + 1) == Times(each, n) + each
  {
  }

  lemma TimesOrdered(each: real, a: int, b: int)
    requires each >= 0.0 && a <= b
    ensures Times(each, a) <= Times(each, b)
  {
  }

  lemma {:induction false} UniformSpent(log: seq<Entry>, tenant: Tenant, month: int, m: Measure, each: real)
    requires Uniform(log, tenant, month, m, each)
    ensures var u := UsageSince(log, tenant, month); Spent(u, m) == Times(each, u.llmCalls)
  {
    hide Times;
    if |log| > 0 {
      UniformSpent(log[..|log| - 1], tenant, month, m, each);
      TimesOneMore(each, Recorded(log[..|log| - 1], Key(tenant, ModelCall), month));
    } else {
      TimesNone(each);
    }
  }

  lemma TimesNone(each: real)
    ensures Times(each, 0) == 0.0
  {
  }

  /** With every call at the average, the projected tokens are exact. */
  lemma ProjectionIsExact(m: Usage, calls: nat, t: nat)
    requires m.llmCalls > 0 && m.inputTokens + m.outputTokens == t * m.llmCalls
    ensures ProjectedTokens(m, calls) == t * (m.llmCalls + calls)
  {
    var used, n := t * m.llmCalls, m.llmCalls;
    assert used as real == t as real * n as real;
    assert PerCall(used as real, n) == t as real;
    assert calls as real * t as real == (calls * t) as real;
    CeilOfInt(calls * t);
  }

  lemma AverageIsExact(total: real, n: nat, calls: nat, each: real)
    requires n > 0 && total == Times(each, n)
    ensures total + calls as real * PerCall(total, n) == Times(each, n + calls)
  {
    assert PerCall(total, n) == each;
  }

  /** What the month's check lets through is below the limit, each call under
      way counted at the average. */
  lemma AllowedIsBelow(l: TenantLimits, what: Consume, u: Usage, calls: nat, m: Measure)
    requires MonthAllows(l, what, u, calls) && what != Fetch && MonthLimit(l, m).Some?
    ensures Spent(u, m) + calls as real * PerCall(Spent(u, m), u.llmCalls) < MonthLimit(l, m).value
  {
    hide PerCall;
    var total := Spent(u, m);
    var extra := calls as real * PerCall(total, u.llmCalls);
    CeilAbove(extra);
  }

  lemma CeilAbove(x: real)
    ensures x <= Ceil(x) as real
  {
  }

  /** The tenant's limit on one measure, and what each of its calls comes to. */
  datatype Budget = Budget(tenant: Tenant, month: int, measure: Measure, max: real, each: real)

  ghost predicate HasLimit(limits: Limited, b: Budget) {
    b.tenant in limits && MonthLimit(limits[b.tenant], b.measure) == Some(b.max) && b.each >= 0.0
  }

  ghost predicate Below(b: Budget, load: int) { Times(b.each, load) < b.max + b.each }

  /** In the month, at least one call recorded, and calls recorded or under way
      below the limit plus one call. */
  ghost predicate WithinBudget(s: State, b: Budget) {
    && Calendar.MonthStart(s.now) == b.month
    && Recorded(s.log, Key(b.tenant, ModelCall), b.month) > 0
    && Uniform(s.log, b.tenant, b.month, b.measure, b.each)
    && Below(b, CallLoad(s, b.tenant, b.month))
  }

  /** A check under way has read the month's usage after that first call. */
  ghost predicate FreshRead(s: State, b: Budget) {
    s.gate.Some? && s.gate.value.key.tenant == b.tenant ==>
      var g := s.gate.value.stage;
      && (g.ClockRead? || g.MonthRead? || g.DayRead? ==> g.month == b.month)
      && (g.MonthRead? || g.DayRead? ==>
            g.m.llmCalls > 0 && Spent(g.m, b.measure) == Times(b.each, g.m.llmCalls))
      && (g.DayRead? && s.gate.value.key.what != Fetch ==> Times(b.each, g.m.llmCalls + g.calls) < b.max)
  }

  /** The step stays in the month and records only calls of that amount. */
  ghost predicate Regular(s: State, s': State, b: Budget) {
    Calendar.MonthStart(s'.now) == b.month && Uniform(s'.log, b.tenant, b.month, b.measure, b.each)
  }

  /** Only the gate's steps change what its holder has read. */
  lemma {:induction false} GateKept(limits: Limited, s: State, s': State, step: Step)
    requires NextStep(limits, s, s', step)
    requires !IsRead(step)
    ensures s'.gate.Some? ==> s'.gate == s.gate || s'.gate.value.stage == Entered
  {
  }

  lemma {:induction false} FreshMonthRead(limits: Limited, s: State, s': State, b: Budget)
    requires NextStep(limits, s, s', ReadMonth) && WithinBudget(s, b) && FreshRead(s, b)
    ensures FreshRead(s', b)
  {
    UniformSpent(s.log, b.tenant, b.month, b.measure, b.each);
    hide Times, Below, Spent, UsageSince, Calendar.MonthStart, Calendar.DayStart;
  }

  lemma {:induction false} FreshDayRead(limits: Limited, s: State, s': State, b: Budget)
    requires NextStep(limits, s, s', ReadDay) && HasLimit(limits, b) && FreshRead(s, b)
    ensures FreshRead(s', b)
  {
    var key, g := s.gate.value.key, s.gate.value.stage;
    if key.tenant == b.tenant && key.what != Fetch {
      AllowedIsBelow(limits[b.tenant], key.what, g.m, g.calls, b.measure);
      AverageIsExact(Spent(g.m, b.measure), g.m.llmCalls, g.calls, b.each);
    }
    hide Times, Spent, UsageSince, MonthAllows, PerCall, Calendar.MonthStart, Calendar.DayStart;
  }

  lemma {:induction false} FreshEarlyRead(limits: Limited, s: State, s': State, step: Step, b: Budget)
    requires NextStep(limits, s, s', step) && IsEarlyRead(step)
    requires WithinBudget(s, b)
    ensures FreshRead(s', b)
  {
    hide Times, Below, Spent, UsageSince, Calendar.MonthStart, Calendar.DayStart, Uniform, CallLoad;
  }

  predicate IsEarlyRead(step: Step) { step.ReadCalls? || step.ReadRuns? || step.ReadPending? || step.ReadClock? }

  predicate IsRead(step: Step) { IsEarlyRead(step) || step.ReadMonth? || step.ReadDay? }

  lemma {:induction false} FreshKept(s: State, s': State, b: Budget)
    requires FreshRead(s, b) && (s'.gate.Some? ==> s'.gate == s.gate || s'.gate.value.stage == Entered)
    ensures FreshRead(s', b)
  {
    hide Times, Spent;
  }

  lemma {:induction false} FreshReadPreserved(limits: Limited, s: State, s': State, step: Step, b: Budget)
    requires NextStep(limits, s, s', step) && HasLimit(limits, b)
    requires WithinBudget(s, b) && FreshRead(s, b)
    ensures FreshRead(s', b)
  {
    hide NextStep, WithinBudget, HasLimit, FreshRead;
    if step.ReadMonth? {
      FreshMonthRead(limits, s, s', b);
    } else if step.ReadDay? {
      FreshDayRead(limits, s, s', b);
    } else if IsEarlyRead(step) {
      FreshEarlyRead(limits, s, s', step, b);
    } else {
      GateKept(limits, s, s', step);
      FreshKept(s, s', b);
    }
  }

  /** An admission that counts as a call adds one to what its check had read. */
  lemma {:induction false} AdmissionWithinBudget(limits: Limited, s: State, s': State, step: Step, b: Budget, key: Key)
    requires Inv(limits, s) && NextStep(limits, s, s', step) && HasLimit(limits, b) && FreshRead(s, b)
    requires Admits(s, step, key) && key.tenant == b.tenant && key.what != Fetch
    ensures Below(b, CallLoad(s', b.tenant, b.month))
  {
    AdmittedByGate(limits, s, s', step, key);
    var g := s.gate.value.stage;
    var other := Key(b.tenant, if key.what == Run then ModelCall else Run);
    LoadAfterAdmission(s, step.id, key, b.month);
    LoadNeverGrows(limits, s, s', step, other, b.month);
    GateBounds(limits, s);
    hide NextStep, Inv, Times, Load, Live;
    TimesOrdered(b.each, CallLoad(s', b.tenant, b.month), g.m.llmCalls + g.calls + 1);
    TimesOneMore(b.each, g.m.llmCalls + g.calls);
  }

  /** A tenant with limits is admitted only by the gate's last step. */
  lemma {:induction false} AdmittedByGate(limits: Limited, s: State, s': State, step: Step, key: Key)
    requires NextStep(limits, s, s', step) && Admits(s, step, key) && key.tenant in limits
    ensures step.Admit? && s.gate.Some? && s.gate.value.key == key && s.gate.value.stage.DayRead?
    ensures step.id !in s.held && s' == Admitted(s, step.id, key).(gate := None)
  {
  }

  lemma {:induction false} GateBounds(limits: Limited, s: State)
    requires Inv(limits, s) && s.gate.Some? && s.gate.value.stage.DayRead?
    ensures var key, g := s.gate.value.key, s.gate.value.stage;
            CallLoad(s, key.tenant, g.month) <= g.m.llmCalls + g.calls
  {
  }

  lemma {:induction false} OthersWithinBudget(limits: Limited, s: State, s': State, step: Step, b: Budget)
    requires NextStep(limits, s, s', step) && WithinBudget(s, b) && b.each >= 0.0
    requires !Admits(s, step, Key(b.tenant, ModelCall)) && !Admits(s, step, Key(b.tenant, Run))
    ensures Below(b, CallLoad(s', b.tenant, b.month))
  {
    hide NextStep, Times, Uniform;
    LoadNeverGrows(limits, s, s', step, Key(b.tenant, ModelCall), b.month);
    LoadNeverGrows(limits, s, s', step, Key(b.tenant, Run), b.month);
    TimesOrdered(b.each, CallLoad(s', b.tenant, b.month), CallLoad(s, b.tenant, b.month));
  }

  lemma {:induction false} RecordedStays(limits: Limited, s: State, s': State, step: Step, key: Key, since: int)
    requires NextStep(limits, s, s', step)
    ensures Recorded(s.log, key, since) <= Recorded(s'.log, key, since)
  {
    if step.Record? {
      RecordedAppend(s.log, step.entry, key, since);
    }
    hide Recorded;
  }

  lemma {:induction false} BudgetPreserved(limits: Limited, s: State, s': State, b: Budget)
    requires Inv(limits, s) && Next(limits, s, s') && HasLimit(limits, b)
    requires WithinBudget(s, b) && FreshRead(s, b) && Regular(s, s', b)
    ensures WithinBudget(s', b) && FreshRead(s', b)
  {
    var step :| NextStep(limits, s, s', step);
    hide NextStep, Inv, FreshRead, Below, CallLoad, Uniform, MonthLimit;
    FreshReadPreserved(limits, s, s', step, b);
    var calls, runs := Key(b.tenant, ModelCall), Key(b.tenant, Run);
    RecordedStays(limits, s, s', step, calls, b.month);
    if Admits(s, step, calls) {
      AdmissionWithinBudget(limits, s, s', step, b, calls);
    } else if Admits(s, step, runs) {
      AdmissionWithinBudget(limits, s, s', step, b, runs);
    } else {
      OthersWithinBudget(limits, s, s', step, b);
    }
  }

  ghost predicate InMonth(limits: Limited, trace: seq<State>, from: nat, b: Budget) {
    && Behaviour(limits, trace) && from < |trace|
    && forall i :: from <= i < |trace| - 1 ==> Regular(trace[i], trace[i + 1], b)
  }

  lemma {:induction false} BudgetOverRun(limits: Limited, trace: seq<State>, from: nat, b: Budget, i: nat)
    requires InMonth(limits, trace, from, b) && HasLimit(limits, b) && from <= i < |trace|
    requires WithinBudget(trace[from], b) && FreshRead(trace[from], b)
    ensures WithinBudget(trace[i], b) && FreshRead(trace[i], b)
  {
    hide Inv, Next, WithinBudget, FreshRead, Regular, HasLimit;
    if i > from {
      BudgetOverRun(limits, trace, from, b, i - 1);
      DailyLimitsHold(limits, trace, i - 1);
      var s, s' := trace[i - 1], trace[i - 1 + 1];
      assert Next(limits, s, s') && Regular(s, s', b);
      BudgetPreserved(limits, s, s', b);
    }
  }

  /** For either measure: once a call is recorded in the month, with no check
      of the tenant under way and its recorded and under-way calls below the
      limit plus one call, they stay below it for the rest of the month,
      whatever the interleaving of admissions and records. */
  lemma MonthlyBudgetBounded(limits: Limited, trace: seq<State>, from: nat, b: Budget, i: nat)
    requires InMonth(limits, trace, from, b) && HasLimit(limits, b) && from <= i < |trace|
    requires WithinBudget(trace[from], b)
    requires trace[from].gate.Some? ==> trace[from].gate.value.key.tenant != b.tenant
    ensures Times(b.each, CallLoad(trace[i], b.tenant, b.month)) < b.max + b.each
  {
    hide InMonth, HasLimit;
    BudgetOverRun(limits, trace, from, b, i);
  }

  /** In tokens: they never reach `max + t`. */
  lemma MonthlyTokensBounded(
    limits: Limited, trace: seq<State>, from: nat, tenant: Tenant, month: int, max: nat, t: nat, i: nat)
    requires var b := Budget(tenant, month, InTokens, max as real, t as real);
             && InMonth(limits, trace, from, b) && HasLimit(limits, b) && from <= i < |trace| && WithinBudget(trace[from], b)
    requires trace[from].gate.Some? ==> trace[from].gate.value.key.tenant != tenant
    ensures t * CallLoad(trace[i], tenant, month) < max + t
  {
    hide InMonth, HasLimit, WithinBudget;
    MonthlyBudgetBounded(limits, trace, from, Budget(tenant, month, InTokens, max as real, t as real), i);
    hide CallLoad;
    assert Times(t as real, CallLoad(trace[i], tenant, month)) == (t * CallLoad(trace[i], tenant, month)) as real;
  }

  // ----- before the first recorded call -------------------------------------------------------

  /** Something may be spent this month. */
  predicate OpenMonth(l: TenantLimits) {
    && (l.maxTokensPerMonth.Some? ==> l.maxTokensPerMonth.value > 0)
    && (l.maxCostPerMonth.Some? ==> l.maxCostPerMonth.value > 0.0)
  }

  /** Before the first recorded call of a month the average is zero, and calls
      under way weigh nothing: any number of them passes the check. */
  lemma NoBudgetBeforeFirstCall(l: TenantLimits, m: Usage, calls: nat)
    requires m.llmCalls == 0 && m.inputTokens + m.outputTokens == 0 && m.cost == 0.0
    ensures MonthAllows(l, ModelCall, m, calls) <==> OpenMonth(l)
  {
    assert calls as real * PerCall(0.0, 0) == 0.0;
    CeilOfInt(0);
  }

  /** A run that ends with `n` model calls of the tenant under way and nothing
      recorded, all at one time. */
  ghost predicate Piles(limits: Limited, trace: seq<State>, tenant: Tenant, n: nat) {
    && Behaviour(limits, trace) && NothingElse(trace[0], trace)
    && var last := trace[|trace| - 1];
       last.gate == None && Live(last, Key(tenant, ModelCall)) == n && forall id :: id in last.held ==> id < n
  }

  lemma {:induction false} Joined(limits: Limited, a: seq<State>, b: seq<State>)
    requires Behaviour(limits, a) && NothingElse(a[0], a)
    requires |b| > 1 && b[0] == a[|a| - 1] && Steps(limits, b) && NothingElse(b[0], b)
    ensures Behaviour(limits, a + b[1..]) && NothingElse(a[0], a + b[1..])
    ensures (a + b[1..])[|a + b[1..]| - 1] == b[|b| - 1]
  {
    hide Next;
    var joined := a + b[1..];
    forall i | 0 <= i < |joined| - 1 ensures Next(limits, joined[i], joined[i + 1]) {
      if i < |a| - 1 {
        assert Next(limits, a[i], a[i + 1]);
      } else {
        assert Next(limits, b[i - |a| + 1], b[i - |a| + 1 + 1]);
      }
    }
  }

  lemma {:induction false} CallsPileUp(limits: Limited, tenant: Tenant, now: int, n: nat) returns (trace: seq<State>)
    requires tenant in limits && OpenMonth(limits[tenant])
    ensures Piles(limits, trace, tenant, n) && trace[0].now == now && trace[0].log == []
  {
    var key := Key(tenant, ModelCall);
    if n == 0 {
      trace := [State(now, map[], None, map[], [])];
      assert LiveIds(map[], key) == {};
    } else {
      trace := CallsPileUp(limits, tenant, now, n - 1);
      var s := trace[|trace| - 1];
      NothingUsed(limits[tenant], key, now, Pending(s.inFlight, key), PendingCalls(s.inFlight, tenant));
      LoadAfterAdmission(s, n - 1, key, 0);
      hide Admissible, Steps, Behaviour, Next;
      var run := UninterruptedCheck(limits, s, key, n - 1);
      Joined(limits, trace, run);
      trace := trace + run[1..];
    }
  }

  lemma NothingUsed(l: TenantLimits, key: Key, now: int, pending: nat, calls: nat)
    requires OpenMonth(l) && key.what == ModelCall
    ensures Admissible(l, key, [], now, pending, calls)
  {
    NoBudgetBeforeFirstCall(l, UsageSince([], key.tenant, Calendar.MonthStart(now)), calls);
  }

  /** No model call of the tenant is reserved, nor has passed the month's check. */
  ghost predicate CallFree(s: State, key: Key) {
    && (forall id :: id in s.held ==> s.held[id].key != key)
    && (s.gate.Some? && s.gate.value.key == key ==>
          var g := s.gate.value.stage;
          !g.DayRead? && (g.MonthRead? ==> g.m == UsageSince([], key.tenant, g.month)))
  }

  lemma {:induction false} StaysCallFree(limits: Limited, s: State, s': State, step: Step, key: Key)
    requires NextStep(limits, s, s', step) && CallFree(s, key) && s.log == []
    requires key.what == ModelCall && key.tenant in limits && !OpenMonth(limits[key.tenant])
    ensures CallFree(s', key)
  {
    if s.gate.Some? && s.gate.value.key == key && s.gate.value.stage.MonthRead? {
      NoBudgetBeforeFirstCall(limits[key.tenant], s.gate.value.stage.m, s.gate.value.stage.calls);
    }
    hide MonthAllows, OpenMonth, DayAllows, Calendar.MonthStart, Calendar.DayStart;
  }

  lemma {:induction false} ClosedMonth(limits: Limited, trace: seq<State>, key: Key, i: nat)
    requires Behaviour(limits, trace) && NothingElse(trace[0], trace) && i < |trace|
    requires key.what == ModelCall && key.tenant in limits && !OpenMonth(limits[key.tenant])
    ensures CallFree(trace[i], key)
  {
    hide NextStep, OpenMonth;
    if i > 0 {
      ClosedMonth(limits, trace, key, i - 1);
      assert Next(limits, trace[i - 1], trace[i - 1 + 1]);
      var step :| NextStep(limits, trace[i - 1], trace[i], step);
      StaysCallFree(limits, trace[i - 1], trace[i], step, key);
    }
  }

  lemma NoneLive(s: State, key: Key)
    requires CallFree(s, key)
    ensures Live(s, key) == 0
  {
    assert LiveIds(s.held, key) == {};
  }

  ghost predicate CanPile(limits: Limited, tenant: Tenant, n: nat) {
    exists trace :: Piles(limits, trace, tenant, n)
  }

  /** Before anything is recorded, calls under way pile up without bound exactly
      when the month's limits leave something to spend at all. */
  lemma {:induction false} CallsPileUpExactly(limits: Limited, tenant: Tenant)
    requires tenant in limits
    ensures (forall n: nat :: CanPile(limits, tenant, n)) <==> OpenMonth(limits[tenant])
  {
    hide OpenMonth, Piles;
    if OpenMonth(limits[tenant]) {
      forall n: nat ensures CanPile(limits, tenant, n) {
        var trace := CallsPileUp(limits, tenant, 0, n);
      }
    } else {
      if CanPile(limits, tenant, 1) {
        var trace :| Piles(limits, trace, tenant, 1);
        NoneInClosedMonth(limits, trace, tenant);
      }
    }
  }

  lemma {:induction false} NoneInClosedMonth(limits: Limited, trace: seq<State>, tenant: Tenant)
    requires tenant in limits && !OpenMonth(limits[tenant])
    ensures !Piles(limits, trace, tenant, 1)
  {
    hide Next;
    if Piles(limits, trace, tenant, 1) {
      ClosedMonth(limits, trace, Key(tenant, ModelCall), |trace| - 1);
      NoneLive(trace[|trace| - 1], Key(tenant, ModelCall));
    }
  }

  /** Without a recorded call there is no bound: runs of one moment pile up any
      number of calls, so above every budget. The first call recorded is what
      `MonthlyBudgetBounded` needs. */
  lemma NoBoundBeforeFirstCall(limits: Limited, b: Budget, now: int) returns (trace: seq<State>)
    requires HasLimit(limits, b) && OpenMonth(limits[b.tenant]) && b.each > 0.0 && b.month == Calendar.MonthStart(now)
    ensures InMonth(limits, trace, 0, b) && trace[0].gate == None && trace[0].log == []
    ensures !Below(b, CallLoad(trace[|trace| - 1], b.tenant, b.month))
  {
    var n := Enough(b.each, b.max + b.each);
    trace := CallsPileUp(limits, b.tenant, now, n);
    var last := trace[|trace| - 1];
    TimesOrdered(b.each, n, CallLoad(last, b.tenant, b.month));
    hide Calendar.MonthStart, Next;
  }

  lemma Enough(each: real, total: real) returns (n: nat)
    requires each > 0.0
    ensures Times(each, n) >= total
  {
    var q := total / each;
    n := Max(0, Ceil(q));
    CeilAbove(q);
    assert Times(each, n) - total == each * (n as real - q);
  }
}
