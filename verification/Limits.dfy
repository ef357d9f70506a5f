/** Tenant limits of the Core service (src/service.rs): the table of work in
    flight, the check against the store's usage, and the reservation protocol
    under every interleaving of its steps. */
module Limits {
  import opened Common
  import Calendar

  type Tenant = string

  datatype Consume = Run | ModelCall | Fetch

  datatype Key = Key(tenant: Tenant, what: Consume)

  datatype TenantLimits = TenantLimits(
    maxCostPerMonth: Option<real>,
    maxTokensPerMonth: Option<nat>,
    maxRunsPerDay: Option<nat>,
    maxFetchesPerDay: Option<nat>)

  // ----- the store's usage ---------------------------------------------------

  /** One recorded run, model call or fetch. Tokens and cost are zero for runs
      and fetches, and for model calls that reported none. */
  datatype Entry = Entry(key: Key, at: int, inputTokens: nat, outputTokens: nat, cost: real)

  datatype Usage = Usage(runs: nat, llmCalls: nat, inputTokens: nat, outputTokens: nat, cost: real, fetches: nat)

  predicate Since(e: Entry, key: Key, since: int) {
    e.key == key && e.at >= since
  }

  function Recorded(log: seq<Entry>, key: Key, since: int): nat {
    if |log| == 0 then 0
    else Recorded(log[..|log| - 1], key, since) + (if Since(log[|log| - 1], key, since) then 1 else 0)
  }

  function Tokens(log: seq<Entry>, tenant: Tenant, since: int): (nat, nat) {
    if |log| == 0 then (0, 0)
    else
      var before := Tokens(log[..|log| - 1], tenant, since);
      var e := log[|log| - 1];
      if Since(e, Key(tenant, ModelCall), since)
      then (before.0 + e.inputTokens, before.1 + e.outputTokens)
      else before
  }

  function Cost(log: seq<Entry>, tenant: Tenant, since: int): real {
    if |log| == 0 then 0.0
    else
      var e := log[|log| - 1];
      Cost(log[..|log| - 1], tenant, since) + (if Since(e, Key(tenant, ModelCall), since) then e.cost else 0.0)
  }

  function UsageSince(log: seq<Entry>, tenant: Tenant, since: int): Usage {
    Usage(
      Recorded(log, Key(tenant, Run), since),
      Recorded(log, Key(tenant, ModelCall), since),
      Tokens(log, tenant, since).0,
      Tokens(log, tenant, since).1,
      Cost(log, tenant, since),
      Recorded(log, Key(tenant, Fetch), since))
  }

  lemma RecordedAppend(log: seq<Entry>, e: Entry, key: Key, since: int)
    ensures Recorded(log + [e], key, since) == Recorded(log, key, since) + (if Since(e, key, since) then 1 else 0)
  {
    assert (log + [e])[..|log|] == log;
  }

  /** Usage never grows when the period starts later. */
  lemma {:induction false} RecordedLater(log: seq<Entry>, key: Key, early: int, late: int)
    requires early <= late
    ensures Recorded(log, key, late) <= Recorded(log, key, early)
  {
    if |log| > 0 {
      RecordedLater(log[..|log| - 1], key, early, late);
    }
  }

  // ----- the table of work in flight -----------------------------------------

  type InFlight = map<Key, nat>

  function Pending(inFlight: InFlight, key: Key): nat {
    if key in inFlight then inFlight[key] else 0
  }

  /** Model calls under way, and runs about to make their first one. */
  function PendingCalls(inFlight: InFlight, tenant: Tenant): nat {
    Pending(inFlight, Key(tenant, ModelCall)) + Pending(inFlight, Key(tenant, Run))
  }

  function Reserved(inFlight: InFlight, key: Key): InFlight {
    inFlight[key := Pending(inFlight, key) + 1]
  }

  /** What dropping a reservation does: one fewer (never below zero), and no
      entry left at zero. */
  function Dropped(inFlight: InFlight, key: Key): InFlight {
    if key !in inFlight then inFlight
    else if inFlight[key] <= 1 then inFlight - {key}
    else inFlight[key := inFlight[key] - 1]
  }

  // ----- the check -------------------------------------------------------------

  function PerCall(total: real, calls: nat): real {
    if calls == 0 then 0.0 else total / calls as real
  }

  /** Tokens the month would reach if every pending call cost the average. */
  function ProjectedTokens(m: Usage, pendingCalls: nat): int {
    var used := m.inputTokens + m.outputTokens;
    used + Ceil(pendingCalls as real * PerCall(used as real, m.llmCalls))
  }

  predicate MonthAllows(l: TenantLimits, what: Consume, m: Usage, pendingCalls: nat) {
    what != Fetch ==>
      && (l.maxCostPerMonth.Some? ==>
            m.cost + pendingCalls as real * PerCall(m.cost, m.llmCalls) < l.maxCostPerMonth.value)
      && (l.maxTokensPerMonth.Some? ==>
            ProjectedTokens(m, pendingCalls) < l.maxTokensPerMonth.value)
  }

  function DailyLimit(l: TenantLimits, what: Consume): Option<nat> {
    match what
    case Run => l.maxRunsPerDay
    case Fetch => l.maxFetchesPerDay
    case ModelCall => None
  }

  function UsedToday(d: Usage, what: Consume): nat {
    if what == Run then d.runs else d.fetches
  }

  predicate DayAllows(l: TenantLimits, what: Consume, d: Usage, pending: nat) {
    DailyLimit(l, what).Some? ==> pending + UsedToday(d, what) < DailyLimit(l, what).value
  }

  /** The work recorded in the day and the work under way have reached the limit
      set for it: the one on runs for a run, the one on fetches for a fetch, and
      none for a model call. */
  predicate DayIsFull(l: TenantLimits, key: Key, log: seq<Entry>, dayStart: int, pending: nat) {
    || (key.what == Run && l.maxRunsPerDay.Some?
        && pending + Recorded(log, Key(key.tenant, Run), dayStart) >= l.maxRunsPerDay.value)
    || (key.what == Fetch && l.maxFetchesPerDay.Some?
        && pending + Recorded(log, Key(key.tenant, Fetch), dayStart) >= l.maxFetchesPerDay.value)
  }

  /** The month refuses a run or a model call exactly when a limit is reached,
      each call under way counted as the average one: multiplied out, by the
      recorded calls. Fetches have no monthly limit. */
  lemma {:induction false} MonthRefusesExactly(l: TenantLimits, what: Consume, m: Usage, calls: nat)
    requires m.llmCalls > 0
    ensures !MonthAllows(l, what, m, calls) <==>
            && (what == Run || what == ModelCall)
            && (|| (l.maxCostPerMonth.Some?
                    && m.cost * (m.llmCalls + calls) as real >= l.maxCostPerMonth.value * m.llmCalls as real)
                || (l.maxTokensPerMonth.Some?
                    && (m.inputTokens + m.outputTokens) * (m.llmCalls + calls) > (l.maxTokensPerMonth.value - 1) * m.llmCalls))
  {
    if l.maxCostPerMonth.Some? {
      ProjectionAgainst(m.cost, m.llmCalls, calls, l.maxCostPerMonth.value);
    }
    if l.maxTokensPerMonth.Some? {
      TokensAgainst(m.inputTokens + m.outputTokens, m.llmCalls, calls, l.maxTokensPerMonth.value);
    }
    hide PerCall;
  }

  lemma {:induction false} ProjectionAgainst(total: real, n: nat, calls: nat, max: real)
    requires n > 0
    ensures total + calls as real * PerCall(total, n) >= max <==> total * (n + calls) as real >= max * n as real
  {
    var q, r, c := total / n as real, n as real, calls as real;
    assert total == q * r;
    assert total * (n + calls) as real == r * (total + c * q);
    Scaled(r, total + c * q, max);
  }

  lemma Scaled(r: real, a: real, b: real)
    requires r > 0.0
    ensures r * a >= b * r <==> a >= b
  {
  }

  lemma {:induction false} TokensAgainst(used: nat, n: nat, calls: nat, max: nat)
    requires n > 0
    ensures used + Ceil(calls as real * PerCall(used as real, n)) >= max <==> used * (n + calls) > (max - 1) * n
  {
    var x := calls as real * PerCall(used as real, n);
    ProjectionAgainst(used as real, n, calls, (max - 1) as real);
    assert used + Ceil(x) >= max <==> used as real + x > (max - 1) as real;
    Above(used as real, n, calls, (max - 1) as real);
    assert used as real * (n + calls) as real == (used * (n + calls)) as real;
    assert (max - 1) as real * n as real == ((max - 1) * n) as real;
  }

  lemma {:induction false} Above(total: real, n: nat, calls: nat, max: real)
    requires n > 0
    ensures total + calls as real * PerCall(total, n) > max <==> total * (n + calls) as real > max * n as real
  {
    var q, r, c := total / n as real, n as real, calls as real;
    assert total == q * r;
    assert total * (n + calls) as real == r * (total + c * q);
    ScaledStrictly(r, total + c * q, max);
  }

  lemma ScaledStrictly(r: real, a: real, b: real)
    requires r > 0.0
    ensures r * a > b * r <==> a > b
  {
  }

  /** The whole check on fixed data: the limits against the month's and the
      day's usage, with the work in flight counted on top. */
  predicate Admissible(l: TenantLimits, key: Key, log: seq<Entry>, nowMs: int, pending: nat, calls: nat) {
    && MonthAllows(l, key.what, UsageSince(log, key.tenant, Calendar.MonthStart(nowMs)), calls)
    && DayAllows(l, key.what, UsageSince(log, key.tenant, Calendar.DayStart(nowMs)), pending)
  }

  // ----- the code, one request at a time ----------------------------------------

  /** The store's log of runs, model calls and fetches. */
  class UsageStore {
    var log: seq<Entry>

    constructor ()
      ensures log == []
    {
      log := [];
    }

    method Record(e: Entry)
      modifies this
      ensures log == old(log) + [e]
    {
      log := log + [e];
    }

    method UsageOf(tenant: Tenant, since: int) returns (u: Usage)
      ensures u == UsageSince(log, tenant, since)
    {
      u := Usage(0, 0, 0, 0, 0.0, 0);
      for i := 0 to |log|
        invariant u == UsageSince(log[..i], tenant, since)
      {
        assert log[..i + 1][..i] == log[..i];
        var e := log[i];
        if e.key.tenant == tenant && e.at >= since {
          match e.key.what
          case Run => u := u.(runs := u.runs + 1);
          case Fetch => u := u.(fetches := u.fetches + 1);
          case ModelCall =>
            u := u.(llmCalls := u.llmCalls + 1, inputTokens := u.inputTokens + e.inputTokens,
                    outputTokens := u.outputTokens + e.outputTokens, cost := u.cost + e.cost);
        }
      }
      assert log[..|log|] == log;
    }
  }

  /** The in-flight table of the process, changed in place. */
  class Admission {
    var inFlight: InFlight
    const store: UsageStore

    constructor (store: UsageStore)
      ensures inFlight == map[] && this.store == store
    {
      inFlight := map[];
      this.store := store;
    }

    method Reserve(key: Key)
      modifies this
      ensures inFlight == Reserved(old(inFlight), key)
    {
      var n := 0;
      if key in inFlight { n := inFlight[key]; }
      inFlight := inFlight[key := n + 1];
    }

    method Drop(key: Key)
      modifies this
      ensures inFlight == Dropped(old(inFlight), key)
    {
      if key in inFlight {
        var n := if inFlight[key] == 0 then 0 else inFlight[key] - 1;
        inFlight := inFlight[key := n];
        if n == 0 { inFlight := inFlight - {key}; }
      }
    }

    /** The monthly half of the check; reads the store only when it has to. */
    method CheckMonth(l: TenantLimits, key: Key, monthStart: int, calls: nat) returns (ok: bool)
      ensures ok == MonthAllows(l, key.what, UsageSince(store.log, key.tenant, monthStart), calls)
    {
      if key.what != Fetch && (l.maxCostPerMonth.Some? || l.maxTokensPerMonth.Some?) {
        var m := store.UsageOf(key.tenant, monthStart);
        if l.maxCostPerMonth.Some? {
          var projected := m.cost + calls as real * PerCall(m.cost, m.llmCalls);
          if projected >= l.maxCostPerMonth.value { return false; }
        }
        if l.maxTokensPerMonth.Some? {
          if ProjectedTokens(m, calls) >= l.maxTokensPerMonth.value { return false; }
        }
      }
      ok := true;
    }

    method CheckDay(l: TenantLimits, key: Key, dayStart: int, pending: nat) returns (ok: bool)
      ensures ok == DayAllows(l, key.what, UsageSince(store.log, key.tenant, dayStart), pending)
      ensures !ok <==> DayIsFull(l, key, store.log, dayStart, pending)
    {
      ok := true;
      if DailyLimit(l, key.what).Some? {
        var d := store.UsageOf(key.tenant, dayStart);
        ok := pending + UsedToday(d, key.what) < DailyLimit(l, key.what).value;
      }
    }

    /** Check the limits and hold a slot, nothing happening in between. */
    method ReserveSlot(limits: Option<TenantLimits>, key: Key, nowMs: int) returns (admitted: bool)
      modifies this
      ensures admitted <==>
        (limits.Some? ==> Admissible(limits.value, key, store.log, nowMs, Pending(old(inFlight), key),
                                     PendingCalls(old(inFlight), key.tenant)))
      ensures limits.Some? && DayIsFull(limits.value, key, store.log, Calendar.DayStart(nowMs), Pending(old(inFlight), key)) ==>
                !admitted
      ensures limits.Some? && !admitted ==>
                || DayIsFull(limits.value, key, store.log, Calendar.DayStart(nowMs), Pending(old(inFlight), key))
                || !MonthAllows(limits.value, key.what, UsageSince(store.log, key.tenant, Calendar.MonthStart(nowMs)),
                                PendingCalls(old(inFlight), key.tenant))
      ensures inFlight == if admitted then Reserved(old(inFlight), key) else old(inFlight)
    {
      if limits.Some? {
        var calls := PendingCalls(inFlight, key.tenant);
        var pending := Pending(inFlight, key);
        var (dayStart, monthStart) := Calendar.PeriodStarts(nowMs);
        var month := CheckMonth(limits.value, key, monthStart, calls);
        if !month { return false; }
        var day := CheckDay(limits.value, key, dayStart, pending);
        if !day { return false; }
      }
      Reserve(key);
      admitted := true;
    }
  }
}
