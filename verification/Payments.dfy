/** Notices of a payment gateway (editor-mode/src/editor/billing.py,
    `gateway_event`; credits.py, `grant`): what each does to the payments, the
    subscriptions and the credits. Notices come in any order, any number of
    times; the gateway is asked what the payment is by then. */
module Payments {
  import opened Common
  import opened Calendar
  import opened Intervals

  datatype Kind = First | Recurring | Credits | Manual | Refund

  /** A payment row; `credits` is the number its note ends with. */
  datatype Payment = Payment(tenant: Option<string>, kind: Kind, status: string, credits: int)

  datatype Subscription = Subscription(
    plan: string,
    interval: Interval,
    status: string,
    provider: string,
    renewals: Option<string>,  // the gateway's subscription
    trialEnds: Option<Stamp>,
    periodEnd: Option<Stamp>)

  datatype Tenant = Tenant(active: bool, hold: Option<string>, proposalsOnly: bool)

  /** A movement of credits; `ref` is the payment it comes from. */
  datatype Entry = Entry(tenant: string, delta: int, ref: string)

  datatype Books = Books(
    payments: map<string, Payment>,  // by the gateway's id
    subs: map<string, Subscription>, // by newsroom
    tenants: map<string, Tenant>,
    ledger: seq<Entry>)              // of packs bought

  /** What the gateway says of a payment. */
  datatype Report = Report(
    status: string,
    renewalOf: Option<string>,
    plan: Option<string>,
    interval: Option<Interval>,
    credits: Option<int>)

  /** A notice, with the answers its handling gets: the gateway's report, the
      subscription it makes for the renewals (None: the plan or the customer is
      unknown, or the gateway refuses), whether the ledger takes the credits and
      whether the plan's limits are applied. */
  datatype Notice = Notice(
    id: string,
    report: Option<Report>,
    now: Stamp,
    created: Option<string>,
    grantable: bool,
    applied: bool)

  datatype Done = Unknown | Unchanged | Noted(status: string) | CreditsAdded | Activated | Renewed | PastDue | Raised

  // ----- one notice, as a function ----------------------------------------------------------

  function NewRenewal(tenant: string): Payment { Payment(Some(tenant), Recurring, "open", 0) }

  function Known(b: Books, n: Notice, row: Option<string>): bool {
    n.report.Some? && (n.id in b.payments || row.Some?)
  }

  /** The payment row, made for a renewal the gateway started by itself. */
  function Row(b: Books, n: Notice, row: Option<string>): Payment
    requires Known(b, n, row)
  {
    if n.id in b.payments then b.payments[n.id] else NewRenewal(row.value)
  }

  function Released(b: Books, tenant: string): Books {
    if tenant !in b.tenants then b
    else
      var t := b.tenants[tenant];
      var freed := if t.hold == Some("billing") then t.(active := true, hold := None) else t;
      b.(tenants := b.tenants[tenant := freed.(proposalsOnly := false)])
  }

  predicate HasEntry(ledger: seq<Entry>, tenant: string, ref: string) {
    exists i :: 0 <= i < |ledger| && ledger[i].tenant == tenant && ledger[i].ref == ref
  }

  function CreditsIn(report: Report, p: Payment): int {
    if report.credits.Some? && report.credits.value != 0 then report.credits.value else p.credits
  }

  function CreditsPaid(b: Books, n: Notice, tenant: string, credits: int): (Books, Done) {
    if credits == 0 || tenant !in b.tenants then (b, Raised)
    else if HasEntry(b.ledger, tenant, n.id) then (b, CreditsAdded)
    else if !n.grantable then (b, Raised)
    else (b.(ledger := b.ledger + [Entry(tenant, credits, n.id)]), CreditsAdded)
  }

  function FirstPaid(b: Books, n: Notice, report: Report, tenant: Option<string>): (Books, Done) {
    var interval := report.interval.GetOr(Month);
    var until := AddInterval(n.now, interval);
    if until.None? || n.created.None? || tenant.None? then (b, Raised)
    else
      var t := tenant.value;
      var paid := if t !in b.subs then b else
        b.(subs := b.subs[t := Subscription(report.plan.GetOr("starter"), interval, "active", "mollie", n.created, None, until)]);
      (Released(paid, t), if n.applied then Activated else Raised)
  }

  function LaterOf(end: Option<Stamp>, now: Stamp): Stamp {
    if end.Some? && Instant(end.value) > Instant(now) then end.value else now
  }

  function RenewalPaid(b: Books, n: Notice, tenant: Option<string>): (Books, Done) {
    if tenant.None? || tenant.value !in b.subs then (b, Raised)
    else
      var t, sub := tenant.value, b.subs[tenant.value];
      var end := AddInterval(LaterOf(sub.periodEnd, n.now), sub.interval);
      if end.None? then (b, Raised)
      else (Released(b.(subs := b.subs[t := sub.(status := "active", periodEnd := end)]), t), Renewed)
  }

  function NotPaid(b: Books, tenant: Option<string>): Books {
    if tenant.Some? && tenant.value in b.subs && b.subs[tenant.value].status == "active"
    then b.(subs := b.subs[tenant.value := b.subs[tenant.value].(status := "past_due")])
    else b
  }

  predicate IsFailure(status: string) { status == "failed" || status == "expired" || status == "canceled" }

  /** What follows a change of status. */
  function Act(b: Books, n: Notice, report: Report, p: Payment): (Books, Done) {
    if p.kind.Credits? then
      if report.status != "paid" || p.tenant.None? then (b, Noted(report.status))
      else CreditsPaid(b, n, p.tenant.value, CreditsIn(report, p))
    else if report.status == "paid" then
      if p.kind.First? then FirstPaid(b, n, report, p.tenant) else RenewalPaid(b, n, p.tenant)
    else if IsFailure(report.status) && p.kind.Recurring? then (NotPaid(b, p.tenant), PastDue)
    else (b, Noted(report.status))
  }

  predicate Settled(p: Payment, status: string) { p.status == status || p.status == "paid" }

  function Stored(b: Books, id: string, p: Payment): Books { b.(payments := b.payments[id := p]) }

  function Handle(b: Books, n: Notice, row: Option<string>): (Books, Done) {
    if !Known(b, n, row) then (b, Unknown)
    else
      var p, status := Row(b, n, row), n.report.value.status;
      if Settled(p, status) then (Stored(b, n.id, p), Unchanged)
      else Act(Stored(b, n.id, p.(status := status)), n, n.report.value, p)
  }

  /** The newsroom whose subscription the gateway renewed, when the payment is new. */
  predicate Found(b: Books, n: Notice, row: Option<string>) {
    if n.report.None? || n.id in b.payments || n.report.value.renewalOf.None? then row.None?
    else if row.Some? then row.value in b.subs && b.subs[row.value].renewals == n.report.value.renewalOf
    else forall t :: t in b.subs ==> b.subs[t].renewals != n.report.value.renewalOf
  }

  // ----- one notice, as the code handles it ---------------------------------------------------

  class Billing {
    var payments: map<string, Payment>
    var subs: map<string, Subscription>
    var tenants: map<string, Tenant>
    var ledger: seq<Entry>

    function State(): Books
      reads this
    {
      Books(payments, subs, tenants, ledger)
    }

    constructor (b: Books)
      ensures State() == b
    {
      payments, subs, tenants, ledger := b.payments, b.subs, b.tenants, b.ledger;
    }

    method Release(tenant: string)
      modifies this
      ensures State() == Released(old(State()), tenant)
    {
      if tenant in tenants {
        var t := tenants[tenant];
        if t.hold == Some("billing") {
          t := t.(active := true, hold := None);
        }
        tenants := tenants[tenant := t.(proposalsOnly := false)];
      }
    }

    method Grant(n: Notice, tenant: string, credits: int) returns (done: Done)
      modifies this
      ensures (State(), done) == CreditsPaid(old(State()), n, tenant, credits)
    {
      if credits == 0 || tenant !in tenants { return Raised; }
      for i := 0 to |ledger|
        invariant State() == old(State())
        invariant forall j :: 0 <= j < i ==> !(ledger[j].tenant == tenant && ledger[j].ref == n.id)
      {
        if ledger[i].tenant == tenant && ledger[i].ref == n.id { return CreditsAdded; }
      }
      if !n.grantable { return Raised; }
      ledger := ledger + [Entry(tenant, credits, n.id)];
      done := CreditsAdded;
    }

    method Activate(n: Notice, report: Report, tenant: Option<string>) returns (done: Done)
      modifies this
      ensures (State(), done) == FirstPaid(old(State()), n, report, tenant)
    {
      var plan, interval := report.plan.GetOr("starter"), report.interval.GetOr(Month);
      var until := AddInterval(n.now, interval);
      if until.None? || n.created.None? || tenant.None? { return Raised; }
      var t := tenant.value;
      if t in subs {
        subs := subs[t := Subscription(plan, interval, "active", "mollie", n.created, None, until)];
      }
      Release(t);
      done := if n.applied then Activated else Raised;
    }

    method Renew(n: Notice, tenant: Option<string>) returns (done: Done)
      modifies this
      ensures (State(), done) == RenewalPaid(old(State()), n, tenant)
    {
      if tenant.None? || tenant.value !in subs { return Raised; }
      var sub := subs[tenant.value];
      var from := n.now;
      if sub.periodEnd.Some? && Instant(sub.periodEnd.value) > Instant(n.now) {
        from := sub.periodEnd.value;
      }
      var end := AddInterval(from, sub.interval);
      if end.None? { return Raised; }
      subs := subs[tenant.value := sub.(status := "active", periodEnd := end)];
      Release(tenant.value);
      done := Renewed;
    }

    method GatewayEvent(n: Notice) returns (done: Done, row: Option<string>)
      modifies this
      ensures Found(old(State()), n, row)
      ensures (State(), done) == Handle(old(State()), n, row)
    {
      row := None;
      if n.report.None? { return Unknown, None; }
      var report := n.report.value;
      if n.id !in payments {
        if report.renewalOf.Some? && exists t :: t in subs && subs[t].renewals == report.renewalOf {
          var t :| t in subs && subs[t].renewals == report.renewalOf;
          row := Some(t);
        }
        if row.None? { return Unknown, None; }
        payments := payments[n.id := NewRenewal(row.value)];
      }
      var p, status := payments[n.id], report.status;
      if p.status == status || p.status == "paid" {
        assert payments == payments[n.id := p];
        return Unchanged, row;
      }
      payments := payments[n.id := p.(status := status)];
      assert State() == Stored(old(State()), n.id, p.(status := status));
      if p.kind.Credits? {
        if status != "paid" || p.tenant.None? { return Noted(status), row; }
        done := Grant(n, p.tenant.value, CreditsIn(report, p));
      } else if status == "paid" {
        if p.kind.First? {
          done := Activate(n, report, p.tenant);
        } else {
          done := Renew(n, p.tenant);
        }
      } else if IsFailure(status) && p.kind.Recurring? {
        if p.tenant.Some? && p.tenant.value in subs && subs[p.tenant.value].status == "active" {
          subs := subs[p.tenant.value := subs[p.tenant.value].(status := "past_due")];
        }
        done := PastDue;
      } else {
        done := Noted(status);
      }
    }
  }
}
