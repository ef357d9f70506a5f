/** What any sequence of payment notices leaves behind
    (editor-mode/src/editor/billing.py, `gateway_event`). */
module PaymentHistory {
  import opened Common
  import opened Calendar
  import opened Intervals
  import opened Payments

  /** The notice by which a payment becomes paid. */
  predicate Pays(b: Books, n: Notice, row: Option<string>) {
    Known(b, n, row) && n.report.value.status == "paid" && Row(b, n, row).status != "paid"
  }

  predicate IsPaid(b: Books, id: string) { id in b.payments && b.payments[id].status == "paid" }

  // ----- one notice -----------------------------------------------------------------------

  /** The subscription is as it was, or its renewal failed. */
  predicate SameOrPastDue(before: Subscription, after: Subscription) {
    after == before || (before.status == "active" && after == before.(status := "past_due"))
  }

  /** Any other notice moves no credits, no period and no hold: at most a
      renewal that failed leaves an active subscription past due. */
  lemma {:induction false} OnlyPayingActs(b: Books, n: Notice, row: Option<string>)
    requires !Pays(b, n, row)
    ensures var after := Handle(b, n, row).0;
            && after.ledger == b.ledger && after.tenants == b.tenants && after.subs.Keys == b.subs.Keys
            && forall t :: t in b.subs ==> SameOrPastDue(b.subs[t], after.subs[t])
  {
  }

  /** A paid payment is never anything else again. */
  lemma {:induction false} PaidStays(b: Books, n: Notice, row: Option<string>, id: string)
    requires IsPaid(b, id)
    ensures IsPaid(Handle(b, n, row).0, id) && Handle(b, n, row).0.payments[id] == b.payments[id]
  {
    hide FirstPaid, RenewalPaid, CreditsPaid, NotPaid;
    if Known(b, n, row) {
      ActKeepsPayments(b, n, row);
    }
  }

  lemma {:induction false} ActKeepsPayments(b: Books, n: Notice, row: Option<string>)
    requires Known(b, n, row)
    ensures var p := Row(b, n, row);
            Handle(b, n, row).0.payments ==
              b.payments[n.id := if Settled(p, n.report.value.status) then p else p.(status := n.report.value.status)]
  {
  }

  lemma {:induction false} BecomesPaid(b: Books, n: Notice, row: Option<string>, id: string)
    ensures IsPaid(Handle(b, n, row).0, id) <==> IsPaid(b, id) || (n.id == id && Pays(b, n, row))
  {
    hide FirstPaid, RenewalPaid, CreditsPaid, NotPaid, Act;
    if Known(b, n, row) {
      ActKeepsPayments(b, n, row);
    }
  }

  /** So whatever went wrong after a payment became paid is not tried again: a
      later notice of it changes nothing at all. */
  lemma {:induction false} LaterNoticesDoNothing(b: Books, run: seq<Step>, n: Notice, row: Option<string>)
    requires IsPaid(b, n.id)
    ensures Handle(After(b, run), n, row).0 == After(b, run)
  {
    hide After;
    TakesEffectOnce(b, run, n.id);
    var now := After(b, run);
    assert now.payments[n.id := now.payments[n.id]] == now.payments;
  }

  // ----- runs --------------------------------------------------------------------------------

  /** What happens to the books: a notice, a payment opened for a purchase, or
      any change to subscriptions and newsrooms made elsewhere. */
  datatype Step =
    | Notified(n: Notice, row: Option<string>)
    | Opened(id: string, payment: Payment)
    | Changed(subs: map<string, Subscription>, tenants: map<string, Tenant>)

  function Next(b: Books, step: Step): Books {
    match step
    case Notified(n, row) => Handle(b, n, row).0
    case Opened(id, payment) =>
      if id in b.payments then b else Stored(b, id, payment.(status := "open"))
    case Changed(subs, tenants) => b.(subs := subs, tenants := tenants)
  }

  function After(b: Books, run: seq<Step>): Books {
    if run == [] then b else Next(After(b, run[..|run| - 1]), run[|run| - 1])
  }

  predicate StepPays(b: Books, step: Step, id: string) {
    step.Notified? && step.n.id == id && Pays(b, step.n, step.row)
  }

  /** How often a payment took effect. */
  function TimesPaid(b: Books, run: seq<Step>, id: string): nat {
    if run == [] then 0
    else
      var rest := run[..|run| - 1];
      TimesPaid(b, rest, id) + (if StepPays(After(b, rest), run[|run| - 1], id) then 1 else 0)
  }

  lemma {:induction false} NextPaid(b: Books, step: Step, id: string)
    ensures IsPaid(Next(b, step), id) <==> IsPaid(b, id) || StepPays(b, step, id)
    ensures IsPaid(b, id) ==> !StepPays(b, step, id)
  {
    hide Handle;
    if step.Notified? {
      BecomesPaid(b, step.n, step.row, id);
    }
  }

  /** Each payment takes effect at most once, in any order and with any
      repeats: exactly when it was not paid before and is paid now. */
  lemma {:induction false} TakesEffectOnce(b: Books, run: seq<Step>, id: string)
    ensures TimesPaid(b, run, id) <= 1
    ensures TimesPaid(b, run, id) == 1 <==> !IsPaid(b, id) && IsPaid(After(b, run), id)
    ensures IsPaid(b, id) ==> IsPaid(After(b, run), id)
  {
    hide StepPays, IsPaid, Next;
    if run != [] {
      TakesEffectOnce(b, run[..|run| - 1], id);
      NextPaid(After(b, run[..|run| - 1]), run[|run| - 1], id);
    }
  }

  // ----- credits --------------------------------------------------------------------------------

  /** Credits paid for, by a newsroom that still exists in the row. */
  predicate IsSold(p: Payment) { p.kind.Credits? && p.status == "paid" && p.tenant.Some? }

  function SoldTo(payments: map<string, Payment>, tenant: string): set<string> {
    set id | id in payments && IsSold(payments[id]) && payments[id].tenant.value == tenant
  }

  /** The credits of some payments together. */
  ghost function CreditsOf(payments: map<string, Payment>, ids: set<string>): int
    requires ids <= payments.Keys
  {
    if ids == {} then 0
    else
      var id :| id in ids;
      payments[id].credits + CreditsOf(payments, ids - {id})
  }

  /** The credits a newsroom was given. */
  function Granted(ledger: seq<Entry>, tenant: string): int {
    if ledger == [] then 0
    else
      var last := ledger[|ledger| - 1];
      Granted(ledger[..|ledger| - 1], tenant) + (if last.tenant == tenant then last.delta else 0)
  }

  /** One entry for each payment sold, with its credits, and no other. */
  ghost predicate EntriesMatch(payments: map<string, Payment>, ledger: seq<Entry>) {
    && (forall i, j :: 0 <= i < j < |ledger| ==> ledger[i].ref != ledger[j].ref)
    && (forall i :: 0 <= i < |ledger| ==> var e := ledger[i];
          && e.ref in payments && IsSold(payments[e.ref])
          && payments[e.ref].tenant == Some(e.tenant) && payments[e.ref].credits == e.delta)
  }

  ghost predicate Balanced(b: Books) {
    && EntriesMatch(b.payments, b.ledger)
    && forall id :: id in b.payments && IsSold(b.payments[id]) ==>
         HasEntry(b.ledger, b.payments[id].tenant.value, id)
  }

  lemma {:induction false} CreditsOfOne(payments: map<string, Payment>, ids: set<string>, id: string)
    requires ids <= payments.Keys && id in ids
    ensures CreditsOf(payments, ids) == payments[id].credits + CreditsOf(payments, ids - {id})
  {
    var first :| first in ids && CreditsOf(payments, ids) == payments[first].credits + CreditsOf(payments, ids - {first});
    if first != id {
      CreditsOfOne(payments, ids - {first}, id);
      CreditsOfOne(payments, ids - {id}, first);
      assert ids - {first} - {id} == ids - {id} - {first};
    }
  }

  function RefsOf(ledger: seq<Entry>, tenant: string): set<string> {
    set i | 0 <= i < |ledger| && ledger[i].tenant == tenant :: ledger[i].ref
  }

  lemma {:induction false} GrantedIsCredits(payments: map<string, Payment>, ledger: seq<Entry>, tenant: string)
    requires EntriesMatch(payments, ledger)
    ensures RefsOf(ledger, tenant) <= payments.Keys
    ensures Granted(ledger, tenant) == CreditsOf(payments, RefsOf(ledger, tenant))
  {
    if ledger != [] {
      var rest, last := ledger[..|ledger| - 1], ledger[|ledger| - 1];
      GrantedIsCredits(payments, rest, tenant);
      if last.tenant == tenant {
        assert RefsOf(ledger, tenant) - {last.ref} == RefsOf(rest, tenant);
        assert last.ref in RefsOf(ledger, tenant);
        CreditsOfOne(payments, RefsOf(ledger, tenant), last.ref);
      } else {
        assert RefsOf(ledger, tenant) == RefsOf(rest, tenant);
      }
    }
  }

  /** Whether a step that sells credits also grants them, as many as noted. */
  predicate StepGrants(b: Books, step: Step) {
    step.Notified? && Pays(b, step.n, step.row) && IsSold(Row(b, step.n, step.row).(status := "paid")) ==>
      var p := Row(b, step.n, step.row);
      step.n.grantable && p.tenant.value in b.tenants && p.credits != 0 && CreditsIn(step.n.report.value, p) == p.credits
  }

  ghost predicate AllGrant(b: Books, run: seq<Step>) {
    forall i :: 0 <= i < |run| ==> StepGrants(After(b, run[..i]), run[i])
  }

  /** The notice grants the credits of a sale. */
  predicate Grants(b: Books, n: Notice, row: Option<string>) {
    && Pays(b, n, row) && IsSold(Row(b, n, row).(status := "paid"))
    && var p := Row(b, n, row);
       && !HasEntry(b.ledger, p.tenant.value, n.id)
       && CreditsIn(n.report.value, p) != 0 && p.tenant.value in b.tenants && n.grantable
  }

  lemma {:induction false} LedgerAfter(b: Books, n: Notice, row: Option<string>)
    ensures Handle(b, n, row).0.ledger ==
            if Grants(b, n, row)
            then b.ledger + [Entry(Row(b, n, row).tenant.value, CreditsIn(n.report.value, Row(b, n, row)), n.id)]
            else b.ledger
  {
    hide AddInterval, LaterOf;
  }

  lemma {:induction false} HasEntryAppended(ledger: seq<Entry>, e: Entry, tenant: string, ref: string)
    ensures HasEntry(ledger + [e], tenant, ref) <==> HasEntry(ledger, tenant, ref) || (e.tenant == tenant && e.ref == ref)
  {
    var longer := ledger + [e];
    assert longer[|ledger|] == e;
    if HasEntry(ledger, tenant, ref) {
      var i :| 0 <= i < |ledger| && ledger[i].tenant == tenant && ledger[i].ref == ref;
      assert longer[i] == ledger[i];
    }
  }

  /** What is sold in `before` is sold just so in `after`. */
  predicate SoldKept(before: map<string, Payment>, after: map<string, Payment>) {
    forall id :: id in before && IsSold(before[id]) ==> id in after && after[id] == before[id]
  }

  lemma {:induction false} PaymentsChanged(b: Books, payments: map<string, Payment>)
    requires Balanced(b) && SoldKept(b.payments, payments)
    ensures EntriesMatch(payments, b.ledger)
    ensures forall id :: id in b.payments && IsSold(b.payments[id]) ==>
              HasEntry(b.ledger, payments[id].tenant.value, id)
  {
    hide HasEntry;
  }

  lemma {:induction false} EntryAdded(payments: map<string, Payment>, ledger: seq<Entry>, e: Entry)
    requires EntriesMatch(payments, ledger)
    requires e.ref in payments && IsSold(payments[e.ref])
    requires payments[e.ref].tenant == Some(e.tenant) && payments[e.ref].credits == e.delta
    requires !HasEntry(ledger, e.tenant, e.ref)
    ensures EntriesMatch(payments, ledger + [e])
  {
    forall i | 0 <= i < |ledger| ensures ledger[i].ref != e.ref {
    }
  }

  lemma {:induction false} NoEntryUnpaid(b: Books, id: string, tenant: string)
    requires Balanced(b) && !IsPaid(b, id)
    ensures !HasEntry(b.ledger, tenant, id)
  {
  }

  lemma {:induction false} HandleBalanced(b: Books, n: Notice, row: Option<string>)
    requires Balanced(b) && StepGrants(b, Notified(n, row))
    ensures Balanced(Handle(b, n, row).0)
  {
    if Known(b, n, row) {
      var after, p := Handle(b, n, row).0, Row(b, n, row);
      ActKeepsPayments(b, n, row);
      LedgerAfter(b, n, row);
      hide Handle, HasEntry, EntriesMatch;
      PaymentsChanged(b, after.payments);
      if Pays(b, n, row) && IsSold(p.(status := "paid")) {
        var e := Entry(p.tenant.value, p.credits, n.id);
        NoEntryUnpaid(b, n.id, e.tenant);
        EntryAdded(after.payments, b.ledger, e);
        forall id | id in after.payments && IsSold(after.payments[id])
          ensures HasEntry(after.ledger, after.payments[id].tenant.value, id)
        {
          HasEntryAppended(b.ledger, e, after.payments[id].tenant.value, id);
        }
      }
    }
  }

  lemma {:induction false} NextBalanced(b: Books, step: Step)
    requires Balanced(b) && StepGrants(b, step)
    ensures Balanced(Next(b, step))
  {
    hide Handle, HasEntry, EntriesMatch, StepGrants;
    match step
    case Notified(n, row) => HandleBalanced(b, n, row);
    case Opened(id, payment) => PaymentsChanged(b, Next(b, step).payments);
    case Changed(_, _) =>
  }

  lemma {:induction false} StaysBalanced(b: Books, run: seq<Step>)
    requires Balanced(b) && AllGrant(b, run)
    ensures Balanced(After(b, run))
  {
    hide Balanced, StepGrants, Next;
    if run != [] {
      var rest := run[..|run| - 1];
      assert AllGrant(b, rest) by {
        assert forall i :: 0 <= i < |rest| ==> rest[..i] == run[..i];
      }
      StaysBalanced(b, rest);
      NextBalanced(After(b, rest), run[|run| - 1]);
    }
  }

  /** The credits a newsroom was given are those of the distinct payments it
      made, whatever the order and the repeats of the notices, when every grant
      succeeds. */
  lemma {:induction false} CreditsAreThoseSold(b: Books, run: seq<Step>, tenant: string)
    requires Balanced(b) && AllGrant(b, run)
    ensures var after := After(b, run);
            && SoldTo(after.payments, tenant) <= after.payments.Keys
            && Granted(after.ledger, tenant) == CreditsOf(after.payments, SoldTo(after.payments, tenant))
  {
    StaysBalanced(b, run);
    var after := After(b, run);
    hide After, AllGrant;
    GrantedIsCredits(after.payments, after.ledger, tenant);
    assert RefsOf(after.ledger, tenant) == SoldTo(after.payments, tenant);
  }

  /** A sale whose grant fails is not made good later: once a payment is paid,
      no step adds an entry for it. */
  lemma {:induction false} PaidIsSettled(b: Books, run: seq<Step>, tenant: string, id: string)
    requires IsPaid(b, id)
    ensures HasEntry(After(b, run).ledger, tenant, id) <==> HasEntry(b.ledger, tenant, id)
  {
    if run != [] {
      PaidIsSettled(b, run[..|run| - 1], tenant, id);
      TakesEffectOnce(b, run[..|run| - 1], id);
      NextSettled(After(b, run[..|run| - 1]), run[|run| - 1], tenant, id);
    }
  }

  lemma {:induction false} NextSettled(b: Books, step: Step, tenant: string, id: string)
    requires IsPaid(b, id)
    ensures HasEntry(Next(b, step).ledger, tenant, id) <==> HasEntry(b.ledger, tenant, id)
  {
    hide Handle, HasEntry;
    if step.Notified? {
      var n, row := step.n, step.row;
      LedgerAfter(b, n, row);
      if Grants(b, n, row) {
        HasEntryAppended(b.ledger, Entry(Row(b, n, row).tenant.value, CreditsIn(n.report.value, Row(b, n, row)), n.id), tenant, id);
      }
    }
  }

  /** When a sale is granted: its credits are not zero, the newsroom is there
      and the ledger takes them. */
  lemma {:induction false} GrantedExactlyWhen(b: Books, n: Notice, row: Option<string>)
    requires Pays(b, n, row) && IsSold(Row(b, n, row).(status := "paid"))
    requires !HasEntry(b.ledger, Row(b, n, row).tenant.value, n.id)
    ensures var p := Row(b, n, row);
            HasEntry(Handle(b, n, row).0.ledger, p.tenant.value, n.id) <==>
            CreditsIn(n.report.value, p) != 0 && p.tenant.value in b.tenants && n.grantable
  {
    hide Handle, HasEntry;
    var p := Row(b, n, row);
    LedgerAfter(b, n, row);
    HasEntryAppended(b.ledger, Entry(p.tenant.value, CreditsIn(n.report.value, p), n.id), p.tenant.value, n.id);
  }

  // ----- paid periods ------------------------------------------------------------------------------

  /** The end of what a newsroom paid for. */
  function EndOf(b: Books, t: string): Option<Stamp> {
    if t in b.subs then b.subs[t].periodEnd else None
  }

  /** Not before: an end that is there stays, and does not move back. */
  predicate NotEarlier(before: Option<Stamp>, after: Option<Stamp>) {
    before.Some? ==> after.Some? && Instant(before.value) <= Instant(after.value)
  }

  predicate IsRenewal(b: Books, n: Notice, row: Option<string>) {
    Pays(b, n, row) && !Row(b, n, row).kind.Credits? && !Row(b, n, row).kind.First?
  }

  /** A paid renewal gives exactly one interval, from the later of the end and now
      (from now, without an end): the new end is a month or a year after it, so at
      least 28 days after the old end and after now. Only the end of the calendar
      loses it, and nothing else of the subscriptions changes. */
  lemma {:induction false} RenewalExtends(b: Books, n: Notice, row: Option<string>, t: string) returns (start: Stamp)
    requires IsRenewal(b, n, row) && Row(b, n, row).tenant == Some(t) && t in b.subs
    requires ValidStamp(n.now) && (EndOf(b, t).Some? ==> ValidStamp(EndOf(b, t).value))
    ensures EndOf(b, t).None? ==> start == n.now
    ensures EndOf(b, t).Some? ==> Instant(start) == Max(Instant(EndOf(b, t).value), Instant(n.now))
    ensures EndOf(b, t).Some? ==> start == EndOf(b, t).value || start == n.now
    ensures var (after, done) := Handle(b, n, row);
            var end := AddInterval(start, b.subs[t].interval);
            && done == (if end.Some? then Renewed else Raised)
            && after.subs == (if end.Some? then b.subs[t := b.subs[t].(status := "active", periodEnd := end)] else b.subs)
    ensures var interval, end := b.subs[t].interval, EndOf(Handle(b, n, row).0, t);
            Handle(b, n, row).1 == Renewed ==>
              && end.Some? && Instant(end.value) >= Instant(n.now) + 28 * 86_400_000_000
              && (EndOf(b, t).Some? ==> Instant(end.value) >= Instant(EndOf(b, t).value) + 28 * 86_400_000_000)
              && var gained := Instant(end.value) - Instant(start);
                 if interval.Month? then 28 * 86_400_000_000 <= gained <= 31 * 86_400_000_000
                 else 365 * 86_400_000_000 <= gained <= 366 * 86_400_000_000
  {
    hide CreditsPaid, FirstPaid, NotPaid, Instant;
    start := if EndOf(b, t).Some? && Instant(EndOf(b, t).value) > Instant(n.now) then EndOf(b, t).value else n.now;
    PeriodLength(start, b.subs[t].interval);
  }

  /** A first payment starts from now: it moves the end back exactly when what
      was paid goes beyond one interval from now. */
  lemma {:induction false} FirstResets(b: Books, n: Notice, row: Option<string>, t: string)
    requires Pays(b, n, row) && Row(b, n, row).kind.First? && Row(b, n, row).tenant == Some(t) && t in b.subs
    requires n.created.Some? && AddInterval(n.now, n.report.value.interval.GetOr(Month)).Some?
    ensures var after, until := Handle(b, n, row).0, AddInterval(n.now, n.report.value.interval.GetOr(Month));
            && EndOf(after, t) == until
            && (NotEarlier(EndOf(b, t), EndOf(after, t)) <==>
                EndOf(b, t).None? || Instant(EndOf(b, t).value) <= Instant(until.value))
  {
    hide Instant;
  }

  /** A first payment puts the newsroom on the plan it was made for (the starter
      plan, by the month, if it says none), paid from now and renewed by the
      gateway's new subscription; without that, or at the end of the calendar, it
      changes nothing but its own status. */
  lemma {:induction false} FirstActivates(b: Books, n: Notice, row: Option<string>, t: string)
    requires Pays(b, n, row) && Row(b, n, row).kind.First? && Row(b, n, row).tenant == Some(t) && t in b.subs
    ensures var (after, done), report := Handle(b, n, row), n.report.value;
            var interval := if report.interval.Some? then report.interval.value else Month;
            var plan, until := if report.plan.Some? then report.plan.value else "starter", AddInterval(n.now, interval);
            if n.created.Some? && until.Some? then
              && after.subs == b.subs[t := Subscription(plan, interval, "active", "mollie", n.created, None, until)]
              && done == (if n.applied then Activated else Raised)
            else
              && after == b.(payments := after.payments) && done == Raised
  {
    hide AddInterval, HasEntry;
  }

  /** What frees a newsroom held for its bills: a payment that starts or renews its
      plan. A hold for another reason stays, and no other newsroom changes. */
  lemma {:induction false} PayingReleases(b: Books, n: Notice, row: Option<string>, t: string)
    requires Pays(b, n, row) && Row(b, n, row).tenant == Some(t) && t in b.tenants
    requires Handle(b, n, row).1 == Renewed || Handle(b, n, row).1 == Activated
    ensures var before, after := b.tenants[t], Handle(b, n, row).0.tenants;
            after == b.tenants[t := if before.hold == Some("billing") then Tenant(true, None, false)
                                    else Tenant(before.active, before.hold, false)]
  {
    hide AddInterval, HasEntry, LaterOf;
  }

  /** A renewal that failed, expired or was canceled leaves the newsroom's
      subscription past due if it was active; any other notice of something
      unpaid, or with nothing new, leaves all but the payment's status. */
  lemma {:induction false} UnpaidExactly(b: Books, n: Notice, row: Option<string>)
    requires Known(b, n, row) && !Pays(b, n, row)
    ensures var (after, done), p, status := Handle(b, n, row), Row(b, n, row), n.report.value.status;
            var failed := p.kind == Recurring && p.status != "paid" && p.status != status
                          && (status == "failed" || status == "expired" || status == "canceled");
            && after.payments == b.payments[n.id := if p.status == "paid" then p else p.(status := status)]
            && after.tenants == b.tenants && after.ledger == b.ledger
            && after.subs == (if failed && p.tenant.Some? && p.tenant.value in b.subs && b.subs[p.tenant.value].status == "active"
                              then b.subs[p.tenant.value := b.subs[p.tenant.value].(status := "past_due")] else b.subs)
            && done == (if p.status == "paid" || p.status == status then Unchanged else if failed then PastDue else Noted(status))
  {
    hide CreditsPaid, FirstPaid, RenewalPaid;
    if Row(b, n, row).status == n.report.value.status {
      assert Row(b, n, row).(status := n.report.value.status) == Row(b, n, row);
    }
  }

  lemma ActIsKnown(b: Books, n: Notice, row: Option<string>)
    requires Known(b, n, row)
    ensures Handle(b, n, row).1 != Unknown
  {
    hide AddInterval, HasEntry, Released;
  }

  /** A payment not on the books is unknown, unless the gateway renewed with it a
      subscription of ours: then it is put down as a renewal of that newsroom. */
  lemma {:induction false} NewPaymentExactly(b: Books, n: Notice, row: Option<string>)
    requires n.report.Some? && n.id !in b.payments && Found(b, n, row)
    ensures Handle(b, n, row).1 == Unknown <==>
            forall t :: t in b.subs ==> n.report.value.renewalOf.None? || b.subs[t].renewals != n.report.value.renewalOf
    ensures Handle(b, n, row).1 == Unknown ==> Handle(b, n, row).0 == b
    ensures Handle(b, n, row).1 != Unknown ==> row.Some? && row.value in b.subs
    ensures Handle(b, n, row).1 != Unknown ==> b.subs[row.value].renewals == n.report.value.renewalOf
    ensures Handle(b, n, row).1 != Unknown ==>
              Handle(b, n, row).0.payments == b.payments[n.id := Payment(row, Recurring, n.report.value.status, 0)]
  {
    if Known(b, n, row) {
      ActKeepsPayments(b, n, row);
      ActIsKnown(b, n, row);
      hide Handle;
      assert n.report.value.status == "open" ==> Row(b, n, row) == Payment(row, Recurring, n.report.value.status, 0);
    }
  }

  /** A sale granted adds one entry: as many credits as the gateway says, or as the
      payment's note says if it says none. */
  lemma {:induction false} SaleGrants(b: Books, n: Notice, row: Option<string>, t: string)
    requires Pays(b, n, row) && Row(b, n, row).kind.Credits? && Row(b, n, row).tenant == Some(t)
    requires t in b.tenants && n.grantable && forall i :: 0 <= i < |b.ledger| ==> b.ledger[i].ref != n.id
    ensures var (after, done), said := Handle(b, n, row), n.report.value.credits;
            var credits := if said.Some? && said.value != 0 then said.value else Row(b, n, row).credits;
            && after.ledger == (if credits == 0 then b.ledger else b.ledger + [Entry(t, credits, n.id)])
            && done == (if credits == 0 then Raised else CreditsAdded)
            && after.subs == b.subs && after.tenants == b.tenants
  {
    hide FirstPaid, RenewalPaid, NotPaid;
  }

  /** A step that is not a first payment of this newsroom, at a time the
      calendar has. */
  predicate NoFirst(b: Books, step: Step, t: string) {
    match step
    case Notified(n, row) =>
      ValidStamp(n.now) && (Pays(b, n, row) && Row(b, n, row).kind.First? ==> Row(b, n, row).tenant != Some(t))
    case Opened(_, _) => true
    case Changed(_, _) => false
  }

  ghost predicate OnlyRenewals(b: Books, run: seq<Step>, t: string) {
    forall i :: 0 <= i < |run| ==> NoFirst(After(b, run[..i]), run[i], t)
  }

  /** A new end of a paid period: one interval from now, or from the later of
      the end and now. */
  lemma {:induction false} EndAfter(b: Books, n: Notice, row: Option<string>, t: string)
    requires EndOf(Handle(b, n, row).0, t) != EndOf(b, t)
    ensures Pays(b, n, row) && Row(b, n, row).tenant == Some(t) && t in b.subs && !Row(b, n, row).kind.Credits?
    ensures var interval := n.report.value.interval.GetOr(Month);
            EndOf(Handle(b, n, row).0, t) ==
            if Row(b, n, row).kind.First? then AddInterval(n.now, interval)
            else AddInterval(LaterOf(EndOf(b, t), n.now), b.subs[t].interval)
    ensures EndOf(Handle(b, n, row).0, t).Some?
  {
    hide AddInterval, LaterOf, HasEntry;
  }

  lemma {:induction false} EndMoves(b: Books, n: Notice, row: Option<string>, t: string)
    requires ValidStamp(n.now) && (EndOf(b, t).Some? ==> ValidStamp(EndOf(b, t).value))
    ensures var after := EndOf(Handle(b, n, row).0, t);
            && (after.Some? ==> ValidStamp(after.value))
            && (NoFirst(b, Notified(n, row), t) ==> NotEarlier(EndOf(b, t), after))
  {
    hide Handle, AddInterval, Instant, ValidStamp;
    if EndOf(Handle(b, n, row).0, t) != EndOf(b, t) {
      EndAfter(b, n, row, t);
      if Row(b, n, row).kind.First? {
        PeriodLength(n.now, n.report.value.interval.GetOr(Month));
      } else {
        PeriodLength(LaterOf(EndOf(b, t), n.now), b.subs[t].interval);
      }
    }
  }

  /** Renewals never move the end back, over any notices. */
  lemma {:induction false} RenewalsNeverShorten(b: Books, run: seq<Step>, t: string)
    requires EndOf(b, t).Some? ==> ValidStamp(EndOf(b, t).value)
    requires OnlyRenewals(b, run, t)
    ensures EndOf(After(b, run), t).Some? ==> ValidStamp(EndOf(After(b, run), t).value)
    ensures NotEarlier(EndOf(b, t), EndOf(After(b, run), t))
  {
    hide Handle, Instant, ValidStamp;
    if run != [] {
      var rest, last := run[..|run| - 1], run[|run| - 1];
      assert OnlyRenewals(b, rest, t) by {
        assert forall i :: 0 <= i < |rest| ==> rest[..i] == run[..i];
        hide NoFirst;
      }
      assert NoFirst(After(b, rest), last, t);
      RenewalsNeverShorten(b, rest, t);
      if last.Notified? {
        EndMoves(After(b, rest), last.n, last.row, t);
      }
    }
  }
}
