/** The automatic newsroom's hourly round and its debt
    (editor-mode/src/editor/autopilot.py): articles brought forward today, paid
    with credits or breaking, and what tomorrow owes for them. */
module Newsroom {
  import opened Common
  import opened NewsroomHours

  const BREAKING_PER_DAY := 3

  datatype Config = Config(
    hours: Settings,
    borrow: nat,
    extraCredits: nat,
    breaking: bool)

  /** The stored record: what the day brought forward and owes. */
  datatype Over = Over(day: int, borrowed: nat, paid: nat, breaking: nat, debt: nat)

  /** What one round finds around it. */
  datatype Round = Round(
    hour: int,
    allowed: bool,            // the plan includes the automatic newsroom
    monthLeft: Option<int>,   // the plan's articles left this month
    funds: bool,              // the credits cover an article
    takes: nat,               // proposals the choice and the decision would accept
    chosen: bool,             // the choice for an extra finds something
    news: bool)               // breaking news is found and accepted

  /** One site's newsroom: today's articles and the stored record. */
  datatype Desk = Desk(today: int, kept: nat, tried: nat, keptYesterday: nat, record: Option<Over>)

  function PerDay(c: Config): nat { c.hours.perDay }

  function TargetOf(c: Config, debt: nat): int { Max(1, PerDay(c) - debt) }

  /** The record rolls over with the day: what yesterday brought forward beyond
      its limit is today's debt, as far as yesterday kept it. */
  function OverToday(record: Option<Over>, today: int, keptOver: Option<int>): Over {
    if record.Some? && record.value.day == today then record.value
    else
      var owed := if record.Some? && record.value.day == today - 1
                  then record.value.borrowed + record.value.breaking else 0;
      var debt := if keptOver.Some? && record.Some? && record.value.day == today - 1
                  then Min(owed, Max(0, keptOver.value)) else owed;
      Over(today, 0, 0, 0, debt)
  }

  function KeptOver(c: Config, d: Desk): Option<int> {
    if d.record.Some? && d.record.value.day == d.today - 1
    then Some(d.keptYesterday - TargetOf(c, d.record.value.debt)) else None
  }

  /** Today's record, stored or still to be. */
  function Current(c: Config, d: Desk): Over {
    OverToday(d.record, d.today, KeptOver(c, d))
  }

  datatype Extra = NoExtra | Borrowed | Paid | Done

  function CanPay(c: Config, over: Over, r: Round): bool {
    r.funds && c.extraCredits > over.paid
  }

  predicate MonthOver(r: Round) {
    r.monthLeft.Some? && r.monthLeft.value <= 0
  }

  function ExtraOf(c: Config, d: Desk, over: Over, r: Round): Extra {
    var target := TargetOf(c, over.debt);
    if MonthOver(r) then Paid
    else if d.kept < target then NoExtra
    else if d.kept - target - over.breaking < c.borrow && over.borrowed < c.borrow * 2 then Borrowed
    else if CanPay(c, over, r) then Paid
    else Done
  }

  function Took(d: Desk, n: nat): Desk {
    d.(kept := d.kept + n, tried := d.tried + n)
  }

  /** Before saying the day is done (or out of hours): breaking news, if any. */
  function AfterBreaking(c: Config, d: Desk, over: Over, r: Round): Desk {
    if !c.breaking || MonthOver(r) || over.breaking >= BREAKING_PER_DAY || !r.news then d
    else Took(d, 1).(record := Some(over.(breaking := over.breaking + 1)))
  }

  function AfterOrdinary(c: Config, d: Desk, over: Over, r: Round): Desk
    requires Accepted(c.hours.window) && 0 <= r.hour < 24
  {
    var want := Want(c.hours, r.hour, TargetOf(c, over.debt), d.kept, d.tried, r.monthLeft);
    Took(d, Min(r.takes, Max(0, want))).(record := Some(over))
  }

  function AfterExtra(d: Desk, over: Over, r: Round, extra: Extra): Desk {
    if r.takes == 0 then d.(record := Some(over))
    else if extra == Paid then Took(d, 1).(record := Some(over.(paid := over.paid + 1)))
    else Took(d, 1).(record := Some(over.(borrowed := over.borrowed + 1)))
  }

  function AfterRound(c: Config, d: Desk, r: Round): Desk
    requires Accepted(c.hours.window) && 0 <= r.hour < 24
  {
    var over := Current(c, d);
    if !r.allowed || (MonthOver(r) && !CanPay(c, over, r)) then d
    else if !InHours(c.hours.window, r.hour) then AfterBreaking(c, d, over, r)
    else
      var extra := ExtraOf(c, d, over, r);
      if extra == NoExtra then
        if d.tried >= PerDay(c) * 2 then d else AfterOrdinary(c, d, over, r)
      else if extra == Done || !r.chosen then AfterBreaking(c, d, over, r)
      else AfterExtra(d, over, r, extra)
  }

  // ----- the round, changing the site's settings in place ------------------------------------

  class Site {
    const c: Config
    var today: int
    var kept: nat
    var tried: nat
    var keptYesterday: nat
    var autoOver: Option<Over>

    function State(): Desk
      reads this
    {
      Desk(today, kept, tried, keptYesterday, autoOver)
    }

    constructor (c: Config, today: int)
      ensures this.c == c && State() == Desk(today, 0, 0, 0, None)
    {
      this.c, this.today := c, today;
      kept, tried, keptYesterday, autoOver := 0, 0, 0, None;
    }

    method Enqueue()
      modifies this
      ensures State() == Took(old(State()), 1)
    {
      kept, tried := kept + 1, tried + 1;
    }

    method Breaking(over: Over, r: Round)
      modifies this
      ensures State() == AfterBreaking(c, old(State()), over, r)
    {
      if !c.breaking || MonthOver(r) || over.breaking >= BREAKING_PER_DAY { return; }
      if !r.news { return; }
      Enqueue();
      autoOver := Some(over.(breaking := over.breaking + 1));
    }

    /** Accept up to `want` of the proposals the round would take. */
    method Accept(want: int, takes: nat) returns (accepted: nat)
      modifies this
      ensures accepted == Min(takes, Max(0, want)) && State() == Took(old(State()), accepted)
    {
      accepted := 0;
      while accepted < want && accepted < takes
        invariant accepted <= takes && accepted <= Max(0, want) && State() == Took(old(State()), accepted)
      {
        Enqueue();
        accepted := accepted + 1;
      }
    }

    /** The day's own articles, spread over the hours left. */
    method Ordinary(over: Over, target: int, r: Round)
      requires Accepted(c.hours.window) && 0 <= r.hour < 24 && target == TargetOf(c, over.debt)
      modifies this
      ensures State() == AfterOrdinary(c, old(State()), over, r)
    {
      var left := Min(target - kept, PerDay(c) * TRIES_PER_ARTICLE - tried);
      var hoursLeft := HoursLeft(c.hours.window, r.hour);
      var want := Shares(left, hoursLeft);
      want := Max(want, Min(left, DueBy(c.hours, r.hour) - kept));
      if r.monthLeft.Some? { want := Min(want, r.monthLeft.value); }
      var _ := Accept(want, r.takes);
      autoOver := Some(over);
    }

    /** One article more than the day's, brought forward or paid. */
    method OneMore(over: Over, r: Round, extra: Extra)
      modifies this
      ensures State() == AfterExtra(old(State()), over, r, extra)
    {
      var accepted := Accept(1, r.takes);
      if accepted == 0 {
        autoOver := Some(over);
      } else if extra == Paid {
        autoOver := Some(over.(paid := over.paid + accepted));
      } else {
        autoOver := Some(over.(borrowed := over.borrowed + accepted));
      }
    }

    /** Which extra the round may take once the day has its articles. */
    method ChooseExtra(over: Over, r: Round, target: int) returns (extra: Extra)
      requires target == TargetOf(c, over.debt)
      ensures extra == ExtraOf(c, State(), over, r)
    {
      extra := NoExtra;
      if MonthOver(r) {
        extra := Paid;
      } else if kept >= target {
        if kept - target - over.breaking < c.borrow && over.borrowed < c.borrow * TRIES_PER_ARTICLE {
          extra := Borrowed;
        } else if CanPay(c, over, r) {
          extra := Paid;
        } else {
          extra := Done;
        }
      }
    }

    /** One hour of the automatic newsroom. */
    method Hour(r: Round)
      requires Accepted(c.hours.window) && 0 <= r.hour < 24
      modifies this
      ensures State() == AfterRound(c, old(State()), r)
    {
      hide OverToday, AfterOrdinary, AfterExtra, AfterBreaking, ExtraOf;
      if !r.allowed { return; }
      var keptOver := None;
      if autoOver.Some? && autoOver.value.day == today - 1 {
        keptOver := Some(keptYesterday - Max(1, PerDay(c) - autoOver.value.debt));
      }
      var over := OverToday(autoOver, today, keptOver);
      if MonthOver(r) && !CanPay(c, over, r) { return; }
      if !InHours(c.hours.window, r.hour) {
        Breaking(over, r);
        return;
      }
      var target := Max(1, PerDay(c) - over.debt);
      var extra := ChooseExtra(over, r, target);
      if extra == NoExtra {
        if tried >= PerDay(c) * TRIES_PER_ARTICLE { return; }
        Ordinary(over, target, r);
      } else if extra == Done || !r.chosen {
        Breaking(over, r);
      } else {
        OneMore(over, r, extra);
      }
    }

    /** Between rounds, articles of today may be discarded. */
    method Discard(n: nat)
      requires n <= kept
      modifies this`kept
      ensures State() == old(State()).(kept := old(kept) - n)
    {
      kept := kept - n;
    }

    method Midnight()
      modifies this
      ensures State() == NextDay(old(State()))
    {
      today, keptYesterday, kept, tried := today + 1, kept, 0, 0;
    }

    /** Hour after hour and day after day, with discards in between. */
    method Live(events: seq<Event>)
      requires Accepted(c.hours.window) && Timed(events) && State() == Desk(today, 0, 0, 0, None)
      modifies this
      ensures State() == After(c, old(today), events).desk
    {
      hide AfterRound;
      for i := 0 to |events|
        invariant State() == After(c, old(today), events[..i]).desk
      {
        assert events[..i + 1][..i] == events[..i];
        match events[i]
        case Work(r) => Hour(r);
        case Discarded(n) => Discard(Min(n, kept));
        case NewDay => Midnight();
      }
      assert events[..|events|] == events;
    }
  }

  function NextDay(d: Desk): Desk {
    Desk(d.today + 1, 0, 0, d.kept, d.record)
  }

  // ----- any number of days -------------------------------------------------------------------

  datatype Event = Work(r: Round) | Discarded(n: nat) | NewDay

  /** The desk, with what the days before today kept and paid for. */
  datatype Books = Books(desk: Desk, days: nat, keptBefore: nat, paidBefore: nat)

  predicate OnTime(e: Event) {
    e.Work? ==> 0 <= e.r.hour < 24
  }

  function Step(c: Config, b: Books, e: Event): Books
    requires Accepted(c.hours.window) && OnTime(e)
  {
    match e
    case Work(r) => b.(desk := AfterRound(c, b.desk, r))
    case Discarded(n) => b.(desk := b.desk.(kept := Max(0, b.desk.kept - n)))
    case NewDay =>
      Books(NextDay(b.desk), b.days + 1, b.keptBefore + b.desk.kept, b.paidBefore + Current(c, b.desk).paid)
  }

  predicate Timed(events: seq<Event>) {
    forall i :: 0 <= i < |events| ==> OnTime(events[i])
  }

  function After(c: Config, today: int, events: seq<Event>): Books
    requires Accepted(c.hours.window) && Timed(events)
  {
    if events == [] then Books(Desk(today, 0, 0, 0, None), 0, 0, 0)
    else Step(c, After(c, today, events[..|events| - 1]), events[|events| - 1])
  }

  /** What tomorrow would owe, if the day ended now. */
  function OwedTomorrow(c: Config, d: Desk): nat {
    Current(c, NextDay(d)).debt
  }

  /** Breaking news a day may take. */
  function BreakingCap(c: Config): nat { if c.breaking then BREAKING_PER_DAY else 0 }

  /** Today's articles: up to the target, and one for each extra accepted; and
      beyond the target, no more free ones than may be brought forward. */
  ghost predicate DayBalanced(c: Config, d: Desk) {
    var over := Current(c, d);
    && over.day == d.today
    && d.kept <= TargetOf(c, over.debt) + over.borrowed + over.breaking + over.paid
    && d.kept <= TargetOf(c, over.debt) + c.borrow + over.breaking + over.paid
    && over.breaking <= BreakingCap(c)
    && (d.record.Some? ==> d.record.value.day <= d.today)
  }

  function DaysWorth(c: Config, days: nat): nat { days * PerDay(c) }

  lemma {:induction false} OneDayMore(c: Config, days: nat)
    ensures DaysWorth(c, days + 1) == DaysWorth(c, days) + PerDay(c)
  {
  }

  /** The days before today, with what they left owing. */
  ghost predicate PastBalanced(c: Config, b: Books) {
    b.keptBefore <= DaysWorth(c, b.days) + b.paidBefore + Current(c, b.desk).debt
  }

  /** And with what a day may bring forward at most. */
  ghost predicate PastBounded(c: Config, b: Books) {
    b.keptBefore <= DaysWorth(c, b.days) + b.paidBefore + c.borrow + BreakingCap(c)
  }

  predicate Workable(c: Config) {
    Sensible(c.hours)
  }

  /** Every round keeps the balance of its day. */
  lemma {:induction false} RoundBalances(c: Config, d: Desk, r: Round)
    requires Workable(c) && 0 <= r.hour < 24 && DayBalanced(c, d)
    ensures DayBalanced(c, AfterRound(c, d, r)) && Current(c, AfterRound(c, d, r)).debt == Current(c, d).debt
  {
    var over := Current(c, d);
    if d.kept < TargetOf(c, over.debt) && d.tried < PerDay(c) * 2 {
      var want := Want(c.hours, r.hour, TargetOf(c, over.debt), d.kept, d.tried, r.monthLeft);
      OrdinaryRoundStaysWithin(c.hours, r.hour, TargetOf(c, over.debt), d.kept, d.tried, r.monthLeft, Min(r.takes, Max(0, want)));
    }
    hide Want;
  }

  /** At midnight the day's articles are its target, plus what it leaves owing
      and what credits paid, and no more free ones than may be brought forward. */
  lemma {:induction false} DayCloses(c: Config, d: Desk)
    requires DayBalanced(c, d)
    ensures var over := Current(c, d);
            && d.kept <= TargetOf(c, over.debt) + OwedTomorrow(c, d) + over.paid
            && d.kept <= TargetOf(c, over.debt) + c.borrow + BreakingCap(c) + over.paid
  {
  }

  /** A day's own articles are fewer than the free ones beyond the target may
      become, so that tomorrow can always make up for them. */
  predicate Repayable(c: Config) { c.borrow + BreakingCap(c) < PerDay(c) }

  lemma {:induction false} StepBalances(c: Config, b: Books, e: Event)
    requires Workable(c) && OnTime(e) && DayBalanced(c, b.desk) && PastBalanced(c, b)
    requires Current(c, b.desk).debt < PerDay(c) || (Repayable(c) && PastBounded(c, b))
    ensures DayBalanced(c, Step(c, b, e).desk) && PastBalanced(c, Step(c, b, e))
  {
    hide DaysWorth, AfterRound;
    match e
    case Work(r) => RoundBalances(c, b.desk, r);
    case Discarded(n) =>
    case NewDay =>
      DayCloses(c, b.desk);
      OneDayMore(c, b.days);
  }

  lemma {:induction false} StepStaysBounded(c: Config, b: Books, e: Event)
    requires Workable(c) && OnTime(e) && DayBalanced(c, b.desk) && PastBalanced(c, b)
    requires Repayable(c) && PastBounded(c, b)
    ensures PastBounded(c, Step(c, b, e))
  {
    hide DaysWorth, AfterRound;
    if e.NewDay? {
      DayCloses(c, b.desk);
      OneDayMore(c, b.days);
    }
  }

  lemma {:induction false} BooksBalance(c: Config, today: int, events: seq<Event>)
    requires Workable(c) && Timed(events) && Repayable(c)
    ensures var b := After(c, today, events); DayBalanced(c, b.desk) && PastBalanced(c, b) && PastBounded(c, b)
  {
    hide Step, DayBalanced, PastBalanced, PastBounded;
    if events == [] {
      NothingYet(c, today);
    } else {
      BooksBalance(c, today, events[..|events| - 1]);
      var before := After(c, today, events[..|events| - 1]);
      StepBalances(c, before, events[|events| - 1]);
      StepStaysBounded(c, before, events[|events| - 1]);
    }
  }

  lemma {:induction false} NothingYet(c: Config, today: int)
    ensures var b := Books(Desk(today, 0, 0, 0, None), 0, 0, 0);
            && DayBalanced(c, b.desk) && PastBalanced(c, b) && PastBounded(c, b)
            && ExtrasBounded(c, b.desk)
  {
  }

  /** Articles kept so far are at most a day's share each, plus those paid with
      credits, plus what today leaves owing. */
  ghost predicate WithinShares(c: Config, b: Books) {
    b.keptBefore + b.desk.kept
    <= DaysWorth(c, b.days + 1) + b.paidBefore + Current(c, b.desk).paid + OwedTomorrow(c, b.desk)
  }

  lemma {:induction false} BalancedIsWithin(c: Config, b: Books)
    requires DayBalanced(c, b.desk) && PastBalanced(c, b)
    requires Current(c, b.desk).debt < PerDay(c) || (Repayable(c) && PastBounded(c, b))
    ensures WithinShares(c, b)
  {
    hide DaysWorth;
    DayCloses(c, b.desk);
    OneDayMore(c, b.days);
  }

  /** Over any number of days, whatever the rounds find and whatever is
      discarded, articles kept stay within the days' shares, the credit-paid
      ones and the debt left: exactly when the settings allow fewer free
      articles beyond the target than a day has. */
  lemma {:induction false} KeptOverDays(c: Config, today: int)
    requires Workable(c)
    ensures (forall events :: Timed(events) ==> WithinShares(c, After(c, today, events))) <==> Repayable(c)
  {
    hide Step, DayBalanced, PastBalanced, PastBounded, WithinShares, Repayable;
    if Repayable(c) {
      forall events | Timed(events) ensures WithinShares(c, After(c, today, events)) {
        BooksBalance(c, today, events);
        BalancedIsWithin(c, After(c, today, events));
      }
    } else {
      var events := DebtOfADayIsNotRepaid(c, today);
      assert Timed(events) && !WithinShares(c, After(c, today, events));
    }
  }

  // ----- what a round may do, and the month's quota -------------------------------------------

  /** What each kind of article needs: a plan with the automatic newsroom; for the
      day's own, working hours, a target and tries not used up, and something to
      take; for one brought forward, a day that has its own; for one paid, the
      credits and a day, or a month, that is over; for breaking news, the
      setting, the news, fewer than three and a month not over. */
  lemma {:induction false} WhatARoundNeeds(c: Config, d: Desk, r: Round)
    requires Workable(c) && 0 <= r.hour < 24 && (d.record.Some? ==> d.record.value.day <= d.today)
    ensures !r.allowed ==> AfterRound(c, d, r) == d
    ensures var over, d' := Current(c, d), AfterRound(c, d, r);
            var over', target := Current(c, d'), TargetOf(c, over.debt);
            var open := r.monthLeft.None? || r.monthLeft.value > 0;
            && d'.kept - d.kept == d'.tried - d.tried && d'.kept >= d.kept
            && over.borrowed <= over'.borrowed && over.paid <= over'.paid && over.breaking <= over'.breaking
            && (over'.borrowed > over.borrowed ==> open && d.kept >= target && InHours(c.hours.window, r.hour) && r.takes > 0)
            && (over'.paid > over.paid ==> (
                  && r.funds && over.paid < c.extraCredits && (!open || d.kept >= target)
                  && InHours(c.hours.window, r.hour) && r.takes > 0))
            && (over'.breaking > over.breaking ==> (
                  && open && c.breaking && r.news && over.breaking < 3
                  && (d.kept >= target || !InHours(c.hours.window, r.hour))))
            && (d'.kept - d.kept > (over'.borrowed - over.borrowed) + (over'.paid - over.paid) + (over'.breaking - over.breaking) ==>
                  && over' == over && open && InHours(c.hours.window, r.hour)
                  && d.kept < target && d.tried < PerDay(c) * 2 && d'.kept - d.kept <= r.takes)
  {
    hide Want, InHours;
  }

  /** What a day that has its own articles makes in working hours: one brought forward
      while those kept beyond the target, breaking news aside, are fewer than may
      be and not too many were tried; else one paid for, if credits allow; and with
      neither, or nothing worth it, breaking news. A month that is over leaves the
      paid one only. */
  lemma {:induction false} WhatARoundDoes(c: Config, d: Desk, r: Round)
    requires Workable(c) && 0 <= r.hour < 24 && r.allowed && InHours(c.hours.window, r.hour)
    requires (r.monthLeft.Some? && r.monthLeft.value <= 0) || d.kept >= TargetOf(c, Current(c, d).debt)
    ensures var over, over' := Current(c, d), Current(c, AfterRound(c, d, r));
            var open := r.monthLeft.None? || r.monthLeft.value > 0;
            var free := d.kept - TargetOf(c, over.debt) - over.breaking;
            var forward := open && free < c.borrow && over.borrowed < 2 * c.borrow;
            var payable := r.funds && over.paid < c.extraCredits;
            var extra := r.chosen && (forward || payable);
            && (over'.borrowed == over.borrowed + if extra && forward && r.takes > 0 then 1 else 0)
            && (over'.paid == over.paid + if extra && !forward && r.takes > 0 then 1 else 0)
            && (over'.breaking == over.breaking + if !extra && open && c.breaking && r.news && over.breaking < 3 then 1 else 0)
  {
    RecordIsCurrent(c, d);
    hide InHours;
  }

  /** Out of hours only breaking news is made. */
  lemma {:induction false} OutOfHours(c: Config, d: Desk, r: Round)
    requires Workable(c) && 0 <= r.hour < 24 && r.allowed && !InHours(c.hours.window, r.hour)
    ensures var over, d' := Current(c, d), AfterRound(c, d, r);
            var news := (r.monthLeft.None? || r.monthLeft.value > 0) && c.breaking && r.news && over.breaking < 3;
            d' == if news then d.(kept := d.kept + 1, tried := d.tried + 1, record := Some(over.(breaking := over.breaking + 1)))
                  else d
  {
    hide InHours;
  }

  lemma RecordIsCurrent(c: Config, d: Desk)
    ensures Current(c, d).day == d.today
    ensures forall over: Over, kept, tried :: over.day == d.today ==>
              Current(c, d.(kept := kept, tried := tried, record := Some(over))) == over
  {
  }

  /** In working hours of an open month, a day short of its target and of its tries
      takes what is wanted, as far as there is something to take. */
  lemma {:induction false} OrdinaryTakes(c: Config, d: Desk, r: Round)
    requires Workable(c) && 0 <= r.hour < 24 && r.allowed && InHours(c.hours.window, r.hour)
    requires r.monthLeft.None? || r.monthLeft.value > 0
    requires d.kept < TargetOf(c, Current(c, d).debt) && d.tried < PerDay(c) * 2
    ensures var want := Want(c.hours, r.hour, TargetOf(c, Current(c, d).debt), d.kept, d.tried, r.monthLeft);
            want >= 1 && AfterRound(c, d, r).kept == d.kept + Min(r.takes, want)
  {
    SharesBounds(Left(c.hours, TargetOf(c, Current(c, d).debt), d.kept, d.tried), Remaining(c.hours.window, r.hour));
    hide InHours, DueBy, Shares, Remaining;
  }

  /** The round never takes on more than the month has left; with nothing left,
      it makes at most one article, and pays for it. */
  lemma {:induction false} RoundWithinMonth(c: Config, d: Desk, r: Round)
    requires Workable(c) && 0 <= r.hour < 24 && r.monthLeft.Some? && (d.record.Some? ==> d.record.value.day <= d.today)
    ensures var d' := AfterRound(c, d, r);
            var paid := Current(c, d').paid - Current(c, d).paid;
            && (r.monthLeft.value > 0 ==> d'.kept - d.kept <= r.monthLeft.value)
            && (r.monthLeft.value <= 0 ==> d'.kept - d.kept == paid <= 1)
            && paid >= 0
  {
    hide InHours, DueBy, Shares, Remaining;
  }

  function KeptInAll(b: Books): int { b.keptBefore + b.desk.kept }

  function PaidInAll(c: Config, b: Books): int { b.paidBefore + Current(c, b.desk).paid }

  /** Rounds of one month: each finds at most the quota less what is kept so far. */
  ghost predicate InQuota(c: Config, today: int, events: seq<Event>, quota: nat)
    requires Accepted(c.hours.window) && Timed(events)
  {
    forall i :: 0 <= i < |events| && events[i].Work? ==>
      events[i].r.monthLeft.Some?
      && events[i].r.monthLeft.value <= Max(0, quota - KeptInAll(After(c, today, events[..i])))
  }

  /** Over any days of a month, articles not paid with credits stay within the
      quota; a month that counts discarded ones too finds less left, and keeps it
      all the more. */
  lemma {:induction false} MonthKeepsQuota(c: Config, today: int, events: seq<Event>, quota: nat)
    requires Workable(c) && Timed(events) && InQuota(c, today, events, quota)
    ensures var b := After(c, today, events); KeptInAll(b) <= quota + PaidInAll(c, b)
  {
    hide Step, KeptInAll, PaidInAll, DayBalanced, ExtrasBounded;
    if events == [] {
      NothingKept(c, today);
    } else {
      var n := |events| - 1;
      var before := events[..n];
      assert forall i :: 0 <= i < n ==> before[..i] == events[..i] && before[i] == events[i];
      MonthKeepsQuota(c, today, before, quota);
      ExtrasStayBounded(c, today, before);
      StepKeepsQuota(c, After(c, today, before), events[n], quota);
    }
  }

  lemma {:induction false} NothingKept(c: Config, today: int)
    ensures KeptInAll(Books(Desk(today, 0, 0, 0, None), 0, 0, 0)) == 0
    ensures PaidInAll(c, Books(Desk(today, 0, 0, 0, None), 0, 0, 0)) == 0
  {
  }

  lemma {:induction false} StepKeepsQuota(c: Config, b: Books, e: Event, quota: nat)
    requires Workable(c) && OnTime(e) && DayBalanced(c, b.desk) && KeptInAll(b) <= quota + PaidInAll(c, b)
    requires e.Work? ==> e.r.monthLeft.Some? && e.r.monthLeft.value <= Max(0, quota - KeptInAll(b))
    ensures KeptInAll(Step(c, b, e)) <= quota + PaidInAll(c, Step(c, b, e))
  {
    hide AfterRound;
    match e
    case Work(r) => RoundWithinMonth(c, b.desk, r);
    case Discarded(_) =>
    case NewDay =>
  }

  /** What today starts from: its own record, or what yesterday kept beyond its
      target of what it brought forward; anything older is forgotten. */
  lemma {:induction false} DebtExactly(c: Config, d: Desk)
    ensures d.record.None? || d.record.value.day < d.today - 1 ==> Current(c, d) == Over(d.today, 0, 0, 0, 0)
    ensures d.record.Some? && d.record.value.day == d.today ==> Current(c, d) == d.record.value
    ensures d.record.Some? && d.record.value.day == d.today - 1 ==>
              var beyond := d.keptYesterday - Max(1, PerDay(c) - d.record.value.debt);
              var forward := d.record.value.borrowed + d.record.value.breaking;
              Current(c, d) == Over(d.today, 0, 0, 0, if beyond <= 0 then 0 else if beyond < forward then beyond else forward)
  {
  }

  // ----- the debt -------------------------------------------------------------------------------

  /** The debt stays below a day's articles all along. */
  ghost predicate DebtBelowADay(c: Config, today: int, events: seq<Event>)
    requires Accepted(c.hours.window) && Timed(events)
  {
    forall n :: 0 <= n <= |events| ==> Current(c, After(c, today, events[..n]).desk).debt < PerDay(c)
  }

  lemma {:induction false} SmallDebtBalances(c: Config, today: int, events: seq<Event>)
    requires Workable(c) && Timed(events) && DebtBelowADay(c, today, events)
    ensures var b := After(c, today, events); DayBalanced(c, b.desk) && PastBalanced(c, b)
  {
    hide Step, DayBalanced, PastBalanced;
    if events == [] {
      NothingYet(c, today);
    } else {
      var before := events[..|events| - 1];
      assert forall n :: 0 <= n <= |before| ==> before[..n] == events[..n];
      SmallDebtBalances(c, today, before);
      assert events[..|before|] == before;
      StepBalances(c, After(c, today, before), events[|events| - 1]);
    }
  }

  /** Whatever the settings, a run whose debt stays below a day's articles stays
      within the shares. */
  lemma {:induction false} KeptWhileDebtIsSmall(c: Config, today: int, events: seq<Event>)
    requires Workable(c) && Timed(events) && DebtBelowADay(c, today, events)
    ensures WithinShares(c, After(c, today, events))
  {
    hide Step, DayBalanced, PastBalanced, WithinShares, After;
    SmallDebtBalances(c, today, events);
    assert events[..|events|] == events;
    BalancedIsWithin(c, After(c, today, events));
  }

  lemma {:induction false} OwedOf(c: Config, d: Desk)
    requires d.record.Some? ==> d.record.value.day <= d.today
    ensures var over := Current(c, d);
            OwedTomorrow(c, d) == Min(over.borrowed + over.breaking, Max(0, d.kept - TargetOf(c, over.debt)))
  {
  }

  /** A round that brings forward an article, or takes breaking news. */
  lemma {:induction false} FreeRound(c: Config, d: Desk, r: Round)
    requires Workable(c) && 0 <= r.hour < 24 && d.kept >= TargetOf(c, Current(c, d).debt)
    requires d.record.Some? ==> d.record.value.day <= d.today
    requires var over, after := Current(c, d), Current(c, AfterRound(c, d, r));
             after.borrowed + after.breaking > over.borrowed + over.breaking
    ensures var over, after := Current(c, d), AfterRound(c, d, r);
            && after.kept == d.kept + 1 && after.today == d.today
            && after.record.Some? && after.record.value.day == d.today && after.record.value.debt == over.debt
            && after.record.value.borrowed + after.record.value.breaking == over.borrowed + over.breaking + 1
  {
    hide Want, AfterOrdinary, InHours;
  }

  /** An article brought forward, or breaking news, once the day has its own:
      tomorrow owes one more, and aims at one less as long as it can. */
  lemma {:induction false} DebtLowersTarget(c: Config, d: Desk, r: Round)
    requires Workable(c) && 0 <= r.hour < 24 && DayBalanced(c, d) && d.kept >= TargetOf(c, Current(c, d).debt)
    requires var over, after := Current(c, d), Current(c, AfterRound(c, d, r));
             after.borrowed + after.breaking > over.borrowed + over.breaking
    ensures var after := AfterRound(c, d, r);
            && after.kept == d.kept + 1 && OwedTomorrow(c, after) == OwedTomorrow(c, d) + 1
            && TargetOf(c, OwedTomorrow(c, after)) == Max(1, TargetOf(c, OwedTomorrow(c, d)) - 1)
  {
    FreeRound(c, d, r);
    OwedOf(c, d);
    OwedOf(c, AfterRound(c, d, r));
    hide AfterRound, Current, OwedTomorrow;
  }

  /** The most a day may owe for the one before. */
  function MostOwed(c: Config): nat { c.borrow + Min(c.borrow, c.extraCredits) + BreakingCap(c) }

  ghost predicate ExtrasBounded(c: Config, d: Desk) {
    var over := Current(c, d);
    && over.borrowed <= c.borrow * 2 && over.breaking <= BreakingCap(c) && over.paid <= c.extraCredits
    && over.debt <= MostOwed(c)
  }

  lemma {:induction false} RoundBoundsExtras(c: Config, d: Desk, r: Round)
    requires Workable(c) && 0 <= r.hour < 24 && DayBalanced(c, d) && ExtrasBounded(c, d)
    ensures ExtrasBounded(c, AfterRound(c, d, r))
  {
    hide Want;
  }

  lemma {:induction false} DayBoundsDebt(c: Config, d: Desk)
    requires DayBalanced(c, d) && ExtrasBounded(c, d)
    ensures DayBalanced(c, NextDay(d)) && ExtrasBounded(c, NextDay(d))
  {
  }

  lemma {:induction false} StepBoundsExtras(c: Config, b: Books, e: Event)
    requires Workable(c) && OnTime(e) && DayBalanced(c, b.desk) && ExtrasBounded(c, b.desk)
    ensures DayBalanced(c, Step(c, b, e).desk) && ExtrasBounded(c, Step(c, b, e).desk)
  {
    match e
    case Work(r) =>
      hide AfterRound, DayBalanced, ExtrasBounded;
      RoundBalances(c, b.desk, r);
      RoundBoundsExtras(c, b.desk, r);
    case Discarded(n) =>
    case NewDay =>
      hide DayBalanced, ExtrasBounded;
      DayBoundsDebt(c, b.desk);
  }

  lemma {:induction false} ExtrasStayBounded(c: Config, today: int, events: seq<Event>)
    requires Workable(c) && Timed(events)
    ensures DayBalanced(c, After(c, today, events).desk) && ExtrasBounded(c, After(c, today, events).desk)
  {
    hide Step, ExtrasBounded, DayBalanced;
    if events == [] {
      NothingYet(c, today);
    } else {
      ExtrasStayBounded(c, today, events[..|events| - 1]);
      StepBoundsExtras(c, After(c, today, events[..|events| - 1]), events[|events| - 1]);
    }
  }

  /** The debt stays below a day's articles in every run exactly when the most a
      day may owe does. */
  lemma {:induction false} DebtStaysSmall(c: Config, today: int)
    requires Workable(c)
    ensures (forall events :: Timed(events) ==> DebtBelowADay(c, today, events)) <==> MostOwed(c) < PerDay(c)
  {
    hide Step, DayBalanced;
    if MostOwed(c) < PerDay(c) {
      forall events | Timed(events) ensures DebtBelowADay(c, today, events) {
        forall n | 0 <= n <= |events|
          ensures Current(c, After(c, today, events[..n]).desk).debt < PerDay(c)
        {
          ExtrasStayBounded(c, today, events[..n]);
        }
      }
    } else {
      hide After;
      var events := MostIsOwed(c, today);
      assert events[..|events|] == events;
      assert !DebtBelowADay(c, today, events);
    }
  }

  // ----- runs that reach the limits ---------------------------------------------------------------

  /** One proposal to take: the day's own, then one brought forward or paid. */
  function TakeOne(c: Config, funds: bool): Event {
    Work(Round(c.hours.window.start, true, None, funds, 1, true, false))
  }

  /** Nothing but breaking news. */
  function NewsOnly(c: Config): Event {
    Work(Round(c.hours.window.start, true, None, false, 0, false, true))
  }

  function Repeat(e: Event, n: nat): seq<Event> { seq(n, i => e) }

  lemma {:induction false} RoundInHours(c: Config)
    requires Workable(c)
    ensures OnTime(TakeOne(c, true)) && OnTime(TakeOne(c, false)) && OnTime(NewsOnly(c))
    ensures InHours(c.hours.window, c.hours.window.start)
  {
  }

  lemma {:induction false} OwnRound(c: Config, d: Desk)
    requires Workable(c) && d.kept < TargetOf(c, Current(c, d).debt) && d.tried < PerDay(c) * 2
    ensures OnTime(TakeOne(c, false)) && TakeOne(c, false).Work?
    ensures AfterRound(c, d, TakeOne(c, false).r) == Took(d, 1).(record := Some(Current(c, d)))
  {
    RoundInHours(c);
    var target := TargetOf(c, Current(c, d).debt);
    SharesBounds(Left(c.hours, target, d.kept, d.tried), Remaining(c.hours.window, c.hours.window.start));
    hide DueBy;
  }

  lemma {:induction false} ExtraRound(c: Config, d: Desk, over: Over, funds: bool)
    requires Workable(c) && d.record == Some(over) && over.day == d.today
    requires d.kept >= TargetOf(c, over.debt)
    ensures d.kept - TargetOf(c, over.debt) - over.breaking < c.borrow && over.borrowed < c.borrow * 2 ==>
              AfterRound(c, d, TakeOne(c, funds).r) == Took(d, 1).(record := Some(over.(borrowed := over.borrowed + 1)))
    ensures d.kept - TargetOf(c, over.debt) - over.breaking >= c.borrow && funds && over.paid < c.extraCredits ==>
              AfterRound(c, d, TakeOne(c, funds).r) == Took(d, 1).(record := Some(over.(paid := over.paid + 1)))
    ensures over.breaking < BreakingCap(c) ==>
              AfterRound(c, d, NewsOnly(c).r) == Took(d, 1).(record := Some(over.(breaking := over.breaking + 1)))
  {
    RoundInHours(c);
    hide Want;
  }

  lemma {:induction false} OneMoreOf(c: Config, today: int, events: seq<Event>, e: Event, n: nat)
    requires Workable(c) && Timed(events) && OnTime(e)
    ensures Timed(events + Repeat(e, n))
    ensures n == 0 ==> events + Repeat(e, n) == events
    ensures n > 0 ==> After(c, today, events + Repeat(e, n)) == Step(c, After(c, today, events + Repeat(e, n - 1)), e)
  {
    hide Step;
    if n > 0 {
      var all := events + Repeat(e, n);
      assert all[..|all| - 1] == events + Repeat(e, n - 1);
    }
  }

  /** A new day takes its own articles one at a time. */
  lemma {:induction false} OwnArticles(c: Config, today: int, events: seq<Event>, n: nat)
    requires Workable(c) && Timed(events)
    requires var d := After(c, today, events).desk;
             && d.kept == d.tried == 0 && (d.record.Some? ==> d.record.value.day < d.today)
             && 1 <= n <= TargetOf(c, Current(c, d).debt)
    ensures Timed(events + Repeat(TakeOne(c, false), n))
    ensures var b := After(c, today, events);
            After(c, today, events + Repeat(TakeOne(c, false), n)) ==
            b.(desk := b.desk.(kept := n, tried := n, record := Some(Current(c, b.desk))))
  {
    hide After, AfterRound, Repeat, TakeOne;
    RoundInHours(c);
    OneMoreOf(c, today, events, TakeOne(c, false), n);
    OneMoreOf(c, today, events, TakeOne(c, false), n - 1);
    if n > 1 {
      OwnArticles(c, today, events, n - 1);
    }
    OwnRound(c, After(c, today, events + Repeat(TakeOne(c, false), n - 1)).desk);
  }

  /** One more article of a kind: brought forward, paid, or breaking news. */
  function Another(c: Config, kind: Extra): Event {
    if kind == Borrowed then TakeOne(c, false) else if kind == Paid then TakeOne(c, true) else NewsOnly(c)
  }

  function Grown(over: Over, kind: Extra, n: nat): Over {
    if kind == Borrowed then over.(borrowed := over.borrowed + n)
    else if kind == Paid then over.(paid := over.paid + n)
    else over.(breaking := over.breaking + n)
  }

  /** Room for `n` more of a kind. */
  predicate RoomFor(c: Config, d: Desk, over: Over, kind: Extra, n: nat) {
    var free := d.kept - TargetOf(c, over.debt) - over.breaking;
    && d.kept >= TargetOf(c, over.debt)
    && (kind == Borrowed ==> free + n <= c.borrow && over.borrowed + n <= c.borrow * 2)
    && (kind == Paid ==> free >= c.borrow && over.paid + n <= c.extraCredits)
    && (kind != Borrowed && kind != Paid ==> over.breaking + n <= BreakingCap(c))
  }

  lemma {:induction false} RoomLeft(c: Config, d: Desk, over: Over, kind: Extra, n: nat)
    requires n > 0
    ensures Grown(over, kind, 0) == over && Grown(Grown(over, kind, n - 1), kind, 1) == Grown(over, kind, n)
    ensures Grown(over, kind, n - 1).day == over.day
    ensures RoomFor(c, d, over, kind, n) ==> RoomFor(c, d, over, kind, n - 1)
    ensures RoomFor(c, d, over, kind, n) ==>
              RoomFor(c, Took(d, n - 1).(record := Some(Grown(over, kind, n - 1))), Grown(over, kind, n - 1), kind, 1)
  {
  }

  lemma {:induction false} ExtraStep(c: Config, d: Desk, over: Over, kind: Extra)
    requires Workable(c) && d.record == Some(over) && over.day == d.today && RoomFor(c, d, over, kind, 1)
    ensures Another(c, kind).Work? && OnTime(Another(c, kind))
    ensures AfterRound(c, d, Another(c, kind).r) == Took(d, 1).(record := Some(Grown(over, kind, 1)))
  {
    RoundInHours(c);
    ExtraRound(c, d, over, kind == Paid);
    hide AfterRound;
  }

  lemma {:induction false} ExtraArticles(c: Config, today: int, events: seq<Event>, over: Over, kind: Extra, n: nat)
    requires Workable(c) && Timed(events)
    requires var d := After(c, today, events).desk;
             d.record == Some(over) && over.day == d.today && RoomFor(c, d, over, kind, n)
    ensures Timed(events + Repeat(Another(c, kind), n))
    ensures var b := After(c, today, events);
            After(c, today, events + Repeat(Another(c, kind), n)) ==
            b.(desk := Took(b.desk, n).(record := Some(Grown(over, kind, n))))
  {
    hide After, AfterRound, RoomFor, Grown, Repeat;
    RoundInHours(c);
    OneMoreOf(c, today, events, Another(c, kind), n);
    if n > 0 {
      OneMoreOf(c, today, events, Another(c, kind), n - 1);
      RoomLeft(c, After(c, today, events).desk, over, kind, n);
      ExtraArticles(c, today, events, over, kind, n - 1);
      ExtraStep(c, After(c, today, events + Repeat(Another(c, kind), n - 1)).desk, Grown(over, kind, n - 1), kind);
    } else {
      RoomLeft(c, After(c, today, events).desk, over, kind, 1);
    }
  }

  /** A day of its own articles, then all it may bring forward. */
  lemma {:induction false} FullDay(c: Config, today: int) returns (events: seq<Event>)
    requires Workable(c)
    ensures Timed(events)
    ensures var n := PerDay(c) + c.borrow;
            After(c, today, events) == Books(Desk(today, n, n, 0, Some(Over(today, c.borrow, 0, 0, 0))), 0, 0, 0)
  {
    hide Step;
    OwnArticles(c, today, [], PerDay(c));
    events := [] + Repeat(TakeOne(c, false), PerDay(c));
    hide After;
    ExtraArticles(c, today, events, Over(today, 0, 0, 0, 0), Borrowed, c.borrow);
    events := events + Repeat(Another(c, Borrowed), c.borrow);
  }

  /** Where the settings allow as many free articles beyond the target as a day
      has, the debt is not repaid, because the target stays at one: one article
      of the second day is already beyond the shares of two. */
  lemma {:induction false} DebtOfADayIsNotRepaid(c: Config, today: int) returns (events: seq<Event>)
    requires Workable(c) && !Repayable(c)
    ensures Timed(events)
    ensures var b := After(c, today, events);
            && b.days == 1 && b.keptBefore + b.desk.kept == PerDay(c) + c.borrow + BreakingCap(c) + 1
            && b.paidBefore == Current(c, b.desk).paid == OwedTomorrow(c, b.desk) == 0
            && !WithinShares(c, b)
  {
    hide After, AfterRound, Repeat, Another, TakeOne;
    events := FullDay(c, today);
    ExtraArticles(c, today, events, Over(today, c.borrow, 0, 0, 0), Done, BreakingCap(c));
    events := events + Repeat(Another(c, Done), BreakingCap(c));
    OneMoreEvent(c, today, events, NewDay);
    events := events + [NewDay];
    assert Current(c, After(c, today, events).desk).debt == c.borrow + BreakingCap(c);
    OwnArticles(c, today, events, 1);
    events := events + Repeat(TakeOne(c, false), 1);
    OneDayMore(c, 1);
    OneDayMore(c, 0);
  }

  lemma {:induction false} OneMoreEvent(c: Config, today: int, events: seq<Event>, e: Event)
    requires Workable(c) && Timed(events) && OnTime(e)
    ensures Timed(events + [e]) && After(c, today, events + [e]) == Step(c, After(c, today, events), e)
  {
    hide Step;
    assert (events + [e])[..|events|] == events;
  }

  lemma DiscardStep(c: Config, b: Books, n: nat)
    requires Accepted(c.hours.window) && n <= b.desk.kept
    ensures Step(c, b, Discarded(n)) == b.(desk := b.desk.(kept := b.desk.kept - n))
  {
  }

  /** A full day whose free articles were discarded and brought forward again. */
  lemma {:induction false} DayTwiceForward(c: Config, today: int) returns (events: seq<Event>)
    requires Workable(c)
    ensures Timed(events)
    ensures var d := After(c, today, events).desk;
            && d.today == today && d.record == Some(Over(today, c.borrow * 2, 0, 0, 0))
            && d.kept == PerDay(c) + c.borrow
  {
    hide After, Step, Repeat, Another;
    events := FullDay(c, today);
    OneMoreEvent(c, today, events, Discarded(c.borrow));
    DiscardStep(c, After(c, today, events), c.borrow);
    events := events + [Discarded(c.borrow)];
    ExtraArticles(c, today, events, Over(today, c.borrow, 0, 0, 0), Borrowed, c.borrow);
    events := events + Repeat(Another(c, Borrowed), c.borrow);
  }

  /** The most a day may owe is reached: articles brought forward are discarded
      and brought forward again, and others are paid for. */
  lemma {:induction false} MostIsOwed(c: Config, today: int) returns (events: seq<Event>)
    requires Workable(c)
    ensures Timed(events) && Current(c, After(c, today, events).desk).debt == MostOwed(c)
  {
    hide After, Step, Repeat, Another;
    events := DayTwiceForward(c, today);
    var over, news, more := Over(today, c.borrow * 2, 0, 0, 0), BreakingCap(c), Min(c.borrow, c.extraCredits);
    ExtraArticles(c, today, events, over, Done, news);
    events := events + Repeat(Another(c, Done), news);
    ExtraArticles(c, today, events, Grown(over, Done, news), Paid, more);
    events := events + Repeat(Another(c, Paid), more);
    OneMoreEvent(c, today, events, NewDay);
    DebtOf(c, After(c, today, events), Grown(Grown(over, Done, news), Paid, more));
    events := events + [NewDay];
  }

  lemma {:induction false} DebtOf(c: Config, b: Books, over: Over)
    requires Accepted(c.hours.window) && b.desk.record == Some(over) && over.day == b.desk.today
    ensures Current(c, Step(c, b, NewDay).desk).debt ==
            Min(over.borrowed + over.breaking, Max(0, b.desk.kept - TargetOf(c, over.debt)))
  {
  }
}
