/** The hours of the automatic newsroom (editor-mode/src/editor/autopilot.py):
    windows that may wrap past midnight, the catch-up line, and how many
    articles an ordinary hourly round asks for. */
module NewsroomHours {
  import opened Common

  /** Working hours, from `start` to `end` (excluded). */
  datatype Window = Window(start: int, end: int)

  /** The windows the settings accept. */
  predicate Accepted(w: Window) {
    0 <= w.start <= 23 && 1 <= w.end <= 24 && w.start != w.end
  }

  predicate InHours(w: Window, hour: int) {
    if w.start < w.end then w.start <= hour < w.end else hour >= w.start || hour < w.end
  }

  /** Hours from this one to the end of the window, this one included; 24 when
      the window never ends. */
  function Remaining(w: Window, hour: int): int {
    if w == Window(0, 24) then 24
    else if !InHours(w, hour) then 1
    else if hour < w.end then w.end - hour
    else 24 - hour + w.end
  }

  /** The source counts hour by hour, for at most a day. */
  method HoursLeft(w: Window, hour: int) returns (left: int)
    requires Accepted(w) && 0 <= hour < 24
    ensures left == Remaining(w, hour)
  {
    var n, h := 0, hour;
    while n < 24 && InHours(w, h)
      invariant 0 <= n <= 24 && 0 <= h < 24
      invariant w == Window(0, 24) || !InHours(w, hour) || Remaining(w, hour) == n + (if InHours(w, h) then Remaining(w, h) else 0)
      invariant !InHours(w, hour) ==> n == 0 && h == hour
    {
      n, h := n + 1, (h + 1) % 24;
    }
    left := if n < 1 then 1 else n;
  }

  /** Only the window from 0 to 24 never reaches a last hour. */
  lemma LastHourExactly(w: Window)
    requires Accepted(w)
    ensures (exists hour :: 0 <= hour < 24 && InHours(w, hour) && Remaining(w, hour) == 1) <==> w != Window(0, 24)
  {
    if w != Window(0, 24) {
      var last := w.end - 1;
      assert 0 <= last < 24 && InHours(w, last) && Remaining(w, last) == 1;
    }
  }

  /** Hours from the start of the window, the clock taken round midnight. */
  function Since(w: Window, hour: int): int { (hour - w.start) % 24 }

  /** Length of the window in hours; a whole day when it ends where it starts. */
  function Length(w: Window): int { (w.end - w.start - 1) % 24 + 1 }

  /** The working hours are those less than the window's length after its start,
      past midnight too. */
  lemma {:induction false} InHoursExactly(w: Window, hour: int)
    requires Accepted(w) && 0 <= hour < 24
    ensures InHours(w, hour) <==> Since(w, hour) < Length(w)
    ensures InHours(w, hour) && w != Window(0, 24) ==> Remaining(w, hour) == Length(w) - Since(w, hour)
    ensures !InHours(w, hour) ==> Remaining(w, hour) == 1
  {
  }

  datatype Settings = Settings(perDay: nat, morningShare: nat, window: Window)

  predicate Sensible(cfg: Settings) {
    1 <= cfg.perDay && cfg.morningShare <= 100 && Accepted(cfg.window)
  }

  function Morning(cfg: Settings): real {
    cfg.perDay as real * cfg.morningShare as real / 100.0
  }

  /** Hours of the window gone at `hour`, this one included. */
  function Gone(w: Window, hour: int): int {
    Remaining(w, w.start) - Remaining(w, hour) + 1
  }

  /** `k` parts of `n` of `x`. */
  function Portion(x: real, k: int, n: int): real
    requires n >= 1
  {
    x * k as real / n as real
  }

  /** The morning's share in the first hour, then the rest evenly. */
  function Line(perDay: real, morning: real, gone: int, total: int): int {
    Ceil(morning + Portion(perDay - morning, gone - 1, Max(1, total - 1)))
  }

  /** Articles the day should have by the end of this hour. */
  function DueBy(cfg: Settings, hour: int): int {
    Line(cfg.perDay as real, Morning(cfg), Gone(cfg.window, hour), Remaining(cfg.window, cfg.window.start))
  }

  lemma PortionEnds(x: real, n: int)
    requires n >= 1
    ensures Portion(x, 0, n) == 0.0 && Portion(x, n, n) == x
  {
    var t := n as real;
    assert x * t / t == x;
  }

  lemma LineEnds(perDay: nat, morning: real, total: int)
    ensures Line(perDay as real, morning, 1, total) == Ceil(morning)
    ensures total > 1 ==> Line(perDay as real, morning, total, total) == perDay
  {
    hide Portion;
    PortionEnds(perDay as real - morning, Max(1, total - 1));
    CeilOfInt(perDay);
  }

  lemma {:induction false} CeilIsLeast(x: real, n: int)
    ensures Ceil(x) == n <==> (n - 1) as real < x <= n as real
  {
  }

  /** `n` articles make up `share` percent of the day and `gone` of `t` parts of
      the rest. */
  predicate Enough(perDay: nat, share: nat, t: int, gone: int, n: int) {
    perDay * (share * t + (100 - share) * gone) <= 100 * t * n
  }

  lemma {:induction false} LineScaled(cfg: Settings, gone: int, t: nat, n: int)
    requires t >= 1
    ensures Morning(cfg) + Portion(cfg.perDay as real - Morning(cfg), gone, t) <= n as real <==>
            Enough(cfg.perDay, cfg.morningShare, t, gone, n)
  {
    var perDay, share := cfg.perDay, cfg.morningShare;
    var p, s, r, g := perDay as real, share as real, t as real, gone as real;
    var x := p * s / 100.0 + (p - p * s / 100.0) * g / r;
    assert 100.0 * r * x == p * (s * r + (100.0 - s) * g) by {
      LineTimes(p, s, r, g);
    }
    Scaled(100.0 * r, x, n as real);
    assert (perDay * (share * t + (100 - share) * gone)) as real == p * (s * r + (100.0 - s) * g) by {
      assert (share * t) as real == s * r && ((100 - share) * gone) as real == (100.0 - s) * g;
    }
    assert (100 * t * n) as real == 100.0 * r * n as real;
  }

  lemma LineTimes(p: real, s: real, r: real, g: real)
    requires r > 0.0
    ensures 100.0 * r * (p * s / 100.0 + (p - p * s / 100.0) * g / r) == p * (s * r + (100.0 - s) * g)
  {
    var m := p * s / 100.0;
    assert 100.0 * m == p * s;
    var q := (p - m) * g / r;
    assert r * q == (p - m) * g;
    calc {
      100.0 * r * (m + q);
      r * (100.0 * m) + 100.0 * (r * q);
      r * (p * s) + 100.0 * ((p - m) * g);
      r * (p * s) + (100.0 * p - p * s) * g;
      p * (s * r + (100.0 - s) * g);
    }
  }

  lemma Scaled(k: real, a: real, b: real)
    requires k > 0.0
    ensures k * a <= k * b <==> a <= b
  {
  }

  predicate IsLeastOnLine(perDay: nat, share: nat, t: int, gone: int, n: int) {
    Enough(perDay, share, t, gone, n) && !Enough(perDay, share, t, gone, n - 1)
  }

  /** The line: by an hour, the fewest articles that make up the morning's share
      and, of the rest, the part of the window's later hours gone. */
  lemma {:induction false} DueIsLeast(cfg: Settings, hour: int)
    requires Sensible(cfg) && cfg.window != Window(0, 24) && 0 <= hour < 24 && InHours(cfg.window, hour)
    ensures IsLeastOnLine(cfg.perDay, cfg.morningShare, Max(1, Length(cfg.window) - 1), Since(cfg.window, hour), DueBy(cfg, hour))
  {
    hide Line, InHours, Remaining, Since, Length, IsLeastOnLine, Gone, Morning;
    HoursGone(cfg.window, hour);
    LineIsLeast(cfg, Since(cfg.window, hour), Length(cfg.window));
  }

  lemma {:induction false} HoursGone(w: Window, hour: int)
    requires Accepted(w) && w != Window(0, 24) && 0 <= hour < 24 && InHours(w, hour)
    ensures Remaining(w, w.start) == Length(w) && Gone(w, hour) == Since(w, hour) + 1
  {
    InHoursExactly(w, hour);
    InHoursExactly(w, w.start);
  }

  lemma {:induction false} LineIsLeast(cfg: Settings, gone: int, total: int)
    ensures var t, n := Max(1, total - 1), Line(cfg.perDay as real, Morning(cfg), gone + 1, total);
            IsLeastOnLine(cfg.perDay, cfg.morningShare, t, gone, n)
  {
    hide Portion, Morning, Enough;
    var t := Max(1, total - 1);
    var x := Morning(cfg) + Portion(cfg.perDay as real - Morning(cfg), gone, t);
    CeilIsLeast(x, Ceil(x));
    LineScaled(cfg, gone, t, Ceil(x));
    LineScaled(cfg, gone, t, Ceil(x) - 1);
  }

  /** The first hour is due the morning's share, the last of several the whole
      day. */
  lemma DueAtTheEnds(cfg: Settings)
    requires Sensible(cfg) && cfg.window != Window(0, 24)
    ensures DueBy(cfg, cfg.window.start) == Ceil(Morning(cfg))
    ensures Remaining(cfg.window, cfg.window.start) > 1 ==> DueBy(cfg, cfg.window.end - 1) == cfg.perDay
  {
    hide Line, Morning;
    LineEnds(cfg.perDay, Morning(cfg), Remaining(cfg.window, cfg.window.start));
  }

  /** Smallest number of equal shares that cover `n`. */
  function Shares(n: int, hours: int): int
    requires hours >= 1
  {
    (n + hours - 1) / hours
  }

  const TRIES_PER_ARTICLE := 2

  /** Articles the day may still take: up to its target, within its tries. */
  function Left(cfg: Settings, target: int, kept: int, tried: int): int {
    Min(target - kept, cfg.perDay * 2 - tried)
  }

  /** Articles an ordinary round asks for: spread over the hours left, but not
      behind the line, within what the month allows. */
  function Want(cfg: Settings, hour: int, target: int, kept: int, tried: int, monthLeft: Option<int>): int
    requires Accepted(cfg.window) && 0 <= hour < 24
  {
    var left := Left(cfg, target, kept, tried);
    var spread := Shares(left, Remaining(cfg.window, hour));
    var want := Max(spread, Min(left, DueBy(cfg, hour) - kept));
    if monthLeft.Some? then Min(want, monthLeft.value) else want
  }

  /** What a round asks for: as many as would, taken every hour, use up the hours
      left, or what is missing to the line if that is more; never more than the
      month has left. */
  lemma {:induction false} WantExactly(cfg: Settings, hour: int, target: int, kept: int, tried: int, monthLeft: Option<int>)
    returns (each: int)
    requires Sensible(cfg) && 0 <= hour < 24 && kept < target && tried < cfg.perDay * 2
    ensures var left, hours := Min(target - kept, cfg.perDay * 2 - tried), Remaining(cfg.window, hour);
            var day := Max(each, Min(left, DueBy(cfg, hour) - kept));
            && (each - 1) * hours < left <= each * hours
            && Want(cfg, hour, target, kept, tried, monthLeft) == match monthLeft case None => day case Some(n) => Min(day, n)
  {
    hide DueBy;
    var left, hours := Min(target - kept, cfg.perDay * 2 - tried), Remaining(cfg.window, hour);
    each := Shares(left, hours);
    SharesAreLeast(left, hours);
    hide Shares;
  }

  lemma {:induction false} SharesAreLeast(n: int, hours: int)
    requires n >= 1 && hours >= 1
    ensures (Shares(n, hours) - 1) * hours < n <= Shares(n, hours) * hours
  {
    var x := n + hours - 1;
    assert x == hours * (x / hours) + x % hours;
    assert (x / hours - 1) * hours == hours * (x / hours) - hours;
  }

  predicate OrdinaryRound(cfg: Settings, target: int, kept: int, tried: int) {
    kept < target && tried < cfg.perDay * 2
  }

  lemma SharesBounds(n: int, hours: int)
    requires n >= 1 && hours >= 1
    ensures 1 <= Shares(n, hours) <= n
    ensures hours == 1 ==> Shares(n, hours) == n
  {
    assert n * hours >= n && (n + 1) * hours == n * hours + hours;
    QuotientBelow(n + hours - 1, hours, n + 1);
  }

  lemma QuotientBelow(x: int, h: int, m: int)
    requires h >= 1 && 0 <= x < m * h
    ensures x / h < m
  {
    assert x == h * (x / h) + x % h;
  }

  /** An ordinary round, whatever the window and however many of the articles it
      asks for are accepted, never takes kept over the target nor tries over
      twice the day's articles, nor takes more than the month has left. */
  lemma OrdinaryRoundStaysWithin(cfg: Settings, hour: int, target: int, kept: int, tried: int, monthLeft: Option<int>, accepted: nat)
    requires Sensible(cfg) && 0 <= hour < 24 && OrdinaryRound(cfg, target, kept, tried)
    requires accepted <= Max(0, Want(cfg, hour, target, kept, tried, monthLeft))
    ensures kept + accepted <= target && tried + accepted <= cfg.perDay * 2
    ensures monthLeft.Some? ==> accepted <= Max(0, monthLeft.value)
  {
    SharesBounds(Left(cfg, target, kept, tried), Remaining(cfg.window, hour));
  }

  /** A round that gets all it asks for, with nothing discarded before it and no
      monthly quota, reaches the smaller of target and line, and the target
      itself in the window's last hour. */
  lemma FullRoundCatchesUp(cfg: Settings, hour: int, target: int, kept: int)
    requires Sensible(cfg) && 0 <= hour < 24 && 0 <= kept < target <= cfg.perDay
    ensures var after := kept + Want(cfg, hour, target, kept, kept, None);
      && kept < after <= target && after >= Min(target, DueBy(cfg, hour))
      && (Remaining(cfg.window, hour) == 1 ==> after == target)
  {
    SharesBounds(Left(cfg, target, kept, kept), Remaining(cfg.window, hour));
  }

  // ----- a day of full rounds -------------------------------------------------------------

  /** Articles kept after the rounds of the hours before `hour`, each getting
      what it asks for. */
  function KeptBefore(cfg: Settings, target: nat, hour: nat): int
    requires Sensible(cfg) && hour <= 24
  {
    if hour == 0 then 0
    else
      var kept := KeptBefore(cfg, target, hour - 1);
      if InHours(cfg.window, hour - 1) && OrdinaryRound(cfg, target, kept, kept)
      then kept + Want(cfg, hour - 1, target, kept, kept, None)
      else kept
  }

  lemma {:induction false} KeptWithinTarget(cfg: Settings, target: nat, hour: nat)
    requires Sensible(cfg) && hour <= 24 && target <= cfg.perDay
    ensures 0 <= KeptBefore(cfg, target, hour) <= target
  {
    if hour > 0 {
      KeptWithinTarget(cfg, target, hour - 1);
      var kept := KeptBefore(cfg, target, hour - 1);
      if kept < target {
        FullRoundCatchesUp(cfg, hour - 1, target, kept);
      }
    }
  }

  /** After every hour of the window, the newsroom is not behind the line; from
      the window's last hour on, it has the day's target. */
  lemma DayKeepsTheLine(cfg: Settings, target: nat, hour: nat)
    requires Sensible(cfg) && target <= cfg.perDay
    requires hour < 24 && InHours(cfg.window, hour)
    ensures KeptBefore(cfg, target, hour + 1) >= Min(target, DueBy(cfg, hour))
    ensures Remaining(cfg.window, hour) == 1 ==> KeptBefore(cfg, target, hour + 1) == target
  {
    KeptWithinTarget(cfg, target, hour);
    var kept := KeptBefore(cfg, target, hour);
    if kept < target {
      FullRoundCatchesUp(cfg, hour, target, kept);
    }
  }

  /** So the target is there when the window ends, and stays. */
  lemma {:induction false} TargetStays(cfg: Settings, target: nat, hour: nat)
    requires Sensible(cfg) && cfg.window != Window(0, 24) && target <= cfg.perDay
    requires cfg.window.end <= hour <= 24
    ensures KeptBefore(cfg, target, hour) == target
  {
    if hour == cfg.window.end {
      DayKeepsTheLine(cfg, target, hour - 1);
    } else {
      TargetStays(cfg, target, hour - 1);
    }
  }

  // ----- the window that never ends ----------------------------------------------------------

  /** From 0 to 24 every hour is as far from the end as the first: the spread is
      always a twenty-fourth of what is left, and the line stays at the
      morning's share. */
  lemma WholeDayNeverEnds(cfg: Settings, hour: int)
    requires Sensible(cfg) && cfg.window == Window(0, 24) && 0 <= hour < 24
    ensures Remaining(cfg.window, hour) == 24 && DueBy(cfg, hour) == Ceil(Morning(cfg))
  {
  }

  /** What is left of `left` articles after `hours` hours, each taking a
      twenty-fourth of what it finds. */
  function Drained(left: nat, hours: nat): nat {
    if hours == 0 then left
    else
      var before := Drained(left, hours - 1);
      before - Shares(before, 24)
  }

  lemma {:induction false} DrainedMonotone(a: nat, b: nat, hours: nat)
    requires a <= b
    ensures Drained(a, hours) <= Drained(b, hours)
  {
    if hours > 0 {
      DrainedMonotone(a, b, hours - 1);
    }
  }

  /** Up to a day's hours of articles go one at a time. */
  lemma {:induction false} DrainedOneByOne(left: nat, hours: nat)
    requires left <= 24
    ensures Drained(left, hours) == Max(0, left - hours)
  {
    if hours > 0 {
      DrainedOneByOne(left, hours - 1);
    }
  }

  lemma {:induction false} DrainedExactly(left: nat)
    ensures Drained(left, 23) == 0 <==> left <= 23
  {
    if left <= 24 {
      DrainedOneByOne(left, 23);
    } else {
      DrainedOneByOne(24, 23);
      DrainedMonotone(24, left, 23);
    }
  }

  /** Articles of the first hour of a whole day: a twenty-fourth of the target,
      or the morning's share. */
  function FirstHour(cfg: Settings, target: nat): int {
    Max(Shares(target, 24), Min(target, Ceil(Morning(cfg))))
  }

  lemma FirstHourWithin(cfg: Settings, target: nat)
    ensures Ceil(Morning(cfg)) >= 0 && 0 <= FirstHour(cfg, target) <= target
  {
  }

  /** A whole day takes the first hour's articles, then a twenty-fourth of what
      is left each hour. */
  lemma {:induction false} WholeDayKept(cfg: Settings, target: nat, hour: nat)
    requires Sensible(cfg) && cfg.window == Window(0, 24) && 1 <= hour <= 24 && target <= cfg.perDay
    ensures 0 <= FirstHour(cfg, target) <= target
    ensures KeptBefore(cfg, target, hour) == target - Drained(target - FirstHour(cfg, target), hour - 1)
  {
    hide *;
    if hour == 1 {
      FirstHourKept(cfg, target);
      DrainedNext(target - FirstHour(cfg, target), 0);
    } else {
      WholeDayKept(cfg, target, hour - 1);
      var first := target - FirstHour(cfg, target);
      DrainedWithin(first, hour - 2);
      DrainedNext(first, hour - 1);
      LaterHourKept(cfg, target, hour, Drained(first, hour - 2));
    }
  }

  lemma {:induction false} FirstHourKept(cfg: Settings, target: nat)
    requires Sensible(cfg) && cfg.window == Window(0, 24) && target <= cfg.perDay
    ensures 0 <= FirstHour(cfg, target) <= target && KeptBefore(cfg, target, 1) == FirstHour(cfg, target)
  {
    FirstHourWithin(cfg, target);
    NextKept(cfg, target, 1);
    if target > 0 {
      WholeDayRound(cfg, target, 0, 0);
    }
    hide Want, KeptBefore, FirstHour;
  }

  lemma {:induction false} LaterHourKept(cfg: Settings, target: nat, hour: nat, left: nat)
    requires Sensible(cfg) && cfg.window == Window(0, 24) && 2 <= hour <= 24 && target <= cfg.perDay
    requires left <= target - FirstHour(cfg, target) && KeptBefore(cfg, target, hour - 1) == target - left
    ensures KeptBefore(cfg, target, hour) == target - (left - Shares(left, 24))
  {
    FirstHourWithin(cfg, target);
    NextKept(cfg, target, hour);
    DrainedNext(left, 0);
    if left > 0 {
      WholeDayRound(cfg, target, hour - 1, target - left);
    }
    hide Want, KeptBefore, FirstHour, Shares;
  }

  lemma {:induction false} NextKept(cfg: Settings, target: nat, hour: nat)
    requires Sensible(cfg) && cfg.window == Window(0, 24) && 1 <= hour <= 24
    ensures KeptBefore(cfg, target, 0) == 0
    ensures var kept := KeptBefore(cfg, target, hour - 1);
            KeptBefore(cfg, target, hour) ==
            if OrdinaryRound(cfg, target, kept, kept) then kept + Want(cfg, hour - 1, target, kept, kept, None) else kept
  {
    hide Want, OrdinaryRound;
  }

  /** What one round of a whole day asks for, at the first hour and later. */
  lemma {:induction false} WholeDayRound(cfg: Settings, target: nat, hour: nat, kept: nat)
    requires Sensible(cfg) && cfg.window == Window(0, 24) && hour < 24 && kept < target <= cfg.perDay
    ensures kept == 0 ==> Want(cfg, hour, target, 0, 0, None) == FirstHour(cfg, target)
    ensures kept >= FirstHour(cfg, target) ==> Want(cfg, hour, target, kept, kept, None) == Shares(target - kept, 24)
  {
    WholeDayNeverEnds(cfg, hour);
    hide DueBy, Morning;
  }

  lemma {:induction false} DrainedNext(left: nat, hours: nat)
    ensures Drained(left, 0) == left && Shares(0, 24) == 0
    ensures hours > 0 ==> Drained(left, hours) == Drained(left, hours - 1) - Shares(Drained(left, hours - 1), 24)
  {
  }

  lemma {:induction false} DrainedWithin(left: nat, hours: nat)
    ensures Drained(left, hours) <= left
  {
    if hours > 0 {
      DrainedWithin(left, hours - 1);
    }
  }

  /** The day ends with its target in every window but 0 to 24, and there exactly
      when what the first hour leaves is at most an article for each other hour. */
  lemma {:induction false} TargetReached(cfg: Settings, target: nat)
    requires Sensible(cfg) && target <= cfg.perDay
    ensures KeptBefore(cfg, target, 24) == target <==>
            cfg.window != Window(0, 24) || target <= 23 + FirstHour(cfg, target)
  {
    hide KeptBefore, FirstHour, Drained;
    if cfg.window != Window(0, 24) {
      TargetStays(cfg, target, 24);
    } else {
      WholeDayKept(cfg, target, 24);
      DrainedExactly(target - FirstHour(cfg, target));
    }
  }

  lemma {:induction false} DrainedFrom46(hours: nat)
    requires hours <= 23
    ensures Drained(46, hours) == if hours <= 11 then 46 - 2 * hours else 35 - hours
  {
    if hours > 0 {
      DrainedFrom46(hours - 1);
    }
  }

  /** A concrete day that misses its target: 48 articles from 0 to 24, none for
      the morning, end at 36. */
  lemma WholeDayMissesTarget()
    ensures var cfg := Settings(48, 0, Window(0, 24));
            Sensible(cfg) && KeptBefore(cfg, 48, 24) == 36
  {
    hide KeptBefore, Drained;
    var cfg := Settings(48, 0, Window(0, 24));
    WholeDayKept(cfg, 48, 24);
    assert Morning(cfg) == 0.0;
    assert FirstHour(cfg, 48) == 2;
    DrainedFrom46(23);
  }
}
