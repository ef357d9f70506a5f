/** The automatic newsroom's choice of proposals
    (editor-mode/src/editor/autopilot.py, `choose`): the best first, none that
    retells a recent article, and no country or section beyond its share. */
module Selection {
  import opened Common

  // ----- what overlaps --------------------------------------------------------------------

  /** What tells whether two proposals are the same story: the words of title
      and angle, the news items, the words of the title (names marked `@`). */
  datatype Angle = Angle(terms: set<string>, items: set<int>, title: set<string>)

  predicate IsName(word: string) { |word| > 0 && word[0] == '@' }

  function Names(title: set<string>): set<string> { set x | x in title && IsName(x) }

  function Words(title: set<string>): set<string> { set x | x in title && !IsName(x) }

  /** `shared` out of the smaller of two sets is at least `percent`. */
  predicate ShareAtLeast(shared: nat, a: nat, b: nat, percent: nat) {
    100 * shared >= percent * Max(1, Min(a, b))
  }

  predicate SameTitle(a: set<string>, b: set<string>) {
    || |Names(a * b)| >= 3
    || (|Words(a) * Words(b)| >= 4 && ShareAtLeast(|Words(a) * Words(b)|, |Words(a)|, |Words(b)|, 60))
  }

  predicate Retells(a: Angle, other: Angle) {
    var shared := |a.terms * other.terms|;
    || (a.title != {} && SameTitle(a.title, other.title))
    || (shared >= 4 && ShareAtLeast(shared, |a.terms|, |other.terms|, 65))
    || (shared >= 3 && ShareAtLeast(shared, |a.terms|, |other.terms|, 40) && a.items <= other.items)
  }

  /** `shared` over the smaller of two sizes. */
  function ShareOf(shared: nat, a: nat, b: nat): real { shared as real / Max(1, Min(a, b)) as real }

  lemma {:induction false} ShareExactly(shared: nat, a: nat, b: nat, percent: nat)
    ensures ShareAtLeast(shared, a, b, percent) <==> ShareOf(shared, a, b) >= percent as real / 100.0
  {
    var m := Max(1, Min(a, b));
    var q := shared as real / m as real;
    assert q * m as real == shared as real;
    if q >= percent as real / 100.0 {
      assert q * m as real >= percent as real / 100.0 * m as real;
    } else {
      assert q * m as real < percent as real / 100.0 * m as real;
    }
  }

  /** Two stories are one: three names of the titles in common; or four words of
      the titles, and of the shorter three in five; or four words in all, and of
      the fewer 65 in 100; or three, 40 in 100, and no news item of its own. */
  lemma {:induction false} RetellsExactly(a: Angle, other: Angle)
    ensures var names := set x | x in a.title && x in other.title && IsName(x);
            var plain, plain' := (set x | x in a.title && !IsName(x)), (set x | x in other.title && !IsName(x));
            var shared := |a.terms * other.terms|;
            Retells(a, other) <==>
            || |names| >= 3
            || (|plain * plain'| >= 4 && ShareOf(|plain * plain'|, |plain|, |plain'|) >= 0.6)
            || (shared >= 4 && ShareOf(shared, |a.terms|, |other.terms|) >= 0.65)
            || (shared >= 3 && ShareOf(shared, |a.terms|, |other.terms|) >= 0.4 && a.items <= other.items)
  {
    var names := set x | x in a.title && x in other.title && IsName(x);
    assert Names(a.title * other.title) == names;
    var shared := |a.terms * other.terms|;
    ShareExactly(shared, |a.terms|, |other.terms|, 65);
    ShareExactly(shared, |a.terms|, |other.terms|, 40);
    ShareExactly(|Words(a.title) * Words(other.title)|, |Words(a.title)|, |Words(other.title)|, 60);
    assert a.title == {} ==> names == {} && Words(a.title) == {};
    hide ShareOf, ShareAtLeast;
  }

  ghost predicate Overlaps(a: Angle, others: seq<Angle>) {
    exists i :: 0 <= i < |others| && Retells(a, others[i])
  }

  method FindOverlap(a: Angle, others: seq<Angle>) returns (found: bool)
    ensures found <==> Overlaps(a, others)
  {
    for i := 0 to |others|
      invariant forall j :: 0 <= j < i ==> !Retells(a, others[j])
    {
      var other := others[i];
      if a.title != {} && SameTitle(a.title, other.title) { return true; }
      var shared := |a.terms * other.terms|;
      if shared >= 4 && ShareAtLeast(shared, |a.terms|, |other.terms|, 65) { return true; }
      if shared >= 3 && ShareAtLeast(shared, |a.terms|, |other.terms|, 40) && a.items <= other.items { return true; }
    }
    found := false;
  }

  // ----- shares of the day -----------------------------------------------------------------

  /** Nearest integer to `n / 100`, halves to the even one. */
  function RoundPercent(n: nat): nat {
    var q, r := n / 100, n % 100;
    if r > 50 || (r == 50 && q % 2 == 1) then q + 1 else q
  }

  /** Articles a day one country or section may have; None: no limit. */
  function Cap(perDay: nat, share: nat): Option<nat> {
    if share == 0 || share >= 100 then None else Some(Max(1, RoundPercent(perDay * share)))
  }

  /** A cap is the share to the nearest article, to the even one of two as near,
      and never below one. */
  lemma CapIsTheShare(perDay: nat, share: nat)
    requires 0 < share < 100
    ensures var cap := Cap(perDay, share).value;
            && cap >= 1 && (cap > 1 ==> -50 <= 100 * cap - perDay * share <= 50) && (cap == 1 ==> perDay * share < 150)
            && (cap > 1 && (100 * cap - perDay * share == 50 || 100 * cap - perDay * share == -50) ==> cap % 2 == 0)
  {
  }

  datatype Proposal = Proposal(
    id: nat,
    country: Option<string>,
    section: Option<string>,  // as one of the site's sections
    avoided: bool,            // on a topic to avoid
    angle: Angle,
    sourced: bool)            // told by as many outlets as the site asks

  datatype Site = Site(
    countryCap: Option<nat>,
    sectionCap: Option<nat>,
    home: string,
    recent: seq<Angle>,
    countries: map<string, nat>,  // the day so far
    sections: map<string, nat>)

  function Count(counts: map<string, nat>, name: string): nat {
    if name in counts then counts[name] else 0
  }

  function Counted(counts: map<string, nat>, name: Option<string>): map<string, nat> {
    if name.Some? then counts[name.value := Count(counts, name.value) + 1] else counts
  }

  /** The choice so far: taken, the day's counts with them, and those left for
      a second look. */
  datatype Choice = Choice(
    out: seq<Proposal>,
    countries: map<string, nat>,
    sections: map<string, nat>,
    fewer: seq<Proposal>)

  predicate Full(site: Site, c: Choice, r: Proposal) {
    || (site.countryCap.Some? && r.country.Some? && r.country.value != site.home
        && Count(c.countries, r.country.value) >= site.countryCap.value)
    || (site.sectionCap.Some? && r.section.Some? && Count(c.sections, r.section.value) >= site.sectionCap.value)
  }

  function Angles(ps: seq<Proposal>): seq<Angle> {
    seq(|ps|, i requires 0 <= i < |ps| => ps[i].angle)
  }

  ghost predicate Retold(site: Site, c: Choice, r: Proposal) {
    Overlaps(r.angle, site.recent + Angles(c.out))
  }

  function Taken(c: Choice, r: Proposal): Choice {
    c.(out := c.out + [r], countries := Counted(c.countries, r.country), sections := Counted(c.sections, r.section))
  }

  // ----- the two passes ----------------------------------------------------------------------

  ghost function First(site: Site, c: Choice, r: Proposal): Choice {
    if r.avoided || Full(site, c, r) || Retold(site, c, r) then c
    else if r.sourced then Taken(c, r)
    else c.(fewer := c.fewer + [r])
  }

  ghost function Second(site: Site, c: Choice, r: Proposal): Choice {
    if Full(site, c, r) || Retold(site, c, r) then c else Taken(c, r)
  }

  function Start(site: Site): Choice { Choice([], site.countries, site.sections, []) }

  /** Rows in order, as long as fewer than `n` are taken. */
  ghost function FirstPass(site: Site, rows: seq<Proposal>, n: int): Choice {
    if rows == [] then Start(site)
    else
      var before := FirstPass(site, rows[..|rows| - 1], n);
      if |before.out| >= n then before else First(site, before, rows[|rows| - 1])
  }

  ghost function SecondPass(site: Site, c: Choice, left: seq<Proposal>, n: int): Choice {
    if left == [] then c
    else
      var before := SecondPass(site, c, left[..|left| - 1], n);
      if |before.out| >= n then before else Second(site, before, left[|left| - 1])
  }

  ghost function Chosen(site: Site, rows: seq<Proposal>, n: int): Choice {
    var first := FirstPass(site, rows, n);
    SecondPass(site, first, first.fewer, n)
  }

  lemma {:induction false} FirstPassStops(site: Site, rows: seq<Proposal>, n: int, i: nat)
    requires i <= |rows| && |FirstPass(site, rows[..i], n).out| >= n
    ensures FirstPass(site, rows, n) == FirstPass(site, rows[..i], n)
  {
    if i == |rows| {
      assert rows[..i] == rows;
    } else {
      assert rows[..|rows| - 1][..i] == rows[..i];
      FirstPassStops(site, rows[..|rows| - 1], n, i);
    }
  }

  lemma {:induction false} SecondPassStops(site: Site, c: Choice, left: seq<Proposal>, n: int, i: nat)
    requires i <= |left| && |SecondPass(site, c, left[..i], n).out| >= n
    ensures SecondPass(site, c, left, n) == SecondPass(site, c, left[..i], n)
  {
    if i == |left| {
      assert left[..i] == left;
    } else {
      assert left[..|left| - 1][..i] == left[..i];
      SecondPassStops(site, c, left[..|left| - 1], n, i);
    }
  }

  /** One round of the choice, its lists and counts changed as it goes. */
  class Chooser {
    const site: Site
    var out: seq<Proposal>
    var seen: seq<Angle>
    var countries: map<string, nat>
    var sections: map<string, nat>
    var fewer: seq<Proposal>
    var turnedDown: seq<Proposal>

    function State(): Choice
      reads this
    {
      Choice(out, countries, sections, fewer)
    }

    ghost predicate Valid()
      reads this
    {
      seen == site.recent + Angles(out)
    }

    constructor (site: Site)
      ensures this.site == site && Valid() && State() == Start(site) && turnedDown == []
    {
      this.site := site;
      out, fewer, turnedDown := [], [], [];
      seen, countries, sections := site.recent, site.countries, site.sections;
    }

    method Take(r: Proposal)
      requires Valid()
      modifies this
      ensures Valid() && State() == Taken(old(State()), r) && turnedDown == old(turnedDown)
    {
      out := out + [r];
      if r.country.Some? { countries := countries[r.country.value := Count(countries, r.country.value) + 1]; }
      if r.section.Some? { sections := sections[r.section.value := Count(sections, r.section.value) + 1]; }
      seen := seen + [r.angle];
    }

    /** The first pass; returns how many rows it read. */
    method ReadRows(rows: seq<Proposal>, n: int, dry: bool) returns (read: nat)
      requires Valid() && State() == Start(site) && turnedDown == []
      modifies this
      ensures Valid() && State() == FirstPass(site, rows, n)
      ensures read <= |rows| && (read < |rows| ==> |out| >= n)
      ensures turnedDown == if dry then [] else AvoidedOf(rows[..read])
    {
      for i := 0 to |rows|
        invariant Valid() && State() == FirstPass(site, rows[..i], n)
        invariant turnedDown == if dry then [] else AvoidedOf(rows[..i])
      {
        assert rows[..i + 1][..i] == rows[..i];
        if |out| >= n {
          FirstPassStops(site, rows, n, i);
          return i;
        }
        var r := rows[i];
        if r.avoided {
          if !dry { turnedDown := turnedDown + [r]; }
          continue;
        }
        if Full(site, State(), r) { continue; }
        var retold := FindOverlap(r.angle, seen);
        if retold { continue; }
        if r.sourced {
          Take(r);
        } else {
          fewer := fewer + [r];
        }
      }
      assert rows[..|rows|] == rows;
      read := |rows|;
    }

    method FillUp(n: int)
      requires Valid()
      modifies this
      ensures Valid() && State() == SecondPass(site, old(State()), old(fewer), n)
      ensures turnedDown == old(turnedDown)
    {
      for i := 0 to |fewer|
        invariant Valid() && fewer == old(fewer) && turnedDown == old(turnedDown)
        invariant State() == SecondPass(site, old(State()), fewer[..i], n)
      {
        assert fewer[..i + 1][..i] == fewer[..i];
        if |out| >= n {
          SecondPassStops(site, old(State()), fewer, n, i);
          return;
        }
        var r := fewer[i];
        if !Full(site, State(), r) {
          var retold := FindOverlap(r.angle, seen);
          if !retold { Take(r); }
        }
      }
      assert fewer[..|fewer|] == fewer;
    }

    method Choose(rows: seq<Proposal>, n: int, dry: bool) returns (read: nat)
      requires Valid() && State() == Start(site) && turnedDown == []
      modifies this
      ensures State() == Chosen(site, rows, n)
      ensures read <= |rows| && (read < |rows| ==> |out| >= n)
      ensures turnedDown == if dry then [] else AvoidedOf(rows[..read])
    {
      read := ReadRows(rows, n, dry);
      FillUp(n);
      SecondPassGrows(site, FirstPass(site, rows, n), FirstPass(site, rows, n).fewer, n);
    }
  }

  /** The rows on a topic to avoid. */
  function AvoidedOf(rows: seq<Proposal>): seq<Proposal> {
    if rows == [] then []
    else
      var r := rows[|rows| - 1];
      AvoidedOf(rows[..|rows| - 1]) + (if r.avoided then [r] else [])
  }

  lemma {:induction false} SecondPassGrows(site: Site, c: Choice, left: seq<Proposal>, n: int)
    ensures c.out <= SecondPass(site, c, left, n).out
    ensures SecondPass(site, c, left, n).fewer == c.fewer
  {
    hide Full, Retold;
    if left != [] {
      SecondPassGrows(site, c, left[..|left| - 1], n);
    }
  }

  // ----- what the choice keeps -------------------------------------------------------------------

  function InCountry(ps: seq<Proposal>, country: string): nat {
    if ps == [] then 0
    else InCountry(ps[..|ps| - 1], country) + (if ps[|ps| - 1].country == Some(country) then 1 else 0)
  }

  function InSection(ps: seq<Proposal>, section: string): nat {
    if ps == [] then 0
    else InSection(ps[..|ps| - 1], section) + (if ps[|ps| - 1].section == Some(section) then 1 else 0)
  }

  /** The counts are the day's, plus what was taken. */
  ghost predicate CountsExact(site: Site, c: Choice) {
    && (forall x :: Count(c.countries, x) == Count(site.countries, x) + InCountry(c.out, x))
    && (forall x :: Count(c.sections, x) == Count(site.sections, x) + InSection(c.out, x))
  }

  /** No foreign country and no section beyond the larger of its starting count
      and its cap. */
  ghost predicate CapsKept(site: Site, c: Choice) {
    && (site.countryCap.Some? ==> forall x :: x != site.home ==>
          Count(c.countries, x) <= Max(Count(site.countries, x), site.countryCap.value))
    && (site.sectionCap.Some? ==> forall x ::
          Count(c.sections, x) <= Max(Count(site.sections, x), site.sectionCap.value))
  }

  /** None taken is avoided, or retells a recent article or one taken before. */
  ghost predicate NoneRetold(site: Site, c: Choice) {
    forall k :: 0 <= k < |c.out| ==>
      !c.out[k].avoided && !Overlaps(c.out[k].angle, site.recent + Angles(c.out[..k]))
  }

  /** A row that was read and not taken is avoided, full or retold by now. */
  ghost predicate Settled(site: Site, c: Choice, r: Proposal) {
    r.avoided || r in c.out || Full(site, c, r) || Retold(site, c, r)
  }

  ghost predicate Keeps(site: Site, c: Choice) {
    && CountsExact(site, c) && CapsKept(site, c) && NoneRetold(site, c)
    && forall i :: 0 <= i < |c.fewer| ==> !c.fewer[i].avoided
  }

  lemma {:induction false} TakingKeepsCounts(site: Site, c: Choice, r: Proposal)
    requires CountsExact(site, c)
    ensures CountsExact(site, Taken(c, r))
  {
    assert (c.out + [r])[..|c.out|] == c.out;
  }

  lemma {:induction false} TakingKeepsCaps(site: Site, c: Choice, r: Proposal)
    requires CapsKept(site, c) && !Full(site, c, r)
    ensures CapsKept(site, Taken(c, r))
  {
  }

  lemma {:induction false} TakingKeepsApart(site: Site, c: Choice, r: Proposal)
    requires NoneRetold(site, c) && !Retold(site, c, r) && !r.avoided
    ensures NoneRetold(site, Taken(c, r))
  {
    hide Retells;
    var out := c.out + [r];
    forall k | 0 <= k < |out|
      ensures !out[k].avoided && !Overlaps(out[k].angle, site.recent + Angles(out[..k]))
    {
      if k < |c.out| {
        assert out[..k] == c.out[..k] && out[k] == c.out[k];
      } else {
        assert out[..k] == c.out;
      }
    }
  }

  lemma {:induction false} TakingKeeps(site: Site, c: Choice, r: Proposal)
    requires Keeps(site, c) && !r.avoided && !Full(site, c, r) && !Retold(site, c, r)
    ensures Keeps(site, Taken(c, r))
  {
    hide Full, Retold, CountsExact, CapsKept, NoneRetold;
    TakingKeepsCounts(site, c, r);
    TakingKeepsCaps(site, c, r);
    TakingKeepsApart(site, c, r);
  }

  /** What is full or retold stays so as more is taken. */
  lemma {:induction false} TakingSettles(site: Site, c: Choice, taken: Proposal, r: Proposal)
    requires Settled(site, c, r)
    ensures Settled(site, Taken(c, taken), r)
  {
    hide Retells;
    if Retold(site, c, r) {
      var seen := site.recent + Angles(c.out);
      var i :| 0 <= i < |seen| && Retells(r.angle, seen[i]);
      assert (site.recent + Angles(c.out + [taken]))[i] == seen[i];
    }
  }

  lemma {:induction false} FirstPassKeeps(site: Site, rows: seq<Proposal>, n: int)
    ensures Keeps(site, FirstPass(site, rows, n))
  {
    hide Full, Retold;
    if rows == [] {
      StartKeeps(site);
    } else {
      FirstPassKeeps(site, rows[..|rows| - 1], n);
      var before, r := FirstPass(site, rows[..|rows| - 1], n), rows[|rows| - 1];
      if !r.avoided && !Full(site, before, r) && !Retold(site, before, r) {
        TakingKeeps(site, before, r);
      }
    }
  }

  lemma {:induction false} StartKeeps(site: Site)
    ensures Keeps(site, Start(site))
  {
  }

  lemma {:induction false} SecondPassKeeps(site: Site, c: Choice, left: seq<Proposal>, n: int)
    requires Keeps(site, c) && forall i :: 0 <= i < |left| ==> !left[i].avoided
    ensures Keeps(site, SecondPass(site, c, left, n))
  {
    hide Full, Retold, Keeps;
    if left != [] {
      SecondPassKeeps(site, c, left[..|left| - 1], n);
      var before, r := SecondPass(site, c, left[..|left| - 1], n), left[|left| - 1];
      if !Full(site, before, r) && !Retold(site, before, r) {
        TakingKeeps(site, before, r);
      }
    }
  }

  lemma {:induction false} FirstPassAtMost(site: Site, rows: seq<Proposal>, n: int)
    ensures |FirstPass(site, rows, n).out| <= Max(0, n)
  {
    hide Full, Retold;
    if rows != [] {
      FirstPassAtMost(site, rows[..|rows| - 1], n);
    }
  }

  lemma {:induction false} SecondPassAtMost(site: Site, c: Choice, left: seq<Proposal>, n: int)
    requires |c.out| <= Max(0, n)
    ensures |SecondPass(site, c, left, n).out| <= Max(0, n)
  {
    hide Full, Retold;
    if left != [] {
      SecondPassAtMost(site, c, left[..|left| - 1], n);
    }
  }

  /** Below `n`, every row of the first pass is settled or waits for the second. */
  lemma {:induction false} FirstPassSettles(site: Site, rows: seq<Proposal>, n: int, i: nat)
    requires i < |rows| && |FirstPass(site, rows, n).out| < n
    ensures var c := FirstPass(site, rows, n); Settled(site, c, rows[i]) || rows[i] in c.fewer
  {
    hide Full, Retold;
    var rest, r := rows[..|rows| - 1], rows[|rows| - 1];
    var before := FirstPass(site, rest, n);
    if i < |rest| {
      FirstPassSettles(site, rest, n, i);
      assert rest[i] == rows[i];
      if Settled(site, before, rows[i]) {
        TakingSettles(site, before, r, rows[i]);
        SettledIgnoresFewer(site, before, rows[i], r);
      }
    }
  }

  lemma {:induction false} SettledIgnoresFewer(site: Site, c: Choice, r: Proposal, left: Proposal)
    requires Settled(site, c, r)
    ensures Settled(site, c.(fewer := c.fewer + [left]), r)
  {
  }

  lemma {:induction false} SecondPassSettles(site: Site, c: Choice, left: seq<Proposal>, n: int, r: Proposal)
    requires |SecondPass(site, c, left, n).out| < n
    requires r in left || Settled(site, c, r)
    ensures Settled(site, SecondPass(site, c, left, n), r)
  {
    hide Full, Retold;
    if left != [] {
      var rest, last := left[..|left| - 1], left[|left| - 1];
      var before := SecondPass(site, c, rest, n);
      if r in rest || Settled(site, c, r) {
        SecondPassSettles(site, c, rest, n, r);
        TakingSettles(site, before, last, r);
      } else {
        assert r == last by { assert left == rest + [last]; }
      }
    }
  }

  /** At most `n` are chosen; none is avoided or retells a recent article or one
      chosen before it; the counts are the day's plus what was chosen, and no
      foreign country and no section goes beyond the larger of its starting
      count and its cap. */
  lemma {:induction false} ChoiceKeepsLimits(site: Site, rows: seq<Proposal>, n: int)
    ensures var c := Chosen(site, rows, n);
            |c.out| <= Max(0, n) && CountsExact(site, c) && CapsKept(site, c) && NoneRetold(site, c)
  {
    hide FirstPass, SecondPass, CountsExact, CapsKept, NoneRetold;
    var first := FirstPass(site, rows, n);
    FirstPassAtMost(site, rows, n);
    FirstPassKeeps(site, rows, n);
    SecondPassAtMost(site, first, first.fewer, n);
    SecondPassKeeps(site, first, first.fewer, n);
  }

  /** What is left out for good reason: a row on a topic to avoid, of a foreign
      country or a section whose share of the day is reached by what was chosen on
      top of the day's articles, or that retells a recent or chosen story. The
      site's own country has no share. */
  ghost predicate LeftOutRightly(site: Site, out: seq<Proposal>, r: Proposal) {
    || r.avoided
    || (site.countryCap.Some? && r.country.Some? && r.country.value != site.home
        && Count(site.countries, r.country.value) + InCountry(out, r.country.value) >= site.countryCap.value)
    || (site.sectionCap.Some? && r.section.Some?
        && Count(site.sections, r.section.value) + InSection(out, r.section.value) >= site.sectionCap.value)
    || (exists i :: 0 <= i < |site.recent| && Retells(r.angle, site.recent[i]))
    || (exists k :: 0 <= k < |out| && Retells(r.angle, out[k].angle))
  }

  lemma {:induction false} SettledRightly(site: Site, c: Choice, r: Proposal)
    requires Settled(site, c, r) && CountsExact(site, c)
    ensures r in c.out || LeftOutRightly(site, c.out, r)
  {
    hide Retells;
    if Retold(site, c, r) {
      var seen := site.recent + Angles(c.out);
      var i :| 0 <= i < |seen| && Retells(r.angle, seen[i]);
      if i >= |site.recent| {
        assert c.out[i - |site.recent|].angle == seen[i];
      }
    }
  }

  /** The choice is maximal: with fewer than `n` chosen, every row was chosen, or is
      left out for good reason at the end. */
  lemma {:induction false} ChoiceIsMaximal(site: Site, rows: seq<Proposal>, n: int, i: nat)
    requires i < |rows| && |Chosen(site, rows, n).out| < n
    ensures rows[i] in Chosen(site, rows, n).out || LeftOutRightly(site, Chosen(site, rows, n).out, rows[i])
  {
    ChoiceKeepsLimits(site, rows, n);
    hide FirstPass, SecondPass, Settled, CountsExact, CapsKept, NoneRetold, LeftOutRightly;
    var first := FirstPass(site, rows, n);
    SecondPassGrows(site, first, first.fewer, n);
    FirstPassSettles(site, rows, n, i);
    SecondPassSettles(site, first, first.fewer, n, rows[i]);
    SettledRightly(site, Chosen(site, rows, n), rows[i]);
  }

  /** The first pass takes rows as they come, the best first: those taken stand in
      the rows one after the other. */
  lemma {:induction false} TakenInOrder(site: Site, rows: seq<Proposal>, n: int) returns (at: seq<nat>)
    ensures var out := FirstPass(site, rows, n).out;
            && |at| == |out| && (forall k :: 0 <= k < |at| ==> at[k] < |rows| && rows[at[k]] == out[k])
            && (forall j, k :: 0 <= j < k < |at| ==> at[j] < at[k])
  {
    hide Full, Retold;
    if rows == [] {
      at := [];
    } else {
      var last := |rows| - 1;
      at := TakenInOrder(site, rows[..last], n);
      if FirstPass(site, rows, n).out != FirstPass(site, rows[..last], n).out {
        at := at + [last];
      }
    }
  }

  /** A row told by enough outlets that comes while fewer than `n` are taken is the
      next one taken, or was left out for good reason. */
  lemma {:induction false} NextIsTaken(site: Site, rows: seq<Proposal>, n: int, i: nat)
    requires i < |rows| && rows[i].sourced && |FirstPass(site, rows[..i], n).out| < n
    ensures var taken, after := FirstPass(site, rows[..i], n).out, FirstPass(site, rows[..i + 1], n).out;
            after == taken + [rows[i]] || (after == taken && LeftOutRightly(site, taken, rows[i]))
  {
    FirstPassKeeps(site, rows[..i], n);
    var before := FirstPass(site, rows[..i], n);
    assert rows[..i + 1][..i] == rows[..i];
    hide Full, Retold, CountsExact, LeftOutRightly;
    if FirstPass(site, rows[..i + 1], n) == before {
      SettledRightly(site, before, rows[i]);
    }
  }

  /** Rows turned down for good are those on a topic to avoid. */
  lemma {:induction false} AvoidedExactly(rows: seq<Proposal>, r: Proposal)
    ensures r in AvoidedOf(rows) <==> r.avoided && r in rows
  {
    if rows != [] {
      AvoidedExactly(rows[..|rows| - 1], r);
      assert rows == rows[..|rows| - 1] + [rows[|rows| - 1]];
    }
  }

  /** News told by enough outlets come first: after the first pass, only rows
      left for the second look are added, and only if it fell short. */
  lemma {:induction false} SourcedComeFirst(site: Site, rows: seq<Proposal>, n: int)
    ensures var first := FirstPass(site, rows, n);
            && first.out <= Chosen(site, rows, n).out
            && AllSourced(first.out, true) && AllSourced(first.fewer, false)
            && (|first.out| >= n ==> Chosen(site, rows, n).out == first.out)
  {
    hide Full, Retold;
    var first := FirstPass(site, rows, n);
    SecondPassGrows(site, first, first.fewer, n);
    FirstPassSourced(site, rows, n);
    if |first.out| >= n {
      assert first.fewer[..0] == [];
      SecondPassStops(site, first, first.fewer, n, 0);
    }
  }

  ghost predicate AllSourced(ps: seq<Proposal>, sourced: bool) {
    forall i :: 0 <= i < |ps| ==> ps[i].sourced == sourced
  }

  lemma {:induction false} FirstPassSourced(site: Site, rows: seq<Proposal>, n: int)
    ensures AllSourced(FirstPass(site, rows, n).out, true) && AllSourced(FirstPass(site, rows, n).fewer, false)
  {
    hide Full, Retold;
    if rows != [] {
      FirstPassSourced(site, rows[..|rows| - 1], n);
      var before, c, r := FirstPass(site, rows[..|rows| - 1], n), FirstPass(site, rows, n), rows[|rows| - 1];
      assert c.out == before.out || (r.sourced && c.out == before.out + [r]);
      assert c.fewer == before.fewer || (!r.sourced && c.fewer == before.fewer + [r]);
    }
  }
}
