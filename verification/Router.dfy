/** Named models with fallbacks (src/router.rs; src/config.rs, `validate`):
    resolving the fallbacks, calling the first model that answers, and what
    its answer costs. */
module Router {
  import opened Common
  import opened Llm

  const DEFAULT: string := "default"

  datatype ModelConfig = ModelConfig(provider: string, pricing: Option<Pricing>, fallback: Option<string>)

  /** The top-level provider, called `default`, and the models beside it. */
  datatype Config = Config(top: ModelConfig, models: map<string, ModelConfig>)

  predicate Validated(c: Config) {
    && DEFAULT !in c.models
    && (c.top.fallback.Some? ==> c.top.fallback.value in c.models)
    && (forall name :: name in c.models && c.models[name].fallback.Some? ==>
          var f := c.models[name].fallback.value; f == DEFAULT || f in c.models)
  }

  type Models = map<string, ModelConfig>

  function Base(c: Config): Models { map[DEFAULT := c.top] + c.models }

  // ----- the fallback graph -------------------------------------------------------------

  /** Every fallback names a model. */
  ghost predicate Closed(base: Models) {
    forall name :: name in base && base[name].fallback.Some? ==> base[name].fallback.value in base
  }

  /** The `k`-th fallback of a model: itself, its fallback, that one's… */
  ghost function Follow(base: Models, name: string, k: nat): Option<string>
    requires Closed(base) && name in base
    ensures Follow(base, name, k).Some? ==> Follow(base, name, k).value in base
  {
    if k == 0 then Some(name)
    else
      var before := Follow(base, name, k - 1);
      if before.Some? then base[before.value].fallback else None
  }

  /** Some number of fallbacks leads back to it. */
  ghost predicate OnCycle(base: Models, name: string)
    requires Closed(base)
  {
    name in base && exists k :: k >= 1 && Follow(base, name, k) == Some(name)
  }

  ghost predicate Acyclic(base: Models)
    requires Closed(base)
  {
    forall name :: name in base ==> !OnCycle(base, name)
  }

  lemma {:induction false} FollowFurther(base: Models, name: string, i: nat, k: nat)
    requires Closed(base) && name in base && Follow(base, name, i).Some?
    ensures Follow(base, name, i + k) == Follow(base, Follow(base, name, i).value, k)
  {
    if k > 0 {
      FollowFurther(base, name, i, k - 1);
    }
  }

  lemma {:induction false} NoneAfterNone(base: Models, name: string, i: nat, k: nat)
    requires Closed(base) && name in base && Follow(base, name, i).None? && i <= k
    ensures Follow(base, name, k).None?
    decreases k
  {
    if i < k {
      NoneAfterNone(base, name, i, k - 1);
    }
  }

  /** From a model on a cycle the fallbacks never end. */
  lemma {:induction false} CycleNeverEnds(base: Models, name: string, k: nat, m: nat)
    requires Closed(base) && name in base && k >= 1 && Follow(base, name, k) == Some(name)
    ensures Follow(base, name, m).Some?
    decreases m
  {
    if m >= k {
      FollowFurther(base, name, k, m - k);
      CycleNeverEnds(base, name, k, m - k);
    } else if Follow(base, name, m).None? {
      NoneAfterNone(base, name, m, k);
    }
  }

  /** The fallbacks of a model from first to last, none of them twice. */
  ghost predicate IsChain(base: Models, name: string, chain: seq<string>)
    requires Closed(base) && name in base
  {
    && IsPath(base, name, chain)
    && Follow(base, name, |chain|).None?
  }

  ghost predicate IsPath(base: Models, name: string, path: seq<string>)
    requires Closed(base) && name in base
  {
    && (forall i :: 0 <= i < |path| ==> Follow(base, name, i) == Some(path[i]))
    && (forall i, j :: 0 <= i < j < |path| ==> path[i] != path[j])
  }

  lemma {:induction false} ChainIsUnique(base: Models, name: string, a: seq<string>, b: seq<string>)
    requires Closed(base) && name in base && IsChain(base, name, a) && IsChain(base, name, b)
    ensures a == b
  {
    assert |a| == |b|;
    forall i | 0 <= i < |a| ensures a[i] == b[i] {
      assert Follow(base, name, i) == Some(a[i]);
    }
  }

  /** A path that would step onto itself shows a cycle. */
  lemma {:induction false} RepeatIsCycle(base: Models, name: string, path: seq<string>, f: string)
    requires Closed(base) && name in base && IsPath(base, name, path)
    requires Follow(base, name, |path|) == Some(f) && f in path
    ensures OnCycle(base, f)
  {
    var i :| 0 <= i < |path| && path[i] == f;
    assert Follow(base, name, i) == Some(f);
    FollowFurther(base, name, i, |path| - i);
  }

  lemma {:induction false} Distinct(path: seq<string>)
    requires forall i, j :: 0 <= i < j < |path| ==> path[i] != path[j]
    ensures |set i | 0 <= i < |path| :: path[i]| == |path|
  {
    if path != [] {
      var n := |path| - 1;
      Distinct(path[..n]);
      var rest := set i | 0 <= i < n :: path[..n][i];
      assert (set i | 0 <= i < |path| :: path[i]) == rest + {path[n]};
    }
  }

  // ----- resolving the fallbacks ------------------------------------------------------------

  /** One model of a chain: its client and its price. */
  datatype Link = Link(provider: string, pricing: Option<Pricing>)

  datatype Client = Single(provider: string) | Fallbacks(links: seq<Link>)

  datatype Routed = Routed(client: Client, pricing: Option<Pricing>)

  datatype Routing = Routing(models: map<string, Routed>) | CycleAt(name: string)

  function LinkOf(base: Models, name: string): Link
    requires name in base
  {
    Link(base[name].provider, base[name].pricing)
  }

  function LinksOf(base: Models, chain: seq<string>): (links: seq<Link>)
    requires forall i :: 0 <= i < |chain| ==> chain[i] in base
  {
    seq(|chain|, i requires 0 <= i < |chain| => LinkOf(base, chain[i]))
  }

  /** A model is routed to the whole chain of its fallbacks, at its own price
      unless a link of the chain names another. */
  ghost predicate RoutesAlong(base: Models, name: string, r: Routed, chain: seq<string>)
    requires Closed(base) && name in base
  {
    && IsChain(base, name, chain) && (forall i :: 0 <= i < |chain| ==> chain[i] in base)
    && r.pricing == base[name].pricing
    && r.client == if |chain| == 1 then Single(base[name].provider) else Fallbacks(LinksOf(base, chain))
  }

  ghost predicate Routes(base: Models, name: string, r: Routed)
    requires Closed(base)
  {
    name in base && exists chain :: RoutesAlong(base, name, r, chain)
  }

  lemma {:induction false} PathExtended(base: Models, name: string, path: seq<string>, f: string)
    requires Closed(base) && name in base && IsPath(base, name, path)
    requires Follow(base, name, |path|) == Some(f) && f !in path
    ensures IsPath(base, name, path + [f])
  {
    hide Closed, Follow;
    var longer := path + [f];
    forall i | 0 <= i < |longer| ensures Follow(base, name, i) == Some(longer[i]) {
    }
  }

  lemma {:induction false} NextOf(base: Models, name: string, path: seq<string>)
    requires Closed(base) && name in base && IsPath(base, name, path) && path != []
    ensures path[|path| - 1] in base
    ensures Follow(base, name, |path|) == base[path[|path| - 1]].fallback
  {
    assert Follow(base, name, |path| - 1) == Some(path[|path| - 1]);
  }

  lemma {:induction false} PathIsShort(base: Models, name: string, path: seq<string>)
    requires Closed(base) && name in base && IsPath(base, name, path)
    ensures |path| <= |base|
  {
    var names := set i | 0 <= i < |path| :: path[i];
    Distinct(path);
    forall i | 0 <= i < |path| ensures path[i] in base {
      assert Follow(base, name, i) == Some(path[i]);
    }
    SubsetSize(names, base.Keys);
  }

  /** One model's chain, or the model its fallbacks come back to. */
  method Walk(base: Models, name: string) returns (links: seq<Link>, cycle: Option<string>, ghost seen: seq<string>)
    requires Closed(base) && name in base
    ensures cycle.Some? ==> OnCycle(base, cycle.value)
    ensures cycle.None? ==> IsChain(base, name, seen) && |links| == |seen| > 0
    ensures cycle.None? ==> forall i :: 0 <= i < |seen| ==> seen[i] in base && links[i] == LinkOf(base, seen[i])
  {
    hide Closed, Follow, OnCycle;
    var cur, names := name, [name];
    links := [];
    PathOfOne(base, name);
    hide IsPath;
    while true
      invariant |names| == |links| + 1 && cur == names[|names| - 1]
      invariant IsPath(base, name, names)
      invariant forall i :: 0 <= i < |links| ==> names[i] in base && links[i] == LinkOf(base, names[i])
      decreases |base| - |names|
    {
      NextOf(base, name, names);
      links := links + [LinkOf(base, cur)];
      match base[cur].fallback
      case None =>
        return links, None, names;
      case Some(f) =>
        if f in names {
          RepeatIsCycle(base, name, names, f);
          return links, Some(f), names;
        }
        PathExtended(base, name, names, f);
        PathIsShort(base, name, names + [f]);
        names, cur := names + [f], f;
    }
  }

  lemma PathOfOne(base: Models, name: string)
    requires Closed(base) && name in base
    ensures IsPath(base, name, [name])
  {
  }

  method Route(base: Models, name: string) returns (r: Option<Routed>, cycle: Option<string>)
    requires Closed(base) && name in base
    ensures r.Some? != cycle.Some?
    ensures r.Some? ==> Routes(base, name, r.value) && !OnCycle(base, name)
    ensures cycle.Some? ==> OnCycle(base, cycle.value)
  {
    hide OnCycle;
    var links, found, seen := Walk(base, name);
    if found.Some? {
      return None, found;
    }
    ChainEndsCycle(base, name, seen);
    assert links == LinksOf(base, seen);
    var client := if |links| == 1 then Single(links[0].provider) else Fallbacks(links);
    assert Follow(base, name, 0) == Some(seen[0]);
    assert RoutesAlong(base, name, Routed(client, base[name].pricing), seen);
    r, cycle := Some(Routed(client, base[name].pricing)), None;
  }

  lemma ValidatedIsClosed(c: Config)
    requires Validated(c)
    ensures Closed(Base(c))
  {
  }

  ghost predicate AllRouted(base: Models, models: map<string, Routed>)
    requires Closed(base)
  {
    forall name :: name in models ==> Routes(base, name, models[name]) && !OnCycle(base, name)
  }

  lemma OneMoreRouted(base: Models, models: map<string, Routed>, name: string, routed: Routed)
    requires Closed(base) && AllRouted(base, models) && Routes(base, name, routed) && !OnCycle(base, name)
    ensures AllRouted(base, models[name := routed])
  {
  }

  lemma AllRoutedIsAcyclic(base: Models, models: map<string, Routed>)
    requires Closed(base) && AllRouted(base, models) && models.Keys == base.Keys
    ensures Acyclic(base) && forall name :: name in models ==> Routes(base, name, models[name])
  {
  }

  lemma CycleIsNotAcyclic(base: Models, name: string)
    requires Closed(base) && OnCycle(base, name)
    ensures !Acyclic(base)
  {
  }

  method RouteAll(base: Models) returns (r: Routing)
    requires Closed(base)
    ensures r.Routing? ==> r.models.Keys == base.Keys && AllRouted(base, r.models)
    ensures r.CycleAt? ==> OnCycle(base, r.name)
  {
    hide *;
    NoneRouted(base);
    var models: map<string, Routed> := map[];
    var left := base.Keys;
    while left != {}
      invariant left <= base.Keys
      invariant models.Keys == base.Keys - left
      invariant AllRouted(base, models)
      decreases |left|
    {
      var name :| name in left;
      left := left - {name};
      var routed, cycle := Route(base, name);
      if cycle.Some? {
        return CycleAt(cycle.value);
      }
      OneMoreRouted(base, models, name, routed.value);
      models := models[name := routed.value];
    }
    r := Routing(models);
  }

  /** Resolving terminates, and succeeds exactly when the fallback graph has no
      cycle; each model is then routed to its fallbacks, in order and none
      twice. What it complains about is a model on a cycle. */
  method FromConfig(c: Config) returns (r: Routing)
    requires Validated(c)
    ensures Closed(Base(c))
    ensures r.Routing? <==> Acyclic(Base(c))
    ensures r.Routing? ==> r.models.Keys == Base(c).Keys
    ensures r.Routing? ==> forall name :: name in r.models ==> Routes(Base(c), name, r.models[name])
    ensures r.CycleAt? ==> OnCycle(Base(c), r.name)
  {
    ValidatedIsClosed(c);
    hide *;
    r := RouteAll(Base(c));
    if r.Routing? {
      AllRoutedIsAcyclic(Base(c), r.models);
    } else {
      CycleIsNotAcyclic(Base(c), r.name);
    }
  }

  lemma NoneRouted(base: Models)
    requires Closed(base)
    ensures AllRouted(base, map[])
  {
  }

  lemma ChainEndsCycle(base: Models, name: string, chain: seq<string>)
    requires Closed(base) && name in base && IsChain(base, name, chain)
    ensures !OnCycle(base, name)
  {
    if OnCycle(base, name) {
      var k :| k >= 1 && Follow(base, name, k) == Some(name);
      CycleNeverEnds(base, name, k, |chain|);
    }
  }

  // ----- calling a model -----------------------------------------------------------------------

  /** A provider's answer, its usage filled in when it reports none. */
  function Estimated(r: Reply, estimate: ChatResponse -> Usage): Reply {
    if r.Reply? && r.response.usage.None? then Reply(r.response.(usage := Some(estimate(r.response)))) else r
  }

  /** A reported usage is kept, a missing one filled in, and nothing else changes. */
  lemma {:induction false} OnlyMissingUsageIsEstimated(r: Reply, estimate: ChatResponse -> Usage)
    ensures r.ReplyError? || r.response.usage.Some? ==> Estimated(r, estimate) == r
    ensures r.Reply? ==> Estimated(r, estimate).Reply? && Estimated(r, estimate).response.usage.Some?
    ensures r.Reply? ==> Estimated(r, estimate).response.(usage := r.response.usage) == r.response
  {
  }

  /** What the client at each place of a chain answers, were it asked; none sets
      a `servedBy` of its own. */
  datatype Clients = Clients(answer: nat -> Reply, estimate: ChatResponse -> Usage)

  function Ask(cs: Clients, place: nat): Reply { Estimated(cs.answer(place), cs.estimate) }

  /** Clients before place `i` fail and that one answers. */
  ghost predicate AnswersFirst(cs: Clients, i: nat) {
    Ask(cs, i).Reply? && forall j: nat :: j < i ==> Ask(cs, j).ReplyError?
  }

  function Served(r: Reply, link: Link): Reply
    requires r.Reply?
  {
    Reply(r.response.(servedBy := Some(ServedBy(link.provider, link.pricing))))
  }

  /** The first model that succeeds answers, under its own name and price; if
      none does, the last error is returned. */
  method ChatChain(cs: Clients, links: seq<Link>) returns (r: Reply)
    requires links != []
    ensures r.Reply? ==> exists i: nat :: i < |links| && AnswersFirst(cs, i) && r == Served(Ask(cs, i), links[i])
    ensures r.ReplyError? ==> r == Ask(cs, |links| - 1)
    ensures r.ReplyError? ==> forall j: nat :: j < |links| ==> Ask(cs, j).ReplyError?
  {
    var last := "";
    for i := 0 to |links|
      invariant forall j: nat :: j < i ==> Ask(cs, j).ReplyError?
      invariant i > 0 ==> ReplyError(last) == Ask(cs, i - 1)
    {
      match Ask(cs, i)
      case Reply(response) =>
        assert AnswersFirst(cs, i);
        return Reply(response.(servedBy := Some(ServedBy(links[i].provider, links[i].pricing))));
      case ReplyError(e) =>
        last := e;
    }
    r := ReplyError(last);
  }

  /** What a routed model answers. */
  ghost predicate Answers(cs: Clients, m: Routed, r: Reply) {
    match m.client
    case Single(_) => r == Ask(cs, 0)
    case Fallbacks(links) =>
      if r.Reply? then exists i: nat :: i < |links| && AnswersFirst(cs, i) && r == Served(Ask(cs, i), links[i])
      else forall j: nat :: j < |links| ==> Ask(cs, j).ReplyError?
  }

  /** A call of a routed model: its one client, or the chain. */
  method Chat(cs: Clients, m: Routed) returns (r: Reply)
    requires m.client.Fallbacks? ==> m.client.links != []
    ensures Answers(cs, m, r)
  {
    match m.client
    case Single(_) => r := Ask(cs, 0);
    case Fallbacks(links) => r := ChatChain(cs, links);
  }

  /** The cost of an answer, from its usage, at one model's price. */
  ghost predicate CostsAt(r: ChatResponse, pricing: Option<Pricing>, cost: Option<real>) {
    && r.usage.Some?
    && cost == if pricing.Some? then Some(PriceOf(r.usage.value, pricing.value)) else None
  }

  /** The `k`-th fallback answers, all before it having failed, and its own price
      is charged. */
  ghost predicate ChargedTo(cs: Clients, base: Models, name: string, m: Routed, r: ChatResponse, k: nat)
    requires Closed(base) && name in base
  {
    && AnswersFirst(cs, k) && Follow(base, name, k).Some?
    && CostsAt(r, base[Follow(base, name, k).value].pricing, CostOf(r, m.pricing))
  }

  /** The place in the chain of the model that answered. */
  lemma {:induction false} AnsweringPlace(
    cs: Clients, base: Models, name: string, m: Routed, r: Reply, chain: seq<string>) returns (k: nat)
    requires Closed(base) && name in base && RoutesAlong(base, name, m, chain) && chain != [] && chain[0] == name
    requires Answers(cs, m, r) && r.Reply?
    requires forall place :: cs.answer(place).Reply? ==> cs.answer(place).response.servedBy.None?
    ensures k < |chain| && AnswersFirst(cs, k)
    ensures CostsAt(r.response, base[chain[k]].pricing, CostOf(r.response, m.pricing))
  {
    hide Closed, IsChain;
    match m.client
    case Single(_) => k := 0;
    case Fallbacks(links) =>
      var i: nat :| i < |links| && AnswersFirst(cs, i) && r == Served(Ask(cs, i), links[i]);
      k := i;
      assert links[i] == LinkOf(base, chain[i]);
  }

  lemma {:induction false} ChainFollows(base: Models, name: string, chain: seq<string>, i: nat)
    requires Closed(base) && name in base && IsChain(base, name, chain)
    ensures Follow(base, name, i) == if i < |chain| then Some(chain[i]) else None
  {
    if i >= |chain| {
      NoneAfterNone(base, name, |chain|, i);
    }
  }

  /** Whatever the clients of the chain answer, each on its own: the answer is
      that of the first fallback that succeeds, charged at that model's own
      price, from a usage that is always there; there is no answer exactly when
      every fallback failed. */
  lemma {:induction false} ChargedAtItsOwnPrice(cs: Clients, base: Models, name: string, m: Routed, r: Reply)
    requires Closed(base) && Routes(base, name, m) && Answers(cs, m, r)
    requires forall place :: cs.answer(place).Reply? ==> cs.answer(place).response.servedBy.None?
    ensures r.Reply? <==> exists k: nat :: Follow(base, name, k).Some? && Ask(cs, k).Reply?
    ensures r.Reply? ==> exists k: nat :: ChargedTo(cs, base, name, m, r.response, k)
  {
    hide Closed, Follow, IsChain, CostsAt, Ask;
    var chain :| RoutesAlong(base, name, m, chain);
    forall i: nat ensures Follow(base, name, i) == if i < |chain| then Some(chain[i]) else None {
      ChainFollows(base, name, chain, i);
    }
    FollowStart(base, name);
    assert Follow(base, name, 0) == Some(chain[0]);
    if r.Reply? {
      var k := AnsweringPlace(cs, base, name, m, r, chain);
      assert ChargedTo(cs, base, name, m, r.response, k);
    }
  }

  lemma FollowStart(base: Models, name: string)
    requires Closed(base) && name in base
    ensures Follow(base, name, 0) == Some(name)
  {
  }
}
