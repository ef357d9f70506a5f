/** Tool policy (src/policy.rs): rules in order, then the taint gates. */
module Policy {
  import opened Common

  datatype Effect = Allow | Deny | RequireApproval

  datatype Decision = Allowed | Denied(reason: string) | NeedsApproval(reason: string)

  datatype Rule = Rule(
    tool: string,
    profiles: seq<string>,
    tainted: Option<bool>,
    effect: Effect,
    reason: Option<string>)

  datatype TaintConfig = TaintConfig(
    sources: seq<string>,
    effects: seq<string>,
    privateSources: seq<string>,
    egress: seq<string>,
    onEffect: Effect)

  datatype Policy = Policy(default: Effect, rules: seq<Rule>, taint: TaintConfig)

  predicate Matches(pattern: string, name: string) {
    if |pattern| > 0 && pattern[|pattern| - 1] == '*' then pattern[..|pattern| - 1] <= name else pattern == name
  }

  predicate MatchesAny(patterns: seq<string>, name: string) {
    exists i :: 0 <= i < |patterns| && Matches(patterns[i], name)
  }

  predicate Applies(r: Rule, tool: string, profile: string, tainted: bool) {
    && Matches(r.tool, tool)
    && (r.profiles == [] || profile in r.profiles)
    && (r.tainted.Some? ==> r.tainted.value == tainted)
  }

  function FindRule(rules: seq<Rule>, tool: string, profile: string, tainted: bool): Option<Rule> {
    if rules == [] then None
    else if Applies(rules[0], tool, profile, tainted) then Some(rules[0])
    else FindRule(rules[1..], tool, profile, tainted)
  }

  function ToDecision(effect: Effect, reason: string): Decision {
    match effect
    case Allow => Allowed
    case Deny => Denied(reason)
    case RequireApproval => NeedsApproval(reason)
  }

  function RuleDecision(p: Policy, tool: string, profile: string, tainted: bool): Decision {
    match FindRule(p.rules, tool, profile, tainted)
    case Some(r) => ToDecision(r.effect, r.reason.GetOr("policy rule for '" + r.tool + "'"))
    case None => ToDecision(p.default, "policy default")
  }

  /** What the taint gates make of a call that the rules allow. */
  function GateDecision(p: Policy, tool: string, tainted: bool, readPrivate: bool): Decision {
    if tainted && MatchesAny(p.taint.effects, tool) then
      ToDecision(p.taint.onEffect, "side effects after external content")
    else if tainted && readPrivate && MatchesAny(p.taint.egress, tool) then
      ToDecision(p.taint.onEffect, "sending out after private data")
    else Allowed
  }

  function Evaluate(p: Policy, tool: string, profile: string, tainted: bool, readPrivate: bool): Decision {
    var decision := RuleDecision(p, tool, profile, tainted);
    if decision != Allowed then decision else GateDecision(p, tool, tainted, readPrivate)
  }

  predicate ReadsPrivate(p: Policy, tool: string) {
    MatchesAny(p.taint.privateSources, tool)
  }

  predicate Taints(p: Policy, tool: string) {
    MatchesAny(p.taint.sources, tool)
  }

  /** The tool is behind a taint gate in this state. */
  predicate Gated(p: Policy, tool: string, tainted: bool, readPrivate: bool) {
    tainted && (MatchesAny(p.taint.effects, tool) || (readPrivate && MatchesAny(p.taint.egress, tool)))
  }

  /** The first rule that applies decides; the default only when none does. */
  lemma {:induction false} FirstRuleWins(rules: seq<Rule>, tool: string, profile: string, tainted: bool)
    ensures match FindRule(rules, tool, profile, tainted)
            case Some(r) => exists i :: 0 <= i < |rules| && rules[i] == r && Applies(r, tool, profile, tainted)
                              && forall j :: 0 <= j < i ==> !Applies(rules[j], tool, profile, tainted)
            case None => forall j :: 0 <= j < |rules| ==> !Applies(rules[j], tool, profile, tainted)
  {
    if rules != [] && !Applies(rules[0], tool, profile, tainted) {
      FirstRuleWins(rules[1..], tool, profile, tainted);
      match FindRule(rules, tool, profile, tainted)
      case Some(r) =>
        var i :| 0 <= i < |rules[1..]| && rules[1..][i] == r
                 && forall j :: 0 <= j < i ==> !Applies(rules[1..][j], tool, profile, tainted);
        assert rules[i + 1] == r;
        forall j | 0 <= j < i + 1
          ensures !Applies(rules[j], tool, profile, tainted)
        {
          assert j > 0 ==> rules[j] == rules[1..][j - 1];
        }
      case None =>
        forall j | 0 <= j < |rules|
          ensures !Applies(rules[j], tool, profile, tainted)
        {
          assert j > 0 ==> rules[j] == rules[1..][j - 1];
        }
    }
  }

  /** A pattern ending in `*` stands for all names that begin with the rest of it,
      any other for itself. */
  lemma {:induction false} MatchesExactly(stem: string, name: string)
    ensures Matches(stem + "*", name) <==> exists rest :: name == stem + rest
    ensures (stem == "" || stem[|stem| - 1] != '*') ==> (Matches(stem, name) <==> name == stem)
  {
    assert (stem + "*")[..|stem|] == stem;
    if stem <= name {
      assert name == stem + name[|stem|..];
    }
  }

  /** A rule speaks of the tools its pattern stands for, in its profiles (all, if
      it lists none), and in runs as tainted as it says (all, if it does not). */
  lemma {:induction false} AppliesExactly(r: Rule, tool: string, profile: string, tainted: bool)
    ensures Applies(r, tool, profile, tainted) <==>
            && Matches(r.tool, tool)
            && (|r.profiles| > 0 ==> exists k :: 0 <= k < |r.profiles| && r.profiles[k] == profile)
            && r.tainted != Some(!tainted)
  {
  }

  /** The effect of the first rule that applies, or the default if none does. */
  ghost predicate RuleSays(p: Policy, tool: string, profile: string, tainted: bool, e: Effect) {
    || (exists i :: IsFirst(p.rules, tool, profile, tainted, i) && p.rules[i].effect == e)
    || (p.default == e && forall i :: 0 <= i < |p.rules| ==> !Applies(p.rules[i], tool, profile, tainted))
  }

  ghost predicate IsFirst(rules: seq<Rule>, tool: string, profile: string, tainted: bool, i: int) {
    && 0 <= i < |rules| && Applies(rules[i], tool, profile, tainted)
    && forall j :: 0 <= j < i ==> !Applies(rules[j], tool, profile, tainted)
  }

  lemma {:induction false} FoundIsFirst(rules: seq<Rule>, tool: string, profile: string, tainted: bool, i: int)
    requires IsFirst(rules, tool, profile, tainted, i)
    ensures FindRule(rules, tool, profile, tainted) == Some(rules[i])
  {
    hide Applies;
    FirstRuleWins(rules, tool, profile, tainted);
  }

  lemma {:induction false} NoneIsFound(rules: seq<Rule>, tool: string, profile: string, tainted: bool)
    requires forall i :: 0 <= i < |rules| ==> !Applies(rules[i], tool, profile, tainted)
    ensures FindRule(rules, tool, profile, tainted) == None
  {
    hide Applies;
    FirstRuleWins(rules, tool, profile, tainted);
  }

  /** What becomes of an effect: an allowed tool behind a closed taint gate gets
      the gate's effect. */
  function Gate(p: Policy, tool: string, tainted: bool, readPrivate: bool, e: Effect): Effect {
    if e == Allow && tainted && (MatchesAny(p.taint.effects, tool) || (readPrivate && MatchesAny(p.taint.egress, tool)))
    then p.taint.onEffect else e
  }

  predicate Means(d: Decision, e: Effect) {
    (d.Allowed? <==> e == Allow) && (d.Denied? <==> e == Deny) && (d.NeedsApproval? <==> e == RequireApproval)
  }

  /** Denied exactly when the deciding effect is deny, put to a person exactly when
      it is require_approval: that of the first applying rule, else the default,
      or the gate's if those allow a tool behind a closed one. */
  lemma {:induction false} EvaluateExactly(
    p: Policy, tool: string, profile: string, tainted: bool, readPrivate: bool, e: Effect)
    requires RuleSays(p, tool, profile, tainted, e)
    ensures Means(Evaluate(p, tool, profile, tainted, readPrivate), Gate(p, tool, tainted, readPrivate, e))
  {
    hide RuleDecision, GateDecision, MatchesAny, RuleSays;
    RuleDecides(p, tool, profile, tainted, e);
    GateMeans(p, tool, tainted, readPrivate);
  }

  lemma {:induction false} GateMeans(p: Policy, tool: string, tainted: bool, readPrivate: bool)
    ensures Means(GateDecision(p, tool, tainted, readPrivate), Gate(p, tool, tainted, readPrivate, Allow))
  {
    hide MatchesAny;
  }

  lemma {:induction false} RuleDecides(p: Policy, tool: string, profile: string, tainted: bool, e: Effect)
    requires RuleSays(p, tool, profile, tainted, e)
    ensures Means(RuleDecision(p, tool, profile, tainted), e)
  {
    hide Applies, FindRule;
    if i :| IsFirst(p.rules, tool, profile, tainted, i) && p.rules[i].effect == e {
      FoundIsFirst(p.rules, tool, profile, tainted, i);
    } else {
      NoneIsFound(p.rules, tool, profile, tainted);
    }
  }

  /** There is always one deciding effect, and only one. */
  lemma {:induction false} OneEffectDecides(p: Policy, tool: string, profile: string, tainted: bool) returns (e: Effect)
    ensures forall other :: RuleSays(p, tool, profile, tainted, other) <==> other == e
  {
    hide Applies, FindRule;
    FirstRuleWins(p.rules, tool, profile, tainted);
    match FindRule(p.rules, tool, profile, tainted)
    case Some(r) =>
      e := r.effect;
      var i :| 0 <= i < |p.rules| && p.rules[i] == r && Applies(r, tool, profile, tainted)
               && forall j :: 0 <= j < i ==> !Applies(p.rules[j], tool, profile, tainted);
      assert IsFirst(p.rules, tool, profile, tainted, i);
    case None =>
      e := p.default;
  }

  /** A call runs unasked exactly when the rules allow it and no taint gate is
      closed; a gate is open for everything exactly when its effect is allow. */
  lemma {:induction false} AllowedExactlyWhen(p: Policy, tool: string, profile: string, tainted: bool, readPrivate: bool)
    ensures Evaluate(p, tool, profile, tainted, readPrivate) == Allowed <==>
      && RuleSays(p, tool, profile, tainted, Allow)
      && (Gated(p, tool, tainted, readPrivate) ==> p.taint.onEffect == Allow)
  {
    hide RuleSays, Evaluate, MatchesAny;
    var e := OneEffectDecides(p, tool, profile, tainted);
    EvaluateExactly(p, tool, profile, tainted, readPrivate, e);
  }
}
