/**
 Policy evaluation: the strictest answer among the built-in floor and the stored policies. The code sorts by scope
 and folds; what it computes is proved equal to a maximum and a minimum that mention no order.
 */
module PolicyEngine {
  import opened Wrappers
  import opened Effects
  import Sorting

  datatype Scope = System | Organization | Workspace | Repository | WorkflowScope | User

  function Level(s: Scope): int {
    match s
    case System => 0
    case Organization => 1
    case Workspace => 2
    case Repository => 3
    case WorkflowScope => 4
    case User => 5
  }

  datatype Result = Allow | AllowWithLimits | RequireApproval | Deny

  function Strictness(r: Result): int {
    match r
    case Allow => 0
    case AllowWithLimits => 1
    case RequireApproval => 2
    case Deny => 3
  }

  datatype Rule = Rule(action: string, result: Result, reason: string, effects: set<SideEffect>,
      constraints: map<string, real>)

  datatype Policy = Policy(name: string, scope: Scope, rules: seq<Rule>, limits: map<string, real>, malformed: bool)

  datatype Code = PolicyDeny | ApprovalRequired | Limited | PolicyAllow | PolicyMalformed | NoRestriction

  datatype Decision = Decision(result: Result, code: Code, reason: string, source: string, scope: Scope,
      constraints: map<string, real>)

  /** What is asked: an action, its effect if known, and the pattern matcher (`fnmatchcase(name, pattern)`). */
  datatype Query = Query(action: string, effect: Option<SideEffect>, glob: (string, string) -> bool)

  predicate Matches(r: Rule, q: Query) {
    q.glob(q.action, r.action) && (r.effects == {} || (q.effect.Some? && q.effect.value in r.effects))
  }

  function NeedApproval(reason: string, effect: SideEffect): Rule {
    Rule("*", RequireApproval, reason, {effect}, map[])
  }

  const SYSTEM_FLOOR := Policy("system-floor", System, [
    Rule("artifact.disclose:secret:*", Deny, "secrets are never disclosed outside the runtime", {}, map[]),
    NeedApproval("it changes the repository", RepositoryWrite),
    NeedApproval("it changes something outside this machine", ExternalWrite),
    NeedApproval("it changes the host outside the repository", HostMutation),
    NeedApproval("it can delete or overwrite data", Destructive),
    NeedApproval("PatchQuest cannot tell what it does", Unknown)], map[], false)

  /** Stands in for a stored policy that could not be parsed. */
  function Malformed(name: string, scope: Scope, problem: string): Policy {
    Policy(name, scope, [Rule("*", Deny, "policy " + name + " is malformed: " + problem, {}, map[])], map[], true)
  }

  /** Within one policy the first matching rule speaks. */
  function Answer(p: Policy, q: Query): Option<Rule> {
    Sorting.FirstWhere(p.rules, r => Matches(r, q))
  }

  predicate Speaks(p: Policy, q: Query) {
    Answer(p, q).Some?
  }

  predicate Limits(p: Policy, q: Query) {
    Speaks(p, q) && Answer(p, q).value.result == AllowWithLimits
  }

  function CodeOf(p: Policy, r: Rule): Code {
    if p.malformed then PolicyMalformed
    else
      match r.result
      case Deny => PolicyDeny
      case RequireApproval => ApprovalRequired
      case AllowWithLimits => Limited
      case Allow => PolicyAllow
  }

  function DecisionOf(p: Policy, q: Query): Decision
    requires Speaks(p, q)
  {
    var r := Answer(p, q).value;
    Decision(r.result, CodeOf(p, r), r.reason, p.name, p.scope, map[])
  }

  // ---------------------------------------------------------------- the order-free specification

  ghost function Members(s: seq<Policy>): set<Policy> {
    set p | p in s
  }

  /** No policy is stricter than `result`, and one of them says `result`. */
  ghost predicate IsStrictest(all: set<Policy>, q: Query, result: Result) {
    && (exists p :: p in all && Speaks(p, q) && Answer(p, q).value.result == result)
    && forall p :: p in all && Speaks(p, q) ==> Strictness(Answer(p, q).value.result) <= Strictness(result)
  }

  /** The widest scope at which some policy says `result`. */
  ghost predicate IsWidest(all: set<Policy>, q: Query, result: Result, scope: Scope) {
    && (exists p :: p in all && Speaks(p, q) && Answer(p, q).value.result == result && p.scope == scope)
    && forall p :: p in all && Speaks(p, q) && Answer(p, q).value.result == result ==> Level(scope) <= Level(p.scope)
  }

  /** Each constraint is the least value any limiting rule gives it. */
  ghost predicate IsLeast(all: set<Policy>, q: Query, limits: map<string, real>) {
    && (forall k :: k in limits ==> exists p :: p in all && Limits(p, q) && k in Answer(p, q).value.constraints
                                                && Answer(p, q).value.constraints[k] == limits[k])
    && forall p, k :: p in all && Limits(p, q) && k in Answer(p, q).value.constraints ==>
         k in limits && limits[k] <= Answer(p, q).value.constraints[k]
  }

  ghost predicate Silent(all: set<Policy>, q: Query) {
    forall p :: p in all ==> !Speaks(p, q)
  }

  /** What a decision must say, over the floor and the stored policies as a set. */
  ghost predicate Decides(all: set<Policy>, q: Query, d: Decision) {
    if Silent(all, q) then
      d == Decision(Allow, NoRestriction, "no policy restricts this action", SYSTEM_FLOOR.name, System, map[])
    else
      && IsStrictest(all, q, d.result) && IsWidest(all, q, d.result, d.scope)
      && if d.result == AllowWithLimits then IsLeast(all, q, d.constraints) else d.constraints == map[]
  }

  ghost function Consulted(policies: seq<Policy>): set<Policy> {
    Members([SYSTEM_FLOOR] + policies)
  }

  /** The policies that say `result` at `scope`. */
  predicate Decisive(p: Policy, q: Query, result: Result, scope: Scope) {
    Speaks(p, q) && Answer(p, q).value.result == result && p.scope == scope
  }

  // ---------------------------------------------------------------- the fold

  ghost predicate MergedOver(seen: seq<Policy>, q: Query, limits: map<string, real>) {
    IsLeast(Members(seen), q, limits)
  }

  /** `best` is the first of `seen` at its strictness, and nothing in `seen` is stricter. */
  ghost predicate BestOver(seen: seq<Policy>, q: Query, best: Option<Decision>, at: nat) {
    match best
    case None => forall i :: 0 <= i < |seen| ==> !Speaks(seen[i], q)
    case Some(d) =>
      && at < |seen| && Speaks(seen[at], q) && d == DecisionOf(seen[at], q)
      && (forall i :: 0 <= i < at && Speaks(seen[i], q) ==>
         Strictness(Answer(seen[i], q).value.result) < Strictness(d.result))
      && (forall i :: at <= i < |seen| && Speaks(seen[i], q) ==>
         Strictness(Answer(seen[i], q).value.result) <= Strictness(d.result))
  }

  /** The pointwise minimum of what was collected and one more rule's constraints. */
  ghost predicate Tightened(before: map<string, real>, more: map<string, real>, keys: set<string>,
                            out: map<string, real>)
  {
    && out.Keys == before.Keys + keys
    && forall k :: k in out ==>
         out[k] == if k !in keys || k !in more then (if k in before then before[k] else 0.0)
                   else if k in before && before[k] < more[k] then before[k] else more[k]
  }

  /** The loop over one rule's constraints. */
  method Tighten(limits: map<string, real>, more: map<string, real>) returns (out: map<string, real>)
    ensures Tightened(limits, more, more.Keys, out)
  {
    out := limits;
    var left := more.Keys;
    while left != {}
      invariant left <= more.Keys
      invariant Tightened(limits, more, more.Keys - left, out)
    {
      var k :| k in left;
      out := out[k := if k in out && out[k] < more[k] then out[k] else more[k]];
      left := left - {k};
    }
  }

  lemma TightenedIsLeast(seen: seq<Policy>, p: Policy, q: Query, before: map<string, real>, out: map<string, real>)
    requires MergedOver(seen, q, before) && Limits(p, q)
    requires Tightened(before, Answer(p, q).value.constraints, Answer(p, q).value.constraints.Keys, out)
    ensures MergedOver(seen + [p], q, out)
  {
    hide Answer;
    var all, more := Members(seen + [p]), Answer(p, q).value.constraints;
    assert p in all;
    forall k | k in out
      ensures exists x ::
              x in all && Limits(x, q) && k in Answer(x, q).value.constraints
                  && Answer(x, q).value.constraints[k] == out[k]
    {
      if k !in more || (k in before && before[k] < more[k]) {
        var x :|
            x in Members(seen) && Limits(x, q) && k in Answer(x, q).value.constraints
                && Answer(x, q).value.constraints[k] == before[k];
        assert x in all;
      }
    }
    forall x, k | x in all && Limits(x, q) && k in Answer(x, q).value.constraints
      ensures k in out && out[k] <= Answer(x, q).value.constraints[k]
    {
      if x in seen { assert x in Members(seen); }
    }
  }

  lemma SilentIsLeast(seen: seq<Policy>, p: Policy, q: Query, limits: map<string, real>)
    requires MergedOver(seen, q, limits) && !Limits(p, q)
    ensures MergedOver(seen + [p], q, limits)
  {
    hide Answer;
    var all := Members(seen + [p]);
    forall k | k in limits
      ensures exists x ::
              x in all && Limits(x, q) && k in Answer(x, q).value.constraints
                  && Answer(x, q).value.constraints[k] == limits[k]
    {
      var x :|
          x in Members(seen) && Limits(x, q) && k in Answer(x, q).value.constraints
              && Answer(x, q).value.constraints[k] == limits[k];
      assert x in all;
    }
    forall x, k | x in all && Limits(x, q) && k in Answer(x, q).value.constraints
      ensures k in limits && limits[k] <= Answer(x, q).value.constraints[k]
    {
      assert x in Members(seen);
    }
  }

  lemma BestStep(seen: seq<Policy>, p: Policy, q: Query, best: Option<Decision>, at: nat)
    requires BestOver(seen, q, best, at)
    ensures !Speaks(p, q) ==> BestOver(seen + [p], q, best, at)
    ensures Speaks(p, q) ==>
              var d := DecisionOf(p, q);
              if best.None? || Strictness(d.result) > Strictness(best.value.result)
              then BestOver(seen + [p], q, Some(d), |seen|) else BestOver(seen + [p], q, best, at)
  {
    hide Answer;
    var more := seen + [p];
    assert more[|seen|] == p && forall i :: 0 <= i < |seen| ==> more[i] == seen[i];
  }

  /** The loop of `evaluate`, over the floor and the policies in scope order. */
  method Fold(order: seq<Policy>, q: Query) returns (best: Option<Decision>, limits: map<string, real>, ghost at: nat)
    ensures BestOver(order, q, best, at) && MergedOver(order, q, limits)
  {
    hide Answer, BestOver, MergedOver, Tightened;
    best, limits, at := None, map[], 0;
    assert BestOver([], q, None, 0) && MergedOver([], q, map[]) by { FoldStart(q); }
    for i := 0 to |order|
      invariant BestOver(order[..i], q, best, at) && MergedOver(order[..i], q, limits)
    {
      var policy := order[i];
      assert order[..i + 1] == order[..i] + [policy];
      BestStep(order[..i], policy, q, best, at);
      var rule := Answer(policy, q);
      if rule.None? {
        SilentIsLeast(order[..i], policy, q, limits);
        continue;
      }
      if rule.value.result == AllowWithLimits {
        var more := Tighten(limits, rule.value.constraints);
        TightenedIsLeast(order[..i], policy, q, limits, more);
        limits := more;
      } else {
        SilentIsLeast(order[..i], policy, q, limits);
      }
      var decision := DecisionOf(policy, q);
      if best.None? || Strictness(decision.result) > Strictness(best.value.result) {
        best, at := Some(decision), i;
      }
    }
    assert order[..|order|] == order;
  }

  lemma FoldStart(q: Query)
    ensures BestOver([], q, None, 0) && MergedOver([], q, map[])
  {
  }

  ghost predicate ScopeOrder(order: seq<Policy>) {
    Sorting.Ascending(order, (p: Policy) => Level(p.scope))
  }

  /** What the first best policy in scope order says is what the order-free specification asks for. */
  lemma BestDecides(order: seq<Policy>, q: Query, d: Decision, at: nat, limits: map<string, real>)
    requires ScopeOrder(order) && BestOver(order, q, Some(d), at) && MergedOver(order, q, limits)
    ensures Decides(Members(order), q, d.(constraints := if d.result == AllowWithLimits then limits else map[]))
  {
    hide Answer, IsLeast;
    var all := Members(order);
    assert order[at] in all && !Silent(all, q);
    assert IsStrictest(all, q, d.result);
    forall p | p in all && Speaks(p, q) && Answer(p, q).value.result == d.result
        ensures Level(d.scope) <= Level(p.scope) {
      var i :| 0 <= i < |order| && order[i] == p;
      assert i >= at;
    }
  }

  /** The policy whose name, code and reason the decision carries is the first one that decides, in the order given. */
  lemma {:induction false} BestIsFirst(order: seq<Policy>, q: Query, d: Decision, at: nat)
    requires ScopeOrder(order) && BestOver(order, q, Some(d), at)
    ensures Sorting.FirstWhere(order, (p: Policy) => Decisive(p, q, d.result, d.scope)) == Some(order[at])
    decreases at
  {
    hide Answer;
    if at > 0 {
      assert !Decisive(order[0], q, d.result, d.scope);
      assert order[1..][at - 1] == order[at];
      assert forall i :: 0 <= i < |order| - 1 ==> order[1..][i] == order[i + 1];
      BestIsFirst(order[1..], q, d, at - 1);
    }
  }

  /** `evaluate`. */
  method Evaluate(policies: seq<Policy>, q: Query) returns (d: Decision)
    ensures Decides(Consulted(policies), q, d)
    ensures d.code != NoRestriction ==>
              var first := Sorting.FirstWhere([SYSTEM_FLOOR] + policies,
                  (p: Policy) => Decisive(p, q, d.result, d.scope));
              first.Some? && Speaks(first.value, q) && d == DecisionOf(first.value, q).(constraints := d.constraints)
  {
    hide Answer, BestOver, MergedOver, Decides, ScopeOrder, Consulted, SYSTEM_FLOOR;
    var order := [SYSTEM_FLOOR] + Sorting.Sorted(policies, (p: Policy) => Level(p.scope));
    InScopeOrder(policies);
    var best, limits, at := Fold(order, q);
    if best.None? {
      d := Decision(Allow, NoRestriction, "no policy restricts this action", SYSTEM_FLOOR.name, System, map[]);
      NothingSaid(order, q, at, d);
      return;
    }
    d := best.value;
    BestDecides(order, q, d, at, limits);
    BestIsFirst(order, q, d, at);
    FirstInGivenOrder(policies, q, d.result, d.scope);
    FromBest(order, q, d, at);
    if limits != map[] && d.result == AllowWithLimits { d := d.(constraints := limits); }
  }

  lemma FromBest(order: seq<Policy>, q: Query, d: Decision, at: nat)
    requires BestOver(order, q, Some(d), at)
    ensures at < |order| && Speaks(order[at], q) && d == DecisionOf(order[at], q) && d.constraints == map[]
  {
  }

  lemma NothingSaid(order: seq<Policy>, q: Query, at: nat, d: Decision)
    requires BestOver(order, q, None, at)
    requires d == Decision(Allow, NoRestriction, "no policy restricts this action", SYSTEM_FLOOR.name, System, map[])
    ensures Decides(Members(order), q, d)
  {
    hide Answer;
    assert Silent(Members(order), q);
  }

  lemma InScopeOrder(policies: seq<Policy>)
    ensures var order := [SYSTEM_FLOOR] + Sorting.Sorted(policies, (p: Policy) => Level(p.scope));
            ScopeOrder(order) && Members(order) == Consulted(policies)
  {
    var key := (p: Policy) => Level(p.scope);
    Sorting.SortedSorts(policies, key);
    Sorting.SortedMembers(policies, key);
    Sorting.PrependAscending(SYSTEM_FLOOR, Sorting.Sorted(policies, key), key);
  }

  lemma FirstInGivenOrder(policies: seq<Policy>, q: Query, result: Result, scope: Scope)
    ensures var decisive := (p: Policy) => Decisive(p, q, result, scope);
            Sorting.FirstWhere([SYSTEM_FLOOR] + Sorting.Sorted(policies, (p: Policy) => Level(p.scope)), decisive) ==
            Sorting.FirstWhere([SYSTEM_FLOOR] + policies, decisive)
  {
    hide Answer, SYSTEM_FLOOR;
    var key, decisive := (p: Policy) => Level(p.scope), (p: Policy) => Decisive(p, q, result, scope);
    Sorting.SortedIsStable(policies, key, decisive, Level(scope));
    assert ([SYSTEM_FLOOR] + Sorting.Sorted(policies, key))[1..] == Sorting.Sorted(policies, key);
    assert ([SYSTEM_FLOOR] + policies)[1..] == policies;
  }

  // ---------------------------------------------------------------- what the specification promises

  lemma SameLevel(a: Scope, b: Scope)
    requires Level(a) == Level(b)
    ensures a == b
  {
  }

  lemma SameStrictness(a: Result, b: Result)
    requires Strictness(a) == Strictness(b)
    ensures a == b
  {
  }

  lemma LeastIsUnique(all: set<Policy>, q: Query, a: map<string, real>, b: map<string, real>)
    requires IsLeast(all, q, a) && IsLeast(all, q, b)
    ensures a == b
  {
    hide Answer;
    LeastBelow(all, q, a, b);
    LeastBelow(all, q, b, a);
    assert a.Keys == b.Keys;
  }

  lemma LeastBelow(all: set<Policy>, q: Query, a: map<string, real>, b: map<string, real>)
    requires IsLeast(all, q, a) && IsLeast(all, q, b)
    ensures forall k :: k in a ==> k in b && b[k] <= a[k]
  {
    hide Answer;
    forall k | k in a ensures k in b && b[k] <= a[k] {
      var p :|
          p in all && Limits(p, q) && k in Answer(p, q).value.constraints && Answer(p, q).value.constraints[k] == a[k];
    }
  }

  /** The specification fixes result, scope and constraints. */
  lemma DecidesIsUnique(all: set<Policy>, q: Query, a: Decision, b: Decision)
    requires Decides(all, q, a) && Decides(all, q, b)
    ensures a.result == b.result && a.scope == b.scope && a.constraints == b.constraints
  {
    hide Answer, IsLeast;
    if !Silent(all, q) {
      SameStrictness(a.result, b.result);
      SameLevel(a.scope, b.scope);
      if a.result == AllowWithLimits { LeastIsUnique(all, q, a.constraints, b.constraints); }
    }
  }

  /** Permuting (or repeating) the policies changes neither result, nor scope, nor constraints. */
  lemma OrderDoesNotMatter(one: seq<Policy>, two: seq<Policy>, q: Query, a: Decision, b: Decision)
    requires multiset(one) == multiset(two) && Decides(Consulted(one), q, a) && Decides(Consulted(two), q, b)
    ensures a.result == b.result && a.scope == b.scope && a.constraints == b.constraints
  {
    hide Decides, SYSTEM_FLOOR;
    forall p ensures p in one <==> p in two {
      assert p in one <==> p in multiset(one);
      assert p in two <==> p in multiset(two);
    }
    assert Consulted(one) == Consulted(two);
    DecidesIsUnique(Consulted(one), q, a, b);
  }

  /** Adding policies never loosens: the answer is at least as strict, and limits only shrink. */
  lemma AddingNeverLoosens(all: set<Policy>, more: set<Policy>, q: Query, a: Decision, b: Decision)
    requires all <= more && Decides(all, q, a) && Decides(more, q, b)
    ensures Strictness(a.result) <= Strictness(b.result)
    ensures a.result == b.result && !Silent(all, q) ==> Level(b.scope) <= Level(a.scope)
    ensures a.result == b.result ==> forall k :: k in a.constraints ==>
            k in b.constraints && b.constraints[k] <= a.constraints[k]
  {
    hide Answer;
    if !Silent(all, q) {
      var p :| p in all && Speaks(p, q) && Answer(p, q).value.result == a.result;
      assert p in more && !Silent(more, q);
      if a.result == b.result == AllowWithLimits { LimitsShrink(all, more, q, a.constraints, b.constraints); }
    }
  }

  lemma LimitsShrink(all: set<Policy>, more: set<Policy>, q: Query, a: map<string, real>, b: map<string, real>)
    requires all <= more && IsLeast(all, q, a) && IsLeast(more, q, b)
    ensures forall k :: k in a ==> k in b && b[k] <= a[k]
  {
    hide Answer;
    forall k | k in a ensures k in b && b[k] <= a[k] {
      var p :|
          p in all && Limits(p, q) && k in Answer(p, q).value.constraints && Answer(p, q).value.constraints[k] == a[k];
      assert p in more;
    }
  }

  ghost predicate StarMatchesAll(q: Query) {
    q.glob(q.action, "*")
  }

  /** A policy that could not be parsed denies everything, whatever the others say. */
  lemma MalformedDenies(policies: seq<Policy>, name: string, scope: Scope, problem: string, q: Query, d: Decision)
    requires StarMatchesAll(q) && Malformed(name, scope, problem) in policies && Decides(Consulted(policies), q, d)
    ensures d.result == Deny
  {
    var p := Malformed(name, scope, problem);
    assert Answer(p, q) == Some(p.rules[0]);
    assert p in Consulted(policies) && Speaks(p, q);
  }

  /** No stored policy relaxes the floor: an action with a guarded effect is denied or needs approval. */
  lemma FloorHolds(policies: seq<Policy>, q: Query, d: Decision)
    requires StarMatchesAll(q) && q.effect.Some? && q.effect.value in REQUIRES_APPROVAL
             && Decides(Consulted(policies), q, d)
    ensures d.result == RequireApproval || d.result == Deny
  {
    FloorSpeaks(q);
    assert SYSTEM_FLOOR in Consulted(policies);
  }

  lemma FloorSpeaks(q: Query)
    requires StarMatchesAll(q) && q.effect.Some? && q.effect.value in REQUIRES_APPROVAL
    ensures Speaks(SYSTEM_FLOOR, q) && Strictness(Answer(SYSTEM_FLOOR, q).value.result) >= 2
  {
    var rules, says := SYSTEM_FLOOR.rules, (r: Rule) => Matches(r, q);
    var k := match q.effect.value
      case RepositoryWrite => 1
      case ExternalWrite => 2
      case HostMutation => 3
      case Destructive => 4
      case _ => 5;
    assert says(rules[k]);
    FirstIsEarly(rules, says, k);
  }

  lemma {:induction false} FirstIsEarly(rules: seq<Rule>, says: Rule -> bool, k: nat)
    requires k < |rules| && says(rules[k])
    ensures Sorting.FirstWhere(rules, says).Some? && Sorting.FirstWhere(rules, says).value in rules
  {
    if !says(rules[0]) { FirstIsEarly(rules[1..], says, k - 1); }
  }

  // ---------------------------------------------------------------- the other two folds

  /** The most restrictive of several decisions; the first one wins a tie. None: there is nothing to choose from. */
  method Strictest(decisions: seq<Decision>) returns (r: Option<Decision>)
    ensures r.None? <==> decisions == []
    ensures r.Some? ==> exists k :: 0 <= k < |decisions| && r.value == decisions[k]
                                    && (forall i :: 0 <= i < k ==>
                                       Strictness(decisions[i].result) < Strictness(r.value.result))
                                    && (forall i :: k <= i < |decisions| ==>
                                       Strictness(decisions[i].result) <= Strictness(r.value.result))
  {
    if decisions == [] { return None; }
    var k := 0;
    for n := 1 to |decisions|
      invariant 0 <= k < n
      invariant forall i :: 0 <= i < k ==> Strictness(decisions[i].result) < Strictness(decisions[k].result)
      invariant forall i :: k <= i < n ==> Strictness(decisions[i].result) <= Strictness(decisions[k].result)
    {
      if Strictness(decisions[n].result) > Strictness(decisions[k].result) { k := n; }
    }
    return Some(decisions[k]);
  }

  /** For every setting some policy caps: the least cap, and a policy of the widest scope that sets it. */
  ghost predicate Ceilings(all: set<Policy>, out: map<string, (real, Policy)>) {
    && (forall k :: k in out ==> out[k].1 in all && k in out[k].1.limits && out[k].1.limits[k] == out[k].0)
    && forall p, k :: p in all && k in p.limits ==>
         k in out && (out[k].0 < p.limits[k] || (out[k].0 == p.limits[k] && Level(out[k].1.scope) <= Level(p.scope)))
  }

  ghost predicate CeilingsMid(all: set<Policy>, p: Policy, done: set<string>, out: map<string, (real, Policy)>) {
    && (forall k :: k in out ==>
       (out[k].1 in all || out[k].1 == p) && k in out[k].1.limits && out[k].1.limits[k] == out[k].0)
    && (forall x, k :: x in all && k in x.limits ==>
          k in out && (out[k].0 < x.limits[k] || (out[k].0 == x.limits[k] && Level(out[k].1.scope) <= Level(x.scope))))
    && forall k :: k in done && k in p.limits ==>
         k in out && (out[k].0 < p.limits[k] || (out[k].0 == p.limits[k] && Level(out[k].1.scope) <= Level(p.scope)))
  }

  /** The inner loop of `effective_limits`: one policy, no wider than those before it. */
  method Cap(ghost all: set<Policy>, out: map<string, (real, Policy)>,
      p: Policy) returns (r: map<string, (real, Policy)>)
    requires Ceilings(all, out) && forall x :: x in all ==> Level(x.scope) <= Level(p.scope)
    ensures Ceilings(all + {p}, r)
  {
    r := out;
    var left := p.limits.Keys;
    while left != {}
      invariant left <= p.limits.Keys
      invariant CeilingsMid(all, p, p.limits.Keys - left, r)
    {
      var key :| key in left;
      if key !in r || p.limits[key] < r[key].0 { r := r[key := (p.limits[key], p)]; }
      left := left - {key};
    }
  }

  method EffectiveLimits(policies: seq<Policy>) returns (out: map<string, (real, Policy)>)
    ensures Ceilings(Members(policies), out)
  {
    hide Ceilings;
    var key := (p: Policy) => Level(p.scope);
    var order := Sorting.Sorted(policies, key);
    Sorting.SortedSorts(policies, key);
    Sorting.SortedMembers(policies, key);
    out := map[];
    NoCeilings();
    assert Members(order[..0]) == {};
    for i := 0 to |order|
      invariant Ceilings(Members(order[..i]), out)
    {
      ghost var all := Members(order[..i]);
      out := Cap(all, out, order[i]);
      assert Members(order[..i + 1]) == all + {order[i]};
    }
    assert order[..|order|] == order;
    assert Members(order) == Members(policies);
  }

  lemma NoCeilings()
    ensures Ceilings({}, map[])
  {
  }

  /** The caps do not depend on the order of the policies, and a further policy only lowers them. */
  lemma CeilingsOnlyLower(all: set<Policy>, more: set<Policy>, a: map<string, (real, Policy)>,
      b: map<string, (real, Policy)>)
    requires all <= more && Ceilings(all, a) && Ceilings(more, b)
    ensures forall k :: k in a ==> k in b && b[k].0 <= a[k].0
    ensures all == more ==> a.Keys == b.Keys && forall k :: k in a ==> a[k].0 == b[k].0 && a[k].1.scope == b[k].1.scope
  {
    forall k | k in a ensures k in b && b[k].0 <= a[k].0 {
      assert a[k].1 in more;
    }
    if all == more {
      forall k | k in b ensures k in a && a[k].0 == b[k].0 && a[k].1.scope == b[k].1.scope {
        assert b[k].1 in all;
        assert a[k].1 in more;
        SameLevel(a[k].1.scope, b[k].1.scope);
      }
    }
  }
}
