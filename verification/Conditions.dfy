/** Structured conditions: what `_validate_condition` accepts, what `evaluate` does, and what they mean. */
module Conditions {
  import opened Wrappers
  import opened Json
  import opened Templates

  const OPERATORS: set<string> := {"eq", "ne", "gt", "ge", "lt", "le", "in", "contains", "exists"}

  /** Python's comparison of two values under an operator; None is its TypeError. */
  type Comparison = (string, Value, Value) -> Option<bool>

  /** A context to evaluate in: the data, `str` and the comparison operators. */
  datatype Env = Env(context: Value, text: Value -> string, compare: Comparison)

  /** How an evaluation ends. `Broken` is a Python error the engine does not expect (TypeError, AttributeError). */
  datatype Outcome = Holds(b: bool) | Unresolved | Incomparable | UnknownOperator | Broken

  predicate KnownOperator(op: Value) {
    op.Str? && op.text in OPERATORS
  }

  // ---------------------------------------------------------------- evaluate

  function StripBraces(s: string): string
    decreases |s|
  {
    if s != "" && (s[0] == '{' || s[0] == '}' || s[0] == ' ') then StripBraces(s[1..])
    else if s != "" && (s[|s| - 1] == '{' || s[|s| - 1] == '}' || s[|s| - 1] == ' ') then StripBraces(s[..|s| - 1])
    else s
  }

  /** The comparison at the leaf of a condition. */
  function EvaluateLeaf(fields: map<string, Value>, env: Env): Outcome {
    var op := Get(fields, "op");
    if !Hashable(op) then Broken
    else if !KnownOperator(op) then UnknownOperator
    else if op.text == "exists" then
      var left := if "left" in fields then fields["left"] else Str("");
      Holds(Lookup(env.context, StripBraces(AsText(left, env.text))).Some?)
    else Compared(op.text, Get(fields, "left"), Get(fields, "right"), env)
  }

  function Compared(op: string, left: Value, right: Value, env: Env): Outcome {
    match (Render(left, env.context, env.text), Render(right, env.context, env.text))
    case (Some(l), Some(r)) =>
      (match env.compare(op, l, r)
       case Some(b) => Holds(b)
       case None => Incomparable)
    case _ => Unresolved
  }

  function Negated(o: Outcome): Outcome {
    if o.Holds? then Holds(!o.b) else o
  }

  /** `evaluate`, over whatever data stands where a condition is expected. */
  function Evaluate(cond: Value, env: Env): Outcome
    decreases cond, 1
  {
    if !cond.Object? then Broken
    else if "all" in cond.fields then EvaluateItems(cond.fields["all"], true, env)
    else if "any" in cond.fields then EvaluateItems(cond.fields["any"], false, env)
    else if "not" in cond.fields then Negated(Evaluate(cond.fields["not"], env))
    else EvaluateLeaf(cond.fields, env)
  }

  /** `all(...)` (unit true) and `any(...)` (unit false): left to right, stopping at the first decisive answer. */
  function EvaluateItems(v: Value, unit: bool, env: Env): Outcome
    decreases v, 0
  {
    match v
    case List(items) => EvaluateSeq(items, unit, env)
    case Str(s) => if s == "" then Holds(unit) else Broken
    case Object(fields) => if fields == map[] then Holds(unit) else Broken
    case _ => Broken
  }

  function EvaluateSeq(items: seq<Value>, unit: bool, env: Env): Outcome
    decreases items, 0
  {
    if items == [] then Holds(unit)
    else
      var first := Evaluate(items[0], env);
      if first == Holds(unit) then EvaluateSeq(items[1..], unit, env) else first
  }

  // ---------------------------------------------------------------- _validate_condition

  /** `Refused` is the ValueError the validator reports; `Failed` an error it does not catch. */
  datatype Check = Accepted | Refused | Failed

  function ValidateCondition(cond: Value): Check
    decreases cond, 1
  {
    if !cond.Object? then Failed
    else if "all" in cond.fields then ValidateItems(cond.fields["all"])
    else if "any" in cond.fields then ValidateItems(cond.fields["any"])
    else if "not" in cond.fields then ValidateCondition(cond.fields["not"])
    else
      var op := Get(cond.fields, "op");
      if !Hashable(op) then Failed
      else if !KnownOperator(op) then Refused
      else if "left" !in cond.fields || (op.text != "exists" && "right" !in cond.fields) then Refused
      else Accepted
  }

  function ValidateItems(v: Value): Check
    decreases v, 0
  {
    if v.List? && v.items != [] then ValidateSeq(v.items) else Refused
  }

  function ValidateSeq(items: seq<Value>): Check
    decreases items, 0
  {
    if items == [] then Accepted
    else
      var first := ValidateCondition(items[0]);
      if first == Accepted then ValidateSeq(items[1..]) else first
  }

  // ---------------------------------------------------------------- the meaning of an accepted condition

  datatype Cond =
    | All(parts: seq<Cond>)
    | Any(parts: seq<Cond>)
    | Not(part: Cond)
    | Exists(path: Value)
    | Compare(op: string, left: Value, right: Value)

  /** The typed condition read off along the branches the validator took. */
  function Typed(cond: Value): Cond
    requires ValidateCondition(cond) == Accepted
    decreases cond, 1
  {
    if "all" in cond.fields then
      assert ValidateItems(cond.fields["all"]) == Accepted;
      All(TypedSeq(cond.fields["all"].items))
    else if "any" in cond.fields then
      assert ValidateItems(cond.fields["any"]) == Accepted;
      Any(TypedSeq(cond.fields["any"].items))
    else if "not" in cond.fields then Not(Typed(cond.fields["not"]))
    else if cond.fields["op"].text == "exists" then Exists(cond.fields["left"])
    else Compare(cond.fields["op"].text, cond.fields["left"], cond.fields["right"])
  }

  function TypedSeq(items: seq<Value>): (parts: seq<Cond>)
    requires ValidateSeq(items) == Accepted
    ensures |parts| == |items|
    decreases items, 0
  {
    if items == [] then [] else [Typed(items[0])] + TypedSeq(items[1..])
  }

  /** The first answer that is not `Holds(unit)`, or `Holds(unit)` when there is none. */
  ghost predicate FirstDecisive(answers: seq<Outcome>, unit: bool, r: Outcome) {
    || (r == Holds(unit) && forall i :: 0 <= i < |answers| ==> answers[i] == Holds(unit))
    || (r != Holds(unit) && exists i :: 0 <= i < |answers| && answers[i] == r && forall j :: 0 <= j < i ==>
       answers[j] == Holds(unit))
  }

  /** The meaning of a typed condition, by structure. */
  ghost predicate Means(c: Cond, env: Env, r: Outcome)
    decreases c
  {
    match c
    case All(parts) =>
      exists answers: seq<Outcome> :: |answers| == |parts| && FirstDecisive(answers, true, r)
        && forall i :: 0 <= i < |parts| ==> Means(parts[i], env, answers[i])
    case Any(parts) =>
      exists answers: seq<Outcome> :: |answers| == |parts| && FirstDecisive(answers, false, r)
        && forall i :: 0 <= i < |parts| ==> Means(parts[i], env, answers[i])
    case Not(part) => exists inner :: Means(part, env, inner) && r == Negated(inner)
    case Exists(path) => r == Holds(Lookup(env.context, StripBraces(AsText(path, env.text))).Some?)
    case Compare(op, left, right) => r == Compared(op, left, right, env)
  }

  /** The paths a typed condition renders. */
  function RenderedPaths(c: Cond): set<string>
    decreases c
  {
    match c
    case All(parts) => set k, p | 0 <= k < |parts| && p in RenderedPaths(parts[k]) :: p
    case Any(parts) => set k, p | 0 <= k < |parts| && p in RenderedPaths(parts[k]) :: p
    case Not(part) => RenderedPaths(part)
    case Exists(_) => {}
    case Compare(_, left, right) => References(left) + References(right)
  }

  /** The two values an accepted condition may turn out unable to compare. */
  ghost predicate ComparesBadly(c: Cond, env: Env)
    decreases c
  {
    match c
    case All(parts) => exists i :: 0 <= i < |parts| && ComparesBadly(parts[i], env)
    case Any(parts) => exists i :: 0 <= i < |parts| && ComparesBadly(parts[i], env)
    case Not(part) => ComparesBadly(part, env)
    case Exists(_) => false
    case Compare(op, left, right) =>
      exists l, r :: Render(left, env.context, env.text) == Some(l) && Render(right, env.context, env.text) == Some(r)
                     && env.compare(op, l, r) == None
  }

  /** How an accepted condition may end, and why. */
  ghost predicate EndsWell(c: Cond, env: Env, r: Outcome) {
    && Means(c, env, r)
    && (r.Holds? || r.Unresolved? || r.Incomparable?)
    && (r.Unresolved? ==> !AllResolve(RenderedPaths(c), env.context))
    && (r.Incomparable? ==> ComparesBadly(c, env))
  }

  /**
   A condition the validator accepted takes the same branches when it is evaluated, gives the answer its
   structure means, and can only fail on a path that does not resolve or on values that do not compare.
   */
  lemma {:induction false} AcceptedEvaluates(cond: Value, env: Env)
    requires ValidateCondition(cond) == Accepted
    ensures EndsWell(Typed(cond), env, Evaluate(cond, env))
    decreases cond, 1
  {
    if "all" in cond.fields {
      var v := cond.fields["all"];
      assert ValidateItems(v) == Accepted && Evaluate(cond, env) == EvaluateItems(v, true, env);
      AcceptedSeqEvaluates(v.items, true, env);
    } else if "any" in cond.fields {
      var v := cond.fields["any"];
      assert ValidateItems(v) == Accepted && Evaluate(cond, env) == EvaluateItems(v, false, env);
      AcceptedSeqEvaluates(v.items, false, env);
    } else if "not" in cond.fields {
      AcceptedEvaluates(cond.fields["not"], env);
    } else if cond.fields["op"].text != "exists" {
      RenderSucceeds(cond.fields["left"], env.context, env.text);
      RenderSucceeds(cond.fields["right"], env.context, env.text);
    }
  }

  /** The answers of the items one by one. */
  function Answers(items: seq<Value>, env: Env): seq<Outcome> {
    seq(|items|, i requires 0 <= i < |items| => Evaluate(items[i], env))
  }

  lemma {:induction false} SeqIsFirstDecisive(items: seq<Value>, unit: bool, env: Env)
    ensures FirstDecisive(Answers(items, env), unit, EvaluateSeq(items, unit, env))
  {
    if items != [] {
      var answers, rest := Answers(items, env), Answers(items[1..], env);
      SeqIsFirstDecisive(items[1..], unit, env);
      assert forall i :: 0 <= i < |rest| ==> rest[i] == answers[i + 1];
      var r := EvaluateSeq(items, unit, env);
      if answers[0] != Holds(unit) {
        assert answers[0] == r;
      } else if r == Holds(unit) {
        forall i | 0 <= i < |answers| ensures answers[i] == Holds(unit) {
          if i > 0 { assert rest[i - 1] == Holds(unit); }
        }
      } else {
        var i :| 0 <= i < |rest| && rest[i] == r && forall j :: 0 <= j < i ==> rest[j] == Holds(unit);
        assert answers[i + 1] == r;
        forall j | 0 <= j < i + 1 ensures answers[j] == Holds(unit) {
          if j > 0 { assert rest[j - 1] == Holds(unit); }
        }
      }
    }
  }

  lemma {:induction false} AcceptedItem(items: seq<Value>, i: nat)
    requires ValidateSeq(items) == Accepted && i < |items|
    ensures ValidateCondition(items[i]) == Accepted && TypedSeq(items)[i] == Typed(items[i])
  {
    if i > 0 { AcceptedItem(items[1..], i - 1); }
  }

  lemma {:induction false} AcceptedSeqEvaluates(items: seq<Value>, unit: bool, env: Env)
    requires ValidateSeq(items) == Accepted
    ensures var parts := TypedSeq(items);
            EndsWell(if unit then All(parts) else Any(parts), env, EvaluateSeq(items, unit, env))
    decreases items, 0
  {
    var parts, answers := TypedSeq(items), Answers(items, env);
    forall i | 0 <= i < |items| ensures EndsWell(parts[i], env, answers[i]) {
      AcceptedItem(items, i);
      AcceptedEvaluates(items[i], env);
    }
    SeqIsFirstDecisive(items, unit, env);
    var c := if unit then All(parts) else Any(parts);
    forall i, p | 0 <= i < |parts| && p in RenderedPaths(parts[i]) ensures p in RenderedPaths(c) {
    }
  }

  // ---------------------------------------------------------------- condition_references

  /** `condition_references`; None is the error it raises on data that is not shaped like a condition. */
  function ConditionReferences(cond: Value): Option<set<string>>
    decreases cond, 1
  {
    if !cond.Object? then None
    else
      var all := if "all" in cond.fields then ItemReferences(cond.fields["all"]) else Some({});
      var any := if "any" in cond.fields then ItemReferences(cond.fields["any"]) else Some({});
      var no := if "not" in cond.fields then ConditionReferences(cond.fields["not"]) else Some({});
      if all.Some? && any.Some? && no.Some? then
        Some(all.value + any.value + no.value
             + References(Get(cond.fields, "left")) + References(Get(cond.fields, "right")))
      else None
  }

  function ItemReferences(v: Value): Option<set<string>>
    decreases v, 0
  {
    match v
    case List(items) => SeqReferences(items)
    case Str(s) => if s == "" then Some({}) else None
    case Object(fields) => if fields == map[] then Some({}) else None
    case _ => None
  }

  function SeqReferences(items: seq<Value>): Option<set<string>>
    decreases items, 0
  {
    if items == [] then Some({})
    else
      match (ConditionReferences(items[0]), SeqReferences(items[1..]))
      case (Some(first), Some(rest)) => Some(first + rest)
      case _ => None
  }

  /** Every place where `condition_references` looks for conditions holds some, whichever branch decides. */
  ghost predicate Readable(cond: Value)
    decreases cond
  {
    && cond.Object?
    && ("all" in cond.fields ==> ReadableItems(cond.fields["all"]))
    && ("any" in cond.fields ==> ReadableItems(cond.fields["any"]))
    && ("not" in cond.fields ==> Readable(cond.fields["not"]))
  }

  ghost predicate ReadableItems(v: Value)
    decreases v
  {
    || (v.List? && forall i :: 0 <= i < |v.items| ==> Readable(v.items[i]))
    || v == Str("") || v == Object(map[])
  }

  /** References are collected exactly from readable conditions, and only from what the data mentions. */
  lemma {:induction false} ReferencesCollected(cond: Value)
    ensures ConditionReferences(cond).Some? <==> Readable(cond)
    ensures ConditionReferences(cond).Some? ==> ConditionReferences(cond).value <= References(cond)
    decreases cond, 1
  {
    if cond.Object? {
      var fields := cond.fields;
      assert forall k, p :: k in fields && p in References(fields[k]) ==> p in References(cond);
      if "all" in fields { ItemReferencesCollected(fields["all"]); }
      if "any" in fields { ItemReferencesCollected(fields["any"]); }
      if "not" in fields { ReferencesCollected(fields["not"]); }
      assert References(Get(fields, "left")) <= References(cond);
      assert References(Get(fields, "right")) <= References(cond);
    }
  }

  lemma {:induction false} ItemReferencesCollected(v: Value)
    ensures ItemReferences(v).Some? <==> ReadableItems(v)
    ensures ItemReferences(v).Some? ==> ItemReferences(v).value <= References(v)
    decreases v, 0
  {
    if v.List? {
      SeqReferencesCollected(v.items);
      assert forall k, p :: 0 <= k < |v.items| && p in References(v.items[k]) ==> p in References(v);
    }
  }

  lemma {:induction false} SeqReferencesCollected(items: seq<Value>)
    ensures SeqReferences(items).Some? <==> forall i :: 0 <= i < |items| ==> Readable(items[i])
    ensures SeqReferences(items).Some? ==>
              forall p :: p in SeqReferences(items).value ==> exists k :: 0 <= k < |items| && p in References(items[k])
    decreases items, 0
  {
    if items != [] {
      ReferencesCollected(items[0]);
      SeqReferencesCollected(items[1..]);
      assert forall i :: 0 <= i < |items[1..]| ==> items[1..][i] == items[i + 1];
      assert forall i :: 1 <= i < |items| ==> items[i] == items[1..][i - 1];
    }
  }

  /** A condition can be accepted and still raise when its references are collected: a stray key beside `all`. */
  lemma AcceptedYetUnreadable()
    ensures exists cond :: ValidateCondition(cond) == Accepted && ConditionReferences(cond) == None
  {
    var leaf := Object(map["op" := Str("exists"), "left" := Str("vars.x")]);
    var cond := Object(map["all" := List([leaf]), "any" := Int(5)]);
    assert ValidateSeq([leaf]) == Accepted;
    assert ItemReferences(cond.fields["any"]) == None;
    assert ValidateCondition(cond) == Accepted && ConditionReferences(cond) == None;
  }
}
