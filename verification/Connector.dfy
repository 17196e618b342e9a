/**
 Crash-safe connector actions. A call checks its grant, looks for the object an earlier attempt may have created, and
 only then acts; it may crash between any two of these. Histories interleave any number of calls.
 */
module Connector {
  import opened Wrappers
  import opened Effects

  datatype ActionSpec = ActionSpec(name: string, effect: SideEffect, requiresApproval: bool)

  /** What the constructor enforces: only a safe action may waive approval. */
  predicate Sound(spec: ActionSpec) {
    spec.requiresApproval || spec.effect in SAFE
  }

  datatype Grant = Grant(action: string, key: string, decidedBy: string, zoned: bool, expiresAt: int)

  datatype Refusal = UnknownAction | BadKey | NoGrant | WrongGrant | NoApprover | Expired | Disallowed

  datatype Call = Call(action: string, key: string, grant: Option<Grant>)

  // ---------------------------------------------------------------- the checks

  predicate KeyChar(c: char) {
    'A' <= c <= 'Z' || 'a' <= c <= 'z' || '0' <= c <= '9' || c == '.' || c == '_' || c == ':' || c == '-'
  }

  /** `^[A-Za-z0-9._:-]{1,128}$`; the end anchor also matches before one final newline. */
  predicate KeyAccepted(key: string) {
    var body := if key != [] && key[|key| - 1] == '\n' then key[..|key| - 1] else key;
    1 <= |body| <= 128 && forall i :: 0 <= i < |body| ==> KeyChar(body[i])
  }

  /** The promised form, 1-128 characters of the class, holds of an accepted key exactly when no newline ends it. */
  lemma AcceptedKeyIsCleanIff(key: string)
    requires KeyAccepted(key)
    ensures (1 <= |key| <= 128 && forall i :: 0 <= i < |key| ==> KeyChar(key[i])) <==> key[|key| - 1] != '\n'
  {
  }

  function CheckGrant(spec: ActionSpec, key: string, grant: Option<Grant>, now: int): (r: Option<Refusal>)
    ensures r.None? <==> grant.Some? && GrantCovers(grant.value, spec.name, key, now)
  {
    match grant
    case None => Some(NoGrant)
    case Some(g) =>
      if g.action != spec.name || g.key != key then Some(WrongGrant)
      else if g.decidedBy == "" then Some(NoApprover)
      else if !g.zoned || g.expiresAt <= now then Some(Expired)
      else None
  }

  /** A grant for this action and key, by someone, unexpired at `now`. */
  predicate GrantCovers(g: Grant, action: string, key: string, now: int) {
    g.action == action && g.key == key && g.decidedBy != "" && g.zoned && now < g.expiresAt
  }

  function FindAction(actions: seq<ActionSpec>, name: string): Option<ActionSpec> {
    if actions == [] then None else if actions[0].name == name then Some(actions[0]) else FindAction(actions[1..], name)
  }

  lemma {:induction false} FoundAction(actions: seq<ActionSpec>, name: string)
    ensures match FindAction(actions, name)
            case Some(spec) => spec in actions && spec.name == name
            case None => forall spec :: spec in actions ==> spec.name != name
  {
    if actions != [] && actions[0].name != name { FoundAction(actions[1..], name); }
  }

  /** Everything `perform` refuses before it makes a request. */
  function Refused(actions: seq<ActionSpec>, c: Call, allowed: bool, now: int): Option<Refusal> {
    match FindAction(actions, c.action)
    case None => Some(UnknownAction)
    case Some(spec) =>
      if !KeyAccepted(c.key) then Some(BadKey)
      else
        var refusal := if spec.requiresApproval then CheckGrant(spec, c.key, c.grant, now) else None;
        if refusal.Some? then refusal else if !allowed then Some(Disallowed) else None
  }

  // ---------------------------------------------------------------- interleaved calls

  /** An external object, with the grant of the call that made it and the time that grant was checked. */
  datatype Object = Object(key: string, action: string, grant: Option<Grant>, checkedAt: int)

  /** A call that passed its checks at `checkedAt`, found nothing, and has not acted yet. */
  datatype Poised = Poised(id: nat, call: Call, checkedAt: int)

  datatype World = World(objects: seq<Object>, poised: set<Poised>)

  /** `found` is what the provider's lookup answered. */
  datatype Step =
    | Look(id: nat, call: Call, allowed: bool, now: int, found: bool)
    | Act(p: Poised)
    | Crash(p: Poised)

  predicate Risky(actions: seq<ActionSpec>, name: string) {
    var spec := FindAction(actions, name);
    spec.Some? && spec.value.effect !in SAFE
  }

  ghost predicate Exists(w: World, key: string) {
    exists i :: 0 <= i < |w.objects| && w.objects[i].key == key
  }

  ghost predicate Enabled(w: World, s: Step) {
    match s
    case Look(id, _, _, _, _) => forall p :: p in w.poised ==> p.id != id
    case Act(p) => p in w.poised
    case Crash(p) => p in w.poised
  }

  /** Up to and including the lookup; a risky call stops when the object is there. Safe calls make no object. */
  ghost function Next(actions: seq<ActionSpec>, w: World, s: Step): World
    requires Enabled(w, s)
  {
    match s
    case Look(id, call, allowed, now, found) =>
      if Refused(actions, call, allowed, now).Some? || !Risky(actions, call.action) || found then w
      else w.(poised := w.poised + {Poised(id, call, now)})
    case Act(p) =>
      World(w.objects + [Object(p.call.key, p.call.action, p.call.grant, p.checkedAt)], w.poised - {p})
    case Crash(p) => w.(poised := w.poised - {p})
  }

  ghost function After(actions: seq<ActionSpec>, w: World, steps: seq<Step>): Option<World> {
    if steps == [] then Some(w)
    else
      match After(actions, w, steps[..|steps| - 1])
      case None => None
      case Some(v) => if Enabled(v, steps[|steps| - 1]) then Some(Next(actions, v, steps[|steps| - 1])) else None
  }

  const START := World([], {})

  // ---------------------------------------------------------------- every creation was granted

  ghost predicate Granted(action: string, key: string, grant: Option<Grant>, at: int) {
    grant.Some? && GrantCovers(grant.value, action, key, at)
  }

  ghost predicate AllGranted(w: World) {
    && (forall i :: 0 <= i < |w.objects| ==>
          var o := w.objects[i]; Granted(o.action, o.key, o.grant, o.checkedAt))
    && forall p :: p in w.poised ==> Granted(p.call.action, p.call.key, p.call.grant, p.checkedAt)
  }

  ghost predicate SoundActions(actions: seq<ActionSpec>) {
    forall spec :: spec in actions ==> Sound(spec)
  }

  lemma LookIsGranted(actions: seq<ActionSpec>, c: Call, allowed: bool, now: int)
    requires SoundActions(actions) && Refused(actions, c, allowed, now).None? && Risky(actions, c.action)
    ensures Granted(c.action, c.key, c.grant, now)
  {
    FoundAction(actions, c.action);
    assert Sound(FindAction(actions, c.action).value);
  }

  lemma StepKeepsGranted(actions: seq<ActionSpec>, w: World, s: Step)
    requires SoundActions(actions) && AllGranted(w) && Enabled(w, s)
    ensures AllGranted(Next(actions, w, s))
  {
    hide Granted, Risky, Refused;
    if s.Look? && Refused(actions, s.call, s.allowed, s.now).None? && Risky(actions, s.call.action) {
      LookIsGranted(actions, s.call, s.allowed, s.now);
    }
  }

  /** Whatever the interleaving: each object was made under a grant for its action and key, unexpired when checked. */
  lemma {:induction false} CreationsAreGranted(actions: seq<ActionSpec>, steps: seq<Step>)
    requires SoundActions(actions)
    ensures After(actions, START, steps).Some? ==> AllGranted(After(actions, START, steps).value)
  {
    hide Next, Enabled;
    if steps != [] {
      CreationsAreGranted(actions, steps[..|steps| - 1]);
      match After(actions, START, steps[..|steps| - 1]) {
        case None =>
        case Some(v) => if Enabled(v, steps[|steps| - 1]) { StepKeepsGranted(actions, v, steps[|steps| - 1]); }
      }
    }
  }

  // ---------------------------------------------------------------- at most one object per key

  /** The lookup sees every object created with the key, and no other call with that key is between lookup and act. */
  ghost predicate Honest(w: World, s: Step) {
    s.Look? ==> && (Exists(w, s.call.key) ==> s.found)
                && forall p :: p in w.poised ==> p.call.key != s.call.key
  }

  ghost predicate HonestThroughout(actions: seq<ActionSpec>, steps: seq<Step>) {
    forall k :: 0 <= k < |steps| && After(actions, START, steps[..k]).Some? ==>
      Honest(After(actions, START, steps[..k]).value, steps[k])
  }

  ghost predicate OnePerKey(w: World) {
    && (forall i, j :: 0 <= i < j < |w.objects| ==> w.objects[i].key != w.objects[j].key)
    && (forall p :: p in w.poised ==> !Exists(w, p.call.key))
    && forall p, q :: p in w.poised && q in w.poised && p.call.key == q.call.key ==> p == q
  }

  lemma StepKeepsOnePerKey(actions: seq<ActionSpec>, w: World, s: Step)
    requires OnePerKey(w) && Enabled(w, s) && Honest(w, s)
    ensures OnePerKey(Next(actions, w, s))
  {
    hide Refused, Risky;
    if s.Act? {
      var v := Next(actions, w, s);
      forall p | p in v.poised ensures !Exists(v, p.call.key) {
        assert p.call.key != s.p.call.key;
      }
    }
  }

  lemma {:induction false} HistoryKeepsOnePerKey(actions: seq<ActionSpec>, steps: seq<Step>)
    requires HonestThroughout(actions, steps)
    ensures After(actions, START, steps).Some? ==> OnePerKey(After(actions, START, steps).value)
  {
    hide Next, Enabled, Honest;
    if steps != [] {
      var n := |steps| - 1;
      assert HonestThroughout(actions, steps[..n]) by {
        assert forall k :: 0 <= k < n ==> steps[..n][..k] == steps[..k] && steps[..n][k] == steps[k];
      }
      HistoryKeepsOnePerKey(actions, steps[..n]);
      match After(actions, START, steps[..n]) {
        case None =>
        case Some(v) => if Enabled(v, steps[n]) { StepKeepsOnePerKey(actions, v, steps[n]); }
      }
    }
  }

  /** With honest lookups and no two calls overlapping on a key, crashes at any point create no second object. */
  lemma AtMostOneObject(actions: seq<ActionSpec>, steps: seq<Step>)
    requires HonestThroughout(actions, steps) && After(actions, START, steps).Some?
    ensures var made := After(actions, START, steps).value.objects;
            forall i, j :: 0 <= i < j < |made| ==> made[i].key != made[j].key
  {
    HistoryKeepsOnePerKey(actions, steps);
  }

  lemma Chain(actions: seq<ActionSpec>, w: World, steps: seq<Step>, s: Step)
    requires After(actions, w, steps).Some? && Enabled(After(actions, w, steps).value, s)
    ensures After(actions, w, steps + [s]) == Some(Next(actions, After(actions, w, steps).value, s))
  {
    assert (steps + [s])[..|steps|] == steps;
  }

  // ---------------------------------------------------------------- exactly when a key gets two objects

  lemma {:induction false} PrefixRuns(actions: seq<ActionSpec>, steps: seq<Step>, k: nat)
    requires After(actions, START, steps).Some? && k <= |steps|
    ensures After(actions, START, steps[..k]).Some?
    ensures k < |steps| ==>
              && Enabled(After(actions, START, steps[..k]).value, steps[k])
              && After(actions, START, steps[..k + 1]) ==
                 Some(Next(actions, After(actions, START, steps[..k]).value, steps[k]))
    decreases |steps|
  {
    hide Enabled, Next;
    if k == |steps| {
      assert steps[..k] == steps;
    } else {
      var n := |steps| - 1;
      assert steps[..n][..k] == steps[..k];
      if k == n {
        assert steps[..n + 1] == steps;
      } else {
        PrefixRuns(actions, steps[..n], k);
        assert steps[..n][..k + 1] == steps[..k + 1] && steps[..n][k] == steps[k];
      }
    }
  }

  /** The state after the first `k` steps. */
  ghost function At(actions: seq<ActionSpec>, steps: seq<Step>, k: nat): World
    requires After(actions, START, steps).Some? && k <= |steps|
  {
    PrefixRuns(actions, steps, k);
    After(actions, START, steps[..k]).value
  }

  lemma StepAt(actions: seq<ActionSpec>, steps: seq<Step>, k: nat)
    requires After(actions, START, steps).Some? && k < |steps|
    ensures Enabled(At(actions, steps, k), steps[k])
    ensures At(actions, steps, k + 1) == Next(actions, At(actions, steps, k), steps[k])
  {
    PrefixRuns(actions, steps, k);
  }

  /** A lookup that answers not-found met no object with its key. */
  ghost predicate Sees(w: World, s: Step) {
    s.Look? && !s.found ==> !Exists(w, s.call.key)
  }

  ghost predicate SeesThroughout(actions: seq<ActionSpec>, steps: seq<Step>)
    requires After(actions, START, steps).Some?
  {
    forall k :: 0 <= k < |steps| ==> Sees(At(actions, steps, k), steps[k])
  }

  /** Two calls with one key act, and the later one had looked before the earlier one acted. */
  ghost predicate Overlap(actions: seq<ActionSpec>, steps: seq<Step>, j: nat, k: nat)
    requires After(actions, START, steps).Some?
  {
    && j < k < |steps| && steps[j].Act? && steps[k].Act? && steps[j].p.call.key == steps[k].p.call.key
    && steps[k].p in At(actions, steps, j).poised
  }

  ghost predicate Unique(objects: seq<Object>) {
    forall i, j :: 0 <= i < j < |objects| ==> objects[i].key != objects[j].key
  }

  lemma {:induction false} ObjectsGrow(actions: seq<ActionSpec>, steps: seq<Step>, j: nat, k: nat)
    requires After(actions, START, steps).Some? && j <= k <= |steps|
    ensures At(actions, steps, j).objects <= At(actions, steps, k).objects
    decreases k
  {
    hide At, After, Refused, Risky;
    if j < k {
      ObjectsGrow(actions, steps, j, k - 1);
      StepAt(actions, steps, k - 1);
    }
  }

  /** The object an Act makes is there ever after, at the place the earlier ones leave it. */
  lemma ActMakes(actions: seq<ActionSpec>, steps: seq<Step>, j: nat, k: nat)
    requires After(actions, START, steps).Some? && j < k <= |steps| && steps[j].Act?
    ensures var i := |At(actions, steps, j).objects|;
            i < |At(actions, steps, k).objects| && At(actions, steps, k).objects[i].key == steps[j].p.call.key
  {
    hide At, After;
    StepAt(actions, steps, j);
    ObjectsGrow(actions, steps, j + 1, k);
  }

  /** Every object was made by an Act. */
  lemma {:induction false} MadeByAct(actions: seq<ActionSpec>, steps: seq<Step>, i: nat, k: nat) returns (j: nat)
    requires After(actions, START, steps).Some? && k <= |steps| && i < |At(actions, steps, k).objects|
    ensures j < k && steps[j].Act? && |At(actions, steps, j).objects| == i
    ensures At(actions, steps, k).objects[i].key == steps[j].p.call.key
    decreases k
  {
    hide At, After, Refused, Risky;
    if k == 0 { StartIsEmpty(actions, steps); }
    StepAt(actions, steps, k - 1);
    if i < |At(actions, steps, k - 1).objects| {
      j := MadeByAct(actions, steps, i, k - 1);
      ObjectsGrow(actions, steps, k - 1, k);
    } else {
      j := k - 1;
    }
  }

  lemma StartIsEmpty(actions: seq<ActionSpec>, steps: seq<Step>)
    requires After(actions, START, steps).Some?
    ensures At(actions, steps, 0) == START
  {
    assert steps[..0] == [];
  }

  /** With lookups that see, a call poised while its key has an object was poised before the object was made. */
  lemma {:induction false} PoisedSince(actions: seq<ActionSpec>, steps: seq<Step>, p: Poised, j: nat, k: nat)
    requires After(actions, START, steps).Some? && SeesThroughout(actions, steps) && j <= k <= |steps|
    requires Exists(At(actions, steps, j), p.call.key) && p in At(actions, steps, k).poised
    ensures p in At(actions, steps, j).poised
    decreases k
  {
    hide At, After, Refused, Risky;
    if j < k {
      StepAt(actions, steps, k - 1);
      ObjectsGrow(actions, steps, j, k - 1);
      StillExists(At(actions, steps, j), At(actions, steps, k - 1), p.call.key);
      assert Sees(At(actions, steps, k - 1), steps[k - 1]);
      PoisedSince(actions, steps, p, j, k - 1);
    }
  }

  lemma StillExists(w: World, v: World, key: string)
    requires w.objects <= v.objects && Exists(w, key)
    ensures Exists(v, key)
  {
    var i :| 0 <= i < |w.objects| && w.objects[i].key == key;
    assert v.objects[i].key == key;
  }

  lemma OverlapDuplicates(actions: seq<ActionSpec>, steps: seq<Step>, j: nat, k: nat)
    requires After(actions, START, steps).Some? && Overlap(actions, steps, j, k)
    ensures !Unique(At(actions, steps, |steps|).objects)
  {
    hide At, After;
    ActMakes(actions, steps, j, k);
    ActMakes(actions, steps, j, |steps|);
    ActMakes(actions, steps, k, |steps|);
  }

  lemma DuplicatesOverlap(actions: seq<ActionSpec>, steps: seq<Step>) returns (j: nat, k: nat)
    requires After(actions, START, steps).Some? && SeesThroughout(actions, steps)
    requires !Unique(At(actions, steps, |steps|).objects)
    ensures Overlap(actions, steps, j, k)
  {
    hide At, After, SeesThroughout;
    var n, made := |steps|, At(actions, steps, |steps|).objects;
    var a, b :| 0 <= a < b < |made| && made[a].key == made[b].key;
    j := MadeByAct(actions, steps, a, n);
    k := MadeByAct(actions, steps, b, n);
    if k <= j { ObjectsGrow(actions, steps, k, j); }
    ActMakes(actions, steps, j, j + 1);
    assert Exists(At(actions, steps, j + 1), made[a].key);
    StepAt(actions, steps, k);
    PoisedSince(actions, steps, steps[k].p, j + 1, k);
    StepAt(actions, steps, j);
  }

  /**
   Over every history whose lookups see what exists, with crashes at any point: no key has two objects if and only if
   no call acted that had looked before another call with its key acted.
   */
  lemma OneObjectIff(actions: seq<ActionSpec>, steps: seq<Step>)
    requires After(actions, START, steps).Some? && SeesThroughout(actions, steps)
    ensures Unique(After(actions, START, steps).value.objects) <==> forall j, k :: !Overlap(actions, steps, j, k)
  {
    hide At, After, Overlap, Unique, SeesThroughout;
    WholeIsLast(actions, steps);
    if Unique(After(actions, START, steps).value.objects) {
      forall j: nat, k: nat ensures !Overlap(actions, steps, j, k) {
        if Overlap(actions, steps, j, k) { OverlapDuplicates(actions, steps, j, k); }
      }
    } else {
      var j, k := DuplicatesOverlap(actions, steps);
    }
  }

  lemma WholeIsLast(actions: seq<ActionSpec>, steps: seq<Step>)
    requires After(actions, START, steps).Some?
    ensures At(actions, steps, |steps|) == After(actions, START, steps).value
  {
    assert steps[..|steps|] == steps;
  }

  /** For every permitted risky call: two of it that overlap, every lookup truthful, and two objects for one key. */
  lemma OverlappingCallsDuplicate(actions: seq<ActionSpec>, c: Call, now: int) returns (steps: seq<Step>)
    requires Refused(actions, c, true, now).None? && Risky(actions, c.action)
    ensures After(actions, START, steps).Some? && SeesThroughout(actions, steps)
    ensures |steps| == 4 && Overlap(actions, steps, 2, 3)
    ensures var w := After(actions, START, steps).value; |w.objects| == 2 && w.objects[0].key == w.objects[1].key
  {
    hide Refused, Risky;
    var a, b := Poised(0, c, now), Poised(1, c, now);
    var l0, l1 := Look(0, c, true, now, false), Look(1, c, true, now, false);
    Chain(actions, START, [], l0);
    assert [] + [l0] == [l0] && {} + {a} == {a};
    Chain(actions, START, [l0], l1);
    assert After(actions, START, [l0] + [l1]) == Some(World([], {a} + {b}));
    Chain(actions, START, [l0] + [l1], Act(a));
    Chain(actions, START, [l0] + [l1] + [Act(a)], Act(b));
    steps := [l0] + [l1] + [Act(a)] + [Act(b)];
    BothLooked(actions, steps, l0, l1, a, b);
  }

  lemma BothLooked(actions: seq<ActionSpec>, steps: seq<Step>, l0: Step, l1: Step, a: Poised, b: Poised)
    requires steps == [l0] + [l1] + [Act(a)] + [Act(b)] && l0.Look? && l1.Look? && a != b && a.call.key == b.call.key
    requires After(actions, START, steps).Some? && After(actions, START, [l0] + [l1]) == Some(World([], {a} + {b}))
    ensures SeesThroughout(actions, steps) && Overlap(actions, steps, 2, 3)
  {
    hide After, Next;
    StartIsEmpty(actions, steps);
    assert steps[..2] == [l0] + [l1] && At(actions, steps, 2) == World([], {a} + {b});
    ObjectsGrow(actions, steps, 1, 2);
    assert steps[0] == l0 && steps[1] == l1 && steps[2] == Act(a) && steps[3] == Act(b);
    assert At(actions, steps, 1).objects == [];
    forall k | 0 <= k < |steps| ensures Sees(At(actions, steps, k), steps[k]) { }
  }

  // ---------------------------------------------------------------- one call, start to end

  datatype Outcome = Refuses(why: Refusal) | Found | Done | Crashed

  /** How far the process got before it died. */
  datatype Fate = Lives | DiesBeforeActing | DiesAfterActing

  /** The objects of one connector account. */
  class Account {
    var objects: seq<Object>
    const actions: seq<ActionSpec>

    constructor (actions: seq<ActionSpec>)
      ensures objects == [] && this.actions == actions
    {
      objects, this.actions := [], actions;
    }

    /** A lookup that sees everything created so far. */
    method FindExisting(key: string) returns (found: bool)
      ensures found <==> exists i :: 0 <= i < |objects| && objects[i].key == key
    {
      for i := 0 to |objects|
        invariant forall j :: 0 <= j < i ==> objects[j].key != key
      {
        if objects[i].key == key { return true; }
      }
      return false;
    }

    /** `perform`, which may die around the effect; the object outlives the process. */
    method Perform(c: Call, allowed: bool, now: int, fate: Fate) returns (r: Outcome)
      requires OnePerKey(World(objects, {}))
      modifies this
      ensures OnePerKey(World(objects, {}))
      ensures old(objects) <= objects && |objects| <= |old(objects)| + 1
      ensures Refused(actions, c, allowed, now).Some? <==> r.Refuses?
      ensures r.Refuses? ==> r.why == Refused(actions, c, allowed, now).value
      ensures objects != old(objects) ==>
                && Refused(actions, c, allowed, now).None? && Risky(actions, c.action)
                   && !Exists(World(old(objects), {}), c.key)
                && objects == old(objects) + [Object(c.key, c.action, c.grant, now)]
      ensures !r.Refuses? && Risky(actions, c.action) && fate != DiesBeforeActing ==> Exists(World(objects, {}), c.key)
    {
      var refusal := Refused(actions, c, allowed, now);
      if refusal.Some? { return Refuses(refusal.value); }
      if Risky(actions, c.action) {
        var found := FindExisting(c.key);
        if found { return Found; }
        if fate == DiesBeforeActing { return Crashed; }
        objects := objects + [Object(c.key, c.action, c.grant, now)];
        assert objects[|objects| - 1].key == c.key;
        return if fate == Lives then Done else Crashed;
      }
      return if fate == Lives then Done else Crashed;
    }
  }
}
