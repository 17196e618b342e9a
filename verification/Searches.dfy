/**
 The four depth-first searches of the workflow validator, each proved exact: what it returns is
 characterised by the paths of the graph, in both directions.
 */
module Searches {
  import opened WorkflowModel

  /** A non-empty sequence of ids in which every neighbouring pair is an edge. */
  ghost predicate IsPath(edges: seq<Edge>, p: seq<string>) {
    && p != []
    && forall i :: 0 <= i < |p| - 1 ==> HasEdge(edges, p[i], p[i + 1])
  }

  ghost predicate PathFromTo(edges: seq<Edge>, p: seq<string>, a: string, b: string) {
    IsPath(edges, p) && p[0] == a && p[|p| - 1] == b
  }

  /** `b` can be reached from `a` in zero or more steps. */
  ghost predicate Leads(edges: seq<Edge>, a: string, b: string) {
    exists p :: PathFromTo(edges, p, a, b)
  }

  /** `b` can be reached from `a` in one or more steps. */
  ghost predicate LeadsOn(edges: seq<Edge>, a: string, b: string) {
    exists p :: PathFromTo(edges, p, a, b) && |p| >= 2
  }

  ghost predicate LeadsFrom(edges: seq<Edge>, starts: seq<string>, b: string) {
    exists a :: a in starts && Leads(edges, a, b)
  }

  ghost predicate Closed(edges: seq<Edge>, s: set<string>) {
    forall a, b :: a in s && HasEdge(edges, a, b) ==> b in s
  }

  // ---------------------------------------------------------------- paths

  lemma LastSplits(s: seq<string>)
    requires s != []
    ensures s == s[..|s| - 1] + [s[|s| - 1]]
  {
  }

  lemma LeadsSelf(edges: seq<Edge>, a: string)
    ensures Leads(edges, a, a)
  {
    assert PathFromTo(edges, [a], a, a);
  }

  lemma PathJoins(edges: seq<Edge>, p: seq<string>, q: seq<string>)
    requires IsPath(edges, p) && IsPath(edges, q) && HasEdge(edges, p[|p| - 1], q[0])
    ensures IsPath(edges, p + q)
  {
    var r := p + q;
    forall i | 0 <= i < |r| - 1
      ensures HasEdge(edges, r[i], r[i + 1])
    {
      if i == |p| - 1 {
      } else if i < |p| - 1 {
        assert HasEdge(edges, p[i], p[i + 1]);
      } else {
        assert HasEdge(edges, q[i - |p|], q[i - |p| + 1]);
      }
    }
  }

  lemma LeadsThenEdge(edges: seq<Edge>, a: string, b: string, c: string)
    requires Leads(edges, a, b) && HasEdge(edges, b, c)
    ensures LeadsOn(edges, a, c)
  {
    var p :| PathFromTo(edges, p, a, b);
    PathJoins(edges, p, [c]);
    assert PathFromTo(edges, p + [c], a, c);
  }

  lemma EdgeThenLeads(edges: seq<Edge>, a: string, b: string, c: string)
    requires HasEdge(edges, a, b) && Leads(edges, b, c)
    ensures LeadsOn(edges, a, c)
  {
    var p :| PathFromTo(edges, p, b, c);
    PathJoins(edges, [a], p);
    assert PathFromTo(edges, [a] + p, a, c);
  }

  lemma LeadsOnLeads(edges: seq<Edge>, a: string, b: string)
    requires LeadsOn(edges, a, b)
    ensures Leads(edges, a, b)
  {
  }

  /** A path of at least one step, split at its first edge. */
  lemma LeadsOnFirst(edges: seq<Edge>, a: string, c: string) returns (b: string)
    requires LeadsOn(edges, a, c)
    ensures HasEdge(edges, a, b) && Leads(edges, b, c)
  {
    var p :| PathFromTo(edges, p, a, c) && |p| >= 2;
    b := p[1];
    assert HasEdge(edges, p[0], p[1]);
    assert PathFromTo(edges, p[1..], b, c);
  }

  /** A path of at least one step, split at its last edge. */
  lemma LeadsOnLast(edges: seq<Edge>, a: string, c: string) returns (b: string)
    requires LeadsOn(edges, a, c)
    ensures Leads(edges, a, b) && HasEdge(edges, b, c)
  {
    var p :| PathFromTo(edges, p, a, c) && |p| >= 2;
    b := p[|p| - 2];
    assert HasEdge(edges, p[|p| - 2], p[|p| - 1]);
    assert PathFromTo(edges, p[..|p| - 1], a, b);
  }

  /** A set closed under the edges keeps every path that starts in it. */
  lemma {:induction false} ClosedKeepsPaths(edges: seq<Edge>, s: set<string>, p: seq<string>)
    requires Closed(edges, s) && IsPath(edges, p) && p[0] in s
    ensures p[|p| - 1] in s
    decreases |p|
  {
    if |p| > 1 {
      assert HasEdge(edges, p[0], p[1]);
      ClosedKeepsPaths(edges, s, p[1..]);
    }
  }

  lemma StartLeads(edges: seq<Edge>, starts: seq<string>, x: string)
    requires x in starts
    ensures LeadsFrom(edges, starts, x)
  {
    LeadsSelf(edges, x);
  }

  lemma EdgeIsListed(edges: seq<Edge>, a: string, b: string)
    requires HasEdge(edges, a, b)
    ensures exists e :: e in edges && e.source == a && e.target == b
  {
    var i :| 0 <= i < |edges| && edges[i].source == a && edges[i].target == b;
    assert edges[i] in edges;
  }

  lemma LeadsFromExtends(edges: seq<Edge>, starts: seq<string>, b: string, c: string)
    requires LeadsFrom(edges, starts, b) && HasEdge(edges, b, c)
    ensures LeadsFrom(edges, starts, c)
  {
    var a :| a in starts && Leads(edges, a, b);
    LeadsThenEdge(edges, a, b, c);
  }

  lemma ClosedKeepsLeads(edges: seq<Edge>, starts: seq<string>, s: set<string>, x: string)
    requires Closed(edges, s) && (forall a :: a in starts ==> a in s)
    requires LeadsFrom(edges, starts, x)
    ensures x in s
  {
    var a :| a in starts && Leads(edges, a, x);
    var p :| PathFromTo(edges, p, a, x);
    ClosedKeepsPaths(edges, s, p);
  }

  /** Backwards: a set closed under predecessors keeps every path that ends in it. */
  lemma {:induction false} ClosedBackKeepsPaths(edges: seq<Edge>, s: set<string>, p: seq<string>)
    requires forall a, b :: b in s && HasEdge(edges, a, b) ==> a in s
    requires IsPath(edges, p) && p[|p| - 1] in s
    ensures p[0] in s
    decreases |p|
  {
    if |p| > 1 {
      assert HasEdge(edges, p[|p| - 2], p[|p| - 1]);
      ClosedBackKeepsPaths(edges, s, p[..|p| - 1]);
    }
  }

  // ---------------------------------------------------------------- the searches

  /** `_reachable`: exactly the ids some start leads to. */
  method Reachable(wf: Workflow, starts: seq<string>) returns (seen: set<string>)
    ensures forall x :: x in seen <==> LeadsFrom(wf.edges, starts, x)
  {
    hide LeadsFrom, HasEdge;
    seen := {};
    var stack := starts;
    ghost var universe := (set x | x in starts) + (set e | e in wf.edges :: e.target);
    forall x | x in stack ensures LeadsFrom(wf.edges, starts, x) { StartLeads(wf.edges, starts, x); }
    while stack != []
      invariant seen <= universe && forall x :: x in stack ==> x in universe
      invariant forall x :: x in seen || x in stack ==> LeadsFrom(wf.edges, starts, x)
      invariant forall x :: x in starts ==> x in seen || x in stack
      invariant forall a, b :: a in seen && HasEdge(wf.edges, a, b) ==> b in seen || b in stack
      decreases universe - seen, |stack|
    {
      ghost var before := stack;
      var cur := stack[|stack| - 1];
      stack := stack[..|stack| - 1];
      assert forall x :: x in before <==> x == cur || x in stack;
      if cur in seen {
        continue;
      }
      seen := seen + {cur};
      forall b | HasEdge(wf.edges, cur, b) ensures LeadsFrom(wf.edges, starts, b) && b in universe {
        LeadsFromExtends(wf.edges, starts, cur, b);
        EdgeIsListed(wf.edges, cur, b);
      }
      stack := stack + Successors(wf.edges, cur);
    }
    forall x | LeadsFrom(wf.edges, starts, x) ensures x in seen {
      ClosedKeepsLeads(wf.edges, starts, seen, x);
    }
  }

  /** `_ancestors`: exactly the ids from which the node is reached in one or more steps. */
  method Ancestors(wf: Workflow, id: string) returns (seen: set<string>)
    ensures forall a :: a in seen <==> LeadsOn(wf.edges, a, id)
  {
    hide LeadsOn, HasEdge;
    seen := {};
    var stack := Predecessors(wf.edges, id);
    ghost var universe := set e | e in wf.edges :: e.source;
    forall a | HasEdge(wf.edges, a, id) ensures LeadsOn(wf.edges, a, id) && a in universe {
      EdgeIsListed(wf.edges, a, id);
      LeadsSelf(wf.edges, a);
      LeadsThenEdge(wf.edges, a, a, id);
    }
    while stack != []
      invariant seen <= universe && forall x :: x in stack ==> x in universe
      invariant forall x :: x in seen || x in stack ==> LeadsOn(wf.edges, x, id)
      invariant forall a :: HasEdge(wf.edges, a, id) ==> a in seen || a in stack
      invariant forall a, b :: b in seen && HasEdge(wf.edges, a, b) ==> a in seen || a in stack
      decreases universe - seen, |stack|
    {
      ghost var before := stack;
      var cur := stack[|stack| - 1];
      stack := stack[..|stack| - 1];
      assert forall x :: x in before <==> x == cur || x in stack;
      if cur !in seen {
        seen := seen + {cur};
        forall a | HasEdge(wf.edges, a, cur) ensures LeadsOn(wf.edges, a, id) && a in universe {
          LeadsOnLeads(wf.edges, cur, id);
          EdgeThenLeads(wf.edges, a, cur, id);
          EdgeIsListed(wf.edges, a, cur);
        }
        stack := stack + Predecessors(wf.edges, cur);
      }
    }
    forall a | LeadsOn(wf.edges, a, id) ensures a in seen {
      var b := LeadsOnLast(wf.edges, a, id);
      var p :| PathFromTo(wf.edges, p, a, b);
      ClosedBackKeepsPaths(wf.edges, seen, p);
    }
  }

  /** The inner loop of `_nodes_on_cycles`: does the node lead back to itself? */
  method OnCycle(wf: Workflow, id: string) returns (found: bool)
    ensures found <==> LeadsOn(wf.edges, id, id)
  {
    hide LeadsOn, HasEdge;
    var seen := {};
    var stack := Successors(wf.edges, id);
    found := false;
    ghost var universe := set e | e in wf.edges :: e.target;
    forall b | HasEdge(wf.edges, id, b) ensures LeadsOn(wf.edges, id, b) && b in universe {
      EdgeIsListed(wf.edges, id, b);
      LeadsSelf(wf.edges, id);
      LeadsThenEdge(wf.edges, id, id, b);
    }
    while stack != []
      invariant seen <= universe && forall x :: x in stack ==> x in universe
      invariant forall x :: x in seen || x in stack ==> LeadsOn(wf.edges, id, x)
      invariant forall b :: HasEdge(wf.edges, id, b) ==> b in seen || b in stack
      invariant forall a, b :: a in seen && HasEdge(wf.edges, a, b) ==> b in seen || b in stack
      invariant id !in seen && !found
      decreases universe - seen, |stack|
    {
      ghost var before := stack;
      var cur := stack[|stack| - 1];
      stack := stack[..|stack| - 1];
      assert forall x :: x in before <==> x == cur || x in stack;
      if cur == id {
        found := true;
        break;
      }
      if cur !in seen {
        seen := seen + {cur};
        forall b | HasEdge(wf.edges, cur, b) ensures LeadsOn(wf.edges, id, b) && b in universe {
          LeadsOnLeads(wf.edges, id, cur);
          LeadsThenEdge(wf.edges, id, cur, b);
          EdgeIsListed(wf.edges, cur, b);
        }
        stack := stack + Successors(wf.edges, cur);
      }
    }
    if !found && LeadsOn(wf.edges, id, id) {
      var b := LeadsOnFirst(wf.edges, id, id);
      var p :| PathFromTo(wf.edges, p, b, id);
      ClosedKeepsPaths(wf.edges, seen, p);
      assert false;
    }
  }

  /** `_nodes_on_cycles`: exactly the nodes with a non-empty path to themselves. */
  method NodesOnCycles(wf: Workflow) returns (onCycle: set<string>)
    ensures forall x :: x in onCycle <==> HasNode(wf, x) && LeadsOn(wf.edges, x, x)
  {
    onCycle := {};
    for k := 0 to |wf.nodes|
      invariant forall x :: x in onCycle <==>
                  LeadsOn(wf.edges, x, x) && exists i :: 0 <= i < k && wf.nodes[i].id == x
    {
      var found := OnCycle(wf, wf.nodes[k].id);
      if found {
        onCycle := onCycle + {wf.nodes[k].id};
      }
    }
  }

  // ---------------------------------------------------------------- the approval gate

  ghost predicate IsApproval(wf: Workflow, id: string) {
    HasNode(wf, id) && NodeById(wf.nodes, id).kind == Approval
  }

  /** A path none of whose nodes, the last one excepted, is an approval. */
  ghost predicate Ungated(wf: Workflow, p: seq<string>) {
    IsPath(wf.edges, p) && forall i :: 0 <= i < |p| - 1 ==> !IsApproval(wf, p[i])
  }

  ghost predicate StartsAtEntry(wf: Workflow, p: seq<string>) {
    p != [] && p[0] in Ids(Entries(wf))
  }

  /** Some path from an entry reaches `target` with no approval node before it. */
  ghost predicate UngatedTo(wf: Workflow, target: string) {
    exists p :: StartsAtEntry(wf, p) && Ungated(wf, p) && p[|p| - 1] == target
  }

  lemma UngatedExtends(wf: Workflow, a: string, b: string)
    requires UngatedTo(wf, a) && !IsApproval(wf, a) && HasEdge(wf.edges, a, b)
    ensures UngatedTo(wf, b)
  {
    hide IsApproval, HasEdge, Entries;
    var p :| StartsAtEntry(wf, p) && Ungated(wf, p) && p[|p| - 1] == a;
    var q := p + [b];
    PathJoins(wf.edges, p, [b]);
    assert StartsAtEntry(wf, q) && Ungated(wf, q) && q[|q| - 1] == b;
  }

  /** A set that only stops at approvals keeps every ungated path that starts in it. */
  lemma {:induction false} ClosedKeepsUngated(wf: Workflow, s: set<string>, p: seq<string>)
    requires forall a, b :: a in s && !IsApproval(wf, a) && HasEdge(wf.edges, a, b) ==> b in s
    requires Ungated(wf, p) && p[0] in s
    ensures p[|p| - 1] in s
    decreases |p|
  {
    if |p| > 1 {
      assert HasEdge(wf.edges, p[0], p[1]) && !IsApproval(wf, p[0]);
      assert Ungated(wf, p[1..]);
      ClosedKeepsUngated(wf, s, p[1..]);
    }
  }

  lemma ClosedKeepsUngatedTo(wf: Workflow, s: set<string>, target: string)
    requires forall a, b :: a in s && !IsApproval(wf, a) && HasEdge(wf.edges, a, b) ==> b in s
    requires forall a :: a in Ids(Entries(wf)) ==> a in s
    requires UngatedTo(wf, target)
    ensures target in s
  {
    var p :| StartsAtEntry(wf, p) && Ungated(wf, p) && p[|p| - 1] == target;
    ClosedKeepsUngated(wf, s, p);
  }

  lemma EntryIsUngated(wf: Workflow, id: string)
    requires id in Ids(Entries(wf))
    ensures HasNode(wf, id) && UngatedTo(wf, id)
  {
    var i :| 0 <= i < |Entries(wf)| && Ids(Entries(wf))[i] == id;
    assert Entries(wf)[i] in wf.nodes;
    assert StartsAtEntry(wf, [id]) && Ungated(wf, [id]);
  }

  lemma EdgeTargetIsNode(wf: Workflow, a: string, b: string)
    requires NoDanglingEdges(wf) && HasEdge(wf.edges, a, b)
    ensures HasNode(wf, a) && HasNode(wf, b)
  {
    var i :| 0 <= i < |wf.edges| && wf.edges[i].source == a && wf.edges[i].target == b;
    assert wf.edges[i] in wf.edges;
  }

  /** What the gate search keeps: everything met is ungated, and everything ungated is met or still to come. */
  ghost predicate GateFrontier(wf: Workflow, seen: set<string>, stack: seq<string>) {
    && (forall x :: x in seen || x in stack ==> HasNode(wf, x) && UngatedTo(wf, x))
    && (forall x :: x in Ids(Entries(wf)) ==> x in seen || x in stack)
    && (forall a, b :: a in seen && !IsApproval(wf, a) && HasEdge(wf.edges, a, b) ==> b in seen || b in stack)
  }

  lemma GateFrontierStarts(wf: Workflow)
    ensures GateFrontier(wf, {}, Ids(Entries(wf)))
  {
    forall x | x in Ids(Entries(wf)) ensures HasNode(wf, x) && UngatedTo(wf, x) { EntryIsUngated(wf, x); }
  }

  /** Popping an id already met keeps the frontier. */
  lemma GateFrontierSkips(wf: Workflow, seen: set<string>, stack: seq<string>, cur: string)
    requires GateFrontier(wf, seen, stack + [cur]) && cur in seen
    ensures GateFrontier(wf, seen, stack)
  {
    assert forall x :: x in stack + [cur] <==> x in stack || x == cur;
  }

  /** Popping an id and pushing its successors (an approval pushes none) keeps the frontier. */
  lemma GateFrontierSteps(wf: Workflow, seen: set<string>, stack: seq<string>, cur: string, more: seq<string>)
    requires NoDanglingEdges(wf) && GateFrontier(wf, seen, stack + [cur])
    requires if IsApproval(wf, cur) then more == [] else more == Successors(wf.edges, cur)
    ensures GateFrontier(wf, seen + {cur}, stack + more)
  {
    hide UngatedTo, IsApproval, HasNode, Successors, HasEdge, Entries, NoDanglingEdges;
    assert forall x :: x in stack + [cur] <==> x in stack || x == cur;
    assert forall x :: x in stack + more <==> x in stack || x in more;
    forall b | b in more ensures HasNode(wf, b) && UngatedTo(wf, b) {
      UngatedExtends(wf, cur, b);
      EdgeTargetIsNode(wf, cur, b);
    }
  }

  /** `_reachable_avoiding_approval` is exact. */
  method ReachableAvoidingApproval(wf: Workflow, target: string) returns (found: bool)
    requires WellFormed(wf)
    ensures found <==> UngatedTo(wf, target)
  {
    var seen: set<string> := {};
    var stack := Ids(Entries(wf));
    GateFrontierStarts(wf);
    ghost var universe := set n | n in wf.nodes :: n.id;
    while stack != []
      invariant GateFrontier(wf, seen, stack)
      invariant seen <= universe && target !in seen
      decreases universe - seen, |stack|
    {
      var cur := stack[|stack| - 1];
      LastSplits(stack);
      stack := stack[..|stack| - 1];
      assert HasNode(wf, cur);
      var more := [];
      if cur in seen {
        GateFrontierSkips(wf, seen, stack, cur);
        continue;
      }
      if cur == target {
        return true;
      }
      if NodeById(wf.nodes, cur).kind != Approval {
        more := Successors(wf.edges, cur);
      }
      GateFrontierSteps(wf, seen, stack, cur, more);
      seen := seen + {cur};
      stack := stack + more;
    }
    if UngatedTo(wf, target) {
      ClosedKeepsUngatedTo(wf, seen, target);
      assert false;
    }
    return false;
  }
}
