/** What an empty problem list says about every path and every walk of a workflow. */
module Walks {
  import opened Json
  import opened WorkflowModel
  import opened Searches
  import opened Templates
  import opened Validation

  // ---------------------------------------------------------------- forward and backward searches

  /** The backward search agrees with the forward one: an ancestor is a node one of whose successors leads here. */
  lemma AncestorsAgreeWithReachable(edges: seq<Edge>, a: string, b: string)
    ensures LeadsOn(edges, a, b) <==> LeadsFrom(edges, Successors(edges, a), b)
  {
    if LeadsOn(edges, a, b) {
      var c := LeadsOnFirst(edges, a, b);
      assert c in Successors(edges, a);
    }
    if LeadsFrom(edges, Successors(edges, a), b) {
      var c :| c in Successors(edges, a) && Leads(edges, c, b);
      EdgeThenLeads(edges, a, c, b);
    }
  }

  /** Both searches run side by side give the same answer. */
  method SearchesAgree(wf: Workflow, a: string, b: string) returns (forward: bool, backward: bool)
    ensures forward == backward
    ensures forward <==> LeadsOn(wf.edges, a, b)
  {
    var down := Reachable(wf, Successors(wf.edges, a));
    var up := Ancestors(wf, b);
    AncestorsAgreeWithReachable(wf.edges, a, b);
    forward, backward := b in down, a in up;
  }

  // ---------------------------------------------------------------- the approval gate

  /** In a valid workflow every path from an entry to an action that needs approval passes an approval first. */
  lemma GateOnEveryPath(wf: Workflow, policy: Policy, host: Host, n: Node, p: seq<string>)
    requires Valid(wf, policy, host) && !policy.allowUnapprovedWrites
    requires n in wf.nodes && NeedsApproval(n, policy, host)
    requires IsPath(wf.edges, p) && StartsAtEntry(wf, p) && p[|p| - 1] == n.id
    ensures exists i :: 0 <= i < |p| - 1 && IsApproval(wf, p[i])
  {
    hide NodesOk, GraphOk;
    var i :| 0 <= i < |wf.nodes| && wf.nodes[i] == n;
    assert !GateMissing(wf, wf.nodes[i], policy, host);
    assert !Ungated(wf, p);
  }

  /** A `nodes.X` reference in a valid workflow names a node that runs before the one that refers to it. */
  lemma ReferencesPointBack(wf: Workflow, policy: Policy, host: Host, n: Node, ref: string)
    requires Valid(wf, policy, host) && n in wf.nodes
    requires ref in References(Object(n.config)) && Split(ref, '.')[0] == "nodes"
    ensures HasNode(wf, Second(Split(ref, '.')))
    ensures LeadsFrom(wf.edges, Successors(wf.edges, Second(Split(ref, '.'))), n.id)
  {
    hide GraphOk, AllGated, LocalProblems;
    var i :| 0 <= i < |wf.nodes| && wf.nodes[i] == n;
    assert NodeOk(wf, wf.nodes[i], policy, host);
    assert ReferenceOk(wf, n.id, ref);
    AncestorsAgreeWithReachable(wf.edges, Second(Split(ref, '.')), n.id);
  }

  // ---------------------------------------------------------------- walks and visits

  /** How often `id` occurs on a walk. */
  function Visits(w: seq<string>, id: string): nat {
    if w == [] then 0 else (if w[0] == id then 1 else 0) + Visits(w[1..], id)
  }

  lemma {:induction false} OneOccurrence(w: seq<string>, id: string)
    requires forall i, j :: 0 <= i < j < |w| && w[i] == id ==> w[j] != id
    ensures Visits(w, id) <= 1
  {
    if w != [] {
      if w[0] == id {
        NoOccurrence(w[1..], id);
      } else {
        forall i, j | 0 <= i < j < |w[1..]| && w[1..][i] == id ensures w[1..][j] != id {
          assert w[i + 1] == id;
        }
        OneOccurrence(w[1..], id);
      }
    }
  }

  lemma {:induction false} NoOccurrence(w: seq<string>, id: string)
    requires id !in w
    ensures Visits(w, id) == 0
  {
    if w != [] {
      assert w[0] in w && forall x :: x in w[1..] ==> x in w;
      NoOccurrence(w[1..], id);
    }
  }

  lemma PathBetween(edges: seq<Edge>, w: seq<string>, i: nat, j: nat)
    requires IsPath(edges, w) && i < j < |w|
    ensures LeadsOn(edges, w[i], w[j])
  {
    var p := w[i..j + 1];
    forall k | 0 <= k < |p| - 1 ensures HasEdge(edges, p[k], p[k + 1]) {
      assert HasEdge(edges, w[i + k], w[i + k + 1]);
    }
    assert PathFromTo(edges, p, w[i], w[j]) && |p| >= 2;
  }

  /** In a valid workflow a node that may be entered once occurs at most once on any walk, however long. */
  lemma OnceOnAnyWalk(wf: Workflow, n: Node, w: seq<string>)
    requires LoopsBounded(wf) && n in wf.nodes && n.maxVisits < 2 && IsPath(wf.edges, w)
    ensures Visits(w, n.id) <= 1
  {
    assert !LoopsUnbounded(wf, n);
    forall i, j | 0 <= i < j < |w| && w[i] == n.id ensures w[j] != n.id {
      PathBetween(wf.edges, w, i, j);
    }
    OneOccurrence(w, n.id);
  }

  /** Conversely, when a node on a loop is left at one visit the loop makes walks that enter it again. */
  lemma LoopIsNeeded(wf: Workflow, n: Node)
    requires LoopsUnbounded(wf, n)
    ensures exists w :: IsPath(wf.edges, w) && Visits(w, n.id) >= 2
  {
    var p :| PathFromTo(wf.edges, p, n.id, n.id) && |p| >= 2;
    LastCounts(p[1..], n.id);
  }

  lemma {:induction false} LastCounts(w: seq<string>, id: string)
    requires w != [] && w[|w| - 1] == id
    ensures Visits(w, id) >= 1
  {
    if |w| > 1 { LastCounts(w[1..], id); }
  }

  function Without(w: seq<string>, id: string): (r: seq<string>)
    ensures |w| == |r| + Visits(w, id)
    ensures forall x :: x in r ==> x in w && x != id
  {
    if w == [] then [] else (if w[0] == id then [] else [w[0]]) + Without(w[1..], id)
  }

  lemma {:induction false} WithoutKeepsOthers(w: seq<string>, id: string, other: string)
    requires other != id
    ensures Visits(Without(w, id), other) == Visits(w, other)
  {
    if w != [] {
      WithoutKeepsOthers(w[1..], id, other);
      var rest := Without(w[1..], id);
      if w[0] != id { assert ([w[0]] + rest)[1..] == rest; } else { assert [] + rest == rest; }
    }
  }

  /** The visits all nodes together allow. */
  function Allowance(nodes: seq<Node>): int {
    if nodes == [] then 0 else nodes[0].maxVisits + Allowance(nodes[1..])
  }

  lemma SomeMember(w: seq<string>)
    requires w != []
    ensures exists x :: x in w
  {
    assert w[0] in w;
  }

  /** A walk that keeps to every node's visits is no longer than the visits all nodes allow. */
  lemma {:induction false} WalkWithinAllowance(nodes: seq<Node>, w: seq<string>)
    requires forall x :: x in w ==> exists n :: n in nodes && n.id == x
    requires forall n :: n in nodes ==> Visits(w, n.id) <= n.maxVisits
    ensures |w| <= Allowance(nodes)
  {
    if nodes == [] {
      if w != [] { SomeMember(w); }
    } else {
      var id, rest := nodes[0].id, Without(w, nodes[0].id);
      assert nodes[0] in nodes;
      forall x | x in rest ensures exists n :: n in nodes[1..] && n.id == x {
        var n :| n in nodes && n.id == x;
        assert n in nodes[1..];
      }
      forall n | n in nodes[1..] ensures Visits(rest, n.id) <= n.maxVisits {
        assert n in nodes;
        if n.id == id { NoOccurrence(rest, id); } else { WithoutKeepsOthers(w, id, n.id); }
      }
      WalkWithinAllowance(nodes[1..], rest);
    }
  }

  lemma {:induction false} AllowanceBound(nodes: seq<Node>, limit: nat)
    requires forall n :: n in nodes ==> 0 <= n.maxVisits <= limit
    ensures 0 <= Allowance(nodes) <= |nodes| * limit
  {
    if nodes != [] {
      assert nodes[0] in nodes;
      AllowanceBound(nodes[1..], limit);
    }
  }

  /** The limits `parse` enforces. */
  ghost predicate WithinLimits(wf: Workflow) {
    |wf.nodes| <= MAX_NODES && forall n :: n in wf.nodes ==> 1 <= n.maxVisits <= MAX_VISITS_LIMIT
  }

  lemma {:induction false} WalkStaysInside(wf: Workflow, w: seq<string>, i: nat)
    requires NoDanglingEdges(wf) && IsPath(wf.edges, w) && HasNode(wf, w[0]) && i < |w|
    ensures HasNode(wf, w[i])
  {
    if i > 0 {
      assert HasEdge(wf.edges, w[i - 1], w[i - 1 + 1]);
      EdgeTargetIsNode(wf, w[i - 1], w[i]);
    }
  }

  /** Any walk that respects `max_visits` has at most 200 * 20 entries. */
  lemma BoundedWalk(wf: Workflow, w: seq<string>)
    requires NoDanglingEdges(wf) && WithinLimits(wf)
    requires IsPath(wf.edges, w) && HasNode(wf, w[0])
    requires forall n :: n in wf.nodes ==> Visits(w, n.id) <= n.maxVisits
    ensures |w| <= MAX_NODES * MAX_VISITS_LIMIT
  {
    forall x | x in w ensures exists n :: n in wf.nodes && n.id == x {
      var i :| 0 <= i < |w| && w[i] == x;
      WalkStaysInside(wf, w, i);
    }
    WalkWithinAllowance(wf.nodes, w);
    AllowanceBound(wf.nodes, MAX_VISITS_LIMIT);
  }

  lemma {:induction false} AllowanceOfOnes(nodes: seq<Node>)
    requires forall n :: n in nodes ==> n.maxVisits == 1
    ensures Allowance(nodes) == |nodes|
  {
    if nodes != [] {
      assert nodes[0] in nodes;
      AllowanceOfOnes(nodes[1..]);
    }
  }

  /** A valid workflow that raises no `max_visits` has no walk longer than its number of nodes. */
  lemma LoopFreeWalk(wf: Workflow, w: seq<string>)
    requires NoDanglingEdges(wf) && LoopsBounded(wf) && (forall n :: n in wf.nodes ==> n.maxVisits == 1)
    requires IsPath(wf.edges, w) && HasNode(wf, w[0])
    ensures |w| <= |wf.nodes|
  {
    forall x | x in w ensures exists n :: n in wf.nodes && n.id == x {
      var i :| 0 <= i < |w| && w[i] == x;
      WalkStaysInside(wf, w, i);
    }
    forall n | n in wf.nodes ensures Visits(w, n.id) <= n.maxVisits { OnceOnAnyWalk(wf, n, w); }
    WalkWithinAllowance(wf.nodes, w);
    AllowanceOfOnes(wf.nodes);
  }
}
