/**
  The plan graph check: three-colour cycle detection over the dependency and
  ordering references, and the upstream walk (src/internal/lint/dag.go).
 */
module Dag {

  type Id = string

  datatype Node = Node(id: Id, deps: seq<Id>, after: seq<Id>)

  type Index = map<Id, Node>

  /** The references of a node: its dependencies, then the nodes it comes after. */
  function Refs(n: Node): seq<Id> {
    n.deps + n.after
  }

  /** A reference from a known node; the referenced node may be unknown. */
  predicate Refers(byId: Index, a: Id, b: Id) {
    a in byId && b in Refs(byId[a])
  }

  predicate Edge(byId: Index, a: Id, b: Id) {
    Refers(byId, a, b) && b in byId
  }

  predicate IsPath(byId: Index, p: seq<Id>) {
    forall i :: 0 <= i < |p| - 1 ==> Edge(byId, p[i], p[i + 1])
  }

  predicate IsCycle(byId: Index, p: seq<Id>) {
    |p| >= 2 && IsPath(byId, p) && p[0] == p[|p| - 1]
  }

  ghost predicate HasCycle(byId: Index) {
    exists p :: IsCycle(byId, p)
  }

  /** The i-th node is the last one of the id. */
  predicate IsLast(nodes: seq<Node>, i: int, id: Id)
    requires 0 <= i < |nodes|
  {
    nodes[i].id == id && forall j :: i < j < |nodes| ==> nodes[j].id != id
  }

  /** A later node of the same id replaces an earlier one. */
  function IndexOf(nodes: seq<Node>): Index
    decreases |nodes|
  {
    if nodes == [] then map[]
    else
      var last := nodes[|nodes| - 1];
      IndexOf(nodes[..|nodes| - 1])[last.id := last]
  }

  /** The index holds exactly the declared ids, each with its last node. */
  lemma {:induction false} IndexHoldsLast(nodes: seq<Node>, id: Id)
    ensures id in IndexOf(nodes) <==> exists i :: 0 <= i < |nodes| && nodes[i].id == id
    ensures id in IndexOf(nodes) ==>
              exists i :: 0 <= i < |nodes| && IsLast(nodes, i, id) && IndexOf(nodes)[id] == nodes[i]
    decreases |nodes|
  {
    if nodes != [] {
      var front, n := nodes[..|nodes| - 1], |nodes| - 1;
      IndexHoldsLast(front, id);
      if nodes[n].id == id {
        assert IsLast(nodes, n, id);
      } else if id in IndexOf(front) {
        var i :| 0 <= i < |front| && IsLast(front, i, id) && IndexOf(front)[id] == front[i];
        assert IsLast(nodes, i, id);
      }
    }
  }

  // -------------------------------------------------------------- no cycles

  ghost predicate Distinct(s: seq<Id>) {
    forall i, j :: 0 <= i < j < |s| ==> s[i] != s[j]
  }

  /** Every known reference of a node of the order comes before it. */
  ghost predicate Topological(byId: Index, order: seq<Id>) {
    forall i, r :: 0 <= i < |order| && Edge(byId, order[i], r) ==> r in order[..i]
  }

  lemma {:induction false} PathDescends(byId: Index, order: seq<Id>, p: seq<Id>, i: nat, j: nat)
    requires Topological(byId, order) && IsPath(byId, p)
    requires i < |order| && 0 < j < |p| && p[0] == order[i]
    ensures p[j] in order[..i]
    decreases j
  {
    if j == 1 {
      assert Edge(byId, p[0], p[1]);
    } else {
      PathDescends(byId, order, p, i, j - 1);
      var k :| 0 <= k < i && order[k] == p[j - 1];
      assert Edge(byId, p[j - 1], p[j]);
      assert p[j] in order[..k];
      var m :| 0 <= m < k && order[m] == p[j];
      assert order[..i][m] == p[j];
    }
  }

  lemma TopologicalMeansAcyclic(byId: Index, order: seq<Id>)
    requires Topological(byId, order) && Distinct(order) && forall id :: id in byId ==> id in order
    ensures !HasCycle(byId)
  {
    forall p ensures !IsCycle(byId, p) {
      if |p| >= 2 && IsPath(byId, p) {
        assert Edge(byId, p[0], p[1]);
        var i :| 0 <= i < |order| && order[i] == p[0];
        PathDescends(byId, order, p, i, |p| - 1);
        var k :| 0 <= k < i && order[k] == p[|p| - 1];
      }
    }
  }

  // ---------------------------------------------------------------- the check

  datatype Color = Grey | Black

  /** The trail the finding prints: a path whose last node occurs earlier on it. */
  ghost predicate Closes(byId: Index, trail: seq<Id>) {
    IsPath(byId, trail) && exists i :: 0 <= i < |trail| - 1 && trail[i] == trail[|trail| - 1]
  }

  lemma ClosingTrailHoldsCycle(byId: Index, trail: seq<Id>)
    requires Closes(byId, trail)
    ensures HasCycle(byId)
  {
    var i :| 0 <= i < |trail| - 1 && trail[i] == trail[|trail| - 1];
    var loop := trail[i..];
    forall k | 0 <= k < |loop| - 1 ensures Edge(byId, loop[k], loop[k + 1]) {
      assert Edge(byId, trail[i + k], trail[i + k + 1]);
    }
    assert IsCycle(byId, loop);
  }

  class CycleCheck {
    const byId: Index
    var color: map<Id, Color>   // a node without a colour is white
    var reported: bool
    var trail: seq<Id>          // the cycle the finding names
    ghost var done: seq<Id>     // the black nodes, in the order they turned black

    constructor (byId: Index)
      ensures this.byId == byId && !reported && color == map[] && Valid([])
    {
      this.byId := byId;
      color := map[];
      reported := false;
      trail := [];
      done := [];
    }

    /** The state between two visits, with the nodes of `stack` being visited. */
    ghost predicate Valid(stack: seq<Id>)
      reads this
    {
      && color.Keys <= byId.Keys
      && (forall id :: id in color && color[id] == Grey <==> id in stack)
      && (forall id :: id in color && color[id] == Black <==> id in done)
      && Distinct(done)
      && (!reported ==> Topological(byId, done))
      && (reported ==> Closes(byId, trail))
    }

    method Visit(id: Id, stack: seq<Id>)
      requires id in byId && id !in color && Valid(stack) && IsPath(byId, stack + [id])
      modifies this
      ensures Valid(stack) && id in done
      ensures old(color.Keys) <= color.Keys && old(done) <= done
      ensures old(reported) ==> reported
      decreases byId.Keys - color.Keys
    {
      hide IsPath, Closes, Topological, Distinct;
      color := color[id := Grey];
      var here := stack + [id];
      assert forall x :: x in here <==> x in stack || x == id;
      var refs := Refs(byId[id]);
      for k := 0 to |refs|
        invariant Valid(here) && id in color
        invariant old(color.Keys) <= color.Keys && old(done) <= done
        invariant old(reported) ==> reported
        invariant !reported ==> forall r :: r in refs[..k] && r in byId ==> r in done
      {
        var dep := refs[k];
        assert refs[..k + 1] == refs[..k] + [dep];
        if dep in byId {
          assert Edge(byId, id, dep);
          ExtendPath(stack, id, dep);
          if dep in color && color[dep] == Grey {
            if !reported {
              TrailCloses(here, dep);
              reported := true;
              trail := here + [dep];
            }
          } else if dep !in color {
            ghost var doneBefore := done;
            Visit(dep, here);
            assert forall r :: r in doneBefore ==> r in done;
          }
        }
      }
      assert refs[..|refs|] == refs;
      Blacken(id, stack);
    }

    lemma TrailCloses(here: seq<Id>, dep: Id)
      requires IsPath(byId, here + [dep]) && dep in here
      ensures Closes(byId, here + [dep])
    {
      var i :| 0 <= i < |here| && here[i] == dep;
      assert (here + [dep])[i] == dep;
    }

    lemma ExtendPath(stack: seq<Id>, id: Id, dep: Id)
      requires IsPath(byId, stack + [id]) && Edge(byId, id, dep)
      ensures IsPath(byId, (stack + [id]) + [dep])
    {
      var p, q := stack + [id], (stack + [id]) + [dep];
      forall i | 0 <= i < |q| - 1 ensures Edge(byId, q[i], q[i + 1]) {
        if i < |p| - 1 {
          assert Edge(byId, p[i], p[i + 1]);
        }
      }
    }

    method Blacken(id: Id, stack: seq<Id>)
      requires id in byId && Valid(stack + [id]) && id !in stack
      requires !reported ==> forall r :: Edge(byId, id, r) ==> r in done
      modifies `color, `done
      ensures Valid(stack) && color == old(color)[id := Black] && done == old(done) + [id]
    {
      assert id in stack + [id];
      assert forall x :: x in stack + [id] <==> x in stack || x == id;
      color := color[id := Black];
      ghost var before := done;
      done := done + [id];
      forall i, r | !reported && 0 <= i < |done| && Edge(byId, done[i], r) ensures r in done[..i] {
        if i < |before| {
          assert r in before[..i];
          assert before[..i] == done[..i];
        } else {
          assert done[..i] == before;
        }
      }
    }
  }

  method BuildIndex(nodes: seq<Node>) returns (byId: Index)
    ensures byId == IndexOf(nodes)
  {
    byId := map[];
    for i := 0 to |nodes|
      invariant byId == IndexOf(nodes[..i])
    {
      assert nodes[..i + 1][..i] == nodes[..i];
      byId := byId[nodes[i].id := nodes[i]];
    }
    assert nodes[..|nodes|] == nodes;
  }

  /** A cycle is reported exactly when the graph of the known nodes has one. */
  method FindsCycle(nodes: seq<Node>) returns (found: bool, trail: seq<Id>)
    ensures found <==> HasCycle(IndexOf(nodes))
    ensures found ==> Closes(IndexOf(nodes), trail)
  {
    var byId := BuildIndex(nodes);
    forall id ensures id in byId <==> exists i :: 0 <= i < |nodes| && nodes[i].id == id {
      IndexHoldsLast(nodes, id);
    }
    found, trail := VisitAll(byId, nodes);
  }

  method VisitAll(byId: Index, nodes: seq<Node>) returns (found: bool, trail: seq<Id>)
    requires forall id :: id in byId <==> exists i :: 0 <= i < |nodes| && nodes[i].id == id
    ensures found <==> HasCycle(byId)
    ensures found ==> Closes(byId, trail)
  {
    var check := new CycleCheck(byId);
    for i := 0 to |nodes|
      invariant check.Valid([]) && check.byId == byId
      invariant forall k :: 0 <= k < i ==> nodes[k].id in check.done
    {
      var id := nodes[i].id;
      ghost var before := check.done;
      if id !in check.color {
        assert IsPath(byId, [] + [id]);
        check.Visit(id, []);
        assert forall r :: r in before ==> r in check.done;
      } else {
        assert id !in [];
      }
    }
    found, trail := check.reported, check.trail;
    if found {
      ClosingTrailHoldsCycle(byId, trail);
    } else {
      TopologicalMeansAcyclic(byId, check.done);
    }
  }

  // ------------------------------------------------------------------ upstream

  /** p leads from a to b along one or more references. */
  ghost predicate LeadsTo(byId: Index, p: seq<Id>, a: Id, b: Id) {
    && |p| >= 2 && p[0] == a && p[|p| - 1] == b
    && forall i :: 0 <= i < |p| - 1 ==> Refers(byId, p[i], p[i + 1])
  }

  ghost predicate IsUpstream(byId: Index, a: Id, b: Id) {
    exists p :: LeadsTo(byId, p, a, b)
  }

  ghost predicate RefsWithin(byId: Index, a: Id, S: set<Id>) {
    forall b :: Refers(byId, a, b) ==> b in S
  }

  /** Every id that some known node refers to. */
  function Referenced(byId: Index): set<Id> {
    set a, r | a in byId && r in Refs(byId[a]) :: r
  }

  lemma UpstreamExtends(byId: Index, a: Id, b: Id, c: Id)
    requires Refers(byId, a, b) && (b == c || IsUpstream(byId, b, c))
    ensures IsUpstream(byId, a, c)
  {
    if b == c {
      assert LeadsTo(byId, [a, b], a, b);
    } else {
      var p :| LeadsTo(byId, p, b, c);
      var q := [a] + p;
      forall i | 0 <= i < |q| - 1 ensures Refers(byId, q[i], q[i + 1]) {
        if i > 0 { assert Refers(byId, p[i - 1], p[i]); }
      }
      assert LeadsTo(byId, q, a, c);
    }
  }

  lemma {:induction false} ClosedHoldsUpstream(byId: Index, S: set<Id>, p: seq<Id>, a: Id, b: Id)
    requires LeadsTo(byId, p, a, b) && RefsWithin(byId, a, S) && forall x :: x in S ==> RefsWithin(byId, x, S)
    ensures b in S
    decreases |p|
  {
    assert Refers(byId, p[0], p[1]);
    if |p| > 2 {
      forall i | 0 <= i < |p[1..]| - 1 ensures Refers(byId, p[1..][i], p[1..][i + 1]) {
        assert Refers(byId, p[i + 1], p[i + 2]);
      }
      ClosedHoldsUpstream(byId, S, p[1..], p[1], b);
    }
  }

  class UpstreamWalk {
    const byId: Index
    var seen: set<Id>

    constructor (byId: Index)
      ensures this.byId == byId && seen == {}
    {
      this.byId := byId;
      seen := {};
    }

    method Walk(x: Id)
      requires seen <= Referenced(byId)
      modifies this
      ensures old(seen) <= seen <= Referenced(byId)
      ensures RefsWithin(byId, x, seen)
      ensures forall y :: y in seen && y !in old(seen) ==> IsUpstream(byId, x, y) && RefsWithin(byId, y, seen)
      decreases Referenced(byId) - seen
    {
      if x !in byId {
        return;
      }
      var refs := Refs(byId[x]);
      for k := 0 to |refs|
        invariant old(seen) <= seen <= Referenced(byId)
        invariant forall r :: r in refs[..k] ==> r in seen
        invariant forall y :: y in seen && y !in old(seen) ==> IsUpstream(byId, x, y) && RefsWithin(byId, y, seen)
      {
        var dep := refs[k];
        assert refs[..k + 1] == refs[..k] + [dep];
        assert x in byId && dep in Refs(byId[x]);
        assert dep in Referenced(byId);
        if dep !in seen {
          assert Refers(byId, x, dep);
          label L:
          seen := seen + {dep};
          Walk(dep);
          forall y | y in seen && y !in old(seen) ensures IsUpstream(byId, x, y) && RefsWithin(byId, y, seen) {
            if y !in old@L(seen) {
              UpstreamExtends(byId, x, dep, y);
            }
          }
        }
      }
      assert refs[..|refs|] == refs;
    }
  }

  /** The ids upstream of a node are those some chain of references leads to. */
  method Upstream(byId: Index, id: Id) returns (up: set<Id>)
    ensures forall y :: y in up <==> IsUpstream(byId, id, y)
  {
    var w := new UpstreamWalk(byId);
    w.Walk(id);
    up := w.seen;
    forall y | IsUpstream(byId, id, y) ensures y in up {
      var p :| LeadsTo(byId, p, id, y);
      ClosedHoldsUpstream(byId, up, p, id, y);
    }
  }
}
