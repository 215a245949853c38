/** Depth-first cycle detection over the entity backlink graph. */
module CycleDetection {
  type Id = string

  /** What the edge store answers for one node: its outgoing targets, or a store error. */
  datatype Targets = Targets(ids: seq<Id>) | EdgeError

  type Graph = Id -> Targets

  datatype Verdict = NoCycle | CycleFound(path: seq<Id>) | EdgesFailed(id: Id)

  ghost predicate Edge(g: Graph, a: Id, b: Id) {
    g(a).Targets? && b in g(a).ids
  }

  ghost predicate Walk(g: Graph, p: seq<Id>) {
    p != [] && forall i :: 0 <= i < |p| - 1 ==> Edge(g, p[i], p[i + 1])
  }

  ghost predicate WalkFrom(g: Graph, root: Id, p: seq<Id>) {
    Walk(g, p) && p[0] == root
  }

  /** The walk ends in a node it has already been at. */
  ghost predicate ClosesCycle(p: seq<Id>) {
    exists k :: 0 <= k < |p| - 1 && p[k] == p[|p| - 1]
  }

  ghost predicate CycleReachable(g: Graph, root: Id) {
    exists p :: WalkFrom(g, root, p) && ClosesCycle(p)
  }

  ghost predicate FailureReachable(g: Graph, root: Id) {
    exists p :: WalkFrom(g, root, p) && g(p[|p| - 1]).EdgeError?
  }

  /** A finite set of nodes the search cannot leave. */
  ghost predicate Closed(g: Graph, nodes: set<Id>) {
    forall a, b :: a in nodes && Edge(g, a, b) ==> b in nodes
  }

  /** Nodes in the order the search finished them: each after everything it points to. */
  ghost predicate FinishOrder(g: Graph, done: seq<Id>) {
    && (forall i :: 0 <= i < |done| ==> g(done[i]).Targets?)
    && (forall i, b :: 0 <= i < |done| && Edge(g, done[i], b) ==> b in done[..i])
    && (forall i, j :: 0 <= i < j < |done| ==> done[i] != done[j])
  }

  /** A walk from a finished node stays among the finished ones, earlier and earlier. */
  lemma {:induction false} WalkDescends(g: Graph, done: seq<Id>, p: seq<Id>, i: nat, k: nat) returns (j: nat)
    requires FinishOrder(g, done) && Walk(g, p)
    requires i < |done| && done[i] == p[0] && k < |p|
    ensures j <= i && done[j] == p[k] && (k > 0 ==> j < i)
  {
    if k == 0 {
      return i;
    }
    var before := WalkDescends(g, done, p, i, k - 1);
    assert Edge(g, done[before], p[k]);
    j :| 0 <= j < before && done[..before][j] == p[k];
  }

  lemma FinishedIsAcyclic(g: Graph, done: seq<Id>, root: Id)
    requires FinishOrder(g, done) && root in done
    ensures !CycleReachable(g, root) && !FailureReachable(g, root)
  {
    var i: nat :| i < |done| && done[i] == root;
    forall p | WalkFrom(g, root, p)
      ensures !ClosesCycle(p) && g(p[|p| - 1]).Targets?
    {
      var end := WalkDescends(g, done, p, i, |p| - 1);
      forall k | 0 <= k < |p| - 1
        ensures p[k] != p[|p| - 1]
      {
        var at := WalkDescends(g, done, p, i, k);
        var later := WalkDescends(g, done, p[k..], at, |p| - 1 - k);
        assert done[later] == p[|p| - 1];
      }
    }
  }

  /** The state the recursion shares: visited nodes, nodes on the current path. */
  class Search {
    var visited: set<Id>
    var inStack: set<Id>
    ghost var done: seq<Id>

    constructor ()
      ensures visited == {} && inStack == {} && done == []
    {
      visited, inStack, done := {}, {}, [];
    }

    ghost predicate Valid(g: Graph, nodes: set<Id>, path: seq<Id>)
      reads this
    {
      && Closed(g, nodes) && visited <= nodes
      && FinishOrder(g, done)
      && (forall n :: n in inStack <==> n in path)
      && (forall n :: n in visited <==> n in path || n in done)
      && (forall n :: n in path ==> n !in done)
      && (path != [] ==> Walk(g, path))
    }

    method Dfs(g: Graph, id: Id, path: seq<Id>, ghost nodes: set<Id>) returns (v: Verdict)
      requires Valid(g, nodes, path) && id in nodes
      requires path != [] ==> Edge(g, path[|path| - 1], id)
      modifies this
      ensures v.NoCycle? ==> Valid(g, nodes, path) && old(done) <= done && id in done
      ensures v.NoCycle? ==> old(visited) <= visited
      ensures v.CycleFound? ==> Walk(g, v.path) && ClosesCycle(v.path) && path + [id] <= v.path
      ensures v.EdgesFailed? ==> g(v.id).EdgeError? && exists p :: Walk(g, p) && path + [id] <= p && p[|p| - 1] == v.id
      decreases nodes - visited
    {
      ghost var here := path + [id];
      assert here[|here| - 1] == id;
      if id in inStack {
        var k :| 0 <= k < |path| && path[k] == id;
        assert here[k] == here[|here| - 1];
        return CycleFound(path + [id]);
      }
      if id in visited {
        return NoCycle;
      }
      visited := visited + {id};
      inStack := inStack + {id};
      assert Walk(g, here);
      var out := g(id);
      if out.EdgeError? {
        return EdgesFailed(id);
      }
      for i := 0 to |out.ids|
        invariant Valid(g, nodes, here)
        invariant old(done) <= done && old(visited) + {id} <= visited
        invariant forall k :: 0 <= k < i ==> out.ids[k] in done
      {
        assert Edge(g, id, out.ids[i]);
        var r := Dfs(g, out.ids[i], path + [id], nodes);
        if !r.NoCycle? {
          assert here <= here + [out.ids[i]];
          return r;
        }
      }
      inStack := inStack - {id};
      ghost var earlier := done;
      done := done + [id];
      assert forall i :: 0 <= i <= |earlier| ==> done[..i] == earlier[..i];
      assert earlier[..|earlier|] == earlier;
      assert forall n :: n in here <==> n in path || n == id;
      return NoCycle;
    }
  }

  /** Nil exactly when nothing reachable from the root is on a cycle and every reachable node's
      edges could be read; a reported path is a real walk from the root that closes on itself. */
  method DetectCycles(g: Graph, root: Id, ghost nodes: set<Id>) returns (v: Verdict)
    requires root in nodes && Closed(g, nodes)
    ensures v.NoCycle? <==> !CycleReachable(g, root) && !FailureReachable(g, root)
    ensures v.CycleFound? ==> WalkFrom(g, root, v.path) && ClosesCycle(v.path)
    ensures v.EdgesFailed? ==> FailureReachable(g, root) && g(v.id).EdgeError?
  {
    var search := new Search();
    v := search.Dfs(g, root, [], nodes);
    if v.NoCycle? {
      FinishedIsAcyclic(g, search.done, root);
    } else if v.EdgesFailed? {
      ghost var p :| Walk(g, p) && [] + [root] <= p && p[|p| - 1] == v.id;
      assert WalkFrom(g, root, p);
    } else {
      assert WalkFrom(g, root, v.path);
    }
  }
}
