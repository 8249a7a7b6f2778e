/** What `graphlib.TopologicalSorter(graph).static_order()` promises, and one
    algorithm (Kahn's) that keeps that promise. The graph maps a task to the
    tasks it waits for; a node is every key and every task named as a
    predecessor. Which ready node comes next is left open, as graphlib leaves
    it open. */
module Ordering {
  import opened Wrappers

  /** task -> the tasks it waits for. */
  type Graph = map<string, set<string>>

  /** Every key and every predecessor. */
  function Nodes(g: Graph): (r: set<string>)
    ensures g.Keys <= r
    ensures forall n, p :: n in g && p in g[n] ==> p in r
  {
    g.Keys + set n, p | n in g && p in g[n] :: p
  }

  ghost predicate Distinct(s: seq<string>)
  {
    forall i, j :: 0 <= i < j < |s| ==> s[i] != s[j]
  }

  /** The contract of `static_order()`: every node exactly once, and every
      predecessor of a task before that task. */
  ghost predicate IsTopologicalOrder(g: Graph, order: seq<string>)
  {
    && Distinct(order)
    && (forall x :: x in order <==> x in Nodes(g))
    && PredecessorsFirst(g, order)
  }

  /** Whenever one emitted task waits for another, the other comes first. */
  ghost predicate PredecessorsFirst(g: Graph, order: seq<string>)
  {
    forall i, j :: 0 <= i < |order| && 0 <= j < |order| && order[i] in g && order[j] in g[order[i]] ==> j < i
  }

  /** A non-empty set of tasks each of which waits for a task of the set: none
      of them can ever be emitted. */
  ghost predicate Deadlocked(g: Graph, s: set<string>)
  {
    s != {} && s <= Nodes(g) && WaitsWithin(g, s)
  }

  /** Every task of `s` waits for some task of `s`. */
  ghost predicate WaitsWithin(g: Graph, s: set<string>)
  {
    forall n :: n in s ==> n in g && exists p :: p in g[n] && p in s
  }

  /** The graph has a cycle (for a finite graph, having a deadlocked set and
      having a cycle are the same thing). */
  ghost predicate Cyclic(g: Graph)
  {
    exists s :: Deadlocked(g, s)
  }

  /** A task whose predecessors have all been emitted. */
  predicate Ready(g: Graph, remaining: set<string>, n: string)
  {
    n !in g || forall p :: p in g[n] ==> p !in remaining
  }

  /** A graph with a topological order has no cycle. */
  lemma TopologicalOrderAcyclic(g: Graph, order: seq<string>)
    requires IsTopologicalOrder(g, order)
    ensures !Cyclic(g)
  {
    forall s | s <= Nodes(g) && WaitsWithin(g, s) ensures s == {} {
      NoneWaitingWithin(g, order, s, |order|);
      assert forall x :: x in s ==> x in order;
    }
  }

  /** No task of a topological order belongs to a set whose tasks all wait
      within the set: by induction along the order. */
  lemma {:induction false} NoneWaitingWithin(g: Graph, order: seq<string>, s: set<string>, k: nat)
    requires IsTopologicalOrder(g, order) && WaitsWithin(g, s)
    requires k <= |order|
    ensures forall i :: 0 <= i < k ==> order[i] !in s
  {
    if k > 0 {
      NoneWaitingWithin(g, order, s, k - 1);
      var n := order[k - 1];
      if n in g {
        forall p | p in g[n] ensures p !in s {
          var j := PredecessorIndex(g, order, k - 1, p);
        }
      }
      OutsideWaiting(g, s, n);
      forall i | 0 <= i < k ensures order[i] !in s {
        if i == k - 1 {
          assert order[i] == n;
        }
      }
    }
  }

  /** A task none of whose predecessors is in `s` is not in `s`. */
  lemma OutsideWaiting(g: Graph, s: set<string>, n: string)
    requires WaitsWithin(g, s)
    requires n in g ==> forall p :: p in g[n] ==> p !in s
    ensures n !in s
  {
  }

  /** In a topological order, a predecessor of a task sits before the task. */
  lemma PredecessorIndex(g: Graph, order: seq<string>, i: nat, p: string) returns (j: nat)
    requires IsTopologicalOrder(g, order)
    requires i < |order| && order[i] in g && p in g[order[i]]
    ensures j < i && order[j] == p
  {
    assert p in Nodes(g);
    j :| 0 <= j < |order| && order[j] == p;
  }

  /** What Kahn's algorithm keeps true: `order` holds the emitted nodes, once
      each, predecessors first; `remaining` the others; no emitted node waits
      for a remaining one. */
  ghost predicate KahnState(g: Graph, order: seq<string>, remaining: set<string>)
  {
    && remaining <= Nodes(g)
    && (forall x :: x in order <==> x in Nodes(g) && x !in remaining)
    && Distinct(order)
    && PredecessorsFirst(g, order)
    && (forall i, p :: 0 <= i < |order| && order[i] in g && p in g[order[i]] ==> p !in remaining)
  }

  /** Emitting a ready node keeps the state. */
  lemma EmitReady(g: Graph, order: seq<string>, remaining: set<string>, n: string)
    requires KahnState(g, order, remaining)
    requires n in remaining && Ready(g, remaining, n)
    ensures KahnState(g, order + [n], remaining - {n})
  {
    var next := order + [n];
    forall i, j | 0 <= i < |next| && 0 <= j < |next| && next[i] in g && next[j] in g[next[i]]
      ensures j < i
    {
      if i == |order| {
        assert next[j] !in remaining;
      } else {
        assert next[j] !in remaining;
        assert j < |order|;
      }
    }
  }

  /** When no remaining node is ready, the remaining nodes are deadlocked. */
  lemma StuckIsCyclic(g: Graph, order: seq<string>, remaining: set<string>)
    requires KahnState(g, order, remaining) && remaining != {}
    requires forall n :: n in remaining ==> !Ready(g, remaining, n)
    ensures Cyclic(g)
  {
    assert Deadlocked(g, remaining);
  }

  /** `static_order()`: Kahn's algorithm, emitting any ready node; when no node
      is ready the remaining ones are deadlocked and graphlib raises CycleError. */
  method TopologicalOrder(g: Graph) returns (r: Result<seq<string>>)
    ensures r.Ok? ==> IsTopologicalOrder(g, r.value)
    ensures r.Err? ==> r.error == CycleError && Cyclic(g)
    ensures r.Ok? <==> !Cyclic(g)
  {
    var remaining := Nodes(g);
    var order: seq<string> := [];
    while remaining != {}
      invariant KahnState(g, order, remaining)
      invariant remaining == {} ==> IsTopologicalOrder(g, order)
      decreases |remaining|
    {
      if n :| n in remaining && Ready(g, remaining, n) {
        EmitReady(g, order, remaining, n);
        order := order + [n];
        remaining := remaining - {n};
      } else {
        StuckIsCyclic(g, order, remaining);
        return Err(CycleError);
      }
    }
    TopologicalOrderAcyclic(g, order);
    return Ok(order);
  }
}
