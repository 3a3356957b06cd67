/**
 The desktop's own depth search, written apart from the diagram script's: unknown dependencies
 are filtered out, and a node met again on the walk counts zero.
*/
module DesktopDepth {
  import opened Graphs
  import opened Depths

  type Table = map<Id, seq<Id>>

  /** The dependencies that name a node. */
  function Filtered(byid: Table, deps: seq<Id>): (known: seq<Id>)
    ensures forall a :: a in known <==> a in deps && a in byid
  {
    if deps == [] then []
    else if deps[0] in byid then [deps[0]] + Filtered(byid, deps[1..])
    else Filtered(byid, deps[1..])
  }

  function Resolved(byid: Table): Table { map x | x in byid :: Filtered(byid, byid[x]) }

  /** A value the search may give `x`: a walk of that length exists, and on an acyclic graph none is longer. */
  ghost predicate Answers(g: Graph, x: Id, v: nat) {
    Attains(g, x, v) && (Acyclic(g) ==> IsDepth(g, x, v))
  }

  ghost predicate Memo(byid: Table, memo: map<Id, nat>) {
    forall x :: x in memo ==> x in byid && Answers(After(Resolved(byid)), x, memo[x])
  }

  ghost predicate Grows(before: map<Id, nat>, memo: map<Id, nat>) {
    forall x :: x in before ==> x in memo && memo[x] == before[x]
  }

  ghost predicate Reached(g: Graph, x: Id, guard: set<Id>) {
    forall s {:trigger Above(g, s, x)} :: s in guard ==> Above(g, s, x)
  }

  lemma GuardHit(g: Graph, x: Id, guard: set<Id>)
    requires Reached(g, x, guard) && x in guard
    ensures Answers(g, x, 0)
  {
    assert Above(g, x, x);
    AttainsHere(g, x);
  }

  lemma ReachesDependency(g: Graph, x: Id, guard: set<Id>, a: Id)
    requires Reached(g, x, guard) && (x, a) in g
    ensures Reached(g, a, guard + {x})
  {
    assert Between(g, [x, a], x, a);
    forall s | s in guard ensures Above(g, s, a) {
      assert Above(g, s, x);
      var p :| Between(g, p, s, x) && |p| > 1;
      Joined(g, p, [x, a]);
    }
  }

  /** `of` gives each of these dependencies its value. */
  ghost predicate AllAnswer(g: Graph, deps: seq<Id>, of: seq<nat>) {
    |of| == |deps| && forall k :: 0 <= k < |deps| ==> Answers(g, deps[k], of[k])
  }

  lemma OneMoreAnswer(g: Graph, deps: seq<Id>, of: seq<nat>, a: Id, v: nat)
    requires AllAnswer(g, deps, of) && Answers(g, a, v)
    ensures AllAnswer(g, deps + [a], of + [v])
  {
  }

  function Max(of: seq<nat>): (m: nat)
    requires of != []
    ensures (forall k :: 0 <= k < |of| ==> of[k] <= m) && exists k :: 0 <= k < |of| && of[k] == m
  {
    var last := |of| - 1;
    if last == 0 then of[0]
    else
      var rest := Max(of[..last]);
      assert exists k :: 0 <= k < last && of[..last][k] == rest;
      assert forall k :: 0 <= k < last ==> of[..last][k] == of[k];
      if rest < of[last] then of[last] else rest
  }

  /** `v` is one above the highest of these values; 0 without any. */
  ghost predicate IsHighest(of: seq<nat>, v: nat) {
    && (forall k :: 0 <= k < |of| ==> of[k] < v)
    && (v == 0 || exists k :: 0 <= k < |of| && of[k] == v - 1)
  }

  lemma HighestAnswers(g: Graph, x: Id, deps: seq<Id>, of: seq<nat>, v: nat)
    requires AllAnswer(g, deps, of) && IsHighest(of, v) && forall a :: a in deps <==> (x, a) in g
    ensures Answers(g, x, v)
  {
    if v == 0 {
      AttainsHere(g, x);
    } else {
      var k :| 0 <= k < |deps| && of[k] == v - 1;
      AttainsMore(g, x, deps[k], v - 1);
    }
    if Acyclic(g) {
      forall p | From(g, p, x) ensures |p| <= v + 1 {
        if |p| > 1 {
          Tail(g, p);
          var k :| 0 <= k < |deps| && deps[k] == p[1];
        }
      }
    }
  }

  lemma DependenciesAre(byid: Table, x: Id)
    requires x in byid
    ensures forall a :: a in Filtered(byid, byid[x]) <==> (x, a) in After(Resolved(byid))
  {
  }

  lemma Onward(byid: Table, x: Id, guard: set<Id>, a: Id)
    requires x in byid && x in guard && Reached(After(Resolved(byid)), x, guard - {x}) && a in Filtered(byid, byid[x])
    ensures a in byid && Reached(After(Resolved(byid)), a, guard)
  {
    DependenciesAre(byid, x);
    ReachesDependency(After(Resolved(byid)), x, guard - {x}, a);
    assert guard - {x} + {x} == guard;
  }

  class Search {
    const byid: Table
    var memo: map<Id, nat>
    var guard: set<Id>

    constructor (nodes: seq<Link>)
      ensures byid == ById(nodes) && memo == map[] && guard == {}
    {
      byid := ById(nodes);
      memo := map[];
      guard := {};
    }

    method Depth(x: Id) returns (v: nat)
      requires x in byid && Memo(byid, memo) && Reached(After(Resolved(byid)), x, guard)
      modifies this`memo, this`guard
      ensures guard == old(guard) && Memo(byid, memo) && Grows(old(memo), memo)
      ensures Answers(After(Resolved(byid)), x, v)
      ensures x in memo || x in guard
      decreases byid.Keys - guard, 0
    {
      if x in memo { return memo[x]; }
      if x in guard {
        GuardHit(After(Resolved(byid)), x, guard);
        return 0;
      }
      ghost var left := byid.Keys - (guard + {x});
      assert x in byid.Keys - guard && x !in left && left < byid.Keys - guard;
      guard := guard + {x};
      v := Highest(x);
      guard := guard - {x};
      memo := memo[x := v];
    }

    /** The search's answers for the known dependencies, in order. */
    method Answered(x: Id) returns (of: seq<nat>)
      requires x in byid && x in guard && Memo(byid, memo) && Reached(After(Resolved(byid)), x, guard - {x})
      modifies this`memo, this`guard
      ensures guard == old(guard) && Memo(byid, memo) && Grows(old(memo), memo)
      ensures AllAnswer(After(Resolved(byid)), Filtered(byid, byid[x]), of)
      decreases byid.Keys - guard, 1
    {
      var deps := Filtered(byid, byid[x]);
      of := [];
      for i := 0 to |deps|
        invariant guard == old(guard) && Memo(byid, memo) && Grows(old(memo), memo)
        invariant AllAnswer(After(Resolved(byid)), deps[..i], of)
      {
        Onward(byid, x, guard, deps[i]);
        var one := Depth(deps[i]);
        OneMoreAnswer(After(Resolved(byid)), deps[..i], of, deps[i], one);
        assert deps[..i + 1] == deps[..i] + [deps[i]];
        of := of + [one];
      }
      assert deps[..|deps|] == deps;
    }

    /** The maximum over the known dependencies, plus one. */
    method Highest(x: Id) returns (v: nat)
      requires x in byid && x in guard && Memo(byid, memo) && Reached(After(Resolved(byid)), x, guard - {x})
      modifies this`memo, this`guard
      ensures guard == old(guard) && Memo(byid, memo) && Grows(old(memo), memo)
      ensures Answers(After(Resolved(byid)), x, v)
      decreases byid.Keys - guard, 2
    {
      var of := Answered(x);
      v := if of == [] then 0 else Max(of) + 1;
      DependenciesAre(byid, x);
      HighestAnswers(After(Resolved(byid)), x, Filtered(byid, byid[x]), of, v);
    }

    /** Every node, each from an empty guard. */
    method DepthMap(nodes: seq<Link>) returns (depths: map<Id, nat>)
      requires memo == map[] && guard == {} && forall k :: 0 <= k < |nodes| ==> nodes[k].id in byid
      modifies this`memo, this`guard
      ensures forall x :: x in depths ==> Answers(After(Resolved(byid)), x, depths[x])
      ensures forall x :: x in depths <==> exists k :: 0 <= k < |nodes| && nodes[k].id == x
    {
      depths := map[];
      for i := 0 to |nodes|
        invariant guard == {} && Memo(byid, memo)
        invariant forall x :: x in depths ==> Answers(After(Resolved(byid)), x, depths[x])
        invariant forall x :: x in depths <==> exists k :: 0 <= k < i && nodes[k].id == x
      {
        var v := Depth(nodes[i].id);
        depths := depths[nodes[i].id := v];
      }
    }
  }

  lemma KnownResolves(byid: Table)
    requires Known(byid)
    ensures After(Resolved(byid)) == After(byid)
  {
  }
}
