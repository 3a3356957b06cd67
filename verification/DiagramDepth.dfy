/** The diagram script's depth search: a shared memo, and the walk's own nodes to catch a cycle. */
module DiagramDepth {
  import opened Graphs
  import opened Depths

  datatype Outcome = Depth(v: nat) | Cycle(at: Id) | Unknown(id: Id)

  type Table = map<Id, seq<Id>>

  /** Memoised depths are right, and a memoised node's dependencies are memoised. */
  ghost predicate Memo(byid: Table, depth: map<Id, nat>) {
    forall x :: x in depth ==> x in byid && IsDepth(After(byid), x, depth[x]) && forall a :: a in byid[x] ==> a in depth
  }

  ghost predicate Grows(before: map<Id, nat>, depth: map<Id, nat>) {
    forall x :: x in before ==> x in depth && depth[x] == before[x]
  }

  /** What a raise says of the graph. */
  ghost predicate Justified(byid: Table, r: Outcome) {
    match r
    case Depth(_) => true
    case Cycle(_) => !Acyclic(After(byid))
    case Unknown(x) => !Known(byid)
  }

  /** The search stands at `x`, above every node of the walk so far. */
  ghost predicate Reached(byid: Table, x: Id, seen: set<Id>) {
    && (x in byid || !Known(byid))
    && forall s {:trigger Above(After(byid), s, x)} :: s in seen ==> Above(After(byid), s, x)
  }

  lemma ReachedAgain(byid: Table, x: Id, seen: set<Id>)
    requires Reached(byid, x, seen) && x in seen
    ensures !Acyclic(After(byid))
  {
    assert Above(After(byid), x, x);
  }

  lemma ReachesDependency(byid: Table, x: Id, seen: set<Id>, a: Id)
    requires x in byid && Reached(byid, x, seen) && a in byid[x]
    ensures Reached(byid, a, seen + {x})
  {
    var g := After(byid);
    assert Between(g, [x, a], x, a);
    forall s | s in seen ensures Above(g, s, a) {
      assert Above(g, s, x);
      var p :| Between(g, p, s, x) && |p| > 1;
      Joined(g, p, [x, a]);
    }
  }

  /** `v` is one above the highest of these dependencies' depths; 0 without any. */
  ghost predicate IsHighest(deps: seq<Id>, depth: map<Id, nat>, v: nat) {
    && (forall a :: a in deps ==> a in depth && depth[a] < v)
    && (v == 0 || exists a :: a in deps && a in depth && depth[a] == v - 1)
  }

  lemma Higher(deps: seq<Id>, before: map<Id, nat>, depth: map<Id, nat>, v: nat, a: Id)
    requires IsHighest(deps, before, v) && Grows(before, depth) && a in depth
    ensures IsHighest(deps + [a], depth, if depth[a] >= v then depth[a] + 1 else v)
  {
    if v > 0 {
      var b :| b in deps && b in before && before[b] == v - 1;
      assert b in deps + [a];
    }
    assert a in deps + [a];
  }

  lemma Memoised(byid: Table, depth: map<Id, nat>, x: Id, v: nat)
    requires Memo(byid, depth) && x in byid && IsHighest(byid[x], depth, v)
    ensures Memo(byid, depth[x := v])
  {
    DepthFromDependencies(After(byid), x, v, depth);
    if x in depth { DepthIsUnique(After(byid), x, v, depth[x]); }
  }

  class Search {
    const byid: Table
    var depth: map<Id, nat>

    constructor (nodes: seq<Link>)
      ensures byid == ById(nodes) && depth == map[]
    {
      byid := ById(nodes);
      depth := map[];
    }

    method D(x: Id, seen: set<Id>) returns (r: Outcome)
      requires Memo(byid, depth) && Reached(byid, x, seen)
      modifies this`depth
      ensures Memo(byid, depth) && Grows(old(depth), depth) && Justified(byid, r)
      ensures r.Depth? ==> x in depth && depth[x] == r.v
      decreases byid.Keys - seen, 0
    {
      if x in depth { return Depth(depth[x]); }
      if x in seen {
        ReachedAgain(byid, x, seen);
        return Cycle(x);
      }
      if x !in byid { return Unknown(x); }
      r := Highest(x, seen);
      if r.Depth? {
        Memoised(byid, depth, x, r.v);
        depth := depth[x := r.v];
      }
    }

    /** Zero without dependencies, else one more than the highest of them. */
    method Highest(x: Id, seen: set<Id>) returns (r: Outcome)
      requires Memo(byid, depth) && Reached(byid, x, seen) && x in byid && x !in seen
      modifies this`depth
      ensures Memo(byid, depth) && Grows(old(depth), depth) && Justified(byid, r)
      ensures r.Depth? ==> IsHighest(byid[x], depth, r.v)
      decreases byid.Keys - seen, 0, 0
    {
      var deps := byid[x];
      ghost var left := byid.Keys - (seen + {x});
      assert x in byid.Keys - seen && x !in left && left < byid.Keys - seen;
      var v: nat := 0;
      for i := 0 to |deps|
        invariant Memo(byid, depth) && Grows(old(depth), depth) && IsHighest(deps[..i], depth, v)
      {
        ghost var before := depth;
        assert deps[..i + 1] == deps[..i] + [deps[i]];
        ReachesDependency(byid, x, seen, deps[i]);
        var one := D(deps[i], seen + {x});
        if !one.Depth? { return one; }
        Higher(deps[..i], before, depth, v, deps[i]);
        if one.v >= v { v := one.v + 1; }
      }
      assert deps[..|deps|] == deps;
      return Depth(v);
    }
  
    /** Every node in turn, until one raises. */
    method DepthMap(nodes: seq<Link>) returns (r: Outcome)
      requires depth == map[] && forall k :: 0 <= k < |nodes| ==> nodes[k].id in byid
      modifies this`depth
      ensures Memo(byid, depth) && Justified(byid, r)
      ensures r.Depth? ==> forall k :: 0 <= k < |nodes| ==> nodes[k].id in depth
    {
      for i := 0 to |nodes|
        invariant Memo(byid, depth) && forall k :: 0 <= k < i ==> nodes[k].id in depth
      {
        Unseen(byid, nodes[i].id);
        r := D(nodes[i].id, {});
        if !r.Depth? { return r; }
      }
      return Depth(0);
    }
  }

  lemma Unseen(byid: Table, x: Id)
    requires x in byid
    ensures Reached(byid, x, {})
  {
  }

  /** No raise means known dependencies and no cycle; a raise means one or the other. */
  lemma {:induction false} RaisesExactlyWhen(nodes: seq<Link>, depth: map<Id, nat>, r: Outcome)
    requires Memo(ById(nodes), depth) && Justified(ById(nodes), r)
    requires r.Depth? ==> forall k :: 0 <= k < |nodes| ==> nodes[k].id in depth
    ensures var byid := ById(nodes);
            && (r.Depth? <==> Known(byid) && Acyclic(After(byid)))
            && (Known(byid) ==> (r.Cycle? <==> !Acyclic(After(byid))))
  {
    var byid := ById(nodes);
    if r.Depth? {
      assert forall x :: x in byid ==> x in depth;
      DepthsMeanAcyclic(byid, depth);
    }
  }
}
